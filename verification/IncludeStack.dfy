/**
Nested include directives: the recursive meaning of a file that includes others,
and the scanner that gets the same tokens with explicit stacks of buffers, file
names, locations and open files.
*/
module IncludeStack {
  import opened Common

  type Text = string

  type Files = map<string, Text>

  /** Flex start conditions. */
  datatype Cond = INITIAL | COMMENT | DIR_ENTER | DIR_INCLUDE | DIR_EXIT

  /** The end of what has been matched, as error messages give it. */
  datatype Loc = Loc(line: nat, column: nat)
  {
    function Columns(n: nat): Loc { Loc(line, column + n) }

    function Lines(n: nat): Loc { if n == 0 then this else Loc(line + n, 1) }
  }

  const START := Loc(1, 1)

  /** A token with the file and the place in it that error messages will name. */
  datatype Token = Token(file: string, at: Loc, lexeme: string)

  datatype Error =
    | DirectiveNotClosed | CommentNotClosed | TooManyNested | CannotOpen(name: string)
    | Invalid(file: string, at: Loc)

  datatype Outcome = Outcome(tokens: seq<Token>, error: Option<Error>)

  /** A file being scanned, from a position on and in a start condition. */
  datatype Frame = Frame(file: string, text: Text, pos: nat, loc: Loc, cond: Cond)

  const MAX_SAVED: nat := 10

  // ----- one match -----

  datatype Act = Skip | NewLine | Become(cond: Cond) | Emit | Divert(name: string) | Reject

  datatype Match = Match(length: nat, act: Act)

  /** What the patterns match in a start condition at a position of a text. */
  datatype Rules = Rules(at: (Cond, Text, nat) -> Match)

  function MatchAt(rules: Rules, cond: Cond, text: Text, pos: nat): (m: Match)
    requires pos < |text|
    ensures 1 <= m.length <= |text| - pos
  {
    var m := rules.at(cond, text, pos);
    if 1 <= m.length <= |text| - pos then m else Match(1, Reject)
  }

  predicate Blank(ch: char) { ch == ' ' || ch == '\t' || ch == '\r' }

  predicate Newline(ch: char) { ch == '\n' }

  predicate InLine(ch: char) { ch != '\n' }

  predicate InName(ch: char) { ch != '"' && ch != '\n' }

  /** How many characters from a position on have a property. */
  function Span(text: Text, pos: nat, p: char -> bool): (n: nat)
    requires pos <= |text|
    ensures pos + n <= |text| && forall i :: pos <= i < pos + n ==> p(text[i])
    decreases |text| - pos
  {
    if pos == |text| || !p(text[pos]) then 0 else 1 + Span(text, pos + 1, p)
  }

  predicate At(text: Text, pos: nat, word: string) {
    pos + |word| <= |text| && text[pos..pos + |word|] == word
  }

  /** The longest match of the token patterns at the front of a text, none of length 0; it may be one of
      the patterns that are there to report a bad token. */
  datatype Word = Word(length: nat, good: bool)

  /** Tokens hold no newlines. */
  ghost predicate InOneLine(word: string -> Word) {
    forall s :: word(s).good && word(s).length <= |s| ==> '\n' !in s[..word(s).length]
  }

  /** The patterns of the D2 configuration, with a start condition each: blanks and newlines are matched
      everywhere, and where no pattern of the condition fits there is an error.  What the patterns of
      the tokens proper match is a parameter: they start with characters that no other pattern here
      starts with. */
  function D2Match(word: string -> Word, cond: Cond, text: Text, pos: nat): (m: Match)
    requires pos < |text|
    ensures 1 <= m.length <= |text| - pos
  {
    var line := Span(text, pos, InLine);
    if Blank(text[pos]) then Match(Span(text, pos, Blank), Skip)
    else if text[pos] == '\n' then Match(Span(text, pos, Newline), NewLine)
    else
      match cond
      case INITIAL =>
        if text[pos] == '#' || At(text, pos, "//") then Match(line, Skip)
        else if At(text, pos, "/*") then Match(2, Become(COMMENT))
        else if At(text, pos, "<?") then Match(2, Become(DIR_ENTER))
        else
          var w := word(text[pos..]);
          if 1 <= w.length <= |text| - pos then Match(w.length, if w.good then Emit else Reject) else Match(1, Reject)
      case COMMENT => if At(text, pos, "*/") then Match(2, Become(INITIAL)) else Match(1, Skip)
      case DIR_ENTER => if At(text, pos, "include") then Match(7, Become(DIR_INCLUDE)) else Match(1, Reject)
      case DIR_INCLUDE =>
        var n := Span(text, pos + 1, InName);
        if text[pos] == '"' && n > 0 && At(text, pos + 1 + n, "\"")
        then Match(n + 2, Divert(text[pos + 1..pos + 1 + n])) else Match(1, Reject)
      case DIR_EXIT => if At(text, pos, "?>") then Match(2, Become(INITIAL)) else Match(1, Reject)
  }

  function D2Rules(word: string -> Word): Rules {
    Rules((cond, text, pos: nat) => if pos < |text| then D2Match(word, cond, text, pos) else Match(1, Reject))
  }

  /** A frame after a match. */
  function Past(fr: Frame, m: Match): Frame {
    var loc := fr.loc.Columns(m.length);
    Frame(fr.file, fr.text, fr.pos + m.length, if m.act == NewLine then loc.Lines(m.length) else loc,
          if m.act.Become? then m.act.cond else fr.cond)
  }

  function Lexeme(fr: Frame, m: Match): Token
    requires fr.pos + m.length <= |fr.text|
  {
    Token(fr.file, Past(fr, m).loc, fr.text[fr.pos..fr.pos + m.length])
  }

  // ----- the meaning -----

  function Then(a: Outcome, b: Outcome): Outcome {
    if a.error.Some? then a else Outcome(a.tokens + b.tokens, b.error)
  }

  function Fail(e: Error): Outcome { Outcome([], Some(e)) }

  /** The end of a file is an error inside a comment or a directive. */
  function AtEnd(cond: Cond): Option<Error> {
    if cond == INITIAL then None else if cond == COMMENT then Some(CommentNotClosed) else Some(DirectiveNotClosed)
  }

  function Opened(fs: Files, name: string): Frame
    requires name in fs
  {
    Frame(name, fs[name], 0, START, INITIAL)
  }

  /** The tokens of a frame, includes expanded in place; depth counts the files around it. */
  function Expand(rules: Rules, fs: Files, fr: Frame, depth: nat): Outcome
    decreases if depth <= MAX_SAVED then MAX_SAVED + 1 - depth else 0, |fr.text| - fr.pos
  {
    if fr.pos >= |fr.text| then Outcome([], AtEnd(fr.cond))
    else
      var m := MatchAt(rules, fr.cond, fr.text, fr.pos);
      match m.act
      case Reject => Fail(Invalid(fr.file, Past(fr, m).loc))
      case Emit => Then(Outcome([Lexeme(fr, m)], None), Expand(rules, fs, Past(fr, m), depth))
      case Skip => Expand(rules, fs, Past(fr, m), depth)
      case NewLine => Expand(rules, fs, Past(fr, m), depth)
      case Become(_) => Expand(rules, fs, Past(fr, m), depth)
      case Divert(name) =>
        if depth > MAX_SAVED then Fail(TooManyNested)
        else if name !in fs then Fail(CannotOpen(name))
        else Then(Expand(rules, fs, Opened(fs, name), depth + 1),
                  Expand(rules, fs, Past(fr, m).(cond := DIR_EXIT), depth))
  }

  lemma ExpandGoes(rules: Rules, fs: Files, fr: Frame, depth: nat, m: Match)
    requires fr.pos < |fr.text| && m == MatchAt(rules, fr.cond, fr.text, fr.pos)
    requires m.act.Skip? || m.act.NewLine? || m.act.Become?
    ensures Expand(rules, fs, fr, depth) == Expand(rules, fs, Past(fr, m), depth)
  {
  }

  lemma ExpandDiverts(rules: Rules, fs: Files, fr: Frame, depth: nat, m: Match, whole: Outcome, behind: Outcome)
    requires fr.pos < |fr.text| && m == MatchAt(rules, fr.cond, fr.text, fr.pos) && m.act.Divert?
    requires m.act.name in fs && depth <= MAX_SAVED ==> whole == Expand(rules, fs, Opened(fs, m.act.name), depth + 1)
    requires behind == Expand(rules, fs, Past(fr, m).(cond := DIR_EXIT), depth)
    ensures Expand(rules, fs, fr, depth) ==
      if depth > MAX_SAVED then Fail(TooManyNested)
      else if m.act.name !in fs then Fail(CannotOpen(m.act.name))
      else Then(whole, behind)
  {
  }

  /** How many matches and file ends scanning a frame comes to. */
  function Work(rules: Rules, fs: Files, fr: Frame, depth: nat): nat
    decreases if depth <= MAX_SAVED then MAX_SAVED + 1 - depth else 0, |fr.text| - fr.pos
  {
    if fr.pos >= |fr.text| then 1
    else
      var m := MatchAt(rules, fr.cond, fr.text, fr.pos);
      if m.act.Reject? then 1
      else if m.act.Divert? then
        if depth > MAX_SAVED || m.act.name !in fs then 1
        else 1 + Work(rules, fs, Opened(fs, m.act.name), depth + 1)
               + Work(rules, fs, Past(fr, m).(cond := DIR_EXIT), depth)
      else 1 + Work(rules, fs, Past(fr, m), depth)
  }

  // ----- the rest of the work when some files are suspended -----

  function Rest(rules: Rules, fs: Files, fr: Frame, suspended: seq<Frame>): Outcome
    decreases |suspended|
  {
    var n := |suspended|;
    if n == 0 then Expand(rules, fs, fr, 0)
    else Then(Expand(rules, fs, fr, n), Rest(rules, fs, suspended[n - 1], suspended[..n - 1]))
  }

  function RestWork(rules: Rules, fs: Files, fr: Frame, suspended: seq<Frame>): nat
    decreases |suspended|
  {
    var n := |suspended|;
    if n == 0 then Work(rules, fs, fr, 0)
    else Work(rules, fs, fr, n) + RestWork(rules, fs, suspended[n - 1], suspended[..n - 1])
  }

  lemma ThenAssociates(a: Outcome, b: Outcome, c: Outcome)
    ensures Then(Then(a, b), c) == Then(a, Then(b, c))
  {
    if a.error.None? && b.error.None? {
      assert a.tokens + b.tokens + c.tokens == a.tokens + (b.tokens + c.tokens);
    }
  }

  lemma NothingFirst(r: Outcome)
    ensures Then(Outcome([], None), r) == r
  {
    assert [] + r.tokens == r.tokens;
  }

  /** A match that is not an include. */
  lemma RestStep(rules: Rules, fs: Files, fr: Frame, suspended: seq<Frame>)
    requires fr.pos < |fr.text| && !MatchAt(rules, fr.cond, fr.text, fr.pos).act.Divert?
    ensures var m := MatchAt(rules, fr.cond, fr.text, fr.pos);
      if m.act.Reject? then Rest(rules, fs, fr, suspended) == Fail(Invalid(fr.file, Past(fr, m).loc))
      else
        && Rest(rules, fs, fr, suspended)
           == Then(Outcome(if m.act.Emit? then [Lexeme(fr, m)] else [], None), Rest(rules, fs, Past(fr, m), suspended))
        && RestWork(rules, fs, fr, suspended) == 1 + RestWork(rules, fs, Past(fr, m), suspended)
  {
    var m := MatchAt(rules, fr.cond, fr.text, fr.pos);
    var n := |suspended|;
    NothingFirst(Rest(rules, fs, Past(fr, m), suspended));
    if n > 0 && m.act.Emit? {
      ThenAssociates(Outcome([Lexeme(fr, m)], None), Expand(rules, fs, Past(fr, m), n),
                     Rest(rules, fs, suspended[n - 1], suspended[..n - 1]));
    }
  }

  /** An include suspends the current file behind the name. */
  lemma RestDivert(rules: Rules, fs: Files, fr: Frame, suspended: seq<Frame>, name: string)
    requires fr.pos < |fr.text| && MatchAt(rules, fr.cond, fr.text, fr.pos).act == Divert(name)
    ensures |suspended| > MAX_SAVED ==> Rest(rules, fs, fr, suspended) == Fail(TooManyNested)
    ensures |suspended| <= MAX_SAVED && name !in fs ==> Rest(rules, fs, fr, suspended) == Fail(CannotOpen(name))
    ensures |suspended| <= MAX_SAVED && name in fs ==>
      var m := MatchAt(rules, fr.cond, fr.text, fr.pos);
      var deeper := suspended + [Past(fr, m).(cond := DIR_EXIT)];
      && Rest(rules, fs, fr, suspended) == Rest(rules, fs, Opened(fs, name), deeper)
      && RestWork(rules, fs, fr, suspended) == 1 + RestWork(rules, fs, Opened(fs, name), deeper)
  {
    var n := |suspended|;
    if n <= MAX_SAVED && name in fs {
      var back := Past(fr, MatchAt(rules, fr.cond, fr.text, fr.pos)).(cond := DIR_EXIT);
      var deeper := suspended + [back];
      assert deeper[n] == back && deeper[..n] == suspended;
      if n > 0 {
        ThenAssociates(Expand(rules, fs, Opened(fs, name), n + 1), Expand(rules, fs, back, n),
                       Rest(rules, fs, suspended[n - 1], suspended[..n - 1]));
      }
    }
  }

  /** The end of a file resumes the file that included it. */
  lemma RestEnd(rules: Rules, fs: Files, fr: Frame, suspended: seq<Frame>)
    requires fr.pos >= |fr.text|
    ensures fr.cond != INITIAL || suspended == [] ==> Rest(rules, fs, fr, suspended) == Outcome([], AtEnd(fr.cond))
    ensures fr.cond == INITIAL && suspended != [] ==>
      var n := |suspended| - 1;
      && Rest(rules, fs, fr, suspended) == Rest(rules, fs, suspended[n], suspended[..n])
      && RestWork(rules, fs, fr, suspended) == 1 + RestWork(rules, fs, suspended[n], suspended[..n])
  {
    if fr.cond == INITIAL && suspended != [] {
      var n := |suspended| - 1;
      NothingFirst(Rest(rules, fs, suspended[n], suspended[..n]));
    }
  }

  // ----- files that include each other for ever -----

  /** A frame up to its first include directive: the tokens before it, and the file it names. */
  datatype Lead = Lead(tokens: seq<Token>, name: Option<string>)

  function LeadOf(rules: Rules, fr: Frame): Lead
    decreases |fr.text| - fr.pos
  {
    if fr.pos >= |fr.text| then Lead([], None)
    else
      var m := MatchAt(rules, fr.cond, fr.text, fr.pos);
      if m.act.Reject? then Lead([], None)
      else if m.act.Divert? then Lead([], Some(m.act.name))
      else
        var rest := LeadOf(rules, Past(fr, m));
        Lead((if m.act.Emit? then [Lexeme(fr, m)] else []) + rest.tokens, rest.name)
  }

  /** Up to its first include a frame is its own tokens; with no includes left that is all. */
  lemma {:induction false} ExpandLead(rules: Rules, fs: Files, fr: Frame, depth: nat, deeper: Outcome)
    requires var lead := LeadOf(rules, fr);
      && lead.name.Some? && deeper.error.Some?
      && (if depth > MAX_SAVED then deeper == Fail(TooManyNested)
          else lead.name.value in fs && deeper == Expand(rules, fs, Opened(fs, lead.name.value), depth + 1))
    ensures Expand(rules, fs, fr, depth) == Then(Outcome(LeadOf(rules, fr).tokens, None), deeper)
    decreases |fr.text| - fr.pos
  {
    var m := MatchAt(rules, fr.cond, fr.text, fr.pos);
    if m.act.Divert? {
      NothingFirst(deeper);
    } else {
      ExpandLead(rules, fs, Past(fr, m), depth, deeper);
      var rest := LeadOf(rules, Past(fr, m)).tokens;
      if m.act.Emit? {
        ThenAssociates(Outcome([Lexeme(fr, m)], None), Outcome(rest, None), deeper);
      } else {
        assert [] + rest == rest;
      }
    }
  }

  /** A set of files each of which includes one of them before it includes anything else. */
  ghost predicate Endless(rules: Rules, fs: Files, names: set<string>) {
    forall name :: name in names ==>
      name in fs && LeadOf(rules, Opened(fs, name)).name.Some? && LeadOf(rules, Opened(fs, name)).name.value in names
  }

  /** The tokens before the includes, along a chain of so many files. */
  ghost function Along(rules: Rules, fs: Files, names: set<string>, name: string, n: nat): seq<Token>
    requires Endless(rules, fs, names) && name in names
    decreases n
  {
    if n == 0 then []
    else
      var lead := LeadOf(rules, Opened(fs, name));
      lead.tokens + Along(rules, fs, names, lead.name.value, n - 1)
  }

  /** The outcome of a chain of so many files that the last include is one too many. */
  ghost function Broken(rules: Rules, fs: Files, names: set<string>, name: string, n: nat): Outcome
    requires Endless(rules, fs, names) && name in names
  {
    Outcome(Along(rules, fs, names, name, n), Some(TooManyNested))
  }

  lemma BrokenOn(rules: Rules, fs: Files, names: set<string>, name: string, n: nat)
    requires Endless(rules, fs, names) && name in names
    ensures var lead := LeadOf(rules, Opened(fs, name));
      Then(Outcome(lead.tokens, None), Broken(rules, fs, names, lead.name.value, n))
      == Broken(rules, fs, names, name, n + 1)
  {
  }

  /** A file that includes itself, and any cycle of files: scanning goes through the outermost file and
      the eleven includes that are allowed, and then fails. */
  lemma {:induction false} EndlessInclusionStops(rules: Rules, fs: Files, names: set<string>, name: string, depth: nat)
    requires Endless(rules, fs, names) && name in names && depth <= 11
    ensures Expand(rules, fs, Opened(fs, name), depth) == Broken(rules, fs, names, name, 12 - depth)
    decreases MAX_SAVED + 1 - depth
  {
    var next := LeadOf(rules, Opened(fs, name)).name.value;
    BrokenOn(rules, fs, names, name, MAX_SAVED + 1 - depth);
    if depth <= MAX_SAVED {
      EndlessInclusionStops(rules, fs, names, next, depth + 1);
    }
    ExpandLead(rules, fs, Opened(fs, name), depth, Broken(rules, fs, names, next, MAX_SAVED + 1 - depth));
  }

  /** The files that a frame includes itself, as far as it can be scanned. */
  function Own(rules: Rules, fr: Frame): set<string>
    decreases |fr.text| - fr.pos
  {
    if fr.pos >= |fr.text| then {}
    else
      var m := MatchAt(rules, fr.cond, fr.text, fr.pos);
      if m.act.Reject? then {}
      else if m.act.Divert? then {m.act.name} + Own(rules, Past(fr, m).(cond := DIR_EXIT))
      else Own(rules, Past(fr, m))
  }

  /** A set of files each of which includes one of them, wherever it does so. */
  ghost predicate Cyclic(rules: Rules, fs: Files, names: set<string>) {
    forall name :: name in names ==> name in fs && Own(rules, Opened(fs, name)) * names != {}
  }

  ghost predicate Fails(rules: Rules, fs: Files, fr: Frame, depth: nat) { Expand(rules, fs, fr, depth).error.Some? }

  lemma FailsPast(rules: Rules, fs: Files, fr: Frame, depth: nat)
    requires fr.pos < |fr.text| && !MatchAt(rules, fr.cond, fr.text, fr.pos).act.Divert?
    requires Fails(rules, fs, Past(fr, MatchAt(rules, fr.cond, fr.text, fr.pos)), depth)
    ensures Fails(rules, fs, fr, depth)
  {
  }

  lemma FailsDivert(rules: Rules, fs: Files, fr: Frame, depth: nat)
    requires fr.pos < |fr.text| && MatchAt(rules, fr.cond, fr.text, fr.pos).act.Divert?
    requires var m := MatchAt(rules, fr.cond, fr.text, fr.pos);
      depth <= MAX_SAVED && m.act.name in fs ==>
        Fails(rules, fs, Opened(fs, m.act.name), depth + 1) || Fails(rules, fs, Past(fr, m).(cond := DIR_EXIT), depth)
    ensures Fails(rules, fs, fr, depth)
  {
  }

  /** Files that include each other in a cycle are never scanned to the end, whatever else they
      include before and after. */
  lemma {:induction false} CyclesFail(rules: Rules, fs: Files, names: set<string>, fr: Frame, depth: nat)
    requires Cyclic(rules, fs, names) && Own(rules, fr) * names != {}
    ensures Fails(rules, fs, fr, depth)
    decreases if depth <= MAX_SAVED then MAX_SAVED + 1 - depth else 0, |fr.text| - fr.pos
  {
    var m := MatchAt(rules, fr.cond, fr.text, fr.pos);
    if m.act.Divert? {
      if depth <= MAX_SAVED && m.act.name in fs {
        if m.act.name in names {
          CyclesFail(rules, fs, names, Opened(fs, m.act.name), depth + 1);
        } else {
          var name :| name in Own(rules, fr) * names;
          assert name in Own(rules, Past(fr, m).(cond := DIR_EXIT)) * names;
          CyclesFail(rules, fs, names, Past(fr, m).(cond := DIR_EXIT), depth);
        }
      }
      FailsDivert(rules, fs, fr, depth);
    } else {
      CyclesFail(rules, fs, names, Past(fr, m), depth);
      FailsPast(rules, fs, fr, depth);
    }
  }

  /** Whatever a text may include comes below a height. */
  ghost predicate Below(rules: Rules, text: Text, height: string -> nat, h: nat) {
    forall cond, pos :: 0 <= pos < |text| && MatchAt(rules, cond, text, pos).act.Divert? ==>
      height(MatchAt(rules, cond, text, pos).act.name) < h
  }

  ghost predicate Fits(rules: Rules, fs: Files, fr: Frame, depth: nat) {
    Expand(rules, fs, fr, depth).error != Some(TooManyNested)
  }

  lemma FitsPast(rules: Rules, fs: Files, fr: Frame, depth: nat)
    requires fr.pos < |fr.text| && !MatchAt(rules, fr.cond, fr.text, fr.pos).act.Divert?
    requires Fits(rules, fs, Past(fr, MatchAt(rules, fr.cond, fr.text, fr.pos)), depth)
    ensures Fits(rules, fs, fr, depth)
  {
  }

  lemma FitsDivert(rules: Rules, fs: Files, fr: Frame, depth: nat)
    requires fr.pos < |fr.text| && MatchAt(rules, fr.cond, fr.text, fr.pos).act.Divert? && depth <= MAX_SAVED
    requires var m := MatchAt(rules, fr.cond, fr.text, fr.pos);
      m.act.name in fs ==>
        Fits(rules, fs, Opened(fs, m.act.name), depth + 1) && Fits(rules, fs, Past(fr, m).(cond := DIR_EXIT), depth)
    ensures Fits(rules, fs, fr, depth)
  {
  }

  /** Includes that nest no more than eleven deep are not too many. */
  lemma {:induction false} ShallowNestingIsFine(rules: Rules, fs: Files, fr: Frame, depth: nat,
                                                height: string -> nat, h: nat)
    requires Below(rules, fr.text, height, h) && depth + h <= 11
    requires forall name :: name in fs ==> Below(rules, fs[name], height, height(name))
    ensures Fits(rules, fs, fr, depth)
    decreases if depth <= MAX_SAVED then MAX_SAVED + 1 - depth else 0, |fr.text| - fr.pos
  {
    if fr.pos < |fr.text| {
      var m := MatchAt(rules, fr.cond, fr.text, fr.pos);
      if m.act.Divert? {
        if m.act.name in fs {
          ShallowNestingIsFine(rules, fs, Opened(fs, m.act.name), depth + 1, height, height(m.act.name));
          ShallowNestingIsFine(rules, fs, Past(fr, m).(cond := DIR_EXIT), depth, height, h);
        }
        FitsDivert(rules, fs, fr, depth);
      } else {
        ShallowNestingIsFine(rules, fs, Past(fr, m), depth, height, h);
        FitsPast(rules, fs, fr, depth);
      }
    }
  }

  // ----- locations -----

  /** Line and column of a position of a text. */
  function Place(text: Text, pos: nat): Loc
    requires pos <= |text|
  {
    if pos == 0 then START
    else if text[pos - 1] == '\n' then Place(text, pos - 1).Lines(1)
    else Place(text, pos - 1).Columns(1)
  }

  lemma {:induction false} PlaceInLine(text: Text, pos: nat, n: nat)
    requires pos + n <= |text| && forall i :: pos <= i < pos + n ==> text[i] != '\n'
    ensures Place(text, pos + n) == Place(text, pos).Columns(n)
  {
    if n > 0 {
      PlaceInLine(text, pos, n - 1);
    }
  }

  lemma {:induction false} PlaceOfNewlines(text: Text, pos: nat, n: nat)
    requires pos + n <= |text| && forall i :: pos <= i < pos + n ==> text[i] == '\n'
    ensures Place(text, pos + n) == Place(text, pos).Lines(n)
  {
    if n > 0 {
      PlaceOfNewlines(text, pos, n - 1);
    }
  }

  /** Newlines are matched by themselves, unless there is an error. */
  ghost predicate OneLiners(rules: Rules) {
    forall cond, text, pos :: 0 <= pos < |text| && !MatchAt(rules, cond, text, pos).act.Reject? ==>
      OneLine(text, pos, MatchAt(rules, cond, text, pos))
  }

  predicate OneLine(text: Text, pos: nat, m: Match) {
    && pos + m.length <= |text|
    && forall i :: pos <= i < pos + m.length ==> (text[i] == '\n' <==> m.act == NewLine)
  }

  lemma AtIs(text: Text, pos: nat, word: string, i: nat)
    requires At(text, pos, word) && i < |word|
    ensures text[pos + i] == word[i]
  {
    assert text[pos..pos + |word|][i] == word[i];
  }

  lemma TokenInLine(word: string -> Word, text: Text, pos: nat, n: nat)
    requires pos + n <= |text| && word(text[pos..]) == Word(n, true) && InOneLine(word)
    ensures forall i :: pos <= i < pos + n ==> text[i] != '\n'
  {
    var rest := text[pos..];
    assert '\n' !in rest[..n];
    forall i | pos <= i < pos + n ensures text[i] != '\n' {
      assert text[i] == rest[..n][i - pos];
    }
  }

  lemma DivertInLine(word: string -> Word, cond: Cond, text: Text, pos: nat)
    requires pos < |text| && D2Match(word, cond, text, pos).act.Divert?
    ensures OneLine(text, pos, D2Match(word, cond, text, pos))
  {
    AtIs(text, pos + D2Match(word, cond, text, pos).length - 1, "\"", 0);
  }

  lemma BecomeInLine(word: string -> Word, cond: Cond, text: Text, pos: nat, i: nat)
    requires pos < |text| && D2Match(word, cond, text, pos).act.Become?
    requires i < D2Match(word, cond, text, pos).length
    ensures text[pos + i] != '\n'
  {
    var word := match cond
      case INITIAL => if At(text, pos, "/*") then "/*" else "<?"
      case COMMENT => "*/"
      case DIR_ENTER => "include"
      case DIR_INCLUDE => ""
      case DIR_EXIT => "?>";
    AtIs(text, pos, word, i);
  }

  lemma D2InLine(word: string -> Word, cond: Cond, text: Text, pos: nat)
    requires pos < |text|
    requires InOneLine(word)
    ensures D2Match(word, cond, text, pos).act.Reject? || OneLine(text, pos, D2Match(word, cond, text, pos))
  {
    var m := D2Match(word, cond, text, pos);
    if m.act.Emit? {
      TokenInLine(word, text, pos, m.length);
    } else if m.act.Divert? {
      DivertInLine(word, cond, text, pos);
    } else if m.act.Become? {
      forall i | pos <= i < pos + m.length ensures text[i] != '\n' {
        BecomeInLine(word, cond, text, pos, i - pos);
      }
    }
  }

  /** The patterns of the D2 configuration take newlines by themselves if no token holds one. */
  lemma D2OneLiners(word: string -> Word)
    requires InOneLine(word)
    ensures OneLiners(D2Rules(word))
  {
    forall cond, text, pos | 0 <= pos < |text| && !MatchAt(D2Rules(word), cond, text, pos).act.Reject?
      ensures OneLine(text, pos, MatchAt(D2Rules(word), cond, text, pos))
    {
      D2InLine(word, cond, text, pos);
    }
  }

  lemma PastPlaceAt(fr: Frame, m: Match)
    requires fr.pos < |fr.text| && fr.loc == Place(fr.text, fr.pos) && OneLine(fr.text, fr.pos, m)
    ensures Past(fr, m).loc == Place(fr.text, fr.pos + m.length)
  {
    if m.act == NewLine {
      PlaceOfNewlines(fr.text, fr.pos, m.length);
    } else {
      PlaceInLine(fr.text, fr.pos, m.length);
    }
  }

  lemma PastPlace(rules: Rules, fr: Frame)
    requires OneLiners(rules) && fr.pos < |fr.text| && fr.loc == Place(fr.text, fr.pos)
    requires !MatchAt(rules, fr.cond, fr.text, fr.pos).act.Reject?
    ensures var next := Past(fr, MatchAt(rules, fr.cond, fr.text, fr.pos));
      next.loc == Place(next.text, next.pos)
  {
    PastPlaceAt(fr, MatchAt(rules, fr.cond, fr.text, fr.pos));
  }

  /** The token ends where its location says. */
  ghost predicate Sits(text: Text, t: Token) {
    exists end: nat :: |t.lexeme| <= end <= |text|
      && text[end - |t.lexeme|..end] == t.lexeme && t.at == Place(text, end)
  }

  /** Each token stands in the file that it names. */
  ghost predicate AllSit(fs: Files, file: string, text: Text, ts: seq<Token>) {
    forall t :: t in ts ==> (t.file == file && Sits(text, t)) || (t.file in fs && Sits(fs[t.file], t))
  }

  lemma LexemeSits(fr: Frame, m: Match)
    requires fr.pos + m.length <= |fr.text| && Past(fr, m).loc == Place(fr.text, fr.pos + m.length)
    ensures Sits(fr.text, Lexeme(fr, m))
  {
    var end := fr.pos + m.length;
    assert end - |Lexeme(fr, m).lexeme| == fr.pos;
  }

  ghost predicate Right(rules: Rules, fs: Files, fr: Frame, depth: nat) {
    AllSit(fs, fr.file, fr.text, Expand(rules, fs, fr, depth).tokens)
  }

  lemma RightPast(rules: Rules, fs: Files, fr: Frame, depth: nat)
    requires fr.pos < |fr.text|
    requires var m := MatchAt(rules, fr.cond, fr.text, fr.pos);
      !m.act.Divert? && !m.act.Reject? && Sits(fr.text, Lexeme(fr, m)) && Right(rules, fs, Past(fr, m), depth)
    ensures Right(rules, fs, fr, depth)
  {
    var m := MatchAt(rules, fr.cond, fr.text, fr.pos);
    if m.act.Emit? {
      ThenSits(fs, fr, Outcome([Lexeme(fr, m)], None), Expand(rules, fs, Past(fr, m), depth));
    }
  }

  lemma RightDivert(rules: Rules, fs: Files, fr: Frame, depth: nat)
    requires fr.pos < |fr.text| && MatchAt(rules, fr.cond, fr.text, fr.pos).act.Divert?
    requires var m := MatchAt(rules, fr.cond, fr.text, fr.pos);
      depth <= MAX_SAVED && m.act.name in fs ==>
        Right(rules, fs, Opened(fs, m.act.name), depth + 1) && Right(rules, fs, Past(fr, m).(cond := DIR_EXIT), depth)
    ensures Right(rules, fs, fr, depth)
  {
    var m := MatchAt(rules, fr.cond, fr.text, fr.pos);
    if depth <= MAX_SAVED && m.act.name in fs {
      ThenSits(fs, fr, Expand(rules, fs, Opened(fs, m.act.name), depth + 1),
               Expand(rules, fs, Past(fr, m).(cond := DIR_EXIT), depth));
    }
  }

  /** However files are nested, each token comes with the file, line and column where it stands. */
  lemma {:induction false} LocationsAreRight(rules: Rules, fs: Files, fr: Frame, depth: nat)
    requires OneLiners(rules) && fr.pos <= |fr.text| && fr.loc == Place(fr.text, fr.pos)
    ensures Right(rules, fs, fr, depth)
    decreases if depth <= MAX_SAVED then MAX_SAVED + 1 - depth else 0, |fr.text| - fr.pos
  {
    if fr.pos < |fr.text| && !MatchAt(rules, fr.cond, fr.text, fr.pos).act.Reject? {
      var m := MatchAt(rules, fr.cond, fr.text, fr.pos);
      PastPlace(rules, fr);
      if m.act.Divert? {
        if depth <= MAX_SAVED && m.act.name in fs {
          LocationsAreRight(rules, fs, Opened(fs, m.act.name), depth + 1);
          LocationsAreRight(rules, fs, Past(fr, m).(cond := DIR_EXIT), depth);
        }
        RightDivert(rules, fs, fr, depth);
      } else {
        LocationsAreRight(rules, fs, Past(fr, m), depth);
        LexemeSits(fr, m);
        RightPast(rules, fs, fr, depth);
      }
    }
  }

  lemma ThenSits(fs: Files, fr: Frame, a: Outcome, b: Outcome)
    requires AllSit(fs, fr.file, fr.text, a.tokens) && AllSit(fs, fr.file, fr.text, b.tokens)
    ensures AllSit(fs, fr.file, fr.text, Then(a, b).tokens)
  {
  }

  // ----- the scanner -----

  datatype Buffer = Buffer(text: Text, pos: nat)

  ghost predicate Aligned(states: seq<Buffer>, files: seq<string>, locs: seq<Loc>) {
    |states| == |files| == |locs| <= MAX_SAVED + 1
  }

  /** The suspended files, as the recursive meaning sees them. */
  function Frames(states: seq<Buffer>, files: seq<string>, locs: seq<Loc>): (frs: seq<Frame>)
    requires |states| == |files| == |locs|
    ensures |frs| == |states|
  {
    seq(|states|, i requires 0 <= i < |states| => Frame(files[i], states[i].text, states[i].pos, locs[i], DIR_EXIT))
  }

  /** How many files are open, provided that they are the stacked ones followed by the current one. */
  function OpenFiles(sfile: Option<nat>, sfiles: seq<nat>, open: seq<nat>): Option<nat> {
    if sfile.None? && sfiles == [] && open == [] then Some(0)
    else if sfile.Some? && open == sfiles + [sfile.value] then Some(|open|)
    else None
  }

  class Scanner {
    const rules: Rules
    const fs: Files
    const fromFile: bool
    var text: Text
    var pos: nat
    var cond: Cond
    var file: string
    var loc: Loc
    var states: seq<Buffer>
    var files: seq<string>
    var locs: seq<Loc>
    var sfile: Option<nat>
    var sfiles: seq<nat>
    var open: seq<nat>  // the handles of the files that are open, in the order of opening
    var nextHandle: nat

    /** The stacks are aligned, at most eleven files are suspended, and the open file handles are
        exactly the current one and the stacked ones, one per file being scanned. */
    ghost predicate Valid()
      reads this
    {
      && Aligned(states, files, locs)
      && OpenFiles(sfile, sfiles, open) == Some(|states| + if fromFile then 1 else 0)
    }

    ghost function Current(): Frame
      reads this
    {
      Frame(file, text, pos, loc, cond)
    }

    ghost function Suspended(): seq<Frame>
      reads this
      requires Aligned(states, files, locs)
    {
      Frames(states, files, locs)
    }

    /** Scanning begins on a named file or on a string. */
    constructor (rules: Rules, fs: Files, fromFile: bool, name: string, text: Text)
      ensures Valid() && this.rules == rules && this.fs == fs && this.fromFile == fromFile
      ensures Current() == Frame(name, text, 0, START, INITIAL) && states == []
    {
      this.rules, this.fs, this.fromFile := rules, fs, fromFile;
      this.text, pos, cond, file, loc := text, 0, INITIAL, name, START;
      states, files, locs, sfiles := [], [], [], [];
      if fromFile {
        sfile, open, nextHandle := Some(0), [0], 1;
      } else {
        sfile, open, nextHandle := None, [], 0;
      }
    }

    method Fopen() returns (h: nat)
      modifies `open, `nextHandle
      ensures h == old(nextHandle) && nextHandle == h + 1 && open == old(open) + [h]
    {
      h := nextHandle;
      nextHandle := nextHandle + 1;
      open := open + [h];
    }

    /** Closes the file that was opened last among those still open. */
    method Fclose(h: nat)
      requires open != [] && open[|open| - 1] == h
      modifies `open
      ensures open == old(open)[..|old(open)| - 1]
    {
      open := open[..|open| - 1];
    }

    /** Opens a file and makes it the current one. */
    method PushFile()
      requires OpenFiles(sfile, sfiles, open).Some?
      modifies `sfile, `sfiles, `open, `nextHandle
      ensures OpenFiles(sfile, sfiles, open)
           == Some(old(OpenFiles(sfile, sfiles, open)).value + 1)
    {
      var f := Fopen();
      if sfile.Some? {
        sfiles := sfiles + [sfile.value];
      }
      sfile := Some(f);
    }

    /** Closes the current file and goes back to the one before. */
    method PopFile()
      requires OpenFiles(sfile, sfiles, open).Some?
      requires OpenFiles(sfile, sfiles, open).value > 0
      modifies `sfile, `sfiles, `open
      ensures OpenFiles(sfile, sfiles, open)
           == Some(old(OpenFiles(sfile, sfiles, open)).value - 1)
    {
      Fclose(sfile.value);
      sfile := None;
      if |sfiles| > 0 {
        var k := |sfiles| - 1;
        sfile := Some(sfiles[k]);
        sfiles := sfiles[..k];
      }
    }

    /** Suspends the current buffer with its name and location and starts on another one. */
    method SwitchTo(name: string, content: Text)
      requires Aligned(states, files, locs) && |states| <= MAX_SAVED
      modifies `states, `text, `pos, `files, `file, `locs, `loc, `cond
      ensures Aligned(states, files, locs) && |states| == old(|states|) + 1
      ensures Current() == Frame(name, content, 0, START, INITIAL)
      ensures Suspended() == old(Suspended()) + [old(Current()).(cond := DIR_EXIT)]
    {
      states := states + [Buffer(text, pos)];
      text, pos := content, 0;
      files := files + [file];
      file := name;
      locs := locs + [loc];
      loc := START;
      cond := INITIAL;
    }

    /** Goes back to the buffer suspended last. */
    method SwitchBack()
      requires Aligned(states, files, locs) && states != []
      modifies `states, `text, `pos, `files, `file, `locs, `loc, `cond
      ensures Aligned(states, files, locs) && |states| == old(|states|) - 1
      ensures Current() == old(Suspended()[|states| - 1])
      ensures Suspended() == old(Suspended()[..|states| - 1])
    {
      var n := |states| - 1;
      loc := locs[n];
      locs := locs[..n];
      file := files[n];
      files := files[..n];
      text, pos := states[n].text, states[n].pos;
      states := states[..n];
      cond := DIR_EXIT;
    }

    /** Diverts the input to another file. */
    method IncludeFile(name: string) returns (error: Option<Error>)
      requires Valid()
      modifies this
      ensures Valid()
      ensures old(|states|) > 10 ==> error == Some(TooManyNested)
      ensures old(|states|) <= 10 && name !in fs ==> error == Some(CannotOpen(name))
      ensures old(|states|) <= 10 && name in fs ==>
        && error == None
        && Current() == Opened(fs, name)
        && Suspended() == old(Suspended()) + [old(Current()).(cond := DIR_EXIT)]
    {
      if |states| > MAX_SAVED {
        return Some(TooManyNested);
      }
      if name !in fs {
        return Some(CannotOpen(name));
      }
      PushFile();
      SwitchTo(name, fs[name]);
      return None;
    }

    /** The end of an included file: everything goes back to the file that included it. */
    method EndOfFile()
      requires Valid() && states != []
      modifies this
      ensures Valid()
      ensures Current() == old(Suspended()[|states| - 1])
      ensures Suspended() == old(Suspended()[..|states| - 1])
    {
      PopFile();
      SwitchBack();
    }

    /** Closes whatever is still open. */
    method ScanEnd()
      requires OpenFiles(sfile, sfiles, open).Some?
      modifies `sfile, `sfiles, `open, `states
      ensures open == [] && states == []
    {
      if sfile.Some? {
        Fclose(sfile.value);
      }
      sfile := None;
      while sfiles != []
        invariant open == sfiles
        decreases |sfiles|
      {
        var k := |sfiles| - 1;
        Fclose(sfiles[k]);
        sfiles := sfiles[..k];
      }
      states := [];
    }

    /** What is still to come. */
    ghost function Left(): Outcome
      reads this
      requires Aligned(states, files, locs)
    {
      Rest(rules, fs, Current(), Suspended())
    }

    ghost function LeftWork(): nat
      reads this
      requires Aligned(states, files, locs)
    {
      RestWork(rules, fs, Current(), Suspended())
    }

    /** The end of a buffer. */
    method TurnAtEnd() returns (error: Option<Error>, over: bool)
      requires Valid() && pos >= |text|
      modifies this
      ensures Valid()
      ensures !over ==> Left() == old(Left()) && LeftWork() < old(LeftWork())
      ensures over ==> old(Left()) == Outcome([], error)
    {
      RestEnd(rules, fs, Current(), Suspended());
      if cond == COMMENT {
        return Some(CommentNotClosed), true;
      } else if cond != INITIAL {
        return Some(DirectiveNotClosed), true;
      } else if states == [] {
        return None, true;
      }
      EndOfFile();
      return None, false;
    }

    /** An include directive. */
    method TurnDivert(m: Match) returns (error: Option<Error>)
      requires Valid() && pos < |text| && m == MatchAt(rules, cond, text, pos) && m.act.Divert?
      modifies this
      ensures Valid()
      ensures error.None? ==> Left() == old(Left()) && LeftWork() < old(LeftWork())
      ensures error.Some? ==> old(Left()) == Fail(error.value)
    {
      RestDivert(rules, fs, Current(), Suspended(), m.act.name);
      pos, loc := pos + m.length, loc.Columns(m.length);
      assert Current() == Past(old(Current()), m) && Suspended() == old(Suspended());
      error := IncludeFile(m.act.name);
    }

    /** Performs the action of any other match. */
    method Perform(m: Match) returns (token: seq<Token>, error: Option<Error>)
      requires 1 <= m.length <= |text| - pos && !m.act.Divert?
      modifies `pos, `loc, `cond
      ensures m.act.Reject? ==> token == [] && error == Some(Invalid(file, Past(old(Current()), m).loc))
      ensures !m.act.Reject? ==> error == None && Current() == Past(old(Current()), m)
      ensures !m.act.Reject? ==> token == if m.act.Emit? then [Lexeme(old(Current()), m)] else []
    {
      token, error := [], None;
      loc := loc.Columns(m.length);
      match m.act {
        case Reject =>
          error := Some(Invalid(file, loc));
        case Emit =>
          token := [Token(file, loc, text[pos..pos + m.length])];
        case NewLine =>
          loc := loc.Lines(m.length);
        case Become(c) =>
          cond := c;
        case Skip =>
      }
      pos := pos + m.length;
    }

    method TurnMatch(m: Match) returns (token: seq<Token>, error: Option<Error>)
      requires Valid() && pos < |text| && m == MatchAt(rules, cond, text, pos) && !m.act.Divert?
      modifies `pos, `loc, `cond
      ensures Valid()
      ensures error.None? ==> old(Left()) == Then(Outcome(token, None), Left()) && LeftWork() < old(LeftWork())
      ensures error.Some? ==> token == [] && old(Left()) == Fail(error.value)
    {
      RestStep(rules, fs, Current(), Suspended());
      token, error := Perform(m);
      assert Suspended() == old(Suspended());
    }

    /** One turn of the scanner: a match or the end of a file.  What is still to come is the same as
        before, except for the token that has been returned. */
    method Turn() returns (token: seq<Token>, error: Option<Error>, over: bool)
      requires Valid()
      modifies this
      ensures Valid()
      ensures !over ==> old(Left()) == Then(Outcome(token, None), Left()) && LeftWork() < old(LeftWork())
      ensures over ==> token == [] && old(Left()) == Outcome([], error)
    {
      token := [];
      if pos >= |text| {
        error, over := TurnAtEnd();
        NothingFirst(Left());
        return;
      }
      var m := MatchAt(rules, cond, text, pos);
      if m.act.Divert? {
        error := TurnDivert(m);
        NothingFirst(Left());
      } else {
        token, error := TurnMatch(m);
      }
      over := error.Some?;
    }

    /** Scans to the end of the outermost file or to the first error: the tokens are those of the
        recursive expansion.  Afterwards no file is left open. */
    method Scan() returns (r: Outcome)
      requires Valid() && states == []
      modifies this
      ensures r == Expand(rules, fs, old(Current()), 0)
      ensures open == []
    {
      var tokens: seq<Token> := [];
      ghost var whole := Expand(rules, fs, Current(), 0);
      NothingFirst(whole);
      var over := false;
      var error: Option<Error> := None;
      while !over
        invariant Valid()
        invariant !over ==> Then(Outcome(tokens, None), Left()) == whole
        invariant over ==> Outcome(tokens, error) == whole
        decreases !over, LeftWork()
      {
        var token;
        token, error, over := Turn();
        ThenAssociates(Outcome(tokens, None), Outcome(token, None), Left());
        tokens := tokens + token;
      }
      r := Outcome(tokens, error);
      ScanEnd();
    }
  }
}
