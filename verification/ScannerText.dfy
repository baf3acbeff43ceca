/**
The scanner on text, character by character: what directives, comments and
white space come to, and which place a position of a file is.
*/
module ScannerText {
  import opened Common
  import opened IncludeStack

  // ----- places -----

  /** The line is one more than the newlines before, and the column one more than the characters since. */
  lemma {:induction false} PlaceIs(text: Text, pos: nat) returns (start: nat)
    requires pos <= |text|
    ensures Place(text, pos).line == 1 + |set i | 0 <= i < pos && text[i] == '\n'|
    ensures start <= pos && (start == 0 || text[start - 1] == '\n') && Place(text, pos).column == 1 + pos - start
    ensures forall i :: start <= i < pos ==> text[i] != '\n'
  {
    var before := set i | 0 <= i < pos && text[i] == '\n';
    if pos == 0 {
      start := 0;
      assert before == {};
    } else {
      var rest := set i | 0 <= i < pos - 1 && text[i] == '\n';
      start := PlaceIs(text, pos - 1);
      if text[pos - 1] == '\n' {
        assert before == rest + {pos - 1};
        start := pos;
      } else {
        assert before == rest;
      }
    }
  }

  /** The scanner at a position of a file. */
  function Here(file: string, text: Text, pos: nat, cond: Cond): Frame
    requires pos <= |text|
  {
    Frame(file, text, pos, Place(text, pos), cond)
  }

  // ----- a file being scanned -----

  /** A file with so many files around it, what is still to come from a position of it on, in a start
      condition, and what there is in the files it may include. */
  datatype Scan = Scan(
    rules: Rules, word: string -> Word, fs: Files, file: string, text: Text, depth: nat,
    rest: (nat, Cond) -> Outcome, whole: string -> Outcome)

  /** What is still to come is what the patterns of the D2 configuration make of the text. */
  ghost predicate Proper(x: Scan) {
    && InOneLine(x.word)
    && (forall pos: nat, cond {:trigger Agrees(x, pos, cond)} :: Agrees(x, pos, cond))
    && (forall pos: nat, cond {:trigger Shows(x, pos, cond)} :: Shows(x, pos, cond))
    && (forall name {:trigger ShowsFile(x, name)} :: ShowsFile(x, name))
  }

  /** The rules are those of the D2 configuration. */
  predicate Agrees(x: Scan, pos: nat, cond: Cond) {
    pos < |x.text| ==> MatchAt(x.rules, cond, x.text, pos) == D2Match(x.word, cond, x.text, pos)
  }

  /** An included file is scanned from its first line and column on, one level deeper. */
  predicate ShowsFile(x: Scan, name: string) {
    name in x.fs ==>
      x.whole(name)
      == Expand(x.rules, x.fs, Frame(name, x.fs[name], 0, Loc(1, 1), INITIAL), x.depth + 1)
  }

  predicate Shows(x: Scan, pos: nat, cond: Cond) {
    pos <= |x.text| ==> x.rest(pos, cond) == Expand(x.rules, x.fs, Here(x.file, x.text, pos, cond), x.depth)
  }

  function ScanOf(word: string -> Word, fs: Files, file: string, text: Text, depth: nat): Scan {
    Scan(D2Rules(word), word, fs, file, text, depth,
         (pos: nat, cond) =>
           if pos <= |text| then Expand(D2Rules(word), fs, Here(file, text, pos, cond), depth) else Outcome([], None),
         name =>
           if name in fs then Expand(D2Rules(word), fs, Opened(fs, name), depth + 1) else Outcome([], None))
  }

  /** There is such a view of every file. */
  lemma ScanOfIsProper(word: string -> Word, fs: Files, file: string, text: Text, depth: nat)
    requires InOneLine(word)
    ensures Proper(ScanOf(word, fs, file, text, depth))
  {
  }

  // ----- one match -----

  lemma SpanIs(text: Text, pos: nat, p: char -> bool, n: nat)
    requires pos + n <= |text| && (forall i :: pos <= i < pos + n ==> p(text[i]))
    requires pos + n == |text| || !p(text[pos + n])
    ensures Span(text, pos, p) == n
  {
    SpanWithin(text, pos, p, n);
    SpanStops(text, pos, p);
  }

  lemma SpanWithin(text: Text, pos: nat, p: char -> bool, n: nat)
    requires pos + n <= |text| && (pos + n == |text| || !p(text[pos + n]))
    ensures Span(text, pos, p) <= n
  {
  }

  lemma {:induction false} SpanStops(text: Text, pos: nat, p: char -> bool)
    requires pos <= |text|
    ensures var m := Span(text, pos, p); pos + m == |text| || !p(text[pos + m])
    decreases |text| - pos
  {
    if pos < |text| && p(text[pos]) {
      SpanStops(text, pos + 1, p);
    }
  }

  /** Where a match that is not an error leads to. */
  lemma Ahead(x: Scan, pos: nat, cond: Cond, m: Match)
    requires Proper(x) && pos < |x.text| && m == D2Match(x.word, cond, x.text, pos) && !m.act.Reject?
    ensures Past(Here(x.file, x.text, pos, cond), m)
         == Here(x.file, x.text, pos + m.length, if m.act.Become? then m.act.cond else cond)
  {
    D2InLine(x.word, cond, x.text, pos);
    PastPlaceAt(Here(x.file, x.text, pos, cond), m);
  }

  /** A match that neither emits nor diverts nor fails. */
  lemma Goes(x: Scan, pos: nat, cond: Cond, m: Match)
    requires Proper(x) && pos < |x.text| && m == D2Match(x.word, cond, x.text, pos)
    requires m.act.Skip? || m.act.NewLine? || m.act.Become?
    ensures x.rest(pos, cond) == x.rest(pos + m.length, if m.act.Become? then m.act.cond else cond)
  {
    var then_ := if m.act.Become? then m.act.cond else cond;
    Ahead(x, pos, cond, m);
    ShowsBoth(x, pos, cond, pos + m.length, then_, m);
  }

  lemma ShowsBoth(x: Scan, pos: nat, cond: Cond, to: nat, then_: Cond, m: Match)
    requires Proper(x) && pos < |x.text| && to <= |x.text| && m == D2Match(x.word, cond, x.text, pos)
    requires m.act.Skip? || m.act.NewLine? || m.act.Become?
    requires Past(Here(x.file, x.text, pos, cond), m) == Here(x.file, x.text, to, then_)
    ensures x.rest(pos, cond) == x.rest(to, then_)
  {
    assert Agrees(x, pos, cond) && Shows(x, pos, cond) && Shows(x, to, then_);
    ExpandGoes(x.rules, x.fs, Here(x.file, x.text, pos, cond), x.depth, m);
  }

  // ----- white space -----

  predicate Space(ch: char) { ch == ' ' || ch == '\t' || ch == '\r' || ch == '\n' }

  lemma SpaceMatch(word: string -> Word, text: Text, pos: nat, n: nat, cond: Cond)
    requires 0 < n && pos + n <= |text| && Space(text[pos]) && (pos + n == |text| || !Space(text[pos + n]))
    ensures var m := D2Match(word, cond, text, pos); m.length <= n && (m.act.Skip? || m.act.NewLine?)
  {
    SpanWithin(text, pos, Blank, n);
    SpanWithin(text, pos, Newline, n);
  }

  /** White space is skipped in every start condition. */
  lemma {:induction false} SpaceIsSkipped(x: Scan, pos: nat, to: nat, cond: Cond)
    requires Proper(x) && pos <= to <= |x.text| && forall i :: pos <= i < to ==> Space(x.text[i])
    requires to == |x.text| || !Space(x.text[to])
    ensures x.rest(pos, cond) == x.rest(to, cond)
    decreases |x.text| - pos
  {
    if pos < to {
      var m := D2Match(x.word, cond, x.text, pos);
      SpaceMatch(x.word, x.text, pos, to - pos, cond);
      Goes(x, pos, cond, m);
      SpaceIsSkipped(x, pos + m.length, to, cond);
    }
  }

  // ----- words -----

  /** The text has the word at the position. */
  predicate Reads(text: Text, pos: nat, w: string) { pos + |w| <= |text| && text[pos..pos + |w|] == w }

  lemma ReadsAt(text: Text, pos: nat, w: string, i: nat)
    requires Reads(text, pos, w) && i < |w|
    ensures text[pos + i] == w[i]
  {
    assert text[pos..pos + |w|][i] == w[i];
  }

  lemma NotAt(text: Text, pos: nat, w: string, i: nat)
    requires pos + i < |text| && i < |w| && text[pos + i] != w[i]
    ensures !At(text, pos, w)
  {
    if pos + |w| <= |text| {
      assert text[pos..pos + |w|][i] == text[pos + i];
    }
  }

  ghost predicate Blanks(w: string) { forall i :: 0 <= i < |w| ==> Space(w[i]) }

  /** White space in front of something else. */
  lemma SkipsTo(x: Scan, pos: nat, w: string, to: nat, cond: Cond)
    requires Proper(x) && Blanks(w) && Reads(x.text, pos, w) && to == pos + |w| && to < |x.text| && !Space(x.text[to])
    ensures x.rest(pos, cond) == x.rest(to, cond)
  {
    forall i | pos <= i < to ensures Space(x.text[i]) {
      ReadsAt(x.text, pos, w, i - pos);
    }
    SpaceIsSkipped(x, pos, to, cond);
  }

  // ----- directives -----

  lemma OpensDirective(x: Scan, pos: nat, to: nat)
    requires Proper(x) && Reads(x.text, pos, "<?") && to == pos + 2
    ensures x.rest(pos, INITIAL) == x.rest(to, DIR_ENTER)
  {
    ReadsAt(x.text, pos, "<?", 0);
    NotAt(x.text, pos, "//", 0);
    NotAt(x.text, pos, "/*", 0);
    Goes(x, pos, INITIAL, Match(2, Become(DIR_ENTER)));
  }

  lemma EntersInclude(x: Scan, pos: nat, to: nat)
    requires Proper(x) && Reads(x.text, pos, "include") && to == pos + 7
    ensures x.rest(pos, DIR_ENTER) == x.rest(to, DIR_INCLUDE)
  {
    ReadsAt(x.text, pos, "include", 0);
    Goes(x, pos, DIR_ENTER, Match(7, Become(DIR_INCLUDE)));
  }

  lemma ClosesDirective(x: Scan, pos: nat, to: nat)
    requires Proper(x) && Reads(x.text, pos, "?>") && to == pos + 2
    ensures x.rest(pos, DIR_EXIT) == x.rest(to, INITIAL)
  {
    ReadsAt(x.text, pos, "?>", 0);
    Goes(x, pos, DIR_EXIT, Match(2, Become(INITIAL)));
  }

  ghost predicate FileName(name: string) {
    |name| > 0 && forall i :: 0 <= i < |name| ==> name[i] != '"' && name[i] != '\n'
  }

  function Quoted(name: string): string { "\"" + name + "\"" }

  /** A quoted name is what is included. */
  lemma NameMatches(word: string -> Word, text: Text, pos: nat, name: string)
    requires FileName(name) && Reads(text, pos, Quoted(name))
    ensures pos < |text| && D2Match(word, DIR_INCLUDE, text, pos) == Match(|name| + 2, Divert(name))
  {
    ReadsAt(text, pos, Quoted(name), 0);
    ReadsAt(text, pos, Quoted(name), |name| + 1);
    forall i | 0 <= i < |name| ensures text[pos + 1 + i] == name[i] {
      ReadsAt(text, pos, Quoted(name), 1 + i);
    }
    SpanIs(text, pos + 1, InName, |name|);
    assert text[pos + 1..pos + 1 + |name|] == name;
    assert text[pos + 1 + |name|..pos + 2 + |name|] == "\"";
  }

  /** What including a file comes to, with the rest of the including one behind it. */
  function Included(x: Scan, name: string, behind: Outcome): Outcome {
    if x.depth > 10 then Fail(TooManyNested)
    else if name !in x.fs then Fail(CannotOpen(name))
    else Then(x.whole(name), behind)
  }

  lemma Diverts(x: Scan, pos: nat, name: string, to: nat)
    requires Proper(x) && FileName(name) && Reads(x.text, pos, Quoted(name)) && to == pos + |Quoted(name)|
    ensures x.rest(pos, DIR_INCLUDE) == Included(x, name, x.rest(to, DIR_EXIT))
  {
    var m := Match(|name| + 2, Divert(name));
    NameMatches(x.word, x.text, pos, name);
    Ahead(x, pos, DIR_INCLUDE, m);
    assert Agrees(x, pos, DIR_INCLUDE);
    DivertsBy(x, pos, name, to, m);
  }

  lemma DivertsBy(x: Scan, pos: nat, name: string, to: nat, m: Match)
    requires Proper(x) && pos < |x.text| && to <= |x.text| && m.act == Divert(name)
    requires m == MatchAt(x.rules, DIR_INCLUDE, x.text, pos)
    requires Past(Here(x.file, x.text, pos, DIR_INCLUDE), m) == Here(x.file, x.text, to, DIR_INCLUDE)
    ensures x.rest(pos, DIR_INCLUDE) == Included(x, name, x.rest(to, DIR_EXIT))
  {
    DivertShows(x, pos, name, to, m);
    var fr := Here(x.file, x.text, pos, DIR_INCLUDE);
    ExpandDiverts(x.rules, x.fs, fr, x.depth, m, x.whole(name), x.rest(to, DIR_EXIT));
  }

  lemma DivertShows(x: Scan, pos: nat, name: string, to: nat, m: Match)
    requires Proper(x) && pos < |x.text| && to <= |x.text|
    requires Past(Here(x.file, x.text, pos, DIR_INCLUDE), m) == Here(x.file, x.text, to, DIR_INCLUDE)
    ensures x.rest(pos, DIR_INCLUDE) == Expand(x.rules, x.fs, Here(x.file, x.text, pos, DIR_INCLUDE), x.depth)
    ensures x.rest(to, DIR_EXIT)
         == Expand(x.rules, x.fs, Past(Here(x.file, x.text, pos, DIR_INCLUDE), m).(cond := DIR_EXIT), x.depth)
    ensures name in x.fs ==> x.whole(name) == Expand(x.rules, x.fs, Opened(x.fs, name), x.depth + 1)
  {
    assert Shows(x, pos, DIR_INCLUDE) && Shows(x, to, DIR_EXIT) && ShowsFile(x, name);
  }

  /** The directive up to the name. */
  lemma DirectiveBegins(x: Scan, pos: nat, a: nat, u: string, b: nat, c: nat, v: string, d: nat)
    requires Proper(x) && Blanks(u) && Blanks(v) && a == pos + 2 && b == a + |u| && c == b + 7 && d == c + |v|
    requires Reads(x.text, pos, "<?") && Reads(x.text, a, u) && Reads(x.text, b, "include") && Reads(x.text, c, v)
    requires d < |x.text| && x.text[d] == '"'
    ensures x.rest(pos, INITIAL) == x.rest(d, DIR_INCLUDE)
  {
    OpensDirective(x, pos, a);
    ReadsAt(x.text, b, "include", 0);
    SkipsTo(x, a, u, b, DIR_ENTER);
    EntersInclude(x, b, c);
    SkipsTo(x, c, v, d, DIR_INCLUDE);
  }

  /** The directive behind the name. */
  lemma DirectiveEnds(x: Scan, e: nat, w: string, f: nat, g: nat)
    requires Proper(x) && Blanks(w) && f == e + |w| && g == f + 2 && Reads(x.text, e, w) && Reads(x.text, f, "?>")
    ensures x.rest(e, DIR_EXIT) == x.rest(g, INITIAL)
  {
    ReadsAt(x.text, f, "?>", 0);
    SkipsTo(x, e, w, f, DIR_EXIT);
    ClosesDirective(x, f, g);
  }

  /** An include directive, whatever white space is inside: the opening bracket at pos, white space from a
      to b, the word, white space from c to d, the quoted name, white space from e to f, and the closing
      bracket up to g.  It stands for the text of the file it names, and scanning goes on behind it. */
  lemma DirectiveIncludes(x: Scan, pos: nat, a: nat, u: string, b: nat, c: nat, v: string, d: nat, name: string,
                          e: nat, w: string, f: nat, g: nat)
    requires Proper(x) && FileName(name) && Blanks(u) && Blanks(v) && Blanks(w)
    requires a == pos + 2 && b == a + |u| && c == b + 7 && d == c + |v| && e == d + |Quoted(name)| && f == e + |w|
    requires Reads(x.text, pos, "<?") && Reads(x.text, a, u) && Reads(x.text, b, "include") && Reads(x.text, c, v)
    requires Reads(x.text, d, Quoted(name)) && Reads(x.text, e, w) && Reads(x.text, f, "?>") && g == f + 2
    ensures x.rest(pos, INITIAL) == Included(x, name, x.rest(g, INITIAL))
  {
    ReadsAt(x.text, d, Quoted(name), 0);
    DirectiveBegins(x, pos, a, u, b, c, v, d);
    Diverts(x, d, name, e);
    DirectiveEnds(x, e, w, f, g);
  }

  /** Inside a directive anything but white space and the one word that is expected is an error. */
  lemma DirectiveRejects(x: Scan, pos: nat, cond: Cond)
    requires Proper(x) && cond in {DIR_ENTER, DIR_EXIT} && pos < |x.text| && !Space(x.text[pos])
    requires !Reads(x.text, pos, if cond == DIR_ENTER then "include" else "?>")
    ensures var here := Place(x.text, pos);
      x.rest(pos, cond) == Fail(Invalid(x.file, Loc(here.line, here.column + 1)))
  {
    assert Agrees(x, pos, cond) && Shows(x, pos, cond);
  }

  // ----- comments -----

  lemma OpensComment(x: Scan, pos: nat)
    requires Proper(x) && Reads(x.text, pos, "/*")
    ensures x.rest(pos, INITIAL) == x.rest(pos + 2, COMMENT)
  {
    ReadsAt(x.text, pos, "/*", 0);
    ReadsAt(x.text, pos, "/*", 1);
    NotAt(x.text, pos, "//", 1);
    Goes(x, pos, INITIAL, Match(2, Become(COMMENT)));
  }

  lemma ClosesComment(x: Scan, pos: nat)
    requires Proper(x) && Reads(x.text, pos, "*/")
    ensures x.rest(pos, COMMENT) == x.rest(pos + 2, INITIAL)
  {
    ReadsAt(x.text, pos, "*/", 0);
    Goes(x, pos, COMMENT, Match(2, Become(INITIAL)));
  }

  /** In a comment a match stops before the end of the comment. */
  lemma CommentMatch(word: string -> Word, text: Text, pos: nat, n: nat)
    requires n > 0 && Reads(text, pos + n, "*/") && !Reads(text, pos, "*/")
    ensures var m := D2Match(word, COMMENT, text, pos); m.length <= n && (m.act.Skip? || m.act.NewLine?)
  {
    ReadsAt(text, pos + n, "*/", 0);
    SpanWithin(text, pos, Blank, n);
    SpanWithin(text, pos, Newline, n);
  }

  lemma {:induction false} InComment(x: Scan, pos: nat, end: nat)
    requires Proper(x) && pos <= end && Reads(x.text, end, "*/")
    requires forall i :: pos <= i < end ==> !Reads(x.text, i, "*/")
    ensures x.rest(pos, COMMENT) == x.rest(end + 2, INITIAL)
    decreases |x.text| - pos
  {
    if pos == end {
      ClosesComment(x, pos);
    } else {
      var m := D2Match(x.word, COMMENT, x.text, pos);
      CommentMatch(x.word, x.text, pos, end - pos);
      Goes(x, pos, COMMENT, m);
      InComment(x, pos + m.length, end);
    }
  }

  /** A comment up to its first asterisk and slash is skipped, newlines and all. */
  lemma CommentIsSkipped(x: Scan, pos: nat, end: nat)
    requires Proper(x) && pos + 2 <= end && Reads(x.text, pos, "/*") && Reads(x.text, end, "*/")
    requires forall i :: pos + 2 <= i < end ==> !Reads(x.text, i, "*/")
    ensures x.rest(pos, INITIAL) == x.rest(end + 2, INITIAL)
  {
    OpensComment(x, pos);
    InComment(x, pos + 2, end);
  }

  /** A comment that does not end is an error. */
  lemma {:induction false} CommentRunsOut(x: Scan, pos: nat)
    requires Proper(x) && pos <= |x.text| && forall i :: pos <= i < |x.text| ==> !Reads(x.text, i, "*/")
    ensures x.rest(pos, COMMENT) == Fail(CommentNotClosed)
    decreases |x.text| - pos
  {
    if pos < |x.text| {
      var m := D2Match(x.word, COMMENT, x.text, pos);
      assert !Reads(x.text, pos, "*/");
      Goes(x, pos, COMMENT, m);
      CommentRunsOut(x, pos + m.length);
    } else {
      EndIs(x);
    }
  }

  lemma LineMatch(word: string -> Word, text: Text, pos: nat, n: nat)
    requires pos < |text| && (text[pos] == '#' || Reads(text, pos, "//"))
    requires pos + n <= |text| && (forall i :: pos <= i < pos + n ==> text[i] != '\n')
    requires pos + n == |text| || text[pos + n] == '\n'
    ensures D2Match(word, INITIAL, text, pos) == Match(n, Skip)
  {
    if Reads(text, pos, "//") {
      ReadsAt(text, pos, "//", 0);
    }
    SpanIs(text, pos, InLine, n);
  }

  /** A comment that a hash or two slashes begin goes to the end of the line. */
  lemma LineIsSkipped(x: Scan, pos: nat, n: nat)
    requires Proper(x) && pos < |x.text| && (x.text[pos] == '#' || Reads(x.text, pos, "//"))
    requires pos + n <= |x.text| && (forall i :: pos <= i < pos + n ==> x.text[i] != '\n')
    requires pos + n == |x.text| || x.text[pos + n] == '\n'
    ensures x.rest(pos, INITIAL) == x.rest(pos + n, INITIAL)
  {
    LineMatch(x.word, x.text, pos, n);
    Goes(x, pos, INITIAL, Match(n, Skip));
  }

  // ----- tokens -----

  /** What no directive, comment or white space begins with is left to the token patterns. */
  predicate Ordinary(text: Text, pos: nat)
    requires pos < |text|
  {
    && !Space(text[pos]) && text[pos] != '#'
    && !Reads(text, pos, "//") && !Reads(text, pos, "/*") && !Reads(text, pos, "<?")
  }

  lemma TokenMatch(word: string -> Word, text: Text, pos: nat, n: nat, good: bool)
    requires pos < |text| && Ordinary(text, pos) && 1 <= n && pos + n <= |text|
    requires word(text[pos..]) == Word(n, good)
    ensures D2Match(word, INITIAL, text, pos) == Match(n, if good then Emit else Reject)
  {
  }

  /** A good token is emitted with its text, its file and the place where it ends; a bad one fails. */
  lemma TokenIsEmitted(x: Scan, pos: nat, n: nat, good: bool)
    requires Proper(x) && pos < |x.text| && Ordinary(x.text, pos) && 1 <= n && pos + n <= |x.text|
    requires x.word(x.text[pos..]) == Word(n, good)
    ensures x.rest(pos, INITIAL) ==
      if good
      then Then(Outcome([Token(x.file, Place(x.text, pos + n), x.text[pos..pos + n])], None), x.rest(pos + n, INITIAL))
      else Fail(Invalid(x.file, Loc(Place(x.text, pos).line, Place(x.text, pos).column + n)))
  {
    TokenMatch(x.word, x.text, pos, n, good);
    assert Agrees(x, pos, INITIAL) && Shows(x, pos, INITIAL) && Shows(x, pos + n, INITIAL);
    if good {
      D2InLine(x.word, INITIAL, x.text, pos);
      PastPlaceAt(Here(x.file, x.text, pos, INITIAL), Match(n, Emit));
    }
  }

  /** The end of a file is an error only inside a directive or a comment. */
  lemma EndIs(x: Scan)
    requires Proper(x)
    ensures x.rest(|x.text|, INITIAL) == Outcome([], None)
    ensures x.rest(|x.text|, COMMENT) == Fail(CommentNotClosed)
    ensures x.rest(|x.text|, DIR_ENTER) == Fail(DirectiveNotClosed)
    ensures x.rest(|x.text|, DIR_INCLUDE) == Fail(DirectiveNotClosed)
    ensures x.rest(|x.text|, DIR_EXIT) == Fail(DirectiveNotClosed)
  {
    assert Shows(x, |x.text|, INITIAL) && Shows(x, |x.text|, COMMENT) && Shows(x, |x.text|, DIR_ENTER);
    assert Shows(x, |x.text|, DIR_INCLUDE) && Shows(x, |x.text|, DIR_EXIT);
  }
}
