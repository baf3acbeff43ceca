/**
The scanner's input buffer: refilling it moves the unfinished token to the
front, grows the buffer if there is no room, reads on, and puts the two
end-of-buffer characters behind the text.
*/
module FlexBuffer {
  import opened Common

  const YY_END_OF_BUFFER_CHAR: Byte := 0
  const YY_READ_BUF_SIZE: nat := 8192
  const INT_MAX: int := 0x7fff_ffff

  /** What a 32-bit int makes of a number. */
  function Wrapped(n: int): int { (n + INT_MAX + 1) % (2 * (INT_MAX + 1)) - INT_MAX - 1 }

  /** The size a buffer grows to: twice as large, or by an eighth if that overflows. */
  function Grown(size: int): int { if Wrapped(size * 2) <= 0 then size + size / 8 else size * 2 }

  /** Whether the new size and the two end-of-buffer characters fit in an int. */
  predicate CanGrow(size: int) { size <= 1908874351 && size != 1073741823 }

  lemma GrowthFits(size: int)
    requires 1 <= size <= INT_MAX - 2
    ensures CanGrow(size) <==> size < Grown(size) <= INT_MAX - 2
    ensures Grown(size) != 1073741823
  {
    if size * 2 <= INT_MAX {
      assert Wrapped(size * 2) == size * 2;
    } else {
      assert Wrapped(size * 2) == size * 2 - 2 * (INT_MAX + 1);
    }
  }

  /** A buffer grows only when its text fills it, so up to this length it can. */
  const MAX_TEXT: int := 1908874350

  datatype Status = BUFFER_NEW | BUFFER_NORMAL | BUFFER_EOF_PENDING

  datatype Action = EOB_ACT_CONTINUE_SCAN | EOB_ACT_END_OF_FILE | EOB_ACT_LAST_MATCH

  /** The scanner's tables: a transition, or none where the automaton jams, and the accepting states. */
  datatype Automaton = Automaton(start: nat, step: (nat, Byte) -> Option<nat>, accepting: nat -> bool)

  /** The state the first `n` characters of a text lead to. */
  function StateAt(d: Automaton, text: seq<Byte>, n: nat): Option<nat>
    requires n <= |text|
  {
    if n == 0 then Some(d.start)
    else
      var s := StateAt(d, text, n - 1);
      if s.None? then None else d.step(s.value, text[n - 1])
  }

  predicate Accepted(d: Automaton, text: seq<Byte>, n: nat)
    requires n <= |text|
  {
    var s := StateAt(d, text, n);
    s.Some? && d.accepting(s.value)
  }

  /** Once the automaton has jammed it stays so. */
  lemma JamsForGood(d: Automaton, text: seq<Byte>, m: nat, n: nat)
    requires m <= n <= |text| && StateAt(d, text, m).None?
    ensures StateAt(d, text, n).None?
  {
    if m < n {
      JamsForGood(d, text, m, n - 1);
    }
  }

  /** The longest match from a state after `i` characters with `last` the longest so far. */
  function Longest(d: Automaton, text: seq<Byte>, i: nat, state: nat, last: nat): nat
    requires i <= |text|
    decreases |text| - i
  {
    if i == |text| then last
    else
      var next := d.step(state, text[i]);
      if next.None? then last
      else Longest(d, text, i + 1, next.value, if d.accepting(next.value) then i + 1 else last)
  }

  lemma LongestOn(d: Automaton, text: seq<Byte>, i: nat, state: nat, last: nat)
    requires i < |text| && StateAt(d, text, i) == Some(state)
    ensures var next := d.step(state, text[i]);
      if next.None? then Longest(d, text, i, state, last) == last
      else
        && StateAt(d, text, i + 1) == next
        && Longest(d, text, i, state, last)
           == Longest(d, text, i + 1, next.value, if d.accepting(next.value) then i + 1 else last)
  {
  }

  /** The length of the token at the front of a text: one character, by the default rule, where nothing matches. */
  function TokenLength(d: Automaton, text: seq<Byte>): nat {
    var n := Longest(d, text, 0, d.start, 0);
    if n == 0 then 1 else n
  }

  /** A token is the longest accepted prefix of the text that is not empty, or one character. */
  ghost predicate IsToken(d: Automaton, text: seq<Byte>, n: nat) {
    && 1 <= n <= |text|
    && (forall k :: n < k <= |text| ==> !Accepted(d, text, k))
    && (n == 1 || Accepted(d, text, n))
  }

  lemma {:induction false} LongestMatch(d: Automaton, text: seq<Byte>, i: nat, state: nat, last: nat)
    requires last <= i <= |text| && StateAt(d, text, i) == Some(state)
    requires forall k :: last < k <= i ==> !Accepted(d, text, k)
    requires last > 0 ==> Accepted(d, text, last)
    ensures var n := Longest(d, text, i, state, last);
      n <= |text| && (n > 0 ==> Accepted(d, text, n)) && forall k :: n < k <= |text| ==> !Accepted(d, text, k)
    decreases |text| - i
  {
    if i < |text| {
      var next := d.step(state, text[i]);
      assert next == StateAt(d, text, i + 1);
      if next.None? {
        forall k | i < k <= |text| ensures !Accepted(d, text, k) {
          JamsForGood(d, text, i + 1, k);
        }
      } else {
        LongestMatch(d, text, i + 1, next.value, if d.accepting(next.value) then i + 1 else last);
      }
    }
  }

  /** The length the automaton finds is that of the token, and no other length is. */
  lemma TokenIsLongest(d: Automaton, text: seq<Byte>, n: nat)
    requires text != []
    ensures IsToken(d, text, n) <==> n == TokenLength(d, text)
  {
    LongestMatch(d, text, 0, d.start, 0);
    var m := TokenLength(d, text);
    assert IsToken(d, text, m);
  }

  /** A text as tokens, one after the other. */
  function Tokens(d: Automaton, text: seq<Byte>): seq<seq<Byte>> {
    if text == [] then []
    else
      TokenIsLongest(d, text, TokenLength(d, text));
      var n := TokenLength(d, text);
      [text[..n]] + Tokens(d, text[n..])
  }

  /** The first token and the others. */
  lemma TokensStep(d: Automaton, text: seq<Byte>, token: seq<Byte>, rest: seq<Byte>)
    requires token != [] && text == token + rest && |token| == TokenLength(d, text)
    ensures Tokens(d, text) == [token] + Tokens(d, rest)
  {
    assert text[..|token|] == token && text[|token|..] == rest;
  }

  /** The buffer; the scanning position yy_c_buf_p is a parameter of what needs it, as an index. */
  class Buffer {
    var chBuf: array<Byte>     // yy_ch_buf, two longer than yy_buf_size
    var bufSize: int           // yy_buf_size
    var nChars: int            // yy_n_chars
    var textPtr: int           // yytext_ptr, as an index
    var status: Status
    const fillBuffer: bool     // false for a string, which is all there from the start
    var input: seq<Byte>       // what the file still holds
    ghost var rest: seq<Byte>  // the text that has not been consumed yet
    ghost const total: nat     // the length of the whole text

    /** The text between the current token's start and the end-of-buffer characters. */
    ghost function Text(): seq<Byte>
      reads `chBuf, `textPtr, `nChars, chBuf
      requires 0 <= textPtr <= nChars <= chBuf.Length
    {
      chBuf[textPtr..nChars]
    }

    ghost predicate Sized()
      reads `chBuf, `bufSize
    {
      && 0 <= bufSize <= INT_MAX - 2 && chBuf.Length == bufSize + 2
      && (fillBuffer ==> 1 <= bufSize && bufSize != 1073741823 && total <= MAX_TEXT)
    }

    /** What is left of the text is in the buffer and the file, and the buffer's part ends in two
        end-of-buffer characters that lie in the buffer. */
    ghost predicate Valid()
      reads this, chBuf
    {
      && Sized()
      && 0 <= textPtr <= nChars <= bufSize
      && chBuf[nChars] == chBuf[nChars + 1] == YY_END_OF_BUFFER_CHAR
      && rest == Text() + input && |rest| <= total
      && (status == BUFFER_EOF_PENDING || !fillBuffer ==> input == [])
    }

    /** A buffer on a file, empty at first. */
    constructor OnFile(size: int, content: seq<Byte>)
      requires 1 <= size <= INT_MAX - 2 && size != 1073741823 && |content| <= MAX_TEXT
      ensures Valid() && fresh(chBuf) && fillBuffer && rest == content && bufSize == size
      ensures textPtr == nChars == 0 && chBuf[0] == chBuf[1] == 0
    {
      chBuf := new Byte[size + 2](_ => YY_END_OF_BUFFER_CHAR);
      bufSize, nChars, textPtr := size, 0, 0;
      status, fillBuffer, input := BUFFER_NEW, true, content;
      rest, total := content, |content|;
    }

    /** A buffer on a string, which it holds from the start. */
    constructor OnString(content: seq<Byte>)
      requires |content| <= INT_MAX - 2
      ensures Valid() && fresh(chBuf) && !fillBuffer && rest == content
      ensures textPtr == 0 && nChars == bufSize == |content| && chBuf[..] == content + [0, 0]
    {
      chBuf := new Byte[|content| + 2](i requires 0 <= i < |content| + 2 =>
        if i < |content| then content[i] else YY_END_OF_BUFFER_CHAR);
      bufSize, nChars, textPtr := |content|, |content|, 0;
      status, fillBuffer, input := BUFFER_NEW, false, [];
      rest, total := content, |content|;
      new;
      assert Text() == content;
    }

    /** Moves the `count` characters of the current token to the front. */
    method MoveToFront(count: int)
      requires 0 <= count && 0 <= textPtr && textPtr + count <= chBuf.Length
      modifies chBuf
      ensures chBuf[..count] == old(chBuf[textPtr..textPtr + count])
    {
      var i := 0;
      while i < count
        invariant 0 <= i <= count
        invariant forall k :: 0 <= k < i ==> chBuf[k] == old(chBuf[textPtr + k])
        invariant forall k :: textPtr + i <= k < chBuf.Length ==> chBuf[k] == old(chBuf[k])
      {
        chBuf[i] := chBuf[textPtr + i];
        i := i + 1;
      }
    }

    /** yyrealloc: a longer buffer that begins with the old one. */
    method Grow()
      requires chBuf.Length <= bufSize + 2
      modifies `chBuf
      ensures fresh(chBuf) && chBuf.Length == bufSize + 2
      ensures chBuf[..old(chBuf.Length)] == old(chBuf[..])
    {
      var grown := new Byte[bufSize + 2](_ => YY_END_OF_BUFFER_CHAR);
      var i := 0;
      while i < chBuf.Length
        invariant 0 <= i <= chBuf.Length
        invariant forall k :: 0 <= k < i ==> grown[k] == chBuf[k]
        modifies grown
      {
        grown[i] := chBuf[i];
        i := i + 1;
      }
      chBuf := grown;
    }

    /** Grows the buffer until at least one character fits behind the first `kept`. */
    method MakeRoom(kept: int) returns (room: int)
      requires Sized() && fillBuffer && 0 <= kept <= bufSize && kept <= total
      modifies `chBuf, `bufSize
      ensures Sized() && (chBuf == old(chBuf) || fresh(chBuf))
      ensures room == bufSize - kept - 1 && 1 <= room
      ensures chBuf[..kept] == old(chBuf[..kept])
    {
      room := bufSize - kept - 1;
      while room <= 0
        invariant Sized() && kept <= bufSize
        invariant chBuf == old(chBuf) || fresh(chBuf)
        invariant chBuf[..kept] == old(chBuf[..kept])
        invariant room == bufSize - kept - 1
        decreases kept + 2 - bufSize
      {
        GrowthFits(bufSize);
        ghost var before := chBuf[..kept];
        if Wrapped(bufSize * 2) <= 0 {
          bufSize := bufSize + bufSize / 8;
        } else {
          bufSize := bufSize * 2;
        }
        Grow();
        assert chBuf[..kept] == before;
        room := bufSize - kept - 1;
      }
    }

    /** What yyrestart leaves of a buffer that has come to the end of its file. */
    method Restart()
      requires 2 <= chBuf.Length
      modifies chBuf, `nChars, `textPtr, `status
      ensures nChars == textPtr == 0 && status == BUFFER_NEW
      ensures chBuf[0] == chBuf[1] == YY_END_OF_BUFFER_CHAR
    {
      nChars := 0;
      chBuf[0], chBuf[1] := YY_END_OF_BUFFER_CHAR, YY_END_OF_BUFFER_CHAR;
      textPtr := 0;
      status := BUFFER_NEW;
    }

    /** Reads from the file: any number of characters that are asked for and there, none only at its end. */
    method Read(at: int, max: int) returns (n: nat)
      requires 0 <= at && 1 <= max && at + max <= chBuf.Length
      modifies chBuf, `input
      ensures n <= max && n <= |old(input)| && (n == 0 <==> old(input) == [])
      ensures chBuf[..at] == old(chBuf[..at]) && chBuf[at..at + n] == old(input)[..n]
      ensures input == old(input)[n..]
    {
      n := if input == [] then 0 else 1;
      var more: int :| 0 <= more;
      if 0 < n && n + more <= max && n + more <= |input| { n := n + more; }
      var i := 0;
      while i < n
        invariant 0 <= i <= n && input == old(input)
        invariant forall k :: 0 <= k < at ==> chBuf[k] == old(chBuf[k])
        invariant forall k :: at <= k < at + i ==> chBuf[k] == input[k - at]
        modifies chBuf
      {
        chBuf[at + i] := input[i];
        i := i + 1;
      }
      assert chBuf[..at] == old(chBuf[..at]);
      assert chBuf[at..at + n] == input[..n];
      input := input[n..];
    }

    /** No more is read at once than 8192 characters. */
    method AtMostOneRead(room: int) returns (most: int)
      ensures most == if room > 8192 then 8192 else room
    {
      most := if room > YY_READ_BUF_SIZE then YY_READ_BUF_SIZE else room;
    }

    /** Gets more text behind the first `kept` characters, unless the end was seen before. */
    method Fetch(kept: int) returns (n: nat)
      requires Sized() && fillBuffer && 0 <= kept <= bufSize && kept <= total
      requires status == BUFFER_EOF_PENDING ==> input == []
      modifies `chBuf, `bufSize, chBuf, `input
      ensures Sized() && (chBuf == old(chBuf) || fresh(chBuf)) && kept + n <= bufSize
      ensures n <= |old(input)| && old(input) == old(input)[..n] + input
      ensures chBuf[..n + kept] == old(chBuf[..kept]) + old(input)[..n]
      ensures n == 0 <==> old(input) == []
    {
      n := 0;
      if status != BUFFER_EOF_PENDING {
        var room := MakeRoom(kept);
        room := AtMostOneRead(room);
        n := Read(kept, room);
        assert chBuf[..n + kept] == chBuf[..kept] + chBuf[kept..kept + n];
      }
    }

    /** Puts the end-of-buffer characters behind the first `n`. */
    method Seal(n: int)
      requires 0 <= n && n + 2 <= chBuf.Length
      modifies chBuf, `nChars, `textPtr
      ensures nChars == n && textPtr == 0
      ensures chBuf[..n] == old(chBuf[..n])
      ensures chBuf[n] == chBuf[n + 1] == YY_END_OF_BUFFER_CHAR
    {
      nChars := n;
      chBuf[nChars] := YY_END_OF_BUFFER_CHAR;
      chBuf[nChars + 1] := YY_END_OF_BUFFER_CHAR;
      textPtr := 0;
    }

    /** What to do after `n` characters were read behind the `move` that the token had. */
    method Decide(n: nat, move: nat) returns (action: Action)
      requires 2 <= chBuf.Length && n + move <= chBuf.Length
      modifies chBuf, `nChars, `textPtr, `status
      ensures action == if n > 0 then EOB_ACT_CONTINUE_SCAN
                        else if move == 0 then EOB_ACT_END_OF_FILE else EOB_ACT_LAST_MATCH
      ensures chBuf[..n + move] == old(chBuf[..n + move])
      ensures status == BUFFER_EOF_PENDING ==> old(status) == BUFFER_EOF_PENDING || n == 0
    {
      if n == 0 {
        if move == 0 {
          action := EOB_ACT_END_OF_FILE;
          Restart();
        } else {
          action := EOB_ACT_LAST_MATCH;
          status := BUFFER_EOF_PENDING;
        }
      } else {
        action := EOB_ACT_CONTINUE_SCAN;
      }
    }

    /** The part of yy_get_next_buffer that reads on. */
    method ReadOn(cp: int) returns (action: Action)
      requires Valid() && cp == nChars + 1 && fillBuffer
      modifies this, chBuf
      ensures Sized() && textPtr == 0 && 0 <= nChars <= bufSize
      ensures chBuf == old(chBuf) || fresh(chBuf)
      ensures chBuf[nChars] == chBuf[nChars + 1] == YY_END_OF_BUFFER_CHAR
      ensures status == BUFFER_EOF_PENDING ==> input == []
      ensures rest == old(rest) == Text() + input
      ensures action == if |Text()| > old(|Text()|) then EOB_ACT_CONTINUE_SCAN
                        else if |Text()| == 0 then EOB_ACT_END_OF_FILE else EOB_ACT_LAST_MATCH
      ensures action != EOB_ACT_CONTINUE_SCAN ==> input == []
    {
      var move := cp - textPtr - 1;
      ghost var matched, unread := Text(), input;
      MoveToFront(move);
      var n := Fetch(move);
      action := Decide(n, move);
      if n + move > bufSize {
        assert false;  // the text always fits: the late extension is never needed
      }
      Seal(n + move);
      assert Text() == matched + unread[..n];
    }

    /** yy_get_next_buffer: called when the scanner has run onto the first end-of-buffer character. */
    method Refill(cp: int) returns (action: Action)
      requires Valid() && cp == nChars + 1
      modifies this, chBuf
      ensures Valid() && (chBuf == old(chBuf) || fresh(chBuf))
      ensures rest == old(rest)
      ensures action == EOB_ACT_END_OF_FILE <==> old(rest) == []
      ensures action == EOB_ACT_CONTINUE_SCAN ==> |Text()| > old(|Text()|)
      ensures action == EOB_ACT_LAST_MATCH ==> |Text()| == old(|Text()|) && input == []
    {
      if !fillBuffer {
        return if cp - textPtr == 1 then EOB_ACT_END_OF_FILE else EOB_ACT_LAST_MATCH;
      }
      action := ReadOn(cp);
    }

    /** yy_get_previous_state: runs the automaton again over the text matched so far. */
    method PreviousState(d: Automaton, to: int) returns (state: nat)
      requires Valid() && textPtr <= to <= nChars && StateAt(d, rest, to - textPtr).Some?
      ensures StateAt(d, rest, to - textPtr) == Some(state)
    {
      state := d.start;
      var cp := textPtr;
      while cp < to
        invariant textPtr <= cp <= to && StateAt(d, rest, cp - textPtr) == Some(state)
      {
        if StateAt(d, rest, cp - textPtr + 1).None? {
          JamsForGood(d, rest, cp - textPtr + 1, to - textPtr);
        }
        assert chBuf[cp] == rest[cp - textPtr];
        state := d.step(state, chBuf[cp]).value;
        cp := cp + 1;
      }
    }

    /** The end-of-buffer character was read: it is a NUL of the text, or more text is needed. */
    method EndOfBuffer(at: int) returns (action: Action, cp: int)
      requires Valid() && textPtr <= at <= nChars && chBuf[at] == YY_END_OF_BUFFER_CHAR
      modifies this, chBuf
      ensures Valid() && (chBuf == old(chBuf) || fresh(chBuf))
      ensures rest == old(rest)
      ensures action == EOB_ACT_CONTINUE_SCAN ==> cp - textPtr == at - old(textPtr) && cp < nChars
      ensures action == EOB_ACT_LAST_MATCH ==> |old(rest)| == at - old(textPtr)
      ensures action != EOB_ACT_CONTINUE_SCAN ==> cp == nChars && input == []
      ensures action == EOB_ACT_END_OF_FILE <==> old(rest) == []
    {
      var matched := at - textPtr;
      cp := at + 1;
      if status == BUFFER_NEW { status := BUFFER_NORMAL; }
      if cp <= nChars {
        return EOB_ACT_CONTINUE_SCAN, textPtr + matched;
      }
      action := Refill(cp);
      if action == EOB_ACT_END_OF_FILE {
        cp := textPtr;
      } else if action == EOB_ACT_CONTINUE_SCAN {
        cp := textPtr + matched;
      } else {
        cp := nChars;
      }
    }

    /** Leaves a token behind. */
    method Consume(n: nat)
      requires Valid() && n <= |Text()|
      modifies `textPtr, `rest
      ensures Valid() && rest == old(rest)[n..]
    {
      textPtr, rest := textPtr + n, rest[n..];
      assert Text() == old(Text())[n..];
    }

    /** Makes the next character of the text available, and finds the state again if that took a refill. */
    method Settle(d: Automaton, at: int, state: nat) returns (action: Action, cp: int, again: nat, c: Byte)
      requires Valid() && textPtr <= at <= nChars
      requires StateAt(d, rest, at - textPtr) == Some(state)
      modifies this, chBuf
      ensures Valid() && (chBuf == old(chBuf) || fresh(chBuf))
      ensures rest == old(rest) && textPtr <= cp <= nChars
      ensures action != EOB_ACT_END_OF_FILE ==> cp - textPtr == at - old(textPtr) && again == state
      ensures action == EOB_ACT_CONTINUE_SCAN ==> cp < nChars && c == rest[cp - textPtr]
      ensures action != EOB_ACT_CONTINUE_SCAN ==> input == [] && cp == nChars
      ensures action == EOB_ACT_END_OF_FILE <==> rest == []
    {
      again, c := state, chBuf[at];
      if chBuf[at] != YY_END_OF_BUFFER_CHAR {
        return EOB_ACT_CONTINUE_SCAN, at, state, c;
      }
      action, cp := EndOfBuffer(at);
      if action != EOB_ACT_END_OF_FILE {
        again := PreviousState(d, cp);
        c := chBuf[cp];
      }
    }

    /** One transition of the automaton, if the match goes on. */
    method Transition(d: Automaton, at: int, state: nat, last: nat)
      returns (action: Action, cp: int, next: nat, best: nat)
      requires Valid() && textPtr <= at <= nChars && last <= at - textPtr
      requires StateAt(d, rest, at - textPtr) == Some(state)
      modifies this, chBuf
      ensures Valid() && (chBuf == old(chBuf) || fresh(chBuf))
      ensures rest == old(rest) && textPtr <= cp <= nChars && best <= |Text()|
      ensures action == EOB_ACT_END_OF_FILE <==> rest == []
      ensures action == EOB_ACT_LAST_MATCH ==>
        best == Longest(d, rest, at - old(textPtr), state, last) && Text() != []
      ensures action == EOB_ACT_CONTINUE_SCAN ==>
        && cp - textPtr == at - old(textPtr) + 1 && best <= cp - textPtr
        && StateAt(d, rest, cp - textPtr) == Some(next)
        && Longest(d, rest, cp - textPtr, next, best) == Longest(d, rest, at - old(textPtr), state, last)
    {
      var c;
      best := last;
      action, cp, next, c := Settle(d, at, state);
      if action == EOB_ACT_CONTINUE_SCAN {
        LongestOn(d, rest, cp - textPtr, next, last);
        var step := d.step(next, c);
        if step.None? {
          action := EOB_ACT_LAST_MATCH;
        } else {
          next := step.value;
          cp := cp + 1;
          if d.accepting(next) { best := cp - textPtr; }
        }
      }
    }

    /** Runs the automaton until the token at the front of the remaining text is found. */
    method Match(d: Automaton) returns (n: nat)
      requires Valid()
      modifies this, chBuf
      ensures Valid() && (chBuf == old(chBuf) || fresh(chBuf))
      ensures rest == old(rest) && n <= |Text()|
      ensures n == if rest == [] then 0 else TokenLength(d, rest)
    {
      var state, last: nat, cp, action := d.start, 0, textPtr, EOB_ACT_CONTINUE_SCAN;
      while action == EOB_ACT_CONTINUE_SCAN
        invariant Valid() && rest == old(rest) && (chBuf == old(chBuf) || fresh(chBuf))
        invariant textPtr <= cp <= nChars && last <= |Text()|
        invariant action == EOB_ACT_CONTINUE_SCAN ==>
          && last <= cp - textPtr && StateAt(d, rest, cp - textPtr) == Some(state)
          && Longest(d, rest, cp - textPtr, state, last) == Longest(d, rest, 0, d.start, 0)
        invariant action == EOB_ACT_LAST_MATCH ==>
          last == Longest(d, rest, 0, d.start, 0) && rest != [] && Text() != []
        invariant action == EOB_ACT_END_OF_FILE ==> rest == []
        decreases action == EOB_ACT_CONTINUE_SCAN, |rest| - (cp - textPtr)
      {
        action, cp, state, last := Transition(d, cp, state, last);
      }
      n := if action == EOB_ACT_END_OF_FILE then 0 else if last == 0 then 1 else last;
    }

    /** One token of the remaining text, whatever sizes the reads have; none at the end of the file. */
    method NextToken(d: Automaton) returns (token: seq<Byte>)
      requires Valid()
      modifies this, chBuf
      ensures Valid() && (chBuf == old(chBuf) || fresh(chBuf))
      ensures token == [] <==> old(rest) == []
      ensures token != [] ==> |token| == TokenLength(d, old(rest))
      ensures old(rest) == token + rest
    {
      var n := Match(d);
      token := chBuf[textPtr..textPtr + n];
      Consume(n);
    }

    /** The whole text as tokens, whatever sizes the reads have. */
    method Scan(d: Automaton) returns (tokens: seq<seq<Byte>>)
      requires Valid()
      modifies this, chBuf
      ensures Valid() && rest == [] && tokens == Tokens(d, old(rest))
    {
      tokens := [];
      while true
        invariant Valid() && (chBuf == old(chBuf) || fresh(chBuf))
        invariant tokens + Tokens(d, rest) == Tokens(d, old(rest))
        decreases |rest|
      {
        ghost var before := rest;
        var token := NextToken(d);
        if token == [] { break; }
        TokensStep(d, before, token, rest);
        Reassociate(tokens, token, Tokens(d, rest));
        tokens := tokens + [token];
      }
    }
  }
}
