/**
Decoding the content of a JSON string token: the loop of the scanner, the
grammar of string characters it is meant to accept, and escaping as its inverse.
*/
module JsonString {
  import opened Common

  type Bytes = seq<Byte>

  const QUOTE: Byte := 34
  const BACKSLASH: Byte := 92
  const SLASH: Byte := 47
  const ZERO: Byte := 48
  const LETTER_U: Byte := 117

  datatype Error =
    | BadQuote | OverflowEscape | OverflowUnicode | UnsupportedUnicode(near: nat)
    | NotHexadecimal | BadEscape | InvalidControl

  datatype Result<+T> = Ok(value: T) | Err(error: Error)

  /** The value of a hexadecimal digit, -1 for any other byte. */
  function HexValue(c: Byte): int {
    if 48 <= c <= 57 then c - 48
    else if 65 <= c <= 70 then c - 65 + 10
    else if 97 <= c <= 102 then c - 97 + 10
    else -1
  }

  /** The byte a one-letter escape stands for, -1 if there is no such escape. */
  function ShortValue(c: Byte): int {
    if c == QUOTE || c == BACKSLASH || c == SLASH then c
    else if c == 98 then 8
    else if c == 102 then 12
    else if c == 110 then 10
    else if c == 114 then 13
    else if c == 116 then 9
    else -1
  }

  // ----- the grammar -----

  /** One JSONStringCharacter. */
  datatype Unit = Plain(b: Byte) | Short(c: Byte) | Unicode(h3: Byte, h2: Byte, h1: Byte, h0: Byte)

  predicate ValidUnit(u: Unit) {
    match u
    case Plain(b) => b >= 0x20 && b != QUOTE && b != BACKSLASH
    case Short(c) => ShortValue(c) >= 0
    case Unicode(h3, h2, h1, h0) => HexValue(h3) >= 0 && HexValue(h2) >= 0 && HexValue(h1) >= 0 && HexValue(h0) >= 0
  }

  function RenderUnit(u: Unit): (r: Bytes)
    ensures 1 <= |r| <= 6
  {
    match u
    case Plain(b) => [b]
    case Short(c) => [BACKSLASH, c]
    case Unicode(h3, h2, h1, h0) => [BACKSLASH, LETTER_U, h3, h2, h1, h0]
  }

  function Render(us: seq<Unit>): Bytes {
    if us == [] then [] else RenderUnit(us[0]) + Render(us[1..])
  }

  ghost predicate ValidUnits(us: seq<Unit>) { forall i :: 0 <= i < |us| ==> ValidUnit(us[i]) }

  /** Only the escapes up to 00ff are supported. */
  predicate Supported(u: Unit) { u.Unicode? ==> u.h3 == ZERO && u.h2 == ZERO }

  function UnitByte(u: Unit): Byte
    requires ValidUnit(u) && Supported(u)
  {
    match u
    case Plain(b) => b
    case Short(c) => ShortValue(c)
    case Unicode(_, _, h1, h0) => 16 * HexValue(h1) + HexValue(h0)
  }

  /** What a list of string characters means, or where the first unsupported escape is. */
  ghost function Meaning(us: seq<Unit>, at: nat): Result<Bytes>
    requires ValidUnits(us)
  {
    if us == [] then Ok([])
    else if !Supported(us[0]) then Err(UnsupportedUnicode(at + 3))
    else Prepend([UnitByte(us[0])], Meaning(us[1..], at + |RenderUnit(us[0])|))
  }

  // ----- the loop -----

  datatype Step = Emit(b: Byte, next: nat) | Bad(error: Error)

  /** One turn of the loop. */
  function StepAt(raw: Bytes, pos: nat): (s: Step)
    requires pos < |raw|
    ensures s.Emit? ==> pos < s.next <= |raw|
  {
    var c := raw[pos];
    if c == QUOTE then Bad(BadQuote)
    else if c != BACKSLASH then if c < 0x20 then Bad(InvalidControl) else Emit(c, pos + 1)
    else if pos + 1 >= |raw| then Bad(OverflowEscape)
    else if ShortValue(raw[pos + 1]) >= 0 then Emit(ShortValue(raw[pos + 1]), pos + 2)
    else if raw[pos + 1] != LETTER_U then Bad(BadEscape)
    else if pos + 6 > |raw| then Bad(OverflowUnicode)
    else if raw[pos + 2] != ZERO || raw[pos + 3] != ZERO then Bad(UnsupportedUnicode(pos + 3))
    else if HexValue(raw[pos + 4]) < 0 || HexValue(raw[pos + 5]) < 0 then Bad(NotHexadecimal)
    else Emit(16 * HexValue(raw[pos + 4]) + HexValue(raw[pos + 5]), pos + 6)
  }

  function Prepend(bs: Bytes, r: Result<Bytes>): Result<Bytes> {
    if r.Ok? then Ok(bs + r.value) else r
  }

  function DecodeFrom(raw: Bytes, pos: nat): Result<Bytes>
    requires pos <= |raw|
    decreases |raw| - pos
  {
    if pos == |raw| then Ok([])
    else
      match StepAt(raw, pos)
      case Bad(e) => Err(e)
      case Emit(b, next) => Prepend([b], DecodeFrom(raw, next))
  }

  /** The scanner's action: in bounds on every input, and computing DecodeFrom. */
  method Decode(raw: Bytes) returns (r: Result<Bytes>)
    ensures r == DecodeFrom(raw, 0)
  {
    var decoded: Bytes := [];
    var pos := 0;
    assert DecodeFrom(raw, 0).Ok? ==> [] + DecodeFrom(raw, 0).value == DecodeFrom(raw, 0).value;
    while pos < |raw|
      invariant 0 <= pos <= |raw|
      invariant DecodeFrom(raw, 0) == Prepend(decoded, DecodeFrom(raw, pos))
      decreases |raw| - pos
    {
      var start := pos;
      var b := 0;
      var c := raw[pos];
      if c == QUOTE {
        return Err(BadQuote);
      } else if c == BACKSLASH {
        pos := pos + 1;
        if pos >= |raw| {
          return Err(OverflowEscape);
        }
        c := raw[pos];
        if c == QUOTE || c == BACKSLASH || c == SLASH {
          b := c;
        } else if c == 98 {
          b := 8;
        } else if c == 102 {
          b := 12;
        } else if c == 110 {
          b := 10;
        } else if c == 114 {
          b := 13;
        } else if c == 116 {
          b := 9;
        } else if c == LETTER_U {
          pos := pos + 1;
          if pos + 4 > |raw| {
            return Err(OverflowUnicode);
          }
          if raw[pos] != ZERO || raw[pos + 1] != ZERO {
            return Err(UnsupportedUnicode(pos + 1));
          }
          pos := pos + 2;
          c := raw[pos];
          if HexValue(c) < 0 {
            return Err(NotHexadecimal);
          }
          b := 16 * HexValue(c);
          pos := pos + 1;
          c := raw[pos];
          if HexValue(c) < 0 {
            return Err(NotHexadecimal);
          }
          b := b + HexValue(c);
        } else {
          return Err(BadEscape);
        }
      } else {
        if c < 0x20 {
          return Err(InvalidControl);
        }
        b := c;
      }
      assert StepAt(raw, start) == Emit(b, pos + 1);
      PrependTwice(decoded, b, DecodeFrom(raw, pos + 1));
      decoded := decoded + [b];
      pos := pos + 1;
    }
    assert decoded + [] == decoded;
    return Ok(decoded);
  }

  lemma PrependTwice(bs: Bytes, b: Byte, r: Result<Bytes>)
    ensures Prepend(bs, Prepend([b], r)) == Prepend(bs + [b], r)
  {
    if r.Ok? {
      assert bs + ([b] + r.value) == (bs + [b]) + r.value;
    }
  }

  // ----- the loop decides the grammar -----

  lemma StepOnUnit(u: Unit, raw: Bytes, pos: nat)
    requires ValidUnit(u) && pos + |RenderUnit(u)| <= |raw|
    requires raw[pos..pos + |RenderUnit(u)|] == RenderUnit(u)
    ensures StepAt(raw, pos) ==
      if Supported(u) then Emit(UnitByte(u), pos + |RenderUnit(u)|) else Bad(UnsupportedUnicode(pos + 3))
  {
    var n := |RenderUnit(u)|;
    forall i | 0 <= i < n ensures raw[pos + i] == RenderUnit(u)[i] {
      assert raw[pos + i] == raw[pos..pos + n][i];
    }
    assert raw[pos + 0] == RenderUnit(u)[0];
    if !u.Plain? {
      assert raw[pos + 1] == RenderUnit(u)[1];
    }
    if u.Unicode? {
      assert raw[pos + 2] == u.h3 && raw[pos + 3] == u.h2 && raw[pos + 4] == u.h1 && raw[pos + 5] == u.h0;
    }
  }

  lemma {:induction false} DecodeRendered(us: seq<Unit>, raw: Bytes, pos: nat)
    requires ValidUnits(us) && pos <= |raw| && raw[pos..] == Render(us)
    ensures DecodeFrom(raw, pos) == Meaning(us, pos)
  {
    if us != [] {
      var u := us[0];
      var n := |RenderUnit(u)|;
      assert raw[pos..pos + n] == raw[pos..][..n] == RenderUnit(u);
      StepOnUnit(u, raw, pos);
      if Supported(u) {
        assert raw[pos + n..] == raw[pos..][n..] == Render(us[1..]);
        DecodeRendered(us[1..], raw, pos + n);
      }
    }
  }

  /** The string character the loop has just consumed. */
  lemma UnitOfStep(raw: Bytes, pos: nat) returns (u: Unit)
    requires pos < |raw| && StepAt(raw, pos).Emit?
    ensures ValidUnit(u) && Supported(u) && StepAt(raw, pos).next == pos + |RenderUnit(u)|
    ensures raw[pos..StepAt(raw, pos).next] == RenderUnit(u)
  {
    if raw[pos] != BACKSLASH {
      u := Plain(raw[pos]);
    } else if ShortValue(raw[pos + 1]) >= 0 {
      u := Short(raw[pos + 1]);
    } else {
      u := Unicode(raw[pos + 2], raw[pos + 3], raw[pos + 4], raw[pos + 5]);
    }
  }

  /** Whatever the loop accepts is a list of valid string characters. */
  lemma {:induction false} UnitsOf(raw: Bytes, pos: nat) returns (us: seq<Unit>)
    requires pos <= |raw| && DecodeFrom(raw, pos).Ok?
    ensures ValidUnits(us) && Render(us) == raw[pos..]
    decreases |raw| - pos
  {
    if pos == |raw| {
      us := [];
    } else {
      var u := UnitOfStep(raw, pos);
      var next := StepAt(raw, pos).next;
      var rest := UnitsOf(raw, next);
      us := [u] + rest;
      assert us[1..] == rest;
      assert raw[pos..next] + raw[next..] == raw[pos..];
    }
  }

  ghost predicate AllSupported(us: seq<Unit>) { forall i :: 0 <= i < |us| ==> Supported(us[i]) }

  lemma {:induction false} MeaningOfSupported(us: seq<Unit>, at: nat)
    requires ValidUnits(us)
    ensures Meaning(us, at).Ok? <==> AllSupported(us)
  {
    if us != [] {
      MeaningOfSupported(us[1..], at + |RenderUnit(us[0])|);
      assert AllSupported(us) <==> Supported(us[0]) && AllSupported(us[1..]) by {
        assert forall i :: 1 <= i < |us| ==> us[i] == us[1..][i - 1];
      }
    }
  }

  /** On the content of a JSON string the loop can fail in one way only: on an escape above 00ff, the
      first one, reported at its position. */
  lemma FirstUnsupportedIsReported(us: seq<Unit>, i: nat)
    requires ValidUnits(us) && i < |us| && AllSupported(us[..i]) && !Supported(us[i])
    ensures DecodeFrom(Render(us), 0) == Err(UnsupportedUnicode(|Render(us[..i])| + 3))
  {
    assert Render(us)[0..] == Render(us);
    DecodeRendered(us, Render(us), 0);
    MeaningOfUnsupported(us, i, 0);
  }

  lemma {:induction false} MeaningOfUnsupported(us: seq<Unit>, i: nat, at: nat)
    requires ValidUnits(us) && i < |us| && AllSupported(us[..i]) && !Supported(us[i])
    ensures Meaning(us, at) == Err(UnsupportedUnicode(at + |Render(us[..i])| + 3))
  {
    if i > 0 {
      assert us[0] == us[..i][0];
      assert us[1..][..i - 1] == us[..i][1..];
      MeaningOfUnsupported(us[1..], i - 1, at + |RenderUnit(us[0])|);
    }
  }

  /** The loop succeeds exactly on the JSON string contents without an escape above 00ff. */
  lemma DecodeDecidesGrammar(raw: Bytes)
    ensures DecodeFrom(raw, 0).Ok? <==>
      exists us :: ValidUnits(us) && AllSupported(us) && Render(us) == raw
    ensures forall us :: ValidUnits(us) && Render(us) == raw ==> DecodeFrom(raw, 0) == Meaning(us, 0)
  {
    assert raw[0..] == raw;
    forall us | ValidUnits(us) && Render(us) == raw
      ensures DecodeFrom(raw, 0) == Meaning(us, 0)
      ensures Meaning(us, 0).Ok? <==> AllSupported(us)
    {
      DecodeRendered(us, raw, 0);
      MeaningOfSupported(us, 0);
    }
    if DecodeFrom(raw, 0).Ok? {
      var us := UnitsOf(raw, 0);
    }
  }

  // ----- escaping -----

  function HexDigit(v: int): Byte
    requires 0 <= v < 16
  {
    if v < 10 then 48 + v else 97 + v - 10
  }

  /** Escaping as in section 7 of RFC 8259, control characters as escapes with four digits. */
  function EscapeByte(b: Byte): Unit {
    if b == QUOTE || b == BACKSLASH then Short(b)
    else if b < 0x20 then Unicode(ZERO, ZERO, HexDigit(b / 16), HexDigit(b % 16))
    else Plain(b)
  }

  function Escape(bs: Bytes): seq<Unit> {
    if bs == [] then [] else [EscapeByte(bs[0])] + Escape(bs[1..])
  }

  lemma {:induction false} EscapeMeans(bs: Bytes, at: nat)
    ensures ValidUnits(Escape(bs)) && Meaning(Escape(bs), at) == Ok(bs)
  {
    if bs != [] {
      var u := EscapeByte(bs[0]);
      EscapeMeans(bs[1..], at + |RenderUnit(u)|);
      assert Escape(bs)[0] == u && Escape(bs)[1..] == Escape(bs[1..]);
      assert ValidUnit(u) && Supported(u) && UnitByte(u) == bs[0];
      assert [bs[0]] + bs[1..] == bs;
    }
  }

  /** Decoding inverts escaping, for every byte string. */
  lemma DecodeInvertsEscape(bs: Bytes)
    ensures DecodeFrom(Render(Escape(bs)), 0) == Ok(bs)
  {
    EscapeMeans(bs, 0);
    var raw := Render(Escape(bs));
    assert raw[0..] == raw;
    DecodeRendered(Escape(bs), raw, 0);
  }

  // ----- the escapes by number -----

  /** A hexadecimal digit, in either case, and its value. */
  predicate Digit(c: Byte, v: int) {
    (0 <= v <= 9 && c == 48 + v) || (10 <= v <= 15 && (c == 65 + (v - 10) || c == 97 + (v - 10)))
  }

  /** The ways to write a byte in a JSON string: as it is, with one of the eight letters of section 7 of
      RFC 8259, or with four hexadecimal digits. */
  predicate Writes(w: Bytes, b: Byte) {
    || (w == [b] && b >= 32 && b != 34 && b != 92)
    || (|w| == 2 && w[0] == 92
        && (w[1], b) in {(34, 34), (92, 92), (47, 47), (98, 8), (102, 12), (110, 10), (114, 13), (116, 9)})
    || (|w| == 6 && w[0] == 92 && w[1] == 117 && w[2] == 48 && w[3] == 48
        && Digit(w[4], b / 16) && Digit(w[5], b % 16))
  }

  function Joined(ws: seq<Bytes>): Bytes {
    if ws == [] then [] else ws[0] + Joined(ws[1..])
  }

  ghost predicate WritesAll(ws: seq<Bytes>, bs: Bytes) {
    |ws| == |bs| && forall i :: 0 <= i < |ws| ==> Writes(ws[i], bs[i])
  }

  lemma HexValueIs(c: Byte, v: int)
    requires 0 <= v
    ensures HexValue(c) == v <==> Digit(c, v)
  {
  }

  lemma StepReads(raw: Bytes, pos: nat, w: Bytes, b: Byte)
    requires Writes(w, b) && pos + |w| <= |raw| && raw[pos..pos + |w|] == w
    ensures pos < |raw| && StepAt(raw, pos) == Emit(b, pos + |w|)
  {
    forall i | 0 <= i < |w| ensures raw[pos + i] == w[i] {
      assert raw[pos + i] == raw[pos..pos + |w|][i];
    }
    assert raw[pos + 0] == w[0];
    if |w| == 2 {
      assert raw[pos + 1] == w[1];
    } else if |w| == 6 {
      assert raw[pos + 1] == w[1] && raw[pos + 2] == w[2] && raw[pos + 3] == w[3];
      assert raw[pos + 4] == w[4] && raw[pos + 5] == w[5];
      HexValueIs(w[4], b / 16);
      HexValueIs(w[5], b % 16);
    }
  }

  lemma StepWrote(raw: Bytes, pos: nat)
    requires pos < |raw| && StepAt(raw, pos).Emit?
    ensures Writes(raw[pos..StepAt(raw, pos).next], StepAt(raw, pos).b)
  {
    var e := StepAt(raw, pos);
    var w := raw[pos..e.next];
    if |w| == 6 {
      var v1, v0 := HexValue(raw[pos + 4]), HexValue(raw[pos + 5]);
      assert e.b == 16 * v1 + v0 && e.b / 16 == v1 && e.b % 16 == v0;
      HexValueIs(w[4], v1);
      HexValueIs(w[5], v0);
    }
  }

  lemma {:induction false} DecodeReads(raw: Bytes, pos: nat, ws: seq<Bytes>, bs: Bytes)
    requires pos <= |raw| && WritesAll(ws, bs) && raw[pos..] == Joined(ws)
    ensures DecodeFrom(raw, pos) == Ok(bs)
    decreases |ws|
  {
    if ws != [] {
      var n := |ws[0]|;
      assert raw[pos..pos + n] == raw[pos..][..n] == ws[0];
      StepReads(raw, pos, ws[0], bs[0]);
      assert raw[pos + n..] == raw[pos..][n..] == Joined(ws[1..]);
      DecodeReads(raw, pos + n, ws[1..], bs[1..]);
      assert [bs[0]] + bs[1..] == bs;
    }
  }

  lemma {:induction false} DecodeWrote(raw: Bytes, pos: nat) returns (ws: seq<Bytes>)
    requires pos <= |raw| && DecodeFrom(raw, pos).Ok?
    ensures WritesAll(ws, DecodeFrom(raw, pos).value) && Joined(ws) == raw[pos..]
    decreases |raw| - pos
  {
    if pos == |raw| {
      ws := [];
    } else {
      StepWrote(raw, pos);
      var next := StepAt(raw, pos).next;
      var rest := DecodeWrote(raw, next);
      ws := [raw[pos..next]] + rest;
      assert ws[1..] == rest;
      assert raw[pos..next] + raw[next..] == raw[pos..];
    }
  }

  /** Decoding gives a byte string exactly if the input writes it, byte by byte, in any of the ways there
      are: whatever escaper was used, decoding is its inverse. */
  lemma DecodeIsExact(raw: Bytes, bs: Bytes)
    ensures DecodeFrom(raw, 0) == Ok(bs) <==> exists ws :: WritesAll(ws, bs) && Joined(ws) == raw
  {
    assert raw[0..] == raw;
    if DecodeFrom(raw, 0) == Ok(bs) {
      var ws := DecodeWrote(raw, 0);
    }
    if exists ws :: WritesAll(ws, bs) && Joined(ws) == raw {
      var ws :| WritesAll(ws, bs) && Joined(ws) == raw;
      DecodeReads(raw, 0, ws, bs);
    }
  }

  /** What is wrong where no way of writing a byte begins. */
  lemma StepComplains(raw: Bytes, pos: nat)
    requires pos < |raw|
    ensures raw[pos] == 34 ==> StepAt(raw, pos) == Bad(BadQuote)
    ensures raw[pos] < 32 ==> StepAt(raw, pos) == Bad(InvalidControl)
    ensures raw[pos] == 92 ==>
      if pos + 1 == |raw| then StepAt(raw, pos) == Bad(OverflowEscape)
      else if raw[pos + 1] == 117 then
        if |raw| < pos + 6 then StepAt(raw, pos) == Bad(OverflowUnicode)
        else if raw[pos + 2..pos + 4] != [48, 48] then StepAt(raw, pos) == Bad(UnsupportedUnicode(pos + 3))
        else
          StepAt(raw, pos) == Bad(NotHexadecimal)
          <==> !IsDigit(raw[pos + 4]) || !IsDigit(raw[pos + 5])
      else StepAt(raw, pos) == Bad(BadEscape) <==> raw[pos + 1] !in {34, 92, 47, 98, 102, 110, 114, 116}
  {
    if raw[pos] == 92 && pos + 6 <= |raw| {
      assert raw[pos + 2..pos + 4] == [raw[pos + 2], raw[pos + 3]];
    }
  }

  predicate IsDigit(c: Byte) { 48 <= c <= 57 || 65 <= c <= 70 || 97 <= c <= 102 }
}
