/**
 The standard base64 encoding (section 4 of RFC 4648), with the decoder of Go's
 `base64.StdEncoding`: carriage returns and line feeds are ignored, padding is required, and the
 unused bits of the last digit are not checked. Text is a sequence of character codes; a code
 outside the alphabet is an error.
 */
module Base64 {
  import opened Wrappers

  type Byte = b: int | 0 <= b < 256

  const PAD := 61

  function Digit(v: nat): (c: Byte)
    requires v < 64
    ensures Value(c) == Some(v)
    ensures c != PAD && 43 <= c < 128 && c != 92
  {
    if v < 26 then 65 + v
    else if v < 52 then 97 + (v - 26)
    else if v < 62 then 48 + (v - 52)
    else if v == 62 then 43
    else 47
  }

  function Value(c: int): (v: Option<nat>)
    ensures v.Some? ==> v.value < 64
  {
    if 65 <= c <= 90 then Some(c - 65)
    else if 97 <= c <= 122 then Some(c - 97 + 26)
    else if 48 <= c <= 57 then Some(c - 48 + 52)
    else if c == 43 then Some(62)
    else if c == 47 then Some(63)
    else None
  }

  // The four digits of three bytes, and the three bytes of four digits.

  function D0(x: Byte): (v: nat) ensures v < 64 { x / 4 }
  function D1(x: Byte, y: Byte): (v: nat) ensures v < 64 { x % 4 * 16 + y / 16 }
  function D2(y: Byte, z: Byte): (v: nat) ensures v < 64 { y % 16 * 4 + z / 64 }
  function D3(z: Byte): (v: nat) ensures v < 64 { z % 64 }

  function B0(a: nat, b: nat): (x: Byte) requires a < 64 && b < 64 { a * 4 + b / 16 }
  function B1(b: nat, c: nat): (y: Byte) requires b < 64 && c < 64 { b % 16 * 16 + c / 4 }
  function B2(c: nat, d: nat): (z: Byte) requires c < 64 && d < 64 { c % 4 * 64 + d }

  function Encode(b: seq<Byte>): seq<Byte> {
    if b == [] then []
    else if |b| == 1 then [Digit(D0(b[0])), Digit(D1(b[0], 0)), PAD, PAD]
    else if |b| == 2 then [Digit(D0(b[0])), Digit(D1(b[0], b[1])), Digit(D2(b[1], 0)), PAD]
    else [Digit(D0(b[0])), Digit(D1(b[0], b[1])), Digit(D2(b[1], b[2])), Digit(D3(b[2]))] + Encode(b[3..])
  }

  function SkipBreaks(s: seq<int>): seq<int> {
    if s == [] then []
    else if s[0] == 10 || s[0] == 13 then SkipBreaks(s[1..])
    else [s[0]] + SkipBreaks(s[1..])
  }

  function Decode(s: seq<int>): Option<seq<Byte>> {
    DecodeQuanta(SkipBreaks(s))
  }

  /** Four digits at a time; only the last four may end in padding. */
  function DecodeQuanta(s: seq<int>): Option<seq<Byte>> {
    if s == [] then Some([])
    else if |s| < 4 then None
    else
      var v0, v1, v2, v3 := Value(s[0]), Value(s[1]), Value(s[2]), Value(s[3]);
      if v0.None? || v1.None? then None
      else if s[3] == PAD && s[2] == PAD then
        if |s| == 4 then Some([B0(v0.value, v1.value)]) else None
      else if v2.None? then None
      else if s[3] == PAD then
        if |s| == 4 then Some([B0(v0.value, v1.value), B1(v1.value, v2.value)]) else None
      else if v3.None? then None
      else
        var rest := DecodeQuanta(s[4..]);
        if rest.None? then None
        else Some([B0(v0.value, v1.value), B1(v1.value, v2.value), B2(v2.value, v3.value)] + rest.value)
  }

  /** Neither a line break, nor a quote, nor a backslash, nor a control character. */
  predicate Plain(c: int) {
    c >= 32 && c != 34 && c != 92
  }

  lemma {:induction false} EncodeIsPlain(b: seq<Byte>)
    ensures forall c <- Encode(b) :: Plain(c)
  {
    if |b| >= 3 { EncodeIsPlain(b[3..]); }
  }

  /** Nothing else is skipped. */
  lemma {:induction false} OthersAreKept(s: seq<int>)
    requires 10 !in s && 13 !in s
    ensures SkipBreaks(s) == s
  {
    if s != [] {
      assert s[0] in s;
      OthersAreKept(s[1..]);
      assert s == [s[0]] + s[1..];
    }
  }

  lemma {:induction false} QuantaRoundTrip(b: seq<Byte>)
    ensures DecodeQuanta(Encode(b)) == Some(b)
  {
    if |b| >= 3 {
      QuantaRoundTrip(b[3..]);
      FullQuantum(b);
    } else if |b| == 2 {
      TwoLeft(b);
    } else if |b| == 1 {
      OneLeft(b);
    }
  }

  lemma DecodeFull(s: seq<int>, v0: nat, v1: nat, v2: nat, v3: nat)
    requires |s| >= 4 && v0 < 64 && v1 < 64 && v2 < 64 && v3 < 64
    requires s[0] == Digit(v0) && s[1] == Digit(v1) && s[2] == Digit(v2) && s[3] == Digit(v3)
    ensures var rest := DecodeQuanta(s[4..]);
            DecodeQuanta(s) == if rest.None? then None else Some([B0(v0, v1), B1(v1, v2), B2(v2, v3)] + rest.value)
  {
  }

  lemma EncodeFull(b: seq<Byte>)
    requires |b| >= 3
    ensures var e := Encode(b);
            && |e| >= 4 && e[4..] == Encode(b[3..])
            && e[0] == Digit(D0(b[0])) && e[1] == Digit(D1(b[0], b[1])) && e[2] == Digit(D2(b[1], b[2]))
            && e[3] == Digit(D3(b[2]))
  {
  }

  lemma Join(b: seq<Byte>, x: Byte, y: Byte, z: Byte)
    requires |b| >= 3 && x == b[0] && y == b[1] && z == b[2]
    ensures [x, y, z] + b[3..] == b
  {
  }

  lemma FullQuantum(b: seq<Byte>)
    requires |b| >= 3 && DecodeQuanta(Encode(b[3..])) == Some(b[3..])
    ensures DecodeQuanta(Encode(b)) == Some(b)
  {
    EncodeFull(b);
    DecodeFull(Encode(b), D0(b[0]), D1(b[0], b[1]), D2(b[1], b[2]), D3(b[2]));
    Triple(b[0], b[1], b[2]);
    Join(b, B0(D0(b[0]), D1(b[0], b[1])), B1(D1(b[0], b[1]), D2(b[1], b[2])), B2(D2(b[1], b[2]), D3(b[2])));
  }

  lemma DecodeTwo(s: seq<int>, v0: nat, v1: nat, v2: nat)
    requires |s| == 4 && v0 < 64 && v1 < 64 && v2 < 64
    requires s[0] == Digit(v0) && s[1] == Digit(v1) && s[2] == Digit(v2) && s[3] == PAD
    ensures DecodeQuanta(s) == Some([B0(v0, v1), B1(v1, v2)])
  {
  }

  lemma DecodeOne(s: seq<int>, v0: nat, v1: nat)
    requires |s| == 4 && v0 < 64 && v1 < 64
    requires s[0] == Digit(v0) && s[1] == Digit(v1) && s[2] == PAD && s[3] == PAD
    ensures DecodeQuanta(s) == Some([B0(v0, v1)])
  {
  }

  lemma EncodeTwo(b: seq<Byte>)
    requires |b| == 2
    ensures var e := Encode(b);
            |e| == 4 && e[0] == Digit(D0(b[0])) && e[1] == Digit(D1(b[0], b[1])) && e[2] == Digit(D2(b[1], 0))
              && e[3] == PAD
  {
  }

  lemma EncodeOne(b: seq<Byte>)
    requires |b| == 1
    ensures var e := Encode(b);
            |e| == 4 && e[0] == Digit(D0(b[0])) && e[1] == Digit(D1(b[0], 0)) && e[2] == PAD && e[3] == PAD
  {
  }

  lemma TwoLeft(b: seq<Byte>)
    requires |b| == 2
    ensures DecodeQuanta(Encode(b)) == Some(b)
  {
    EncodeTwo(b);
    DecodeTwo(Encode(b), D0(b[0]), D1(b[0], b[1]), D2(b[1], 0));
    Triple(b[0], b[1], 0);
    Pair(b, B0(D0(b[0]), D1(b[0], b[1])), B1(D1(b[0], b[1]), D2(b[1], 0)));
  }

  lemma OneLeft(b: seq<Byte>)
    requires |b| == 1
    ensures DecodeQuanta(Encode(b)) == Some(b)
  {
    EncodeOne(b);
    DecodeOne(Encode(b), D0(b[0]), D1(b[0], 0));
    Triple(b[0], 0, 0);
    Single(b, B0(D0(b[0]), D1(b[0], 0)));
  }

  lemma Pair(b: seq<Byte>, x: Byte, y: Byte)
    requires |b| == 2 && x == b[0] && y == b[1]
    ensures [x, y] == b
  {
  }

  lemma Single(b: seq<Byte>, x: Byte)
    requires |b| == 1 && x == b[0]
    ensures [x] == b
  {
  }

  lemma Triple(x: Byte, y: Byte, z: Byte)
    ensures B0(D0(x), D1(x, y)) == x && B1(D1(x, y), D2(y, z)) == y && B2(D2(y, z), D3(z)) == z
  {
  }

  /** Whatever the bytes, decoding their encoding gives them back. */
  lemma DecodeEncode(b: seq<Byte>)
    ensures Decode(Encode(b)) == Some(b)
  {
    EncodeIsPlain(b);
    OthersAreKept(Encode(b));
    QuantaRoundTrip(b);
  }

  /** The examples of section 10 of RFC 4648. */
  lemma TestVectors()
    ensures Encode([]) == []
    ensures Encode([102]) == [90, 103, PAD, PAD]
    ensures Encode([102, 111]) == [90, 109, 56, PAD]
    ensures Encode([102, 111, 111]) == [90, 109, 57, 118]
    ensures Encode([102, 111, 111, 98]) == [90, 109, 57, 118, 89, 103, PAD, PAD]
    ensures Encode([102, 111, 111, 98, 97]) == [90, 109, 57, 118, 89, 109, 69, PAD]
    ensures Encode([102, 111, 111, 98, 97, 114]) == [90, 109, 57, 118, 89, 109, 70, 121]
  {
    assert [102, 111, 111, 98][3..] == [98];
    assert [102, 111, 111, 98, 97][3..] == [98, 97];
    assert [102, 111, 111, 98, 97, 114][3..] == [98, 97, 114];
  }

  // ---- What is decoded ----

  lemma {:induction false} BreakIsSkipped(a: seq<int>, c: int, b: seq<int>, s: seq<int>, t: seq<int>)
    requires (c == 10 || c == 13) && s == a + [c] + b && t == a + b
    ensures SkipBreaks(s) == SkipBreaks(t)
  {
    if a == [] {
      assert s[0] == c && s[1..] == b == t;
    } else {
      assert s[0] == a[0] == t[0];
      assert s[1..] == a[1..] + [c] + b && t[1..] == a[1..] + b;
      BreakIsSkipped(a[1..], c, b, s[1..], t[1..]);
    }
  }

  /** A line feed or a carriage return anywhere changes nothing. */
  lemma BreaksAreIgnored(a: seq<int>, c: int, b: seq<int>)
    requires c == 10 || c == 13
    ensures Decode(a + [c] + b) == Decode(a + b)
  {
    BreakIsSkipped(a, c, b, a + [c] + b, a + b);
  }

  /** Digits of the alphabet in fours, of which the last one or two may be padding instead. */
  ghost predicate WellFormed(s: seq<int>, pad: nat) {
    && |s| % 4 == 0 && pad <= 2 && pad <= |s|
    && (forall i :: 0 <= i < |s| - pad ==> Value(s[i]).Some?)
    && (forall i :: |s| - pad <= i < |s| ==> s[i] == PAD)
  }

  ghost predicate IsWellFormed(s: seq<int>) {
    exists pad: nat :: WellFormed(s, pad)
  }

  lemma FirstFour(s: seq<int>, pad: nat)
    requires |s| >= 4 && WellFormed(s, pad) && (|s| > 4 || pad == 0)
    ensures Value(s[0]).Some? && Value(s[1]).Some? && Value(s[2]).Some? && Value(s[3]).Some?
    ensures WellFormed(s[4..], pad)
  {
    assert |s| > 4 ==> |s| >= 8;
    forall i | 0 <= i < |s| - 4
      ensures s[4..][i] == s[i + 4]
    {
    }
  }

  lemma FourMore(s: seq<int>, pad: nat)
    requires |s| >= 4 && WellFormed(s[4..], pad)
    requires Value(s[0]).Some? && Value(s[1]).Some? && Value(s[2]).Some? && Value(s[3]).Some?
    ensures WellFormed(s, pad)
  {
    forall i | 4 <= i < |s|
      ensures s[i] == s[4..][i - 4]
    {
    }
  }

  /** Text without breaks decodes if and only if it is well formed, to three bytes for four digits less the padding. */
  lemma {:induction false} QuantaIff(s: seq<int>)
    ensures DecodeQuanta(s).Some? <==> IsWellFormed(s)
    ensures forall pad: nat :: WellFormed(s, pad) ==>
      DecodeQuanta(s).Some? && |DecodeQuanta(s).value| == |s| / 4 * 3 - pad
  {
    if |s| <= 4 {
      ShortQuantaIff(s);
    } else {
      QuantaIff(s[4..]);
      forall pad: nat | WellFormed(s, pad)
        ensures DecodeQuanta(s).Some? && |DecodeQuanta(s).value| == |s| / 4 * 3 - pad
      {
        FirstFour(s, pad);
      }
      if DecodeQuanta(s).Some? {
        var pad: nat :| WellFormed(s[4..], pad);
        FourMore(s, pad);
      }
    }
  }

  lemma ShortQuantaIff(s: seq<int>)
    requires |s| <= 4
    ensures DecodeQuanta(s).Some? <==> IsWellFormed(s)
    ensures forall pad: nat :: WellFormed(s, pad) ==>
      DecodeQuanta(s).Some? && |DecodeQuanta(s).value| == |s| / 4 * 3 - pad
  {
    assert WellFormed([], 0);
    if DecodeQuanta(s).Some? && |s| == 4 {
      assert WellFormed(s, if s[3] != PAD then 0 else if s[2] != PAD then 1 else 2);
    }
  }

  /** Text decodes if and only if it is well formed but for its line breaks. */
  lemma DecodeIff(s: seq<int>)
    ensures Decode(s).Some? <==> IsWellFormed(SkipBreaks(s))
  {
    QuantaIff(SkipBreaks(s));
  }

  lemma DigitOfValue(c: Byte)
    requires Value(c).Some?
    ensures Digit(Value(c).value) == c
  {
  }

  lemma Quadruple(a: nat, b: nat, c: nat, d: nat)
    requires a < 64 && b < 64 && c < 64 && d < 64
    ensures D0(B0(a, b)) == a && D1(B0(a, b), B1(b, c)) == b && D2(B1(b, c), B2(c, d)) == c && D3(B2(c, d)) == d
  {
  }

  /** Equal but for the last digit before padding, of which only the used bits count. */
  ghost predicate SameText(e: seq<int>, s: seq<int>) {
    |e| == |s| && forall i :: 0 <= i < |s| ==> SameAt(e, s, i)
  }

  predicate SameAt(e: seq<int>, s: seq<int>, i: nat)
    requires |e| == |s| && i < |s|
  {
    e[i] == s[i] || (s[i] != PAD && i + 1 < |s| && s[i + 1] == PAD)
  }

  lemma FourThenSame(e: seq<int>, s: seq<int>)
    requires |e| >= 4 && |s| >= 4 && SameText(e[4..], s[4..])
    requires e[0] == s[0] && e[1] == s[1] && e[2] == s[2] && e[3] == s[3]
    ensures SameText(e, s)
  {
    assert |s| == |e|;
    forall i | 4 <= i < |s|
      ensures SameAt(e, s, i)
    {
      assert SameAt(e[4..], s[4..], i - 4);
    }
  }

  /** What was decoded encodes back to the text, but for the bits that the last digit does not use. */
  lemma {:induction false} QuantaReencode(s: seq<int>)
    requires DecodeQuanta(s).Some?
    ensures SameText(Encode(DecodeQuanta(s).value), s)
  {
    if s != [] {
      if s[3] == PAD {
        PaddedReencode(s);
      } else {
        var v0, v1, v2, v3 := FullQuad(s);
        QuantaReencode(s[4..]);
        FullReencode(s, v0, v1, v2, v3, DecodeQuanta(s[4..]).value, DecodeQuanta(s).value);
      }
    }
  }

  lemma PaddedReencode(s: seq<int>)
    requires DecodeQuanta(s).Some? && s != [] && s[3] == PAD
    ensures SameText(Encode(DecodeQuanta(s).value), s)
  {
    var b := DecodeQuanta(s).value;
    DigitOfValue(s[0]);
    if s[2] == PAD {
      Quadruple(Value(s[0]).value, Value(s[1]).value, 0, 0);
      EncodeOne(b);
    } else {
      DigitOfValue(s[1]);
      Quadruple(Value(s[0]).value, Value(s[1]).value, Value(s[2]).value, 0);
      EncodeTwo(b);
    }
  }

  lemma FullQuad(s: seq<int>) returns (v0: nat, v1: nat, v2: nat, v3: nat)
    requires DecodeQuanta(s).Some? && s != [] && s[3] != PAD
    ensures v0 < 64 && v1 < 64 && v2 < 64 && v3 < 64 && |s| >= 4 && DecodeQuanta(s[4..]).Some?
    ensures s[0] == Digit(v0) && s[1] == Digit(v1) && s[2] == Digit(v2) && s[3] == Digit(v3)
    ensures DecodeQuanta(s).value == [B0(v0, v1), B1(v1, v2), B2(v2, v3)] + DecodeQuanta(s[4..]).value
  {
    v0, v1, v2, v3 := Value(s[0]).value, Value(s[1]).value, Value(s[2]).value, Value(s[3]).value;
    DigitOfValue(s[0]);
    DigitOfValue(s[1]);
    DigitOfValue(s[2]);
    DigitOfValue(s[3]);
  }

  lemma FullReencode(s: seq<int>, v0: nat, v1: nat, v2: nat, v3: nat, rest: seq<Byte>, b: seq<Byte>)
    requires v0 < 64 && v1 < 64 && v2 < 64 && v3 < 64 && |s| >= 4 && SameText(Encode(rest), s[4..])
    requires s[0] == Digit(v0) && s[1] == Digit(v1) && s[2] == Digit(v2) && s[3] == Digit(v3)
    requires b == [B0(v0, v1), B1(v1, v2), B2(v2, v3)] + rest
    ensures SameText(Encode(b), s)
  {
    EncodeBack(v0, v1, v2, v3, rest, b);
    FourThenSame(Encode(b), s);
  }

  lemma EncodeBack(v0: nat, v1: nat, v2: nat, v3: nat, rest: seq<Byte>, b: seq<Byte>)
    requires v0 < 64 && v1 < 64 && v2 < 64 && v3 < 64 && b == [B0(v0, v1), B1(v1, v2), B2(v2, v3)] + rest
    ensures var e := Encode(b);
            && |e| >= 4 && e[4..] == Encode(rest)
            && e[0] == Digit(v0) && e[1] == Digit(v1) && e[2] == Digit(v2) && e[3] == Digit(v3)
  {
    assert b[3..] == rest;
    Quadruple(v0, v1, v2, v3);
    EncodeFull(b);
  }

  lemma DecodedReencodes(s: seq<int>)
    requires Decode(s).Some?
    ensures SameText(Encode(Decode(s).value), SkipBreaks(s))
  {
    QuantaReencode(SkipBreaks(s));
  }
}
