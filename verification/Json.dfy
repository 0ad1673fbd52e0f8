/**
 JSON text (RFC 8259) as Go's `encoding/json` reads it, over bytes.

 Each function takes the remaining input and returns how many bytes the construct takes, or None
 where the reader reports an error. Strings are checked byte by byte, so a byte of 128 or more
 stands for itself, and containers nest at most 10000 deep. The members of an object come back in
 order, as the bytes between the quotes of the key and the bytes of the value.
 */
module Json {
  import opened Wrappers
  import opened Base64

  const MAX_DEPTH := 10000

  const QUOTE := 34
  const BACKSLASH := 92
  const COMMA := 44
  const COLON := 58
  const LBRACE := 123
  const RBRACE := 125
  const LBRACKET := 91
  const RBRACKET := 93

  datatype Member = Member(key: seq<Byte>, value: seq<Byte>)

  // ---- Tokens ----

  predicate IsSpace(b: int) {
    b == 32 || b == 9 || b == 10 || b == 13
  }

  function Spaces(s: seq<Byte>): (n: nat)
    ensures n <= |s| && (n < |s| ==> !IsSpace(s[n]))
  {
    if s == [] || !IsSpace(s[0]) then 0 else 1 + Spaces(s[1..])
  }

  predicate IsDigit(b: int) {
    48 <= b <= 57
  }

  predicate IsHex(b: int) {
    IsDigit(b) || 65 <= b <= 70 || 97 <= b <= 102
  }

  predicate IsShortEscape(b: int) {
    b == QUOTE || b == BACKSLASH || b == 47 || b == 98 || b == 102 || b == 110 || b == 114 || b == 116
  }

  /** The rest of a string, its closing quote included. */
  function Chars(s: seq<Byte>): (n: Option<nat>)
    ensures n.Some? ==> 1 <= n.value <= |s| && s[n.value - 1] == QUOTE
  {
    if s == [] then None
    else if s[0] == QUOTE then Some(1)
    else if s[0] == BACKSLASH then
      if |s| >= 2 && IsShortEscape(s[1]) then Plus(2, Chars(s[2..]))
      else if |s| >= 6 && s[1] == 117 && IsHex(s[2]) && IsHex(s[3]) && IsHex(s[4]) && IsHex(s[5])
        then Plus(6, Chars(s[6..]))
      else None
    else if s[0] < 32 then None
    else Plus(1, Chars(s[1..]))
  }

  function Plus(k: nat, n: Option<nat>): Option<nat> {
    if n.Some? then Some(k + n.value) else None
  }

  function Digits(s: seq<Byte>): (n: nat)
    ensures n <= |s|
  {
    if s == [] || !IsDigit(s[0]) then 0 else 1 + Digits(s[1..])
  }

  /** The integer part: one zero, or digits that do not begin with one. */
  function IntPart(s: seq<Byte>): (n: nat)
    ensures n <= |s|
  {
    if s != [] && s[0] == 48 then 1 else Digits(s)
  }

  /** A point and digits, or nothing. None if the digits are missing. */
  function FracPart(s: seq<Byte>): (n: Option<nat>)
    ensures n.Some? ==> n.value <= |s|
  {
    if s == [] || s[0] != 46 then Some(0)
    else if Digits(s[1..]) == 0 then None
    else Some(1 + Digits(s[1..]))
  }

  function ExpPart(s: seq<Byte>): (n: Option<nat>)
    ensures n.Some? ==> n.value <= |s|
  {
    if s == [] || (s[0] != 101 && s[0] != 69) then Some(0)
    else
      var sign := if |s| > 1 && (s[1] == 43 || s[1] == 45) then 1 else 0;
      if Digits(s[1 + sign..]) == 0 then None
      else Some(1 + sign + Digits(s[1 + sign..]))
  }

  /** A fraction, then an exponent. */
  function FracExp(s: seq<Byte>): (n: Option<nat>)
    ensures n.Some? ==> n.value <= |s|
  {
    var f := FracPart(s);
    if f.None? then None else Plus(f.value, ExpPart(s[f.value..]))
  }

  function Unsigned(s: seq<Byte>): (n: Option<nat>)
    ensures n.Some? ==> 0 < n.value <= |s|
  {
    var i := IntPart(s);
    if i == 0 then None else Plus(i, FracExp(s[i..]))
  }

  function Number(s: seq<Byte>): (n: Option<nat>)
    ensures n.Some? ==> 0 < n.value <= |s|
  {
    if s != [] && s[0] == 45 then Plus(1, Unsigned(s[1..])) else Unsigned(s)
  }

  /** Space, then the closing mark. */
  function Close(s: seq<Byte>, mark: int): (n: Option<nat>)
    ensures n.Some? ==> 0 < n.value <= |s|
  {
    var k := Spaces(s);
    if k < |s| && s[k] == mark then Some(k + 1) else None
  }

  /** A separator, with the space around it. */
  function Separator(s: seq<Byte>, mark: int): (n: Option<nat>)
    ensures n.Some? ==> 0 < n.value <= |s|
  {
    var k := Close(s, mark);
    if k.None? then None else Some(k.value + Spaces(s[k.value..]))
  }

  function Text(s: seq<Byte>): (n: Option<nat>)
    ensures n.Some? ==> 2 <= n.value <= |s|
  {
    if s == [] || s[0] != QUOTE then None else Plus(1, Chars(s[1..]))
  }

  function Word(s: seq<Byte>, w: seq<Byte>): (n: Option<nat>)
    ensures n.Some? ==> n.value == |w| <= |s|
  {
    if w <= s then Some(|w|) else None
  }

  const TRUE: seq<Byte> := [116, 114, 117, 101]
  const FALSE: seq<Byte> := [102, 97, 108, 115, 101]
  const NULL: seq<Byte> := [110, 117, 108, 108]

  // ---- Values ----

  /** One value; at most `depth` containers may be open inside it, itself counted. */
  function Value(s: seq<Byte>, depth: nat): (n: Option<nat>)
    ensures n.Some? ==> 0 < n.value <= |s|
    decreases |s|, 4
  {
    if s == [] then None
    else if s[0] == LBRACE then
      if depth == 0 then None else Plus(1, Object(s[1..], depth - 1))
    else if s[0] == LBRACKET then
      if depth == 0 then None else Plus(1, Array(s[1..], depth - 1))
    else if s[0] == QUOTE then Text(s)
    else if s[0] == 45 || IsDigit(s[0]) then Number(s)
    else if s[0] == 116 then Word(s, TRUE)
    else if s[0] == 102 then Word(s, FALSE)
    else Word(s, NULL)
  }

  /** What follows an opening brace. */
  function Object(s: seq<Byte>, depth: nat): (n: Option<nat>)
    ensures n.Some? ==> 0 < n.value <= |s|
    decreases |s|, 6
  {
    if Close(s, RBRACE).Some? then Close(s, RBRACE) else Plus(Spaces(s), Members(s[Spaces(s)..], depth))
  }

  function Members(s: seq<Byte>, depth: nat): (n: Option<nat>)
    ensures n.Some? ==> 0 < n.value <= |s|
    decreases |s|, 5
  {
    var m := OneMember(s, depth);
    if m.None? then None else Plus(m.value, MoreMembers(s[m.value..], depth))
  }

  /** The closing brace, or a comma and more members. */
  function MoreMembers(s: seq<Byte>, depth: nat): (n: Option<nat>)
    ensures n.Some? ==> 0 < n.value <= |s|
    decreases |s|, 1
  {
    if Close(s, RBRACE).Some? then Close(s, RBRACE) else
    var k := Separator(s, COMMA);
    if k.None? then None else Plus(k.value, Members(s[k.value..], depth))
  }

  /** A key, a colon and a value. */
  function OneMember(s: seq<Byte>, depth: nat): (n: Option<nat>)
    ensures n.Some? ==> 0 < n.value <= |s|
    decreases |s|, 1
  {
    var q := Text(s);
    if q.None? then None else Plus(q.value, ColonValue(s[q.value..], depth))
  }

  function ColonValue(s: seq<Byte>, depth: nat): (n: Option<nat>)
    ensures n.Some? ==> 0 < n.value <= |s|
    decreases |s|, 1
  {
    var c := Separator(s, COLON);
    if c.None? then None else Plus(c.value, Value(s[c.value..], depth))
  }

  /** What follows an opening bracket. */
  function Array(s: seq<Byte>, depth: nat): (n: Option<nat>)
    ensures n.Some? ==> 0 < n.value <= |s|
    decreases |s|, 6
  {
    if Close(s, RBRACKET).Some? then Close(s, RBRACKET) else Plus(Spaces(s), Elements(s[Spaces(s)..], depth))
  }

  function Elements(s: seq<Byte>, depth: nat): (n: Option<nat>)
    ensures n.Some? ==> 0 < n.value <= |s|
    decreases |s|, 5
  {
    var v := Value(s, depth);
    if v.None? then None else Plus(v.value, MoreElements(s[v.value..], depth))
  }

  function MoreElements(s: seq<Byte>, depth: nat): (n: Option<nat>)
    ensures n.Some? ==> 0 < n.value <= |s|
    decreases |s|, 1
  {
    if Close(s, RBRACKET).Some? then Close(s, RBRACKET) else
    var k := Separator(s, COMMA);
    if k.None? then None else Plus(k.value, Elements(s[k.value..], depth))
  }

  // ---- Documents ----

  /** `json.Valid`: one value, with space around it. */
  predicate Valid(d: seq<Byte>) {
    var v := d[Spaces(d)..];
    var n := Value(v, MAX_DEPTH);
    n.Some? && Spaces(v[n.value..]) == |v| - n.value
  }

  // ---- The members of an object ----

  function AfterColon(s: seq<Byte>, depth: nat): seq<Byte>
    requires ColonValue(s, depth).Some?
  {
    s[Separator(s, COLON).value..ColonValue(s, depth).value]
  }

  /** The key and the value of one member, as they are written. */
  function MemberAt(s: seq<Byte>, depth: nat): Member
    requires OneMember(s, depth).Some?
  {
    var q := Text(s).value;
    Member(s[1..q - 1], AfterColon(s[q..], depth))
  }

  function Fields(s: seq<Byte>, depth: nat): seq<Member>
    requires Members(s, depth).Some?
    decreases |s|, 1
  {
    [MemberAt(s, depth)] + MoreFields(s[OneMember(s, depth).value..], depth)
  }

  function MoreFields(s: seq<Byte>, depth: nat): seq<Member>
    requires MoreMembers(s, depth).Some?
    decreases |s|, 0
  {
    if Close(s, RBRACE).Some? then [] else Fields(s[Separator(s, COMMA).value..], depth)
  }

  function ObjectFields(s: seq<Byte>, depth: nat): seq<Member>
    requires Object(s, depth).Some?
  {
    if Close(s, RBRACE).Some? then [] else Fields(s[Spaces(s)..], depth)
  }

  /** The members of a document that is an object. */
  function TopObject(d: seq<Byte>): Option<seq<Member>> {
    var k := Spaces(d);
    if !Valid(d) || d[k] != LBRACE then None
    else Some(ObjectFields(d[k + 1..], MAX_DEPTH - 1))
  }

  // ---- Nothing beyond a construct matters to it ----

  lemma Drop(t: seq<Byte>, s: seq<Byte>, j: nat)
    requires t <= s && j <= |t|
    ensures t[j..] <= s[j..]
  {
  }

  lemma {:induction false} SpacesCut(t: seq<Byte>, s: seq<Byte>)
    requires t <= s
    ensures Spaces(t) == if Spaces(s) < |t| then Spaces(s) else |t|
  {
    if |t| > 0 && IsSpace(s[0]) {
      Drop(t, s, 1);
      SpacesCut(t[1..], s[1..]);
    }
  }

  lemma {:induction false} DigitsCut(t: seq<Byte>, s: seq<Byte>)
    requires t <= s
    ensures Digits(t) == if Digits(s) < |t| then Digits(s) else |t|
  {
    if |t| > 0 && IsDigit(s[0]) {
      Drop(t, s, 1);
      DigitsCut(t[1..], s[1..]);
    }
  }

  lemma {:induction false} CharsCut(t: seq<Byte>, s: seq<Byte>)
    requires Chars(s).Some? && Chars(s).value <= |t| && t <= s
    ensures Chars(t) == Chars(s)
  {
    if s[0] == QUOTE {
    } else if s[0] != BACKSLASH {
      Drop(t, s, 1);
      CharsCut(t[1..], s[1..]);
    } else if IsShortEscape(s[1]) {
      Drop(t, s, 2);
      CharsCut(t[2..], s[2..]);
    } else {
      Drop(t, s, 6);
      CharsCut(t[6..], s[6..]);
    }
  }

  lemma IntPartCut(t: seq<Byte>, s: seq<Byte>)
    requires 0 < IntPart(s) <= |t| && t <= s
    ensures IntPart(t) == IntPart(s)
  {
    DigitsCut(t, s);
  }

  lemma FracPartCut(t: seq<Byte>, s: seq<Byte>)
    requires FracPart(s).Some? && FracPart(s).value <= |t| && t <= s
    ensures FracPart(t) == FracPart(s)
  {
    if |t| > 0 && s[0] == 46 {
      Drop(t, s, 1);
      DigitsCut(t[1..], s[1..]);
    }
  }

  lemma ExpPartCut(t: seq<Byte>, s: seq<Byte>)
    requires ExpPart(s).Some? && ExpPart(s).value <= |t| && t <= s
    ensures ExpPart(t) == ExpPart(s)
  {
    if |t| > 0 && (s[0] == 101 || s[0] == 69) {
      var sign := if |s| > 1 && (s[1] == 43 || s[1] == 45) then 1 else 0;
      Drop(t, s, 1 + sign);
      DigitsCut(t[1 + sign..], s[1 + sign..]);
    }
  }

  lemma FracExpCut(t: seq<Byte>, s: seq<Byte>)
    requires FracExp(s).Some? && FracExp(s).value <= |t| && t <= s
    ensures FracExp(t) == FracExp(s)
  {
    var f := FracPart(s).value;
    FracPartCut(t, s);
    Drop(t, s, f);
    ExpPartCut(t[f..], s[f..]);
  }

  lemma UnsignedCut(t: seq<Byte>, s: seq<Byte>)
    requires Unsigned(s).Some? && Unsigned(s).value <= |t| && t <= s
    ensures Unsigned(t) == Unsigned(s)
  {
    var i := IntPart(s);
    IntPartCut(t, s);
    Drop(t, s, i);
    FracExpCut(t[i..], s[i..]);
  }

  lemma NumberCut(t: seq<Byte>, s: seq<Byte>)
    requires Number(s).Some? && Number(s).value <= |t| && t <= s
    ensures Number(t) == Number(s)
  {
    if s[0] == 45 {
      Drop(t, s, 1);
      UnsignedCut(t[1..], s[1..]);
    } else {
      UnsignedCut(t, s);
    }
  }

  lemma CloseCut(t: seq<Byte>, s: seq<Byte>, mark: int)
    requires t <= s && (Close(s, mark).Some? ==> Close(s, mark).value <= |t|)
    ensures Close(t, mark) == Close(s, mark)
  {
    SpacesCut(t, s);
  }

  lemma SeparatorCut(t: seq<Byte>, s: seq<Byte>, mark: int)
    requires Separator(s, mark).Some? && Separator(s, mark).value <= |t| && t <= s
    ensures Separator(t, mark) == Separator(s, mark)
  {
    var c := Close(s, mark).value;
    CloseCut(t, s, mark);
    Drop(t, s, c);
    SpacesCut(t[c..], s[c..]);
  }

  lemma TextCut(t: seq<Byte>, s: seq<Byte>)
    requires Text(s).Some? && Text(s).value <= |t| && t <= s
    ensures Text(t) == Text(s)
  {
    Drop(t, s, 1);
    CharsCut(t[1..], s[1..]);
  }

  lemma WordCut(t: seq<Byte>, s: seq<Byte>, w: seq<Byte>)
    requires Word(s, w).Some? && |w| <= |t| && t <= s
    ensures Word(t, w) == Word(s, w)
  {
  }

  lemma {:induction false} ValueCut(t: seq<Byte>, s: seq<Byte>, depth: nat)
    requires Value(s, depth).Some? && Value(s, depth).value <= |t| && t <= s
    ensures Value(t, depth) == Value(s, depth)
    decreases |s|, 4
  {
    if s[0] == LBRACE {
      Drop(t, s, 1);
      ObjectCut(t[1..], s[1..], depth - 1);
    } else if s[0] == LBRACKET {
      Drop(t, s, 1);
      ArrayCut(t[1..], s[1..], depth - 1);
    } else if s[0] == QUOTE {
      TextCut(t, s);
    } else if s[0] == 45 || IsDigit(s[0]) {
      NumberCut(t, s);
    } else if s[0] == 116 {
      WordCut(t, s, TRUE);
    } else if s[0] == 102 {
      WordCut(t, s, FALSE);
    } else {
      WordCut(t, s, NULL);
    }
  }

  lemma {:induction false} ObjectCut(t: seq<Byte>, s: seq<Byte>, depth: nat)
    requires Object(s, depth).Some? && Object(s, depth).value <= |t| && t <= s
    ensures Object(t, depth) == Object(s, depth)
    decreases |s|, 6
  {
    CloseCut(t, s, RBRACE);
    if Close(s, RBRACE).None? {
      var n := Spaces(s);
      SpacesCut(t, s);
      Drop(t, s, n);
      MembersCut(t[n..], s[n..], depth);
    }
  }

  lemma {:induction false} MembersCut(t: seq<Byte>, s: seq<Byte>, depth: nat)
    requires Members(s, depth).Some? && Members(s, depth).value <= |t| && t <= s
    ensures Members(t, depth) == Members(s, depth)
    decreases |s|, 5
  {
    var m := OneMember(s, depth).value;
    OneMemberCut(t, s, depth);
    Drop(t, s, m);
    MoreMembersCut(t[m..], s[m..], depth);
  }

  lemma {:induction false} MoreMembersCut(t: seq<Byte>, s: seq<Byte>, depth: nat)
    requires MoreMembers(s, depth).Some? && MoreMembers(s, depth).value <= |t| && t <= s
    ensures MoreMembers(t, depth) == MoreMembers(s, depth)
    decreases |s|, 1
  {
    CloseCut(t, s, RBRACE);
    if Close(s, RBRACE).None? {
      var c := Separator(s, COMMA).value;
      SeparatorCut(t, s, COMMA);
      Drop(t, s, c);
      MembersCut(t[c..], s[c..], depth);
    }
  }

  lemma {:induction false} OneMemberCut(t: seq<Byte>, s: seq<Byte>, depth: nat)
    requires OneMember(s, depth).Some? && OneMember(s, depth).value <= |t| && t <= s
    ensures OneMember(t, depth) == OneMember(s, depth)
    decreases |s|, 1
  {
    var q := Text(s).value;
    TextCut(t, s);
    Drop(t, s, q);
    ColonValueCut(t[q..], s[q..], depth);
  }

  lemma {:induction false} ColonValueCut(t: seq<Byte>, s: seq<Byte>, depth: nat)
    requires ColonValue(s, depth).Some? && ColonValue(s, depth).value <= |t| && t <= s
    ensures ColonValue(t, depth) == ColonValue(s, depth)
    decreases |s|, 1
  {
    var c := Separator(s, COLON).value;
    SeparatorCut(t, s, COLON);
    Drop(t, s, c);
    ValueCut(t[c..], s[c..], depth);
  }

  lemma {:induction false} ArrayCut(t: seq<Byte>, s: seq<Byte>, depth: nat)
    requires Array(s, depth).Some? && Array(s, depth).value <= |t| && t <= s
    ensures Array(t, depth) == Array(s, depth)
    decreases |s|, 6
  {
    CloseCut(t, s, RBRACKET);
    if Close(s, RBRACKET).None? {
      var n := Spaces(s);
      SpacesCut(t, s);
      Drop(t, s, n);
      ElementsCut(t[n..], s[n..], depth);
    }
  }

  lemma {:induction false} ElementsCut(t: seq<Byte>, s: seq<Byte>, depth: nat)
    requires Elements(s, depth).Some? && Elements(s, depth).value <= |t| && t <= s
    ensures Elements(t, depth) == Elements(s, depth)
    decreases |s|, 5
  {
    var v := Value(s, depth).value;
    ValueCut(t, s, depth);
    Drop(t, s, v);
    MoreElementsCut(t[v..], s[v..], depth);
  }

  lemma {:induction false} MoreElementsCut(t: seq<Byte>, s: seq<Byte>, depth: nat)
    requires MoreElements(s, depth).Some? && MoreElements(s, depth).value <= |t| && t <= s
    ensures MoreElements(t, depth) == MoreElements(s, depth)
    decreases |s|, 1
  {
    CloseCut(t, s, RBRACKET);
    if Close(s, RBRACKET).None? {
      var c := Separator(s, COMMA).value;
      SeparatorCut(t, s, COMMA);
      Drop(t, s, c);
      ElementsCut(t[c..], s[c..], depth);
    }
  }

  // ---- An object ends at its brace ----

  lemma {:induction false} ObjectEnds(s: seq<Byte>, depth: nat)
    requires Object(s, depth).Some?
    ensures s[Object(s, depth).value - 1] == RBRACE
  {
    if Close(s, RBRACE).None? {
      MembersEnd(s[Spaces(s)..], depth);
    }
  }

  lemma {:induction false} MembersEnd(s: seq<Byte>, depth: nat)
    requires Members(s, depth).Some?
    ensures s[Members(s, depth).value - 1] == RBRACE
    decreases |s|, 1
  {
    MoreMembersEnd(s[OneMember(s, depth).value..], depth);
  }

  lemma {:induction false} MoreMembersEnd(s: seq<Byte>, depth: nat)
    requires MoreMembers(s, depth).Some?
    ensures s[MoreMembers(s, depth).value - 1] == RBRACE
    decreases |s|, 0
  {
    if Close(s, RBRACE).None? {
      MembersEnd(s[Separator(s, COMMA).value..], depth);
    }
  }

  // ---- A string with nothing to escape ----

  lemma {:induction false} PlainChars(p: seq<Byte>, rest: seq<Byte>)
    requires forall i :: 0 <= i < |p| ==> Plain(p[i])
    ensures Chars(p + [QUOTE] + rest) == Some(|p| + 1)
  {
    var s := p + [QUOTE] + rest;
    if p != [] {
      PlainChars(p[1..], rest);
      assert s[1..] == p[1..] + [QUOTE] + rest;
      assert Plain(s[0]);
    }
  }

  lemma PlainText(p: seq<Byte>, rest: seq<Byte>)
    requires forall i :: 0 <= i < |p| ==> Plain(p[i])
    ensures Text([QUOTE] + p + [QUOTE] + rest) == Some(|p| + 2)
  {
    var s := [QUOTE] + p + [QUOTE] + rest;
    PlainChars(p, rest);
    assert s[1..] == p + [QUOTE] + rest;
  }
}
