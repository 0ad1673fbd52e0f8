/**
 The payload of a FleetAction and its two JSON spellings (api/v1/fleetaction_payload.go).

 An object an author writes is itself the payload. An object whose only key is `raw`, holding a
 base64 string, is the other spelling: it stands for the decoded bytes. A payload remembers which
 one it was read from.
 */
module ActionPayloads {
  import opened Wrappers
  import opened Base64
  import Json
  import JsonText

  /** A Go byte slice: nil is distinct from empty, and both have length 0. */
  datatype Slice = Nil | Bytes(bytes: seq<Byte>)
  {
    function Content(): seq<Byte> {
      if Nil? then [] else bytes
    }
  }

  datatype Payload = Payload(raw: Slice, rawForm: bool)

  datatype Error = NotAnObject

  const RAW_KEY: seq<Byte> := [114, 97, 119]
  const EMPTY_OBJECT: seq<Byte> := [Json.LBRACE, Json.RBRACE]

  // ---- Strings ----

  function HexValue(b: int): int {
    if 48 <= b <= 57 then b - 48 else if 65 <= b <= 70 then b - 55 else b - 87
  }

  function ShortEscape(b: int): int {
    if b == 98 then 8
    else if b == 102 then 12
    else if b == 110 then 10
    else if b == 114 then 13
    else if b == 116 then 9
    else b
  }

  /**
   The characters between two quotes. Only equality with `raw` and membership of the base64
   alphabet are asked of the result, so characters past 127 need not be put together from their
   bytes or surrogates.
   */
  function Unquote(s: seq<Byte>): seq<int> {
    if s == [] then []
    else if s[0] == Json.BACKSLASH && |s| >= 6 && s[1] == 117 then
      [HexValue(s[2]) * 4096 + HexValue(s[3]) * 256 + HexValue(s[4]) * 16 + HexValue(s[5])] + Unquote(s[6..])
    else if s[0] == Json.BACKSLASH && |s| >= 2 then [ShortEscape(s[1])] + Unquote(s[2..])
    else [s[0]] + Unquote(s[1..])
  }

  /** A value read into a Go string: `null` leaves the string empty and is no error. */
  function StringOf(value: seq<Byte>): Option<seq<int>> {
    if value == Json.NULL then Some([])
    else if |value| >= 2 && value[0] == Json.QUOTE then Some(Unquote(value[1..|value| - 1]))
    else None
  }

  // ---- The raw form ----

  /** An object read into a Go map: a repeated key keeps its last value. */
  function KeyMap(members: seq<Json.Member>): map<seq<int>, seq<Byte>> {
    if members == [] then map[]
    else
      var last := members[|members| - 1];
      KeyMap(members[..|members| - 1])[Unquote(last.key) := last.value]
  }

  /** The decoded bytes of an object in the raw form; an error only where `data` is not an object. */
  function RawFormOf(data: seq<Byte>): Result<Option<seq<Byte>>, Error> {
    var members := Json.TopObject(data);
    if members.None? then Err(NotAnObject) else
    var fields := KeyMap(members.value);
    if RAW_KEY !in fields || |fields| != 1 then Ok(None) else
    var text := StringOf(fields[RAW_KEY]);
    Ok(if text.None? then None else Decode(text.value))
  }

  // ---- Space, as bytes.TrimSpace knows it ----

  /** The length of the space character that is exactly `s`'s first bytes, or 0. */
  function SpaceAt(s: seq<Byte>): (n: nat)
    ensures n <= |s|
  {
    if |s| >= 1 && IsSpace1(s[0]) then 1
    else if |s| >= 2 && IsSpace2(s[0], s[1]) then 2
    else if |s| >= 3 && IsSpace3(s[0], s[1], s[2]) then 3
    else 0
  }

  /** The length of the space character that is exactly `s`'s last bytes, or 0. */
  function SpaceBefore(s: seq<Byte>): (n: nat)
    ensures n <= |s|
  {
    var e := |s|;
    if e >= 1 && IsSpace1(s[e - 1]) then 1
    else if e >= 2 && IsSpace2(s[e - 2], s[e - 1]) then 2
    else if e >= 3 && IsSpace3(s[e - 3], s[e - 2], s[e - 1]) then 3
    else 0
  }

  predicate IsSpace1(a: int) {
    9 <= a <= 13 || a == 32
  }

  /** U+0085 and U+00A0. */
  predicate IsSpace2(a: int, b: int) {
    a == 194 && (b == 133 || b == 160)
  }

  /** U+1680, U+2000 to U+200A, U+2028, U+2029, U+202F, U+205F and U+3000. */
  predicate IsSpace3(a: int, b: int, c: int) {
    || (a == 225 && b == 154 && c == 128)
    || (a == 226 && b == 128 && (128 <= c <= 138 || c == 168 || c == 169 || c == 175))
    || (a == 226 && b == 129 && c == 159)
    || (a == 227 && b == 128 && c == 128)
  }

  function TrimLeft(s: seq<Byte>): seq<Byte> {
    if SpaceAt(s) == 0 then s else TrimLeft(s[SpaceAt(s)..])
  }

  function TrimRight(s: seq<Byte>): seq<Byte> {
    if SpaceBefore(s) == 0 then s else TrimRight(s[..|s| - SpaceBefore(s)])
  }

  predicate IsJSONObject(b: seq<Byte>) {
    var t := TrimRight(TrimLeft(b));
    |t| > 0 && t[0] == Json.LBRACE && Json.Valid(t)
  }

  // ---- Reading and writing ----

  function Read(data: seq<Byte>): Result<Payload, Error> {
    match RawFormOf(data)
    case Err(e) => Err(e)
    case Ok(Some(raw)) => Ok(Payload(Bytes(raw), true))
    case Ok(None) => Ok(Payload(Bytes(data), false))
  }

  function RawText(value: seq<Byte>): seq<Byte> {
    [Json.LBRACE, Json.QUOTE] + RAW_KEY + [Json.QUOTE, Json.COLON] + value + [Json.RBRACE]
  }

  /** The raw form of a slice, as `json.Marshal` writes a byte slice. */
  function RawFormText(raw: Slice): seq<Byte> {
    match raw
    case Nil => RawText(Json.NULL)
    case Bytes(b) => RawText([Json.QUOTE] + Encode(b) + [Json.QUOTE])
  }

  /** The bytes an object is written as, as they stand. */
  predicate WrittenAsItIs(raw: seq<Byte>) {
    IsJSONObject(raw) && RawFormOf(raw) == Ok(None)
  }

  function Write(p: Payload): seq<Byte> {
    if p.raw.Content() == [] && !p.rawForm then EMPTY_OBJECT
    else if !p.rawForm && WrittenAsItIs(p.raw.Content()) then p.raw.Content()
    else RawFormText(p.raw)
  }

  class ActionPayload {
    var raw: Slice
    var rawForm: bool

    function View(): Payload
      reads this
    {
      Payload(raw, rawForm)
    }

    constructor ()
      ensures View() == Payload(Nil, false)
    {
      raw, rawForm := Nil, false;
    }

    method UnmarshalJSON(data: seq<Byte>) returns (error: Option<Error>)
      modifies this
      ensures error.None? <==> Json.TopObject(data).Some?
      ensures error.None? ==> Ok(View()) == Read(data)
      ensures error.Some? ==> View() == old(View())
    {
      var r := RawFormOf(data);
      if r.Err? {
        return Some(r.error);
      }
      if r.value.Some? {
        raw, rawForm := Bytes(r.value.value), true;
        return None;
      }
      raw, rawForm := Bytes(data), false;
      return None;
    }

    method MarshalJSON() returns (text: seq<Byte>)
      ensures text == Write(View())
    {
      if raw.Content() == [] && !rawForm {
        return EMPTY_OBJECT;
      }
      if !rawForm && IsJSONObject(raw.Content()) {
        var r := RawFormOf(raw.Content());
        if r.Ok? && r.value.None? {
          return raw.Content();
        }
      }
      return RawFormText(raw);
    }
  }

  // ---- The map an object is read into ----

  lemma {:induction false} KeysOfMap(members: seq<Json.Member>, k: seq<int>)
    ensures k in KeyMap(members) <==> exists i :: 0 <= i < |members| && Unquote(members[i].key) == k
  {
    if members != [] {
      var before := members[..|members| - 1];
      KeysOfMap(before, k);
      if k in KeyMap(before) {
        var i :| 0 <= i < |before| && Unquote(before[i].key) == k;
        assert Unquote(members[i].key) == k;
      }
      if i :| 0 <= i < |members| && Unquote(members[i].key) == k && i < |before| {
        assert Unquote(before[i].key) == k;
      }
    }
  }

  lemma SoleKey<K, V>(m: map<K, V>, k: K)
    requires k in m
    ensures |m| == 1 <==> m.Keys == {k}
  {
    var others := m.Keys - {k};
    assert m.Keys == others + {k};
    assert |others| == |m| - 1;
  }

  /** An object's only key is `raw` exactly where each of its members is spelt so and there is one. */
  lemma SoleRawKeyIff(members: seq<Json.Member>)
    ensures (RAW_KEY in KeyMap(members) && |KeyMap(members)| == 1)
       <==> (members != [] && forall i :: 0 <= i < |members| ==> Unquote(members[i].key) == RAW_KEY)
  {
    var m := KeyMap(members);
    KeysOfMap(members, RAW_KEY);
    if RAW_KEY in m {
      SoleKey(m, RAW_KEY);
      forall k
        ensures k in m <==> exists i :: 0 <= i < |members| && Unquote(members[i].key) == k
      {
        KeysOfMap(members, k);
      }
    }
    if members != [] && forall i :: 0 <= i < |members| ==> Unquote(members[i].key) == RAW_KEY {
      assert Unquote(members[0].key) == RAW_KEY;
      assert m.Keys == {RAW_KEY};
    }
    if RAW_KEY in m && |m| == 1 {
      forall i | 0 <= i < |members|
        ensures Unquote(members[i].key) == RAW_KEY
      {
        assert Unquote(members[i].key) in m.Keys;
      }
    }
  }

  /** Every key is `raw`, and the last value decodes: base64 in a string, or null. */
  predicate SpellsRaw(members: seq<Json.Member>) {
    && members != []
    && (forall i :: 0 <= i < |members| ==> Unquote(members[i].key) == RAW_KEY)
    && var text := StringOf(members[|members| - 1].value);
       text.Some? && Decode(text.value).Some?
  }

  /**
   A document is read in the raw form exactly where every member's key is `raw`, there is one, and
   the last one's value is a string of base64, or null.
   */
  lemma RawFormIff(data: seq<Byte>)
    ensures Read(data).Ok? && Read(data).value.rawForm
       <==> Json.TopObject(data).Some? && SpellsRaw(Json.TopObject(data).value)
  {
    if Json.TopObject(data).Some? {
      SoleRawKeyIff(Json.TopObject(data).value);
    }
  }

  // ---- An object read whole passes the object test ----

  lemma {:induction false} TrimLeftSpaces(d: seq<Byte>)
    requires Json.Spaces(d) < |d| && d[Json.Spaces(d)] == Json.LBRACE
    ensures TrimLeft(d) == d[Json.Spaces(d)..]
  {
    if Json.Spaces(d) > 0 {
      TrimLeftSpaces(d[1..]);
      assert d[1..][Json.Spaces(d[1..])..] == d[Json.Spaces(d)..];
    }
  }

  lemma {:induction false} TrimRightSpaces(s: seq<Byte>, n: nat)
    requires 0 < n <= |s| && s[n - 1] == Json.RBRACE
    requires forall i :: n <= i < |s| ==> Json.IsSpace(s[i])
    ensures TrimRight(s) == s[..n]
  {
    if n < |s| {
      TrimRightSpaces(s[..|s| - 1], n);
      assert s[..|s| - 1][..n] == s[..n];
    }
  }

  lemma {:induction false} AllSpaces(s: seq<Byte>)
    requires Json.Spaces(s) == |s|
    ensures forall i :: 0 <= i < |s| ==> Json.IsSpace(s[i])
  {
    if s != [] {
      AllSpaces(s[1..]);
      forall i | 0 <= i < |s|
        ensures Json.IsSpace(s[i])
      {
        if i > 0 { assert s[1..][i - 1] == s[i]; }
      }
    }
  }

  /** The value of a document that is an object, without the space around it. */
  function Core(d: seq<Byte>): seq<Byte>
    requires Json.Valid(d)
  {
    var v := d[Json.Spaces(d)..];
    v[..Json.Value(v, Json.MAX_DEPTH).value]
  }

  lemma CoreIsValid(d: seq<Byte>)
    requires Json.TopObject(d).Some?
    ensures Core(d) != [] && Core(d)[0] == Json.LBRACE && Json.Valid(Core(d))
  {
    var v := d[Json.Spaces(d)..];
    Json.ValueCut(Core(d), v, Json.MAX_DEPTH);
    assert Core(d)[0..] == Core(d);
  }

  lemma ObjectValueEnds(v: seq<Byte>, depth: nat)
    requires v != [] && v[0] == Json.LBRACE && Json.Value(v, depth).Some?
    ensures v[Json.Value(v, depth).value - 1] == Json.RBRACE
  {
    Json.ObjectEnds(v[1..], depth - 1);
  }

  lemma TrimRightToValue(v: seq<Byte>, n: nat)
    requires 0 < n <= |v| && v[n - 1] == Json.RBRACE && Json.Spaces(v[n..]) == |v| - n
    ensures TrimRight(v) == v[..n]
  {
    AllSpaces(v[n..]);
    forall i | n <= i < |v|
      ensures Json.IsSpace(v[i])
    {
      assert v[n..][i - n] == v[i];
    }
    TrimRightSpaces(v, n);
  }

  lemma TrimToCore(d: seq<Byte>)
    requires Json.TopObject(d).Some?
    ensures TrimRight(TrimLeft(d)) == Core(d)
  {
    var v := d[Json.Spaces(d)..];
    var n := Json.Value(v, Json.MAX_DEPTH).value;
    TrimLeftSpaces(d);
    ObjectValueEnds(v, Json.MAX_DEPTH);
    TrimRightToValue(v, n);
  }

  /** What json.Unmarshal reads as an object, isJSONObject accepts: the first test adds nothing to the second. */
  lemma ObjectsPassTheTest(d: seq<Byte>)
    ensures Json.TopObject(d).Some? ==> IsJSONObject(d)
  {
    if Json.TopObject(d).Some? {
      CoreIsValid(d);
      TrimToCore(d);
    }
  }

  // ---- The raw form reads back ----

  lemma {:induction false} UnquotePlain(s: seq<Byte>)
    requires forall i :: 0 <= i < |s| ==> Plain(s[i])
    ensures Unquote(s) == s
  {
    if s != [] {
      UnquotePlain(s[1..]);
      assert s == [s[0]] + s[1..];
    }
  }

  /** The ways to write a character between quotes; a hex digit past 9 may be capital or small. */
  datatype Spelling = AsItIs | Short | Hex(c3: bool, c2: bool, c1: bool, c0: bool)

  function HexDigit(v: int, capital: bool): (b: Byte)
    requires 0 <= v < 16
  {
    if v < 10 then 48 + v else if capital then 55 + v else 87 + v
  }

  /** The characters that have a letter or themselves after a backslash, section 7 of RFC 8259. */
  const SHORT: map<int, Byte> :=
    map[34 := 34, 92 := 92, 47 := 47, 8 := 98, 12 := 102, 10 := 110, 13 := 114, 9 := 116]

  predicate CanSpell(code: int, how: Spelling) {
    match how
    case AsItIs => Plain(code) && code < 256
    case Short => code in SHORT
    case Hex(_, _, _, _) => 0 <= code < 65536
  }

  function Spelt(code: int, how: Spelling): seq<Byte>
    requires CanSpell(code, how)
  {
    match how
    case AsItIs => [code]
    case Short => [Json.BACKSLASH, SHORT[code]]
    case Hex(c3, c2, c1, c0) =>
      HexNumber(code);
      [Json.BACKSLASH, 117, HexDigit(code / 16 / 16 / 16, c3), HexDigit(code / 16 / 16 % 16, c2),
       HexDigit(code / 16 % 16, c1), HexDigit(code % 16, c0)]
  }

  function AllSpelt(codes: seq<int>, hows: seq<Spelling>): seq<Byte>
    requires |hows| == |codes| && forall i :: 0 <= i < |codes| ==> CanSpell(codes[i], hows[i])
  {
    if codes == [] then [] else Spelt(codes[0], hows[0]) + AllSpelt(codes[1..], hows[1..])
  }

  lemma HexReads(v: int, capital: bool)
    requires 0 <= v < 16
    ensures HexValue(HexDigit(v, capital)) == v
  {
  }

  /** The reader of strings takes exactly the escapes that there are. */
  lemma EscapesAreThoseSpelt(b: Byte)
    ensures Json.IsHex(b) <==> exists v, capital :: 0 <= v < 16 && HexDigit(v, capital) == b
    ensures Json.IsShortEscape(b) <==> exists code :: code in SHORT && SHORT[code] == b
  {
    if Json.IsHex(b) {
      assert HexDigit(HexValue(b), b <= 70) == b;
    }
    if Json.IsShortEscape(b) {
      assert SHORT[ShortEscape(b)] == b;
    }
  }

  lemma HexNumber(code: int)
    requires 0 <= code < 65536
    ensures 0 <= code / 16 / 16 / 16 < 16
    ensures code / 16 / 16 / 16 * 4096 + code / 16 / 16 % 16 * 256 + code / 16 % 16 * 16 + code % 16 == code
  {
    var a := code / 16;
    var b := a / 16;
    assert code == a * 16 + code % 16 && a == b * 16 + a % 16 && b == b / 16 * 16 + b % 16;
  }

  lemma SpeltReads(code: int, how: Spelling, rest: seq<Byte>)
    requires CanSpell(code, how)
    ensures Unquote(Spelt(code, how) + rest) == [code] + Unquote(rest)
  {
    match how
    case AsItIs => assert ([code] + rest)[1..] == rest;
    case Short => UnquoteShort(SHORT[code], rest);
    case Hex(c3, c2, c1, c0) =>
      HexNumber(code);
      var v3, v2, v1, v0 := code / 16 / 16 / 16, code / 16 / 16 % 16, code / 16 % 16, code % 16;
      HexSum(v3, v2, v1, v0, how);
      UnquoteHex(HexDigit(v3, c3), HexDigit(v2, c2), HexDigit(v1, c1), HexDigit(v0, c0), rest);
  }

  lemma UnquoteShort(b: Byte, rest: seq<Byte>)
    requires b != 117
    ensures Unquote([Json.BACKSLASH, b] + rest) == [ShortEscape(b)] + Unquote(rest)
  {
    assert ([Json.BACKSLASH, b] + rest)[2..] == rest;
  }

  lemma UnquoteHex(d3: Byte, d2: Byte, d1: Byte, d0: Byte, rest: seq<Byte>)
    ensures Unquote([Json.BACKSLASH, 117, d3, d2, d1, d0] + rest)
         == [HexValue(d3) * 4096 + HexValue(d2) * 256 + HexValue(d1) * 16 + HexValue(d0)] + Unquote(rest)
  {
    assert ([Json.BACKSLASH, 117, d3, d2, d1, d0] + rest)[6..] == rest;
  }

  lemma HexSum(v3: int, v2: int, v1: int, v0: int, how: Spelling)
    requires 0 <= v3 < 16 && 0 <= v2 < 16 && 0 <= v1 < 16 && 0 <= v0 < 16 && how.Hex?
    ensures HexValue(HexDigit(v3, how.c3)) * 4096 + HexValue(HexDigit(v2, how.c2)) * 256
            + HexValue(HexDigit(v1, how.c1)) * 16 + HexValue(HexDigit(v0, how.c0))
         == v3 * 4096 + v2 * 256 + v1 * 16 + v0
  {
    HexReads(v3, how.c3);
    HexReads(v2, how.c2);
    HexReads(v1, how.c1);
    HexReads(v0, how.c0);
  }

  /** A string is read as its characters however each is spelt: so `raw` is, with any of its letters escaped. */
  lemma {:induction false} StringsReadBack(codes: seq<int>, hows: seq<Spelling>)
    requires |hows| == |codes| && forall i :: 0 <= i < |codes| ==> CanSpell(codes[i], hows[i])
    ensures Unquote(AllSpelt(codes, hows)) == codes
  {
    if codes != [] {
      StringsReadBack(codes[1..], hows[1..]);
      SpeltReads(codes[0], hows[0], AllSpelt(codes[1..], hows[1..]));
      assert codes == [codes[0]] + codes[1..];
    }
  }

  /** What follows the brace of a document with the one member `"raw": value`. */
  function RawRest(value: seq<Byte>): seq<Byte> {
    [Json.QUOTE] + RAW_KEY + [Json.QUOTE] + ([Json.COLON] + value + [Json.RBRACE])
  }

  lemma RawTextSplit(value: seq<Byte>)
    ensures RawText(value)[0] == Json.LBRACE && RawText(value)[1..] == RawRest(value)
  {
  }

  /** The text of a value that is followed by a brace is read whole. */
  predicate ReadsAlone(value: seq<Byte>, depth: nat) {
    value != [] && !Json.IsSpace(value[0]) && Json.Value(value + [Json.RBRACE], depth) == Some(|value|)
  }

  lemma RawColonValue(value: seq<Byte>, depth: nat)
    requires ReadsAlone(value, depth)
    ensures Json.ColonValue([Json.COLON] + value + [Json.RBRACE], depth) == Some(1 + |value|)
    ensures Json.AfterColon([Json.COLON] + value + [Json.RBRACE], depth) == value
  {
    var s := [Json.COLON] + value + [Json.RBRACE];
    assert s[1..] == value + [Json.RBRACE];
    assert Json.Close(s, Json.COLON) == Some(1);
    assert Json.Separator(s, Json.COLON) == Some(1);
  }

  lemma RawMember(value: seq<Byte>, depth: nat)
    requires ReadsAlone(value, depth)
    ensures Json.OneMember(RawRest(value), depth) == Some(6 + |value|)
    ensures Json.MemberAt(RawRest(value), depth) == Json.Member(RAW_KEY, value)
  {
    var t := [Json.COLON] + value + [Json.RBRACE];
    Json.PlainText(RAW_KEY, t);
    RawColonValue(value, depth);
    RawStarts(value);
    KeyThenValue(RawRest(value), t, depth, 1 + |value|);
  }

  lemma RawStarts(value: seq<Byte>)
    ensures var s := RawRest(value);
            |s| == 7 + |value| && s[0] == Json.QUOTE && s[1..4] == RAW_KEY
            && s[5..] == [Json.COLON] + value + [Json.RBRACE]
  {
  }

  lemma KeyThenValue(s: seq<Byte>, t: seq<Byte>, depth: nat, k: nat)
    requires |s| >= 5 && s[0] == Json.QUOTE && Json.Text(s) == Some(5) && s[5..] == t
    requires Json.ColonValue(t, depth) == Some(k)
    ensures Json.OneMember(s, depth) == Some(5 + k)
    ensures Json.MemberAt(s, depth) == Json.Member(s[1..4], Json.AfterColon(t, depth))
  {
  }

  lemma RawMembers(value: seq<Byte>, depth: nat)
    requires ReadsAlone(value, depth)
    ensures Json.Members(RawRest(value), depth) == Some(7 + |value|)
    ensures Json.Fields(RawRest(value), depth) == [Json.Member(RAW_KEY, value)]
  {
    RawMember(value, depth);
    RawEnds(value);
    LastMember(RawRest(value), depth, 6 + |value|);
  }

  lemma LastMember(s: seq<Byte>, depth: nat, n: nat)
    requires Json.OneMember(s, depth) == Some(n) && n < |s| && s[n..] == [Json.RBRACE]
    ensures Json.Members(s, depth) == Some(n + 1) && Json.Fields(s, depth) == [Json.MemberAt(s, depth)]
  {
    BraceCloses();
  }

  lemma RawEnds(value: seq<Byte>)
    ensures |RawRest(value)| == 7 + |value| && RawRest(value)[6 + |value|..] == [Json.RBRACE]
  {
  }

  lemma BraceCloses()
    ensures Json.Close([Json.RBRACE], Json.RBRACE) == Some(1)
  {
  }

  lemma RawObject(value: seq<Byte>, depth: nat)
    requires ReadsAlone(value, depth)
    ensures Json.Object(RawRest(value), depth) == Some(|RawRest(value)|)
    ensures Json.ObjectFields(RawRest(value), depth) == [Json.Member(RAW_KEY, value)]
  {
    RawMembers(value, depth);
    RawStarts(value);
    ObjectOfMembers(RawRest(value), depth);
  }

  lemma ObjectOfMembers(s: seq<Byte>, depth: nat)
    requires s != [] && s[0] == Json.QUOTE && Json.Members(s, depth).Some?
    ensures Json.Object(s, depth) == Json.Members(s, depth)
    ensures Json.ObjectFields(s, depth) == Json.Fields(s, depth)
  {
    assert s[0..] == s;
  }

  lemma ObjectValue(d: seq<Byte>, depth: nat)
    requires d != [] && d[0] == Json.LBRACE && depth > 0 && Json.Object(d[1..], depth - 1) == Some(|d| - 1)
    ensures Json.Value(d, depth) == Some(|d|)
  {
  }

  lemma WholeValue(d: seq<Byte>)
    requires d != [] && d[0] == Json.LBRACE && Json.Value(d, Json.MAX_DEPTH) == Some(|d|)
    ensures Json.Valid(d) && Json.Spaces(d) == 0
  {
  }

  lemma ObjectDocument(d: seq<Byte>)
    requires d != [] && d[0] == Json.LBRACE && Json.Object(d[1..], Json.MAX_DEPTH - 1) == Some(|d| - 1)
    ensures Json.TopObject(d) == Some(Json.ObjectFields(d[1..], Json.MAX_DEPTH - 1))
  {
    ObjectValue(d, Json.MAX_DEPTH);
    WholeValue(d);
  }

  lemma OneField(value: seq<Byte>)
    ensures KeyMap([Json.Member(RAW_KEY, value)]) == map[RAW_KEY := value]
  {
    var members := [Json.Member(RAW_KEY, value)];
    UnquotePlain(RAW_KEY);
    assert members[..0] == [];
  }

  lemma RawDocument(value: seq<Byte>)
    requires ReadsAlone(value, Json.MAX_DEPTH - 1)
    ensures Json.TopObject(RawText(value)) == Some([Json.Member(RAW_KEY, value)])
  {
    RawTextSplit(value);
    RawObject(value, Json.MAX_DEPTH - 1);
    ObjectDocument(RawText(value));
  }

  lemma RawValue(value: seq<Byte>)
    requires ReadsAlone(value, Json.MAX_DEPTH - 1)
    ensures RawFormOf(RawText(value))
         == Ok(if StringOf(value).None? then None else Decode(StringOf(value).value))
  {
    RawDocument(value);
    OneField(value);
  }

  lemma QuotedReadsAlone(b: seq<Byte>, depth: nat)
    ensures ReadsAlone([Json.QUOTE] + Encode(b) + [Json.QUOTE], depth)
    ensures StringOf([Json.QUOTE] + Encode(b) + [Json.QUOTE]) == Some(Encode(b))
  {
    var value := [Json.QUOTE] + Encode(b) + [Json.QUOTE];
    EncodeIsPlain(b);
    forall i | 0 <= i < |Encode(b)|
      ensures Plain(Encode(b)[i])
    {
    }
    Json.PlainText(Encode(b), [Json.RBRACE]);
    assert value + [Json.RBRACE] == [Json.QUOTE] + Encode(b) + [Json.QUOTE] + [Json.RBRACE];
    UnquotePlain(Encode(b));
    assert value[1..|value| - 1] == Encode(b);
  }

  lemma NullReadsAlone(depth: nat)
    ensures ReadsAlone(Json.NULL, depth)
  {
  }

  /** Every slice, written in the raw form, reads back as its bytes in the raw form. */
  lemma RawFormReadsBack(raw: Slice)
    ensures Read(RawFormText(raw)) == Ok(Payload(Bytes(raw.Content()), true))
  {
    match raw
    case Nil =>
      NullReadsAlone(Json.MAX_DEPTH - 1);
      RawValue(Json.NULL);
      assert Decode([]) == Some([]);
    case Bytes(b) =>
      QuotedReadsAlone(b, Json.MAX_DEPTH - 1);
      RawValue([Json.QUOTE] + Encode(b) + [Json.QUOTE]);
      DecodeEncode(b);
  }

  // ---- Reading what was written ----

  lemma EmptyObjectReads()
    ensures Read(EMPTY_OBJECT) == Ok(Payload(Bytes(EMPTY_OBJECT), false))
  {
    var s := [Json.RBRACE];
    assert Json.Object(s, Json.MAX_DEPTH - 1) == Some(1);
    assert EMPTY_OBJECT[1..] == s;
    ObjectDocument(EMPTY_OBJECT);
  }

  /** How a payload that is written reads back, form included, for every payload. */
  function ReadBack(p: Payload): Payload {
    if p.raw.Content() == [] && !p.rawForm then Payload(Bytes(EMPTY_OBJECT), false)
    else Payload(Bytes(p.raw.Content()), p.rawForm || RawFormOf(p.raw.Content()) != Ok(None))
  }

  lemma WriteReads(p: Payload)
    ensures Read(Write(p)) == Ok(ReadBack(p))
  {
    var raw := p.raw.Content();
    if raw == [] && !p.rawForm {
      EmptyObjectReads();
    } else {
      RawFormReadsBack(p.raw);
      ObjectsPassTheTest(raw);
    }
  }

  /** No bytes are lost through a write and a read, except that empty bytes not in the raw form become `{}`. */
  lemma BytesSurviveIff(p: Payload)
    ensures Read(Write(p)).Ok?
    ensures Read(Write(p)).value.raw.Content() == p.raw.Content() <==> p.raw.Content() != [] || p.rawForm
  {
    WriteReads(p);
  }

  /** A payload that was read, written and read again, is the same payload in the same form. */
  lemma ReadWriteRead(data: seq<Byte>)
    requires Read(data).Ok?
    ensures Read(Write(Read(data).value)) == Read(data)
  {
    WriteReads(Read(data).value);
    ObjectIsNotEmpty(data);
  }

  lemma ObjectIsNotEmpty(data: seq<Byte>)
    requires Read(data).Ok?
    ensures data != []
  {
  }

  /** An object that is its own payload is written byte for byte as it was read. */
  lemma ObjectsAreWrittenWhole(data: seq<Byte>)
    requires Read(data).Ok? && !Read(data).value.rawForm
    ensures Write(Read(data).value) == data
  {
    ObjectsPassTheTest(data);
  }

  /** Two payloads written alike carry the same bytes, unless one of them is empty and not in the raw form. */
  lemma WrittenAlikeCarriesAlike(p: Payload, q: Payload)
    requires Write(p) == Write(q)
    requires (p.raw.Content() != [] || p.rawForm) && (q.raw.Content() != [] || q.rawForm)
    ensures p.raw.Content() == q.raw.Content()
  {
    BytesSurviveIff(p);
    BytesSurviveIff(q);
  }

  /** One trip settles the text: a second write repeats the first, except for a nil slice in the raw form. */
  lemma SecondWriteRepeatsIff(p: Payload)
    ensures Write(ReadBack(p)) == Write(p) <==> !(p.raw.Nil? && p.rawForm)
  {
    var raw := p.raw.Content();
    if raw == [] && !p.rawForm {
      EmptyObjectReads();
      ObjectsPassTheTest(EMPTY_OBJECT);
    } else {
      ObjectsPassTheTest(raw);
    }
    assert |RawFormText(Nil)| == 12;
    assert |RawFormText(Bytes([]))| == 10;
  }

  /** The documented raw form holds a base64 string; the code takes `{"raw":null}` for one too. */
  lemma NullIsTakenForTheRawForm()
    ensures Read(RawText(Json.NULL)) == Ok(Payload(Bytes([]), true))
  {
    RawFormReadsBack(Nil);
  }

  /**
   The object an author writes is the payload: a text is read whole, as its own bytes, exactly where
   it is an object of the JSON grammar, however spaced and nested within the limit, that does not
   spell the raw form; and it is then written back byte for byte.
   */
  lemma TheObjectIsThePayload(data: seq<Byte>)
    ensures Read(data) == Ok(Payload(Bytes(data), false))
       <==> exists lead, fields, trail ::
              JsonText.IsDocument(data, lead, JsonText.Obj(fields), trail) && !SpellsRaw(JsonText.Written(fields))
    ensures Read(data) == Ok(Payload(Bytes(data), false)) ==> Write(Payload(Bytes(data), false)) == data
  {
    RawFormIff(data);
    if Json.TopObject(data).Some? {
      JsonText.TopObjectIff(data, Json.TopObject(data).value);
    }
    if lead, fields, trail :|
         JsonText.IsDocument(data, lead, JsonText.Obj(fields), trail) && !SpellsRaw(JsonText.Written(fields)) {
      JsonText.TopObjectIff(data, JsonText.Written(fields));
    }
    if Read(data) == Ok(Payload(Bytes(data), false)) {
      ObjectsAreWrittenWhole(data);
    }
  }
}
