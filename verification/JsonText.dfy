/**
 JSON texts written out by the grammar of RFC 8259, and what the reader makes of them.

 A text is written from a tree, which holds the space at each place where the grammar allows space.
 Each function writes its construct in front of the text that follows it. What the grammar writes is
 read to its end, and what is read was written by the grammar.
 */
module JsonText {
  import opened Wrappers
  import opened Base64
  import Json

  // ---- Strings ----

  datatype Char = Raw(b: Byte) | Short(b: Byte) | Unicode(d0: Byte, d1: Byte, d2: Byte, d3: Byte)

  predicate ValidChar(c: Char) {
    match c
    case Raw(b) => Plain(b)
    case Short(b) => Json.IsShortEscape(b)
    case Unicode(d0, d1, d2, d3) => Json.IsHex(d0) && Json.IsHex(d1) && Json.IsHex(d2) && Json.IsHex(d3)
  }

  function CharText(c: Char): seq<Byte> {
    match c
    case Raw(b) => [b]
    case Short(b) => [Json.BACKSLASH, b]
    case Unicode(d0, d1, d2, d3) => [Json.BACKSLASH, 117, d0, d1, d2, d3]
  }

  function Content(cs: seq<Char>): seq<Byte> {
    if cs == [] then [] else CharText(cs[0]) + Content(cs[1..])
  }

  predicate ValidString(cs: seq<Char>) {
    forall i :: 0 <= i < |cs| ==> ValidChar(cs[i])
  }

  function StringText(cs: seq<Char>, rest: seq<Byte>): seq<Byte> {
    [Json.QUOTE] + (Content(cs) + ([Json.QUOTE] + rest))
  }

  /** Space and digits, sections 2 and 6 of RFC 8259, by their characters. */
  lemma SpaceAndDigits(b: Byte)
    ensures Json.IsSpace(b) <==> b == ' ' as int || b == '\t' as int || b == '\n' as int || b == '\r' as int
    ensures Json.IsDigit(b) <==> '0' as int <= b <= '9' as int
  {
  }

  lemma CharReads(c: Char, rest: seq<Byte>, s: seq<Byte>)
    requires ValidChar(c) && s == CharText(c) + rest
    ensures Json.Chars(s) == Json.Plus(|CharText(c)|, Json.Chars(rest))
  {
  }

  lemma ContentStep(c: Char, more: seq<Char>, end: seq<Byte>)
    ensures Content([c] + more) + end == CharText(c) + (Content(more) + end)
    ensures |Content([c] + more)| == |CharText(c)| + |Content(more)|
  {
    assert ([c] + more)[1..] == more;
    Regroup(CharText(c), Content(more), end);
  }

  lemma {:induction false} ContentReads(cs: seq<Char>, end: seq<Byte>)
    requires ValidString(cs) && end != [] && end[0] == Json.QUOTE
    ensures Json.Chars(Content(cs) + end) == Some(|Content(cs)| + 1)
  {
    if cs == [] {
      assert [] + end == end;
    } else {
      var c, more := cs[0], cs[1..];
      assert cs == [c] + more;
      ContentReads(more, end);
      ContentStep(c, more, end);
      CharReads(c, Content(more) + end, Content(cs) + end);
    }
  }

  lemma Quoted(p: seq<Byte>, rest: seq<Byte>)
    ensures var s := [Json.QUOTE] + (p + ([Json.QUOTE] + rest));
      s[1..] == p + ([Json.QUOTE] + rest) && s[|p| + 2..] == rest && s[1..|p| + 1] == p
  {
  }

  lemma StringReads(cs: seq<Char>, rest: seq<Byte>)
    requires ValidString(cs)
    ensures var s := StringText(cs, rest);
      Json.Text(s) == Some(|Content(cs)| + 2) && s[|Content(cs)| + 2..] == rest
        && s[1..|Content(cs)| + 1] == Content(cs)
  {
    ContentReads(cs, [Json.QUOTE] + rest);
    Quoted(Content(cs), rest);
  }

  // ---- Space ----

  predicate AllSpace(sp: seq<Byte>) {
    forall i :: 0 <= i < |sp| ==> Json.IsSpace(sp[i])
  }

  /** What follows is not more space. */
  predicate Solid(rest: seq<Byte>) {
    rest == [] || !Json.IsSpace(rest[0])
  }

  lemma {:induction false} SpaceReads(sp: seq<Byte>, rest: seq<Byte>)
    requires AllSpace(sp) && Solid(rest)
    ensures Json.Spaces(sp + rest) == |sp|
    ensures (sp + rest)[|sp|..] == rest
  {
    if sp != [] {
      SpaceReads(sp[1..], rest);
      assert (sp + rest)[1..] == sp[1..] + rest;
    } else {
      assert sp + rest == rest;
    }
  }

  lemma CloseReads(sp: seq<Byte>, mark: Byte, rest: seq<Byte>)
    requires AllSpace(sp) && !Json.IsSpace(mark)
    ensures var s := sp + ([mark] + rest);
      Json.Close(s, mark) == Some(|sp| + 1) && s[|sp| + 1..] == rest
  {
    SpaceReads(sp, [mark] + rest);
    assert ([mark] + rest)[1..] == rest;
  }

  lemma OtherMark(sp: seq<Byte>, mark: Byte, other: Byte, rest: seq<Byte>)
    requires AllSpace(sp) && !Json.IsSpace(mark) && other != mark
    ensures Json.Close(sp + ([mark] + rest), other) == None
  {
    SpaceReads(sp, [mark] + rest);
  }

  lemma SeparatorReads(before: seq<Byte>, mark: Byte, after: seq<Byte>, rest: seq<Byte>)
    requires AllSpace(before) && AllSpace(after) && !Json.IsSpace(mark) && Solid(rest)
    ensures var s := before + ([mark] + (after + rest)); Leaves(s, Json.Separator(s, mark), rest)
  {
    var s := before + ([mark] + (after + rest));
    CloseReads(before, mark, after + rest);
    SpaceReads(after, rest);
    assert s[|before| + 1 + |after|..] == s[|before| + 1..][|after|..];
  }

  /** A reader that takes n bytes of s leaves the rest. */
  predicate Leaves(s: seq<Byte>, n: Option<nat>, rest: seq<Byte>) {
    n.Some? && n.value <= |s| && s[n.value..] == rest
  }

  lemma LeavesAfter(a: seq<Byte>, s: seq<Byte>, n: Option<nat>, rest: seq<Byte>)
    requires Leaves(s, n, rest)
    ensures Leaves(a + s, Json.Plus(|a|, n), rest)
    ensures (a + s)[|a|..] == s
  {
  }

  lemma LeavesThen(s: seq<Byte>, n: Option<nat>, mid: seq<Byte>, k: Option<nat>, rest: seq<Byte>)
    requires Leaves(s, n, mid) && Leaves(mid, k, rest)
    ensures Leaves(s, Json.Plus(n.value, k), rest)
  {
  }

  // ---- Numbers ----

  /** The mark is a small or a capital e. */
  datatype Exponent = Exponent(mark: Byte, sign: Option<Byte>, digits: seq<Byte>)

  /** `frac` holds the digits of a fraction; empty where there is none. */
  datatype Number = Number(negative: bool, whole: seq<Byte>, frac: seq<Byte>, exp: Option<Exponent>)

  predicate AllDigits(s: seq<Byte>) {
    forall i :: 0 <= i < |s| ==> Json.IsDigit(s[i])
  }

  predicate ValidExponent(e: Exponent) {
    && (e.mark == 101 || e.mark == 69)
    && (e.sign.Some? ==> e.sign.value == 43 || e.sign.value == 45)
    && AllDigits(e.digits) && e.digits != []
  }

  predicate ValidNumber(n: Number) {
    && AllDigits(n.whole) && AllDigits(n.frac) && (n.exp.Some? ==> ValidExponent(n.exp.value))
    && n.whole != [] && (n.whole[0] == 48 ==> |n.whole| == 1)
  }

  function SignText(e: Exponent, rest: seq<Byte>): seq<Byte> {
    if e.sign.Some? then [e.sign.value] + (e.digits + rest) else e.digits + rest
  }

  function ExpText(n: Number, rest: seq<Byte>): seq<Byte> {
    if n.exp.None? then rest else [n.exp.value.mark] + SignText(n.exp.value, rest)
  }

  function FracText(n: Number, rest: seq<Byte>): seq<Byte> {
    if n.frac == [] then ExpText(n, rest) else [46] + (n.frac + ExpText(n, rest))
  }

  function NumberText(n: Number, rest: seq<Byte>): seq<Byte> {
    if n.negative then [45] + (n.whole + FracText(n, rest)) else n.whole + FracText(n, rest)
  }

  /** What follows a value: space, a comma, a closing mark or nothing. */
  predicate Ends(rest: seq<Byte>) {
    rest == [] || Json.IsSpace(rest[0]) || rest[0] == Json.COMMA || rest[0] == Json.RBRACE || rest[0] == Json.RBRACKET
  }

  predicate NoDigit(rest: seq<Byte>) {
    rest == [] || !Json.IsDigit(rest[0])
  }

  lemma {:induction false} DigitsRead(ds: seq<Byte>, rest: seq<Byte>)
    requires AllDigits(ds) && NoDigit(rest)
    ensures Json.Digits(ds + rest) == |ds|
    ensures (ds + rest)[|ds|..] == rest
  {
    if ds != [] {
      DigitsRead(ds[1..], rest);
      assert (ds + rest)[1..] == ds[1..] + rest;
    } else {
      assert ds + rest == rest;
    }
  }

  lemma ExponentReads(e: Exponent, rest: seq<Byte>)
    requires ValidExponent(e) && NoDigit(rest)
    ensures var s := [e.mark] + SignText(e, rest); Leaves(s, Json.ExpPart(s), rest)
  {
    var s, d := [e.mark] + SignText(e, rest), e.digits + rest;
    DigitsRead(e.digits, rest);
    assert d[0] == e.digits[0];
    if e.sign.Some? {
      assert s[2..] == d;
      assert s[1] == e.sign.value;
    } else {
      assert s[1..] == d;
      assert s[1] == d[0];
    }
  }

  lemma ExpReads(n: Number, rest: seq<Byte>)
    requires ValidNumber(n) && Ends(rest)
    ensures var s := ExpText(n, rest);
      Leaves(s, Json.ExpPart(s), rest) && NoDigit(s) && (s != [] ==> s[0] != 46)
  {
    if n.exp.Some? {
      ExponentReads(n.exp.value, rest);
    }
  }

  lemma PointReads(ds: seq<Byte>, rest: seq<Byte>)
    requires AllDigits(ds) && ds != [] && NoDigit(rest)
    ensures var s := [46] + (ds + rest); Json.FracPart(s) == Some(1 + |ds|) && s[1 + |ds|..] == rest
  {
    var s := [46] + (ds + rest);
    DigitsRead(ds, rest);
    assert s[1..] == ds + rest;
  }

  lemma FracReads(n: Number, rest: seq<Byte>)
    requires ValidNumber(n) && Ends(rest)
    ensures Leaves(FracText(n, rest), Json.FracExp(FracText(n, rest)), rest) && NoDigit(FracText(n, rest))
  {
    ExpReads(n, rest);
    FractionReads(n.frac, ExpText(n, rest), rest);
  }

  lemma FractionReads(ds: seq<Byte>, e: seq<Byte>, rest: seq<Byte>)
    requires AllDigits(ds) && NoDigit(e) && Leaves(e, Json.ExpPart(e), rest) && (e != [] ==> e[0] != 46)
    ensures var s := if ds == [] then e else [46] + (ds + e);
            Leaves(s, Json.FracExp(s), rest) && NoDigit(s)
  {
    if ds != [] {
      PointReads(ds, e);
      Regroup([46], ds, e);
      LeavesAfter([46] + ds, e, Json.ExpPart(e), rest);
    } else {
      assert e[0..] == e;
    }
  }

  lemma UnsignedReads(n: Number, rest: seq<Byte>)
    requires ValidNumber(n) && Ends(rest)
    ensures var s := n.whole + FracText(n, rest); Leaves(s, Json.Unsigned(s), rest)
  {
    var f := FracText(n, rest);
    FracReads(n, rest);
    DigitsRead(n.whole, f);
    LeavesAfter(n.whole, f, Json.FracExp(f), rest);
    assert Json.IntPart(n.whole + f) == |n.whole|;
  }

  lemma SignedReads(u: seq<Byte>, rest: seq<Byte>)
    requires Leaves(u, Json.Unsigned(u), rest)
    ensures Leaves([45] + u, Json.Number([45] + u), rest)
  {
  }

  lemma NumberReads(n: Number, rest: seq<Byte>)
    requires ValidNumber(n) && Ends(rest)
    ensures var s := NumberText(n, rest);
      Leaves(s, Json.Number(s), rest) && s != [] && (s[0] == 45 || Json.IsDigit(s[0]))
  {
    var u := n.whole + FracText(n, rest);
    UnsignedReads(n, rest);
    assert u[0] == n.whole[0];
    if n.negative {
      SignedReads(u, rest);
    }
  }

  // ---- Values ----

  datatype Tree =
    | Null
    | Bool(value: bool)
    | Str(chars: seq<Char>)
    | Num(number: Number)
    | Arr(items: Items)
    | Obj(fields: Fields)

  /**
   `before` and `after` are the space around the mark an item follows: its comma or, for the first,
   the opening bracket, whose text begins at the bracket. `close` is the space before the closing one.
   */
  datatype Items =
    | NoItem(close: seq<Byte>)
    | Item(before: seq<Byte>, after: seq<Byte>, head: Tree, tail: Items)

  /** Likewise; `left` and `right` are the space around the colon. */
  datatype Fields =
    | NoField(close: seq<Byte>)
    | Field(before: seq<Byte>, after: seq<Byte>, key: seq<Char>, left: seq<Byte>, right: seq<Byte>, value: Tree,
      rest: Fields)

  predicate ValidTree(t: Tree) {
    match t
    case Null => true
    case Bool(_) => true
    case Str(cs) => ValidString(cs)
    case Num(n) => ValidNumber(n)
    case Arr(items) => ValidList(items)
    case Obj(fields) => ValidBody(fields)
  }

  predicate ValidItems(items: Items)
    decreases items, 0
  {
    match items
    case NoItem(close) => AllSpace(close)
    case Item(before, after, head, tail) => AllSpace(before) && AllSpace(after) && ValidTree(head) && ValidItems(tail)
  }

  predicate ValidList(items: Items)
    decreases items, 1
  {
    ValidItems(items) && (items.Item? ==> items.before == [])
  }

  predicate ValidFields(fields: Fields)
    decreases fields, 0
  {
    match fields
    case NoField(close) => AllSpace(close)
    case Field(before, after, key, left, right, value, rest) =>
      && AllSpace(before) && AllSpace(after) && AllSpace(left) && AllSpace(right)
      && ValidString(key) && ValidTree(value) && ValidFields(rest)
  }

  predicate ValidBody(fields: Fields)
    decreases fields, 1
  {
    ValidFields(fields) && (fields.Field? ==> fields.before == [])
  }

  function Max(a: nat, b: nat): nat {
    if a < b then b else a
  }

  /** How many containers are open at the deepest place. */
  function Height(t: Tree): nat {
    match t
    case Arr(items) => 1 + ItemsHeight(items)
    case Obj(fields) => 1 + FieldsHeight(fields)
    case _ => 0
  }

  function ItemsHeight(items: Items): nat {
    if items.NoItem? then 0 else Max(Height(items.head), ItemsHeight(items.tail))
  }

  function FieldsHeight(fields: Fields): nat {
    if fields.NoField? then 0 else Max(Height(fields.value), FieldsHeight(fields.rest))
  }

  function TreeText(t: Tree, rest: seq<Byte>): seq<Byte>
    decreases t, 1
  {
    match t
    case Null => Json.NULL + rest
    case Bool(b) => (if b then Json.TRUE else Json.FALSE) + rest
    case Str(cs) => StringText(cs, rest)
    case Num(n) => NumberText(n, rest)
    case Arr(items) => [Json.LBRACKET] + ListText(items, rest)
    case Obj(fields) => [Json.LBRACE] + BodyText(fields, rest)
  }

  /** What follows the bracket of an array. */
  function ListText(items: Items, rest: seq<Byte>): seq<Byte>
    decreases items, 3
  {
    if items.NoItem? then items.close + ([Json.RBRACKET] + rest) else items.after + ItemsText(items, rest)
  }

  /** An item and what follows it. */
  function ItemsText(items: Items, rest: seq<Byte>): seq<Byte>
    requires items.Item?
    decreases items, 1
  {
    TreeText(items.head, TailText(items.tail, rest))
  }

  /** What follows an item. */
  function TailText(items: Items, rest: seq<Byte>): seq<Byte>
    decreases items, 2
  {
    if items.NoItem? then items.close + ([Json.RBRACKET] + rest)
    else items.before + ([Json.COMMA] + (items.after + ItemsText(items, rest)))
  }

  /** What follows the brace of an object. */
  function BodyText(fields: Fields, rest: seq<Byte>): seq<Byte>
    decreases fields, 3
  {
    if fields.NoField? then fields.close + ([Json.RBRACE] + rest) else fields.after + FieldsText(fields, rest)
  }

  function ColonText(left: seq<Byte>, right: seq<Byte>, value: Tree, rest: seq<Byte>): seq<Byte>
    decreases value, 2
  {
    left + ([Json.COLON] + (right + TreeText(value, rest)))
  }

  function FieldsText(fields: Fields, rest: seq<Byte>): seq<Byte>
    requires fields.Field?
    decreases fields, 1
  {
    StringText(fields.key, ColonText(fields.left, fields.right, fields.value, MoreText(fields.rest, rest)))
  }

  /** What follows a field. */
  function MoreText(fields: Fields, rest: seq<Byte>): seq<Byte>
    decreases fields, 2
  {
    if fields.NoField? then fields.close + ([Json.RBRACE] + rest)
    else fields.before + ([Json.COMMA] + (fields.after + FieldsText(fields, rest)))
  }

  // ---- What is written is read whole ----

  lemma TailEnds(items: Items, rest: seq<Byte>)
    requires ValidItems(items)
    ensures Ends(TailText(items, rest))
  {
  }

  lemma MoreEnds(fields: Fields, rest: seq<Byte>)
    requires ValidFields(fields)
    ensures Ends(MoreText(fields, rest))
  {
  }

  /** A value's text begins with no space, and with no mark that closes or separates. */
  predicate Begins(s: seq<Byte>) {
    s != [] && !Json.IsSpace(s[0]) && s[0] != Json.RBRACKET && s[0] != Json.RBRACE && s[0] != Json.COMMA
  }

  lemma TreeBegins(t: Tree, rest: seq<Byte>)
    requires ValidTree(t)
    ensures Begins(TreeText(t, rest))
  {
  }

  lemma NotClosed(sp: seq<Byte>, e: seq<Byte>, mark: Byte)
    requires AllSpace(sp) && e != [] && !Json.IsSpace(e[0]) && e[0] != mark
    ensures Json.Close(sp + e, mark) == None && Json.Spaces(sp + e) == |sp| && (sp + e)[|sp|..] == e
  {
    SpaceReads(sp, e);
  }

  lemma Closes(sp: seq<Byte>, rest: seq<Byte>, depth: nat)
    requires AllSpace(sp)
    ensures var a := sp + ([Json.RBRACKET] + rest);
      Leaves(a, Json.Array(a, depth), rest) && Leaves(a, Json.MoreElements(a, depth), rest)
    ensures var o := sp + ([Json.RBRACE] + rest);
      Leaves(o, Json.Object(o, depth), rest) && Leaves(o, Json.MoreMembers(o, depth), rest)
  {
    CloseReads(sp, Json.RBRACKET, rest);
    CloseReads(sp, Json.RBRACE, rest);
  }

  lemma ArrayOpens(sp: seq<Byte>, e: seq<Byte>, rest: seq<Byte>, depth: nat)
    requires AllSpace(sp) && Begins(e) && Leaves(e, Json.Elements(e, depth), rest)
    ensures Leaves(sp + e, Json.Array(sp + e, depth), rest)
  {
    NotClosed(sp, e, Json.RBRACKET);
    LeavesAfter(sp, e, Json.Elements(e, depth), rest);
  }

  lemma ObjectOpens(sp: seq<Byte>, e: seq<Byte>, rest: seq<Byte>, depth: nat)
    requires AllSpace(sp) && Begins(e) && Leaves(e, Json.Members(e, depth), rest)
    ensures Leaves(sp + e, Json.Object(sp + e, depth), rest)
  {
    NotClosed(sp, e, Json.RBRACE);
    LeavesAfter(sp, e, Json.Members(e, depth), rest);
  }

  lemma NextItem(before: seq<Byte>, after: seq<Byte>, e: seq<Byte>, rest: seq<Byte>, depth: nat)
    requires AllSpace(before) && AllSpace(after) && Begins(e) && Leaves(e, Json.Elements(e, depth), rest)
    ensures var s := before + ([Json.COMMA] + (after + e)); Leaves(s, Json.MoreElements(s, depth), rest)
  {
    var s := before + ([Json.COMMA] + (after + e));
    OtherMark(before, Json.COMMA, Json.RBRACKET, after + e);
    SeparatorReads(before, Json.COMMA, after, e);
    LeavesThen(s, Json.Separator(s, Json.COMMA), e, Json.Elements(e, depth), rest);
  }

  lemma NextField(before: seq<Byte>, after: seq<Byte>, e: seq<Byte>, rest: seq<Byte>, depth: nat)
    requires AllSpace(before) && AllSpace(after) && Begins(e) && Leaves(e, Json.Members(e, depth), rest)
    ensures var s := before + ([Json.COMMA] + (after + e)); Leaves(s, Json.MoreMembers(s, depth), rest)
  {
    var s := before + ([Json.COMMA] + (after + e));
    OtherMark(before, Json.COMMA, Json.RBRACE, after + e);
    SeparatorReads(before, Json.COMMA, after, e);
    LeavesThen(s, Json.Separator(s, Json.COMMA), e, Json.Members(e, depth), rest);
  }

  lemma ElementThen(s: seq<Byte>, mid: seq<Byte>, rest: seq<Byte>, depth: nat)
    requires Leaves(s, Json.Value(s, depth), mid) && Leaves(mid, Json.MoreElements(mid, depth), rest)
    ensures Leaves(s, Json.Elements(s, depth), rest)
  {
  }

  lemma ColonThen(left: seq<Byte>, right: seq<Byte>, e: seq<Byte>, mid: seq<Byte>, depth: nat)
    requires AllSpace(left) && AllSpace(right) && Begins(e) && Leaves(e, Json.Value(e, depth), mid)
    ensures var s := left + ([Json.COLON] + (right + e)); Leaves(s, Json.ColonValue(s, depth), mid)
  {
    var s := left + ([Json.COLON] + (right + e));
    SeparatorReads(left, Json.COLON, right, e);
    LeavesThen(s, Json.Separator(s, Json.COLON), e, Json.Value(e, depth), mid);
  }

  lemma KeyThen(key: seq<Char>, c: seq<Byte>, mid: seq<Byte>, depth: nat)
    requires ValidString(key) && Leaves(c, Json.ColonValue(c, depth), mid)
    ensures Leaves(StringText(key, c), Json.OneMember(StringText(key, c), depth), mid)
  {
    StringReads(key, c);
    LeavesThen(StringText(key, c), Json.Text(StringText(key, c)), c, Json.ColonValue(c, depth), mid);
  }

  lemma MemberThen(s: seq<Byte>, mid: seq<Byte>, rest: seq<Byte>, depth: nat)
    requires Leaves(s, Json.OneMember(s, depth), mid) && Leaves(mid, Json.MoreMembers(mid, depth), rest)
    ensures Leaves(s, Json.Members(s, depth), rest)
  {
  }

  lemma Opened(open: Byte, s: seq<Byte>, rest: seq<Byte>, depth: nat)
    requires depth > 0
    requires open == Json.LBRACE ==> Leaves(s, Json.Object(s, depth - 1), rest)
    requires open == Json.LBRACKET ==> Leaves(s, Json.Array(s, depth - 1), rest)
    requires open == Json.LBRACE || open == Json.LBRACKET
    ensures Leaves([open] + s, Json.Value([open] + s, depth), rest)
  {
  }

  lemma WordIsValue(w: seq<Byte>, rest: seq<Byte>, depth: nat)
    requires w == Json.NULL || w == Json.TRUE || w == Json.FALSE
    ensures Leaves(w + rest, Json.Value(w + rest, depth), rest)
  {
  }

  lemma StringIsValue(cs: seq<Char>, rest: seq<Byte>, depth: nat)
    requires ValidString(cs)
    ensures Leaves(StringText(cs, rest), Json.Value(StringText(cs, rest), depth), rest)
  {
    StringReads(cs, rest);
  }

  lemma NumberIsValue(s: seq<Byte>, rest: seq<Byte>, depth: nat)
    requires Leaves(s, Json.Number(s), rest) && s != [] && (s[0] == 45 || Json.IsDigit(s[0]))
    ensures Leaves(s, Json.Value(s, depth), rest)
  {
  }

  lemma ScalarReads(t: Tree, rest: seq<Byte>, depth: nat)
    requires ValidTree(t) && Ends(rest) && !t.Arr? && !t.Obj?
    ensures Leaves(TreeText(t, rest), Json.Value(TreeText(t, rest), depth), rest)
  {
    match t
    case Null => WordIsValue(Json.NULL, rest, depth);
    case Bool(b) => WordIsValue(if b then Json.TRUE else Json.FALSE, rest, depth);
    case Str(cs) => StringIsValue(cs, rest, depth);
    case Num(n) =>
      NumberReads(n, rest);
      NumberIsValue(NumberText(n, rest), rest, depth);
  }

  /** The reader takes exactly the text of the tree, whatever the space and whatever follows. */
  lemma {:induction false} TreeReads(t: Tree, rest: seq<Byte>, depth: nat)
    requires ValidTree(t) && Ends(rest) && Height(t) <= depth
    ensures Leaves(TreeText(t, rest), Json.Value(TreeText(t, rest), depth), rest)
    decreases t, 2
  {
    if t.Arr? {
      ListReads(t.items, rest, depth - 1);
      Opened(Json.LBRACKET, ListText(t.items, rest), rest, depth);
    } else if t.Obj? {
      BodyReads(t.fields, rest, depth - 1);
      Opened(Json.LBRACE, BodyText(t.fields, rest), rest, depth);
    } else {
      ScalarReads(t, rest, depth);
    }
  }

  lemma {:induction false} ListReads(items: Items, rest: seq<Byte>, depth: nat)
    requires ValidItems(items) && ItemsHeight(items) <= depth
    ensures Leaves(ListText(items, rest), Json.Array(ListText(items, rest), depth), rest)
    decreases items, 2
  {
    if items.NoItem? {
      Closes(items.close, rest, depth);
    } else {
      ItemsRead(items, rest, depth);
      ArrayOpens(items.after, ItemsText(items, rest), rest, depth);
    }
  }

  lemma {:induction false} ItemsRead(items: Items, rest: seq<Byte>, depth: nat)
    requires items.Item? && ValidItems(items) && ItemsHeight(items) <= depth
    ensures Leaves(ItemsText(items, rest), Json.Elements(ItemsText(items, rest), depth), rest)
    ensures Begins(ItemsText(items, rest))
    decreases items, 0
  {
    var mid := TailText(items.tail, rest);
    TailEnds(items.tail, rest);
    TreeReads(items.head, mid, depth);
    TreeBegins(items.head, mid);
    TailReads(items.tail, rest, depth);
    ElementThen(ItemsText(items, rest), mid, rest, depth);
  }

  lemma {:induction false} TailReads(items: Items, rest: seq<Byte>, depth: nat)
    requires ValidItems(items) && ItemsHeight(items) <= depth
    ensures Leaves(TailText(items, rest), Json.MoreElements(TailText(items, rest), depth), rest)
    decreases items, 1
  {
    if items.NoItem? {
      Closes(items.close, rest, depth);
    } else {
      ItemsRead(items, rest, depth);
      NextItem(items.before, items.after, ItemsText(items, rest), rest, depth);
    }
  }

  lemma {:induction false} BodyReads(fields: Fields, rest: seq<Byte>, depth: nat)
    requires ValidFields(fields) && FieldsHeight(fields) <= depth
    ensures Leaves(BodyText(fields, rest), Json.Object(BodyText(fields, rest), depth), rest)
    decreases fields, 2
  {
    if fields.NoField? {
      Closes(fields.close, rest, depth);
    } else {
      FieldsRead(fields, rest, depth);
      ObjectOpens(fields.after, FieldsText(fields, rest), rest, depth);
    }
  }

  lemma {:induction false} FieldsRead(fields: Fields, rest: seq<Byte>, depth: nat)
    requires fields.Field? && ValidFields(fields) && FieldsHeight(fields) <= depth
    ensures Leaves(FieldsText(fields, rest), Json.Members(FieldsText(fields, rest), depth), rest)
    ensures Begins(FieldsText(fields, rest))
    decreases fields, 0
  {
    var mid := MoreText(fields.rest, rest);
    MoreEnds(fields.rest, rest);
    TreeReads(fields.value, mid, depth);
    TreeBegins(fields.value, mid);
    ColonThen(fields.left, fields.right, TreeText(fields.value, mid), mid, depth);
    KeyThen(fields.key, ColonText(fields.left, fields.right, fields.value, mid), mid, depth);
    MoreRead(fields.rest, rest, depth);
    MemberThen(FieldsText(fields, rest), mid, rest, depth);
  }

  lemma {:induction false} MoreRead(fields: Fields, rest: seq<Byte>, depth: nat)
    requires ValidFields(fields) && FieldsHeight(fields) <= depth
    ensures Leaves(MoreText(fields, rest), Json.MoreMembers(MoreText(fields, rest), depth), rest)
    decreases fields, 1
  {
    if fields.NoField? {
      Closes(fields.close, rest, depth);
    } else {
      FieldsRead(fields, rest, depth);
      NextField(fields.before, fields.after, FieldsText(fields, rest), rest, depth);
    }
  }

  // ---- The members that are read ----

  /** The text of a value on its own. */
  function Alone(t: Tree): seq<Byte> {
    TreeText(t, [])
  }

  lemma StringAppends(cs: seq<Char>, rest: seq<Byte>)
    ensures StringText(cs, rest) == StringText(cs, []) + rest
  {
  }

  lemma ExpAppends(n: Number, rest: seq<Byte>)
    ensures ExpText(n, rest) == ExpText(n, []) + rest
  {
    if n.exp.Some? {
      var e := n.exp.value;
      assert SignText(e, rest) == SignText(e, []) + rest;
      Regroup([e.mark], SignText(e, []), rest);
    }
  }

  lemma FracAppends(n: Number, rest: seq<Byte>)
    ensures FracText(n, rest) == FracText(n, []) + rest
  {
    ExpAppends(n, rest);
    Regroup(n.frac, ExpText(n, []), rest);
    Regroup([46], n.frac + ExpText(n, []), rest);
  }

  lemma NumberAppends(n: Number, rest: seq<Byte>)
    ensures NumberText(n, rest) == NumberText(n, []) + rest
  {
    FracAppends(n, rest);
    Regroup(n.whole, FracText(n, []), rest);
    Regroup([45], n.whole + FracText(n, []), rest);
  }

  lemma Appends(a: seq<Byte>, mark: Byte, b: seq<Byte>, c: seq<Byte>, d: seq<Byte>, rest: seq<Byte>)
    requires c == d + rest
    ensures a + ([mark] + c) == a + ([mark] + d) + rest
    ensures a + ([mark] + (b + c)) == a + ([mark] + (b + d)) + rest
  {
  }

  lemma Regroup(a: seq<Byte>, b: seq<Byte>, c: seq<Byte>)
    ensures a + (b + c) == a + b + c
  {
  }

  lemma {:induction false} TreeAppends(t: Tree, rest: seq<Byte>)
    ensures TreeText(t, rest) == TreeText(t, []) + rest
    decreases t, 1
  {
    match t
    case Str(cs) => StringAppends(cs, rest);
    case Num(n) => NumberAppends(n, rest);
    case Arr(items) =>
      ListAppends(items, rest);
      Regroup([Json.LBRACKET], ListText(items, []), rest);
    case Obj(fields) =>
      BodyAppends(fields, rest);
      Regroup([Json.LBRACE], BodyText(fields, []), rest);
    case _ =>
  }

  lemma {:induction false} ListAppends(items: Items, rest: seq<Byte>)
    ensures ListText(items, rest) == ListText(items, []) + rest
    decreases items, 2
  {
    if items.NoItem? {
      Appends(items.close, Json.RBRACKET, [], rest, [], rest);
    } else {
      ItemsAppend(items, rest);
      Regroup(items.after, ItemsText(items, []), rest);
    }
  }

  lemma {:induction false} ItemsAppend(items: Items, rest: seq<Byte>)
    requires items.Item?
    ensures ItemsText(items, rest) == ItemsText(items, []) + rest
    decreases items, 0
  {
    var mid, end := TailText(items.tail, rest), TailText(items.tail, []);
    TreeAppends(items.head, mid);
    TreeAppends(items.head, end);
    TailAppends(items.tail, rest);
    Regroup(TreeText(items.head, []), end, rest);
  }

  lemma {:induction false} TailAppends(items: Items, rest: seq<Byte>)
    ensures TailText(items, rest) == TailText(items, []) + rest
    decreases items, 1
  {
    if items.NoItem? {
      Appends(items.close, Json.RBRACKET, [], rest, [], rest);
    } else {
      ItemsAppend(items, rest);
      Appends(items.before, Json.COMMA, items.after, ItemsText(items, rest), ItemsText(items, []), rest);
    }
  }

  lemma {:induction false} BodyAppends(fields: Fields, rest: seq<Byte>)
    ensures BodyText(fields, rest) == BodyText(fields, []) + rest
    decreases fields, 2
  {
    if fields.NoField? {
      Appends(fields.close, Json.RBRACE, [], rest, [], rest);
    } else {
      FieldsAppend(fields, rest);
      Regroup(fields.after, FieldsText(fields, []), rest);
    }
  }

  lemma {:induction false} FieldsAppend(fields: Fields, rest: seq<Byte>)
    requires fields.Field?
    ensures FieldsText(fields, rest) == FieldsText(fields, []) + rest
    decreases fields, 0
  {
    var mid, end := MoreText(fields.rest, rest), MoreText(fields.rest, []);
    MoreAppends(fields.rest, rest);
    TreeAppends(fields.value, mid);
    TreeAppends(fields.value, end);
    Regroup(TreeText(fields.value, []), end, rest);
    Appends(fields.left, Json.COLON, fields.right, TreeText(fields.value, mid), TreeText(fields.value, end), rest);
    StringAppends(fields.key, ColonText(fields.left, fields.right, fields.value, mid));
    StringAppends(fields.key, ColonText(fields.left, fields.right, fields.value, end));
    Regroup(StringText(fields.key, []), ColonText(fields.left, fields.right, fields.value, end), rest);
  }

  lemma {:induction false} MoreAppends(fields: Fields, rest: seq<Byte>)
    ensures MoreText(fields, rest) == MoreText(fields, []) + rest
    decreases fields, 1
  {
    if fields.NoField? {
      Appends(fields.close, Json.RBRACE, [], rest, [], rest);
    } else {
      FieldsAppend(fields, rest);
      Appends(fields.before, Json.COMMA, fields.after, FieldsText(fields, rest), FieldsText(fields, []), rest);
    }
  }

  /** The keys and values as they were written. */
  function Written(fields: Fields): seq<Json.Member> {
    if fields.NoField? then []
    else [Json.Member(Content(fields.key), Alone(fields.value))] + Written(fields.rest)
  }

  lemma TakenBetween(c: seq<Byte>, k: nat, n: nat, v: seq<Byte>, t: seq<Byte>, mid: seq<Byte>)
    requires k <= n <= |c| && c[k..] == v && v == t + mid && c[n..] == mid
    ensures c[k..n] == t
  {
  }

  lemma ColonTakes(left: seq<Byte>, right: seq<Byte>, value: Tree, mid: seq<Byte>, depth: nat)
    requires ValidTree(value) && AllSpace(left) && AllSpace(right) && Ends(mid) && Height(value) <= depth
    ensures var c := ColonText(left, right, value, mid);
      Leaves(c, Json.ColonValue(c, depth), mid) && Json.AfterColon(c, depth) == Alone(value)
  {
    var v := TreeText(value, mid);
    var c := ColonText(left, right, value, mid);
    TreeReads(value, mid, depth);
    TreeBegins(value, mid);
    ColonThen(left, right, v, mid, depth);
    SeparatorReads(left, Json.COLON, right, v);
    TreeAppends(value, mid);
    TakenBetween(c, Json.Separator(c, Json.COLON).value, Json.ColonValue(c, depth).value, v, Alone(value), mid);
  }

  lemma MemberTakes(fields: Fields, rest: seq<Byte>, depth: nat)
    requires fields.Field? && ValidFields(fields) && FieldsHeight(fields) <= depth
    ensures var s := FieldsText(fields, rest);
      && Leaves(s, Json.OneMember(s, depth), MoreText(fields.rest, rest))
      && Json.MemberAt(s, depth) == Json.Member(Content(fields.key), Alone(fields.value))
  {
    var mid := MoreText(fields.rest, rest);
    var c := ColonText(fields.left, fields.right, fields.value, mid);
    MoreEnds(fields.rest, rest);
    ColonTakes(fields.left, fields.right, fields.value, mid, depth);
    KeyThen(fields.key, c, mid, depth);
    StringReads(fields.key, c);
  }

  lemma NextTaken(before: seq<Byte>, after: seq<Byte>, e: seq<Byte>, rest: seq<Byte>, depth: nat)
    requires AllSpace(before) && AllSpace(after) && Begins(e) && Leaves(e, Json.Members(e, depth), rest)
    ensures var s := before + ([Json.COMMA] + (after + e));
      Json.MoreMembers(s, depth).Some? && Json.MoreFields(s, depth) == Json.Fields(e, depth)
  {
    OtherMark(before, Json.COMMA, Json.RBRACE, after + e);
    SeparatorReads(before, Json.COMMA, after, e);
    MoreFieldsAre(before + ([Json.COMMA] + (after + e)), e, depth);
  }

  lemma MoreFieldsAre(s: seq<Byte>, e: seq<Byte>, depth: nat)
    requires Json.Close(s, Json.RBRACE).None? && Leaves(s, Json.Separator(s, Json.COMMA), e)
      && Json.Members(e, depth).Some?
    ensures Json.MoreMembers(s, depth).Some? && Json.MoreFields(s, depth) == Json.Fields(e, depth)
  {
  }

  lemma NoneTaken(sp: seq<Byte>, rest: seq<Byte>, depth: nat)
    requires AllSpace(sp)
    ensures var s := sp + ([Json.RBRACE] + rest);
      && Json.MoreMembers(s, depth).Some? && Json.MoreFields(s, depth) == []
      && Json.Object(s, depth).Some? && Json.ObjectFields(s, depth) == []
  {
    CloseReads(sp, Json.RBRACE, rest);
  }

  lemma {:induction false} FieldsTake(fields: Fields, rest: seq<Byte>, depth: nat)
    requires fields.Field? && ValidFields(fields) && FieldsHeight(fields) <= depth
    ensures var s := FieldsText(fields, rest);
      Json.Members(s, depth).Some? && Json.Fields(s, depth) == Written(fields)
    decreases fields, 0
  {
    FieldsRead(fields, rest, depth);
    MemberTakes(fields, rest, depth);
    MoreTake(fields.rest, rest, depth);
  }

  lemma {:induction false} MoreTake(fields: Fields, rest: seq<Byte>, depth: nat)
    requires ValidFields(fields) && FieldsHeight(fields) <= depth
    ensures var s := MoreText(fields, rest);
      Json.MoreMembers(s, depth).Some? && Json.MoreFields(s, depth) == Written(fields)
    decreases fields, 1
  {
    if fields.NoField? {
      NoneTaken(fields.close, rest, depth);
    } else {
      FieldsTake(fields, rest, depth);
      FieldsRead(fields, rest, depth);
      NextTaken(fields.before, fields.after, FieldsText(fields, rest), rest, depth);
    }
  }

  lemma BodyTakes(fields: Fields, rest: seq<Byte>, depth: nat)
    requires ValidFields(fields) && FieldsHeight(fields) <= depth
    ensures var s := BodyText(fields, rest);
      Json.Object(s, depth).Some? && Json.ObjectFields(s, depth) == Written(fields)
  {
    BodyReads(fields, rest, depth);
    if fields.NoField? {
      NoneTaken(fields.close, rest, depth);
    } else {
      var e := FieldsText(fields, rest);
      FieldsRead(fields, rest, depth);
      FieldsTake(fields, rest, depth);
      NotClosed(fields.after, e, Json.RBRACE);
    }
  }

  // ---- What is read was written ----

  lemma {:induction false} SpacesAreSpace(s: seq<Byte>)
    ensures AllSpace(s[..Json.Spaces(s)])
  {
    if s != [] && Json.IsSpace(s[0]) {
      SpacesAreSpace(s[1..]);
      assert s[..Json.Spaces(s)] == [s[0]] + s[1..][..Json.Spaces(s[1..])];
    }
  }

  lemma {:induction false} DigitsAreDigits(s: seq<Byte>)
    ensures AllDigits(s[..Json.Digits(s)])
  {
    if s != [] && Json.IsDigit(s[0]) {
      DigitsAreDigits(s[1..]);
      assert s[..Json.Digits(s)] == [s[0]] + s[1..][..Json.Digits(s[1..])];
    }
  }

  lemma Cut(s: seq<Byte>, k: nat)
    requires k <= |s|
    ensures s == s[..k] + s[k..]
  {
  }

  lemma FirstOf(s: seq<Byte>)
    requires s != []
    ensures s == [s[0]] + s[1..]
  {
  }

  lemma LeavesWithin(s: seq<Byte>, k: nat, n: Option<nat>, rest: seq<Byte>)
    requires k <= |s| && Leaves(s, Json.Plus(k, n), rest)
    ensures Leaves(s[k..], n, rest)
  {
  }

  lemma CloseIs(s: seq<Byte>, mark: Byte, rest: seq<Byte>) returns (sp: seq<Byte>)
    requires Leaves(s, Json.Close(s, mark), rest)
    ensures AllSpace(sp) && s == sp + ([mark] + rest)
  {
    sp := s[..Json.Spaces(s)];
    SpacesAreSpace(s);
  }

  lemma SeparatorIs(s: seq<Byte>, mark: Byte, rest: seq<Byte>) returns (before: seq<Byte>, after: seq<Byte>)
    requires Leaves(s, Json.Separator(s, mark), rest)
    ensures AllSpace(before) && AllSpace(after) && s == before + ([mark] + (after + rest))
  {
    var k := Json.Close(s, mark).value;
    var mid := s[k..];
    before := CloseIs(s, mark, mid);
    after := mid[..Json.Spaces(mid)];
    SpacesAreSpace(mid);
    LeavesWithin(s, k, Some(Json.Spaces(mid)), rest);
    Cut(mid, Json.Spaces(mid));
  }

  lemma {:induction false} CharsAre(s: seq<Byte>, rest: seq<Byte>) returns (cs: seq<Char>)
    requires Leaves(s, Json.Chars(s), rest)
    ensures ValidString(cs) && s == Content(cs) + ([Json.QUOTE] + rest)
  {
    if s[0] == Json.QUOTE {
      cs := [];
      assert s == [Json.QUOTE] + rest;
    } else {
      var c, mid := CharIs(s, rest);
      var more := CharsAre(mid, rest);
      cs := [c] + more;
      ContentStep(c, more, [Json.QUOTE] + rest);
    }
  }

  lemma CharIs(s: seq<Byte>, rest: seq<Byte>) returns (c: Char, mid: seq<Byte>)
    requires Leaves(s, Json.Chars(s), rest) && s[0] != Json.QUOTE
    ensures ValidChar(c) && |mid| < |s| && s == CharText(c) + mid && Leaves(mid, Json.Chars(mid), rest)
  {
    var k;
    c, k := FirstChar(s);
    mid := s[k..];
    LeavesWithin(s, k, Json.Chars(mid), rest);
  }

  lemma FirstChar(s: seq<Byte>) returns (c: Char, k: nat)
    requires Json.Chars(s).Some? && s[0] != Json.QUOTE
    ensures 0 < k <= |s| && ValidChar(c) && s == CharText(c) + s[k..]
    ensures Json.Chars(s) == Json.Plus(k, Json.Chars(s[k..]))
  {
    if s[0] != Json.BACKSLASH {
      c, k := Raw(s[0]), 1;
    } else if Json.IsShortEscape(s[1]) {
      c, k := Short(s[1]), 2;
    } else {
      c, k := Unicode(s[2], s[3], s[4], s[5]), 6;
    }
  }

  lemma TextIs(s: seq<Byte>, rest: seq<Byte>) returns (cs: seq<Char>)
    requires Leaves(s, Json.Text(s), rest)
    ensures ValidString(cs) && s == StringText(cs, rest)
  {
    FirstOf(s);
    LeavesWithin(s, 1, Json.Chars(s[1..]), rest);
    cs := CharsAre(s[1..], rest);
  }

  lemma DigitsAre(s: seq<Byte>, rest: seq<Byte>) returns (digits: seq<Byte>)
    requires Leaves(s, Some(Json.Digits(s)), rest)
    ensures AllDigits(digits) && |digits| == Json.Digits(s) && s == digits + rest
  {
    DigitsAreDigits(s);
    digits := s[..Json.Digits(s)];
  }

  lemma ExpIs(s: seq<Byte>, rest: seq<Byte>) returns (exp: Option<Exponent>)
    requires Leaves(s, Json.ExpPart(s), rest)
    ensures exp.Some? ==> ValidExponent(exp.value)
    ensures s == if exp.None? then rest else [exp.value.mark] + SignText(exp.value, rest)
  {
    if s == [] || (s[0] != 101 && s[0] != 69) {
      exp := None;
    } else if |s| > 1 && (s[1] == 43 || s[1] == 45) {
      LeavesWithin(s, 2, Some(Json.Digits(s[2..])), rest);
      var digits := DigitsAre(s[2..], rest);
      exp := Some(Exponent(s[0], Some(s[1]), digits));
      assert s == [s[0]] + ([s[1]] + s[2..]);
    } else {
      LeavesWithin(s, 1, Some(Json.Digits(s[1..])), rest);
      var digits := DigitsAre(s[1..], rest);
      exp := Some(Exponent(s[0], None, digits));
      assert s == [s[0]] + s[1..];
    }
  }

  lemma FracIs(s: seq<Byte>, e: seq<Byte>) returns (frac: seq<Byte>)
    requires Leaves(s, Json.FracPart(s), e)
    ensures AllDigits(frac) && s == if frac == [] then e else [46] + (frac + e)
  {
    if s == [] || s[0] != 46 {
      frac := [];
    } else {
      LeavesWithin(s, 1, Some(Json.Digits(s[1..])), e);
      frac := DigitsAre(s[1..], e);
      assert s == [46] + s[1..];
    }
  }

  lemma UnsignedIs(s: seq<Byte>, negative: bool, rest: seq<Byte>) returns (n: Number)
    requires Leaves(s, Json.Unsigned(s), rest)
    ensures ValidNumber(n) && n.negative == negative && s == n.whole + FracText(n, rest)
  {
    var i := Json.IntPart(s);
    var f := s[i..];
    LeavesWithin(s, i, Json.FracExp(f), rest);
    var e := f[Json.FracPart(f).value..];
    LeavesWithin(f, Json.FracPart(f).value, Json.ExpPart(e), rest);
    var frac := FracIs(f, e);
    var exp := ExpIs(e, rest);
    n := Number(negative, s[..i], frac, exp);
    WholeIs(s);
    assert f == FracText(n, rest);
    Cut(s, i);
  }

  lemma WholeIs(s: seq<Byte>)
    requires Json.IntPart(s) > 0
    ensures var whole := s[..Json.IntPart(s)]; AllDigits(whole) && (whole[0] == 48 ==> |whole| == 1)
  {
    DigitsAreDigits(s);
  }

  lemma NumberIs(s: seq<Byte>, rest: seq<Byte>) returns (n: Number)
    requires Leaves(s, Json.Number(s), rest)
    ensures ValidNumber(n) && s == NumberText(n, rest)
  {
    if s[0] == 45 {
      LeavesWithin(s, 1, Json.Unsigned(s[1..]), rest);
      n := UnsignedIs(s[1..], true, rest);
      FirstOf(s);
    } else {
      n := UnsignedIs(s, false, rest);
    }
  }

  /** Whatever the reader takes for a value is the text of a tree. */
  lemma {:induction false} ValueIs(s: seq<Byte>, depth: nat, rest: seq<Byte>) returns (t: Tree)
    requires Leaves(s, Json.Value(s, depth), rest)
    ensures ValidTree(t) && Height(t) <= depth && s == TreeText(t, rest)
    decreases |s|, 4
  {
    if s[0] == Json.LBRACE {
      Inside(s, depth, rest);
      var fields := ObjectIs(s[1..], depth - 1, rest);
      t := Obj(fields);
    } else if s[0] == Json.LBRACKET {
      Inside(s, depth, rest);
      var items := ArrayIs(s[1..], depth - 1, rest);
      t := Arr(items);
    } else {
      t := ScalarIs(s, depth, rest);
    }
  }

  lemma Inside(s: seq<Byte>, depth: nat, rest: seq<Byte>)
    requires Leaves(s, Json.Value(s, depth), rest) && (s[0] == Json.LBRACE || s[0] == Json.LBRACKET)
    ensures depth > 0 && s == [s[0]] + s[1..]
    ensures s[0] == Json.LBRACE ==> Leaves(s[1..], Json.Object(s[1..], depth - 1), rest)
    ensures s[0] == Json.LBRACKET ==> Leaves(s[1..], Json.Array(s[1..], depth - 1), rest)
  {
    FirstOf(s);
    if s[0] == Json.LBRACE {
      LeavesWithin(s, 1, Json.Object(s[1..], depth - 1), rest);
    } else {
      LeavesWithin(s, 1, Json.Array(s[1..], depth - 1), rest);
    }
  }

  lemma ScalarIs(s: seq<Byte>, depth: nat, rest: seq<Byte>) returns (t: Tree)
    requires Leaves(s, Json.Value(s, depth), rest) && s[0] != Json.LBRACE && s[0] != Json.LBRACKET
    ensures ValidTree(t) && Height(t) == 0 && s == TreeText(t, rest)
  {
    if s[0] == Json.QUOTE {
      var cs := TextIs(s, rest);
      t := Str(cs);
    } else if s[0] == 45 || Json.IsDigit(s[0]) {
      var n := NumberIs(s, rest);
      t := Num(n);
    } else {
      t := if s[0] == 116 then Bool(true) else if s[0] == 102 then Bool(false) else Null;
      Cut(s, Json.Value(s, depth).value);
    }
  }

  lemma {:induction false} ArrayIs(s: seq<Byte>, depth: nat, rest: seq<Byte>) returns (items: Items)
    requires Leaves(s, Json.Array(s, depth), rest)
    ensures ValidList(items) && ItemsHeight(items) <= depth && s == ListText(items, rest)
    decreases |s|, 6
  {
    if Json.Close(s, Json.RBRACKET).Some? {
      var sp := CloseIs(s, Json.RBRACKET, rest);
      items := NoItem(sp);
    } else {
      var k := Json.Spaces(s);
      SpacesAreSpace(s);
      LeavesWithin(s, k, Json.Elements(s[k..], depth), rest);
      items := ElementsAre(s[k..], depth, [], s[..k], rest);
      Cut(s, k);
    }
  }

  lemma {:induction false} ElementsAre(s: seq<Byte>, depth: nat, before: seq<Byte>, after: seq<Byte>, rest: seq<Byte>)
    returns (items: Items)
    requires Leaves(s, Json.Elements(s, depth), rest) && AllSpace(before) && AllSpace(after)
    ensures items.Item? && items.before == before && items.after == after
    ensures ValidItems(items) && ItemsHeight(items) <= depth && s == ItemsText(items, rest)
    decreases |s|, 5
  {
    var v := Json.Value(s, depth).value;
    LeavesWithin(s, v, Json.MoreElements(s[v..], depth), rest);
    var head := ValueIs(s, depth, s[v..]);
    var tail := MoreElementsAre(s[v..], depth, rest);
    items := Item(before, after, head, tail);
  }

  lemma {:induction false} MoreElementsAre(s: seq<Byte>, depth: nat, rest: seq<Byte>) returns (items: Items)
    requires Leaves(s, Json.MoreElements(s, depth), rest)
    ensures ValidItems(items) && ItemsHeight(items) <= depth && s == TailText(items, rest)
    decreases |s|, 1
  {
    if Json.Close(s, Json.RBRACKET).Some? {
      var sp := CloseIs(s, Json.RBRACKET, rest);
      items := NoItem(sp);
    } else {
      var k := Json.Separator(s, Json.COMMA).value;
      LeavesWithin(s, k, Json.Elements(s[k..], depth), rest);
      var before, after := SeparatorIs(s, Json.COMMA, s[k..]);
      items := ElementsAre(s[k..], depth, before, after, rest);
    }
  }

  lemma {:induction false} ObjectIs(s: seq<Byte>, depth: nat, rest: seq<Byte>) returns (fields: Fields)
    requires Leaves(s, Json.Object(s, depth), rest)
    ensures ValidBody(fields) && FieldsHeight(fields) <= depth && s == BodyText(fields, rest)
    decreases |s|, 6
  {
    if Json.Close(s, Json.RBRACE).Some? {
      var sp := CloseIs(s, Json.RBRACE, rest);
      fields := NoField(sp);
    } else {
      var k := Json.Spaces(s);
      SpacesAreSpace(s);
      LeavesWithin(s, k, Json.Members(s[k..], depth), rest);
      fields := MembersAre(s[k..], depth, [], s[..k], rest);
      Cut(s, k);
    }
  }

  lemma {:induction false} MembersAre(s: seq<Byte>, depth: nat, before: seq<Byte>, after: seq<Byte>, rest: seq<Byte>)
    returns (fields: Fields)
    requires Leaves(s, Json.Members(s, depth), rest) && AllSpace(before) && AllSpace(after)
    ensures fields.Field? && fields.before == before && fields.after == after
    ensures ValidFields(fields) && FieldsHeight(fields) <= depth && s == FieldsText(fields, rest)
    decreases |s|, 5
  {
    var m := Json.OneMember(s, depth).value;
    LeavesWithin(s, m, Json.MoreMembers(s[m..], depth), rest);
    var key, left, right, value := MemberIs(s, depth, s[m..]);
    var more := MoreMembersAre(s[m..], depth, rest);
    fields := Field(before, after, key, left, right, value, more);
  }

  lemma {:induction false} MemberIs(s: seq<Byte>, depth: nat, rest: seq<Byte>)
    returns (key: seq<Char>, left: seq<Byte>, right: seq<Byte>, value: Tree)
    requires Leaves(s, Json.OneMember(s, depth), rest)
    ensures ValidString(key) && AllSpace(left) && AllSpace(right) && ValidTree(value) && Height(value) <= depth
    ensures s == StringText(key, ColonText(left, right, value, rest))
    decreases |s|, 1
  {
    var q := Json.Text(s).value;
    var c := s[q..];
    LeavesWithin(s, q, Json.ColonValue(c, depth), rest);
    var k := Json.Separator(c, Json.COLON).value;
    LeavesWithin(c, k, Json.Value(c[k..], depth), rest);
    key := TextIs(s, c);
    left, right := SeparatorIs(c, Json.COLON, c[k..]);
    value := ValueIs(c[k..], depth, rest);
  }

  lemma {:induction false} MoreMembersAre(s: seq<Byte>, depth: nat, rest: seq<Byte>) returns (fields: Fields)
    requires Leaves(s, Json.MoreMembers(s, depth), rest)
    ensures ValidFields(fields) && FieldsHeight(fields) <= depth && s == MoreText(fields, rest)
    decreases |s|, 1
  {
    if Json.Close(s, Json.RBRACE).Some? {
      var sp := CloseIs(s, Json.RBRACE, rest);
      fields := NoField(sp);
    } else {
      var k := Json.Separator(s, Json.COMMA).value;
      LeavesWithin(s, k, Json.Members(s[k..], depth), rest);
      var before, after := SeparatorIs(s, Json.COMMA, s[k..]);
      fields := MembersAre(s[k..], depth, before, after, rest);
    }
  }

  // ---- Documents ----

  lemma {:induction false} OnlySpace(sp: seq<Byte>)
    requires AllSpace(sp)
    ensures Json.Spaces(sp) == |sp|
  {
  }

  /** A value with space around it. */
  ghost predicate IsDocument(d: seq<Byte>, lead: seq<Byte>, t: Tree, trail: seq<Byte>) {
    && AllSpace(lead) && AllSpace(trail) && ValidTree(t) && Height(t) <= Json.MAX_DEPTH
    && d == lead + TreeText(t, trail)
  }

  lemma DocumentIsValid(d: seq<Byte>, lead: seq<Byte>, v: seq<Byte>, trail: seq<Byte>, depth: nat)
    requires AllSpace(lead) && AllSpace(trail) && d == lead + v && Solid(v)
    requires depth == Json.MAX_DEPTH && Leaves(v, Json.Value(v, depth), trail)
    ensures Json.Valid(d) && Json.Spaces(d) == |lead| && d[|lead|..] == v
  {
    SpaceReads(lead, v);
    OnlySpace(trail);
  }

  lemma DocumentIs(d: seq<Byte>, depth: nat) returns (lead: seq<Byte>, t: Tree, trail: seq<Byte>)
    requires depth == Json.MAX_DEPTH && Json.Valid(d)
    ensures IsDocument(d, lead, t, trail)
  {
    var v := d[Json.Spaces(d)..];
    lead, trail := d[..Json.Spaces(d)], v[Json.Value(v, depth).value..];
    SpacesAreSpace(d);
    SpacesAreSpace(trail);
    assert trail[..|trail|] == trail;
    t := ValueIs(v, depth, trail);
    Cut(d, Json.Spaces(d));
  }

  lemma DocumentReadsAt(d: seq<Byte>, lead: seq<Byte>, t: Tree, trail: seq<Byte>, depth: nat)
    requires IsDocument(d, lead, t, trail) && depth == Json.MAX_DEPTH
    ensures Json.Valid(d) && Json.Spaces(d) == |lead| && d[|lead|..] == TreeText(t, trail)
  {
    TreeReads(t, trail, depth);
    TreeBegins(t, trail);
    DocumentIsValid(d, lead, TreeText(t, trail), trail, depth);
  }

  /** The reader accepts exactly the texts of the grammar whose containers nest no deeper than it allows. */
  lemma ValidIff(d: seq<Byte>)
    ensures Json.Valid(d) <==> exists lead, t, trail :: IsDocument(d, lead, t, trail)
  {
    if Json.Valid(d) {
      var lead, t, trail := DocumentIs(d, Json.MAX_DEPTH);
    }
    if lead, t, trail :| IsDocument(d, lead, t, trail) {
      DocumentReadsAt(d, lead, t, trail, Json.MAX_DEPTH);
    }
  }

  lemma TopObjectIs(d: seq<Byte>, lead: seq<Byte>, fields: Fields, trail: seq<Byte>, depth: nat)
    requires IsDocument(d, lead, Obj(fields), trail) && depth == Json.MAX_DEPTH
    ensures Json.TopObject(d) == Some(Written(fields))
  {
    DocumentReadsAt(d, lead, Obj(fields), trail, depth);
    ObjectFits(fields);
    BodyTakes(fields, trail, depth - 1);
    assert d[|lead| + 1..] == d[|lead|..][1..] == BodyText(fields, trail);
  }

  /** And takes for the members of an object exactly what was written, in order. */
  lemma TopObjectIff(d: seq<Byte>, members: seq<Json.Member>)
    ensures Json.TopObject(d) == Some(members)
       <==> exists lead, fields, trail :: IsDocument(d, lead, Obj(fields), trail) && Written(fields) == members
  {
    if Json.TopObject(d).Some? {
      var lead, t, trail := DocumentIs(d, Json.MAX_DEPTH);
      DocumentReadsAt(d, lead, t, trail, Json.MAX_DEPTH);
      assert d[|lead|] == TreeText(t, trail)[0];
      OnlyObjectsOpen(t, trail);
      TopObjectIs(d, lead, t.fields, trail, Json.MAX_DEPTH);
    }
    if lead, fields, trail :| IsDocument(d, lead, Obj(fields), trail) && Written(fields) == members {
      TopObjectIs(d, lead, fields, trail, Json.MAX_DEPTH);
    }
  }

  lemma ObjectFits(fields: Fields)
    requires ValidTree(Obj(fields))
    ensures ValidFields(fields) && FieldsHeight(fields) < Height(Obj(fields))
  {
  }

  lemma OnlyObjectsOpen(t: Tree, rest: seq<Byte>)
    requires ValidTree(t)
    ensures TreeText(t, rest) != [] && (TreeText(t, rest)[0] == Json.LBRACE ==> t.Obj?)
  {
  }
}
