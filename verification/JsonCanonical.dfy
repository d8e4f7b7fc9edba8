/**
 The canonical serializer of the Windows supervisor: keys in ordinal order, no blanks, the shortest
 escapes, and a `\u` escape for every lone surrogate. A value is what `AppendCanonical` may meet.
 */
module JsonCanonical {
  import opened Utf16
  import opened Wrappers
  import opened OrdinalOrder
  import opened JsonUnambiguous
  import opened JsonKeys
  import G = JsonGrammar

  datatype Value =
    | Null
    | Boolean(b: bool)
    | Number(q: real)
    | Str(text: Text)
    | List(items: seq<Value>)
    | Record(fields: map<Text, Value>)
    | Unsupported

  predicate IsInteger(q: real) { q.Floor as real == q }

  /** Every number in the value is integral and nothing unsupported occurs. */
  ghost predicate Serializable(v: Value) {
    match v
    case Number(q) => IsInteger(q)
    case List(items) => forall i :: 0 <= i < |items| ==> Serializable(items[i])
    case Record(fields) => forall k :: k in fields ==> Serializable(fields[k])
    case Unsupported => false
    case _ => true
  }

  // ---------------------------------------------------------------- the canonical tree

  function Digit(d: int): CodeUnit
    requires 0 <= d < 10
  {
    (0x30 + d) as CodeUnit
  }

  function DecimalText(n: nat): Text {
    if n < 10 then [Digit(n)] else DecimalText(n / 10) + [Digit(n % 10)]
  }

  function LowerHex(d: int): CodeUnit
    requires 0 <= d < 16
  {
    if d < 10 then (0x30 + d) as CodeUnit else (0x61 + d - 10) as CodeUnit
  }

  function HexEscape(c: CodeUnit): G.Char {
    var n := c as int;
    G.Hex(LowerHex(n / 0x1000), LowerHex(n / 0x100 % 0x10), LowerHex(n / 0x10 % 0x10), LowerHex(n % 0x10))
  }

  /** The letter of a two-unit escape, if the unit has one. */
  function ShortLetter(c: CodeUnit): Option<CodeUnit> {
    if c == QUOTE || c == BACKSLASH then Some(c)
    else if c == 0x08 then Some(0x62)
    else if c == 0x0C then Some(0x66)
    else if c == 0x0A then Some(0x6E)
    else if c == 0x0D then Some(0x72)
    else if c == 0x09 then Some(0x74)
    else None
  }

  function Escape(s: Text): G.Chars {
    if s == [] then G.NoChars
    else if ShortLetter(s[0]).Some? then G.Chars(G.Short(ShortLetter(s[0]).value), Escape(s[1..]))
    else if PairAt(s, 0) then G.Chars(G.Plain(s[0]), G.Chars(G.Plain(s[1]), Escape(s[2..])))
    else if s[0] < 0x20 || IsHighSurrogate(s[0]) || IsLowSurrogate(s[0]) then G.Chars(HexEscape(s[0]), Escape(s[1..]))
    else G.Chars(G.Plain(s[0]), Escape(s[1..]))
  }

  ghost function Enumeration(keys: set<Text>): (s: seq<Text>)
    ensures Lists(s, keys)
    ensures forall i, j :: 0 <= i < j < |s| ==> s[i] != s[j]
  {
    if keys == {} then [] else var k :| k in keys; [k] + Enumeration(keys - {k})
  }

  ghost function SortedKeys(keys: set<Text>): (s: seq<Text>)
    ensures Lists(s, keys)
  {
    SortIsSorted(Enumeration(keys));
    Sort(Enumeration(keys))
  }

  lemma SortedKeysAreSorted(keys: set<Text>)
    ensures StrictlySorted(SortedKeys(keys))
  {
    SortIsSorted(Enumeration(keys));
  }

  ghost function CanonicalTree(v: Value): G.Node
    requires Serializable(v)
    decreases v
  {
    match v
    case Null => G.Word(G.NULL)
    case Boolean(b) => G.Word(if b then G.TRUE else G.FALSE)
    case Number(q) => NumberTree(q)
    case Str(s) => G.String(Escape(s))
    case List(items) => if items == [] then G.EmptyArray([]) else G.Array(ElementsTree(items))
    case Record(fields) =>
      var keys := SortedKeys(fields.Keys);
      if keys == [] then G.EmptyObject([]) else G.Object(MembersTree(v, keys))
  }

  function NumberTree(q: real): G.Node
    requires IsInteger(q)
  {
    G.Number(q.Floor < 0, DecimalText(if q.Floor < 0 then -q.Floor else q.Floor), [], G.NoExponent)
  }

  ghost function ElementsTree(items: seq<Value>): G.Elements
    requires items != [] && forall i :: 0 <= i < |items| ==> Serializable(items[i])
    decreases items
  {
    var first := CanonicalTree(items[0]);
    if |items| == 1 then G.LastElement([], first, []) else G.Elements([], first, [], ElementsTree(items[1..]))
  }

  ghost function MembersTree(v: Value, keys: seq<Text>): G.Members
    requires v.Record? && Serializable(v) && keys != [] && forall k :: k in keys ==> k in v.fields
    decreases v, |keys|
  {
    var first := G.Member([], Escape(keys[0]), [], [], CanonicalTree(v.fields[keys[0]]), []);
    if |keys| == 1 then G.LastMember(first) else G.Members(first, MembersTree(v, keys[1..]))
  }

  /** The canonical text of a value. */
  ghost function Canonical(v: Value): Text
    requires Serializable(v)
  {
    G.NodeText(CanonicalTree(v), [])
  }

  // ---------------------------------------------------------------- what a tree means

  function DigitsValue(digits: Text): int {
    if digits == [] then 0 else 10 * DigitsValue(digits[..|digits| - 1]) + (digits[|digits| - 1] as int - 0x30)
  }

  function PowerOfTen(e: int): real
    decreases if e < 0 then -e else e
  {
    if e == 0 then 1.0 else if e > 0 then 10.0 * PowerOfTen(e - 1) else PowerOfTen(e + 1) / 10.0
  }

  function ExponentValue(e: G.Exponent): int {
    match e
    case NoExponent => 0
    case Exponent(_, sign, digits) => if sign == [G.MINUS] then -DigitsValue(digits) else DigitsValue(digits)
  }

  /** The value a tree denotes, digits being read as '0'..'9'; a repeated key keeps its first value. */
  function Meaning(n: G.Node): Value {
    match n
    case Word(w) => if w == G.TRUE then Boolean(true) else if w == G.FALSE then Boolean(false) else Null
    case Number(negative, whole, fraction, exponent) =>
      var magnitude := DigitsValue(whole + fraction) as real * PowerOfTen(ExponentValue(exponent) - |fraction|);
      Number(if negative then -magnitude else magnitude)
    case String(cs) => Str(Decode(cs))
    case EmptyArray(_) => List([])
    case Array(es) => List(MeaningOfElements(es))
    case EmptyObject(_) => Record(map[])
    case Object(ms) => Record(MeaningOfMembers(ms))
  }

  function MeaningOfElements(es: G.Elements): seq<Value> {
    [Meaning(es.value)] + if es.Elements? then MeaningOfElements(es.more) else []
  }

  function MeaningOfMembers(ms: G.Members): map<Text, Value> {
    (if ms.Members? then MeaningOfMembers(ms.more) else map[]) + map[Decode(ms.member.key) := Meaning(ms.member.value)]
  }

  // ---------------------------------------------------------------- the canonical tree is well formed

  lemma {:induction false} DecimalIsWhole(digit: G.DigitClass, n: nat)
    ensures G.AllDigits(digit, DecimalText(n)) && DecimalText(n) != []
    ensures n > 0 ==> 0x31 <= DecimalText(n)[0] <= 0x39
    ensures DigitsValue(DecimalText(n)) == n
  {
    AsciiDigit(digit, Digit(n % 10));
    if n >= 10 {
      DecimalIsWhole(digit, n / 10);
      var t := DecimalText(n / 10);
      assert DecimalText(n)[..|t|] == t;
    } else {
      assert DecimalText(n)[..0] == [];
    }
  }

  lemma NumberIsValid(digit: G.DigitClass, q: real)
    requires IsInteger(q)
    ensures G.ValidNode(digit, NumberTree(q))
    ensures Meaning(NumberTree(q)) == Number(q)
  {
    var n := if q.Floor < 0 then -q.Floor else q.Floor;
    DecimalIsWhole(digit, n);
    assert DecimalText(n) + [] == DecimalText(n);
    assert PowerOfTen(0) == 1.0;
  }

  lemma HexEscapeDecodes(c: CodeUnit)
    ensures G.ValidChar(HexEscape(c)) && Unescape(HexEscape(c)) == c
  {
    var n := c as int;
    var a, b, c1, d := n / 0x1000, n / 0x100 % 0x10, n / 0x10 % 0x10, n % 0x10;
    HexDigitDecodes(a);
    HexDigitDecodes(b);
    HexDigitDecodes(c1);
    HexDigitDecodes(d);
    HexSplit(n);
  }

  lemma HexDigitDecodes(d: int)
    requires 0 <= d < 16
    ensures G.IsHexDigit(LowerHex(d)) && HexValue(LowerHex(d)) == d
  {
  }

  lemma HexSplit(n: int)
    requires 0 <= n < 0x1_0000
    ensures n / 0x1000 * 0x1000 + n / 0x100 % 0x10 * 0x100 + n / 0x10 % 0x10 * 0x10 + n % 0x10 == n
    ensures 0 <= n / 0x1000 < 0x10
  {
    assert n == n / 0x10 * 0x10 + n % 0x10;
    assert n / 0x10 == n / 0x100 * 0x10 + n / 0x10 % 0x10;
    assert n / 0x100 == n / 0x1000 * 0x10 + n / 0x100 % 0x10;
  }

  lemma {:induction false} EscapeDecodes(s: Text)
    ensures G.ValidChars(Escape(s)) && Decode(Escape(s)) == s
  {
    if s != [] {
      HexEscapeDecodes(s[0]);
      if ShortLetter(s[0]).None? && PairAt(s, 0) {
        EscapeDecodes(s[2..]);
        assert s == [s[0]] + ([s[1]] + s[2..]);
      } else {
        EscapeDecodes(s[1..]);
        assert s == [s[0]] + s[1..];
      }
    }
  }

  /** The canonical tree derives, repeats no key, and denotes the value it came from. */
  lemma {:induction false} TreeDenotes(digit: G.DigitClass, v: Value)
    requires Serializable(v)
    ensures G.ValidNode(digit, CanonicalTree(v))
    ensures NoRepeatedKey(CanonicalTree(v))
    ensures Meaning(CanonicalTree(v)) == v
    decreases v
  {
    match v
    case Number(q) => NumberIsValid(digit, q);
    case Str(s) => EscapeDecodes(s);
    case List(items) => if items != [] { ElementsDenote(digit, items); }
    case Record(fields) =>
      var keys := SortedKeys(fields.Keys);
      if keys == [] {
        assert fields == map[] by { assert fields.Keys == {} by { if k :| k in fields.Keys { assert k in keys; } } }
      } else {
        SortedKeysAreSorted(fields.Keys);
        MembersDenote(digit, v, keys);
        SortedIsDistinct(keys);
        assert MeaningOfMembers(MembersTree(v, keys)) == fields;
      }
    case _ =>
  }

  lemma {:induction false} ElementsDenote(digit: G.DigitClass, items: seq<Value>)
    requires items != [] && forall i :: 0 <= i < |items| ==> Serializable(items[i])
    ensures G.ValidElements(digit, ElementsTree(items))
    ensures NoRepeatedKeyInElements(ElementsTree(items))
    ensures MeaningOfElements(ElementsTree(items)) == items
    decreases items
  {
    TreeDenotes(digit, items[0]);
    if |items| > 1 { ElementsDenote(digit, items[1..]); }
  }

  lemma {:induction false} MembersDenote(digit: G.DigitClass, v: Value, keys: seq<Text>)
    requires v.Record? && Serializable(v) && keys != [] && forall k :: k in keys ==> k in v.fields
    ensures G.ValidMembers(digit, MembersTree(v, keys))
    ensures NoRepeatedKeyInValues(MembersTree(v, keys)) && Keys(MembersTree(v, keys)) == keys
    ensures MeaningOfMembers(MembersTree(v, keys)) == Restrict(v.fields, keys)
    decreases v, |keys|
  {
    EscapeDecodes(keys[0]);
    TreeDenotes(digit, v.fields[keys[0]]);
    if |keys| > 1 {
      MembersDenote(digit, v, keys[1..]);
      RestrictStep(v.fields, keys);
      assert keys == [keys[0]] + keys[1..];
    }
  }

  ghost function Restrict(fields: map<Text, Value>, keys: seq<Text>): map<Text, Value>
    requires forall k :: k in keys ==> k in fields
  {
    map k | k in keys :: fields[k]
  }

  lemma RestrictStep(fields: map<Text, Value>, keys: seq<Text>)
    requires keys != [] && forall k :: k in keys ==> k in fields
    ensures Restrict(fields, keys) == Restrict(fields, keys[1..]) + map[keys[0] := fields[keys[0]]]
  {
    assert keys == [keys[0]] + keys[1..];
  }

  lemma SortedIsDistinct(keys: seq<Text>)
    requires StrictlySorted(keys)
    ensures PairwiseDistinct(keys)
  {
    forall i, j | 0 <= i < j < |keys| ensures keys[i] != keys[j] { LessIsTotal(keys[i], keys[j]); }
  }
}
