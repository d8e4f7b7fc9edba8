/** The canonical serializer as it runs, and what its text promises. */
module JsonSerializer {
  import opened Utf16
  import opened Wrappers
  import opened OrdinalOrder
  import opened JsonUnambiguous
  import opened JsonKeys
  import opened JsonCanonical
  import G = JsonGrammar

  // ---------------------------------------------------------------- main results about canonical text

  /**
   Canonical text is a JSON document in which no object repeats a key, so the scanner accepts it;
   and every way of reading it gives back the value.
   */
  lemma {:induction false} CanonicalRoundTrip(digit: G.DigitClass, v: Value)
    requires Serializable(v)
    ensures exists d :: G.Derives(digit, Canonical(v), d) && NoRepeatedKey(d.root)
    ensures forall d :: G.Derives(digit, Canonical(v), d) ==> Meaning(d.root) == v
  {
    TreeDenotes(digit, v);
    var own := G.Document([], CanonicalTree(v), []);
    assert G.DocumentText(own) == Canonical(v);
    forall d | G.Derives(digit, Canonical(v), d) ensures Meaning(d.root) == v {
      Unambiguous(digit, Canonical(v), own, d);
    }
  }

  /** Equal canonical texts come from equal values only. */
  lemma {:induction false} CanonicalIsInjective(v: Value, w: Value)
    requires Serializable(v) && Serializable(w)
    ensures Canonical(v) == Canonical(w) <==> v == w
  {
    var digit: G.DigitClass := c => 0x30 <= c <= 0x39;
    if Canonical(v) == Canonical(w) {
      CanonicalRoundTrip(digit, v);
      CanonicalRoundTrip(digit, w);
    }
  }

  lemma PrependKeepsWellFormed(a: Text, b: Text)
    requires WellFormed(b)
    requires (forall i :: 0 <= i < |a| ==> !IsHighSurrogate(a[i]) && !IsLowSurrogate(a[i])) || (|a| == 2 && PairAt(a, 0))
    ensures WellFormed(a + b)
  {
    var s := a + b;
    forall i | 0 <= i < |s| && IsHighSurrogate(s[i]) ensures PairAt(s, i) {
      if i >= |a| { assert PairAt(b, i - |a|); }
    }
    forall i | 0 <= i < |s| && IsLowSurrogate(s[i]) ensures PairAt(s, i - 1) {
      if i >= |a| { assert PairAt(b, i - |a| - 1); }
    }
  }

  lemma {:induction false} EscapeIsWellFormed(s: Text, rest: Text)
    requires WellFormed(rest)
    ensures WellFormed(G.CharsText(Escape(s), rest))
  {
    if s == [] {
      PrependKeepsWellFormed([QUOTE], rest);
    } else if ShortLetter(s[0]).None? && PairAt(s, 0) {
      EscapeIsWellFormed(s[2..], rest);
      var tail := G.CharsText(Escape(s[2..]), rest);
      PrependKeepsWellFormed([s[0], s[1]], tail);
      assert [s[0]] + ([s[1]] + tail) == [s[0], s[1]] + tail;
    } else {
      EscapeIsWellFormed(s[1..], rest);
      var tail := G.CharsText(Escape(s[1..]), rest);
      var c := Escape(s).head;
      match c
      case Plain(u) => PrependKeepsWellFormed([u], tail);
      case Short(l) => PrependKeepsWellFormed([BACKSLASH, l], tail);
      case Hex(a, b, c, d) => PrependKeepsWellFormed([BACKSLASH, G.LETTER_U, a, b, c, d], tail);
    }
  }

  /** Canonical text has no lone surrogate, so strict UTF-8 encoding of it never fails. */
  lemma {:induction false} CanonicalIsWellFormed(v: Value, rest: Text)
    requires Serializable(v) && WellFormed(rest)
    ensures WellFormed(G.NodeText(CanonicalTree(v), rest))
    decreases v
  {
    match v
    case Null => PrependKeepsWellFormed(G.NULL, rest);
    case Boolean(b) => PrependKeepsWellFormed(if b then G.TRUE else G.FALSE, rest);
    case Number(q) => NumberIsWellFormed(q, rest);
    case Str(s) =>
      EscapeIsWellFormed(s, rest);
      PrependKeepsWellFormed([QUOTE], G.CharsText(Escape(s), rest));
    case List(items) =>
      if items == [] {
        EmptyIsWellFormed(G.OPEN_BRACKET, G.CLOSE_BRACKET, rest);
      } else {
        ElementsAreWellFormed(items, rest);
        PrependKeepsWellFormed([G.OPEN_BRACKET], G.ElementsText(ElementsTree(items), rest));
      }
    case Record(fields) =>
      var keys := SortedKeys(fields.Keys);
      if keys == [] {
        EmptyIsWellFormed(G.OPEN_BRACE, G.CLOSE_BRACE, rest);
      } else {
        MembersAreWellFormed(v, keys, rest);
        PrependKeepsWellFormed([G.OPEN_BRACE], G.MembersText(MembersTree(v, keys), rest));
      }
  }

  lemma EmptyIsWellFormed(open: CodeUnit, close: CodeUnit, rest: Text)
    requires WellFormed(rest) && open < 0x80 && close < 0x80
    ensures WellFormed([open] + ([] + ([close] + rest)))
  {
    PrependKeepsWellFormed([close], rest);
    PrependKeepsWellFormed([open], [close] + rest);
    assert [] + ([close] + rest) == [close] + rest;
  }

  lemma NumberIsWellFormed(q: real, rest: Text)
    requires IsInteger(q) && WellFormed(rest)
    ensures WellFormed(G.NodeText(NumberTree(q), rest))
  {
    var digit: G.DigitClass := c => 0x30 <= c <= 0x39;
    var whole := NumberTree(q).whole;
    DecimalIsWhole(digit, if q.Floor < 0 then -q.Floor else q.Floor);
    PrependKeepsWellFormed(whole, rest);
    PrependKeepsWellFormed([G.MINUS], whole + rest);
  }

  lemma {:induction false} ElementsAreWellFormed(items: seq<Value>, rest: Text)
    requires items != [] && forall i :: 0 <= i < |items| ==> Serializable(items[i])
    requires WellFormed(rest)
    ensures WellFormed(G.ElementsText(ElementsTree(items), rest))
    decreases items
  {
    var tail;
    if |items| == 1 {
      tail := [G.CLOSE_BRACKET] + rest;
      PrependKeepsWellFormed([G.CLOSE_BRACKET], rest);
    } else {
      ElementsAreWellFormed(items[1..], rest);
      tail := [G.COMMA] + G.ElementsText(ElementsTree(items[1..]), rest);
      PrependKeepsWellFormed([G.COMMA], G.ElementsText(ElementsTree(items[1..]), rest));
    }
    assert [] + tail == tail;
    CanonicalIsWellFormed(items[0], tail);
    var text := G.NodeText(CanonicalTree(items[0]), tail);
    assert [] + text == text;
  }

  lemma {:induction false} MembersAreWellFormed(v: Value, keys: seq<Text>, rest: Text)
    requires v.Record? && Serializable(v) && keys != [] && forall k :: k in keys ==> k in v.fields
    requires WellFormed(rest)
    ensures WellFormed(G.MembersText(MembersTree(v, keys), rest))
    decreases v, |keys|
  {
    var tail;
    if |keys| == 1 {
      tail := [G.CLOSE_BRACE] + rest;
      PrependKeepsWellFormed([G.CLOSE_BRACE], rest);
    } else {
      MembersAreWellFormed(v, keys[1..], rest);
      tail := [G.COMMA] + G.MembersText(MembersTree(v, keys[1..]), rest);
      PrependKeepsWellFormed([G.COMMA], G.MembersText(MembersTree(v, keys[1..]), rest));
    }
    CanonicalIsWellFormed(v.fields[keys[0]], tail);
    var value := G.NodeText(CanonicalTree(v.fields[keys[0]]), tail);
    PrependKeepsWellFormed([G.COLON], value);
    EscapeIsWellFormed(keys[0], [G.COLON] + value);
    PrependKeepsWellFormed([QUOTE], G.CharsText(Escape(keys[0]), [G.COLON] + value));
    CompactMember(keys[0], CanonicalTree(v.fields[keys[0]]), tail);
  }

  /** A member without blanks. */
  lemma CompactMember(key: Text, value: G.Node, tail: Text)
    ensures G.MemberText(G.Member([], Escape(key), [], [], value, []), tail)
         == [QUOTE] + G.CharsText(Escape(key), [G.COLON] + G.NodeText(value, tail))
  {
    assert [] + tail == tail;
    var text := G.NodeText(value, tail);
    assert [] + text == text;
    assert [] + ([G.COLON] + text) == [G.COLON] + text;
  }

  // ---------------------------------------------------------------- the serializer

  class StringBuilder {
    var content: Text

    constructor ()
      ensures content == []
    {
      content := [];
    }

    method Append(text: Text)
      modifies this
      ensures content == old(content) + text
    {
      content := content + text;
    }
  }

  lemma Associative(a: Text, b: Text, c: Text)
    ensures (a + b) + c == a + (b + c)
  {
  }

  /** Whatever follows a tree in its text follows unchanged. */
  lemma {:induction false} NodeTextSplit(n: G.Node, a: Text, b: Text)
    ensures G.NodeText(n, a + b) == G.NodeText(n, a) + b
    decreases n
  {
    match n
    case Number(_, _, _, _) => NumberTextSplit(n, a, b);
    case String(cs) => CharsSplit(cs, a, b);
    case Array(es) => ElementsSplit(es, a, b);
    case Object(ms) => MembersSplit(ms, a, b);
    case _ =>
  }

  lemma NumberTextSplit(n: G.Node, a: Text, b: Text)
    requires n.Number?
    ensures G.NodeText(n, a + b) == G.NodeText(n, a) + b
  {
    var e := G.ExponentText(n.exponent, a);
    ExponentSplit(n.exponent, a, b);
    FractionSplit(n.fraction, e, b);
    var f := G.FractionText(n.fraction, e);
    Associative(n.whole, f, b);
    Associative([G.MINUS], n.whole + f, b);
  }

  lemma ExponentSplit(e: G.Exponent, a: Text, b: Text)
    ensures G.ExponentText(e, a + b) == G.ExponentText(e, a) + b
  {
    if e.Exponent? {
      Associative(e.digits, a, b);
      Associative(e.sign, e.digits + a, b);
      Associative([e.marker], e.sign + (e.digits + a), b);
    }
  }

  lemma FractionSplit(f: Text, a: Text, b: Text)
    ensures G.FractionText(f, a + b) == G.FractionText(f, a) + b
  {
    Associative(f, a, b);
    Associative([G.DOT], f + a, b);
  }

  lemma {:induction false} CharsSplit(cs: G.Chars, a: Text, b: Text)
    ensures G.CharsText(cs, a + b) == G.CharsText(cs, a) + b
  {
    if cs.Chars? {
      CharsSplit(cs.tail, a, b);
      CharSplit(cs.head, G.CharsText(cs.tail, a), b);
    } else {
      Associative([QUOTE], a, b);
    }
  }

  lemma CharSplit(c: G.Char, a: Text, b: Text)
    ensures G.CharText(c, a + b) == G.CharText(c, a) + b
  {
    var front := G.CharText(c, []);
    assert front + a == G.CharText(c, a);
    Associative(front, a, b);
    assert front + (a + b) == G.CharText(c, a + b);
  }

  lemma {:induction false} ElementsSplit(es: G.Elements, a: Text, b: Text)
    ensures G.ElementsText(es, a + b) == G.ElementsText(es, a) + b
    decreases es
  {
    var tail := if es.LastElement? then [G.CLOSE_BRACKET] + a else [G.COMMA] + G.ElementsText(es.more, a);
    if es.Elements? {
      ElementsSplit(es.more, a, b);
      Associative([G.COMMA], G.ElementsText(es.more, a), b);
    } else {
      Associative([G.CLOSE_BRACKET], a, b);
    }
    Associative(es.after, tail, b);
    NodeTextSplit(es.value, es.after + tail, b);
    Associative(es.before, G.NodeText(es.value, es.after + tail), b);
  }

  lemma {:induction false} MembersSplit(ms: G.Members, a: Text, b: Text)
    ensures G.MembersText(ms, a + b) == G.MembersText(ms, a) + b
    decreases ms
  {
    if ms.Members? {
      MembersSplit(ms.more, a, b);
      Associative([G.COMMA], G.MembersText(ms.more, a), b);
      MemberSplit(ms.member, [G.COMMA] + G.MembersText(ms.more, a), b);
    } else {
      Associative([G.CLOSE_BRACE], a, b);
      MemberSplit(ms.member, [G.CLOSE_BRACE] + a, b);
    }
  }

  lemma {:induction false} MemberSplit(m: G.Member, a: Text, b: Text)
    ensures G.MemberText(m, a + b) == G.MemberText(m, a) + b
    decreases m
  {
    var value := G.NodeText(m.value, m.after + a);
    Associative(m.after, a, b);
    NodeTextSplit(m.value, m.after + a, b);
    Associative(m.afterColon, value, b);
    Associative([G.COLON], m.afterColon + value, b);
    var s := m.beforeColon + ([G.COLON] + (m.afterColon + value));
    Associative(m.beforeColon, [G.COLON] + (m.afterColon + value), b);
    CharsSplit(m.key, s, b);
    Associative([QUOTE], G.CharsText(m.key, s), b);
    Associative(m.before, G.StringText(m.key, s), b);
  }

  /** What is left to write of an array: the remaining items, each but the first after a comma. */
  ghost function ItemsText(items: seq<Value>, first: bool): Text
    requires forall i :: 0 <= i < |items| ==> Serializable(items[i])
  {
    if items == [] then [G.CLOSE_BRACKET]
    else if first then G.NodeText(CanonicalTree(items[0]), ItemsText(items[1..], false))
    else [G.COMMA] + G.NodeText(CanonicalTree(items[0]), ItemsText(items[1..], false))
  }

  /** What is left to write of a record. */
  ghost function FieldsText(v: Value, keys: seq<Text>, first: bool): Text
    requires v.Record? && Serializable(v) && forall k :: k in keys ==> k in v.fields
  {
    if keys == [] then [G.CLOSE_BRACE]
    else
      var field := G.StringText(Escape(keys[0]), [G.COLON] + G.NodeText(CanonicalTree(v.fields[keys[0]]), FieldsText(v, keys[1..], false)));
      if first then field else [G.COMMA] + field
  }

  lemma {:induction false} ItemsTextIs(items: seq<Value>)
    requires items != [] && forall i :: 0 <= i < |items| ==> Serializable(items[i])
    ensures ItemsText(items, true) == G.ElementsText(ElementsTree(items), [])
    decreases |items|
  {
    var tail := ItemsText(items[1..], false);
    if |items| > 1 {
      ItemsTextIs(items[1..]);
      assert tail == [G.COMMA] + G.ElementsText(ElementsTree(items[1..]), []);
    } else {
      assert tail == [G.CLOSE_BRACKET] + [];
    }
    assert [] + tail == tail;
    var text := G.NodeText(CanonicalTree(items[0]), tail);
    assert [] + text == text;
  }

  lemma {:induction false} FieldsTextIs(v: Value, keys: seq<Text>)
    requires v.Record? && Serializable(v) && keys != [] && forall k :: k in keys ==> k in v.fields
    ensures FieldsText(v, keys, true) == G.MembersText(MembersTree(v, keys), [])
    decreases |keys|
  {
    var tail := FieldsText(v, keys[1..], false);
    if |keys| > 1 {
      FieldsTextIs(v, keys[1..]);
      assert tail == [G.COMMA] + G.MembersText(MembersTree(v, keys[1..]), []);
    } else {
      assert tail == [G.CLOSE_BRACE] + [];
    }
    CompactMember(keys[0], CanonicalTree(v.fields[keys[0]]), tail);
  }

  lemma CanonicalBefore(v: Value, tail: Text)
    requires Serializable(v)
    ensures G.NodeText(CanonicalTree(v), tail) == Canonical(v) + tail
  {
    assert [] + tail == tail;
    NodeTextSplit(CanonicalTree(v), [], tail);
  }

  lemma StringBefore(s: Text, tail: Text)
    ensures G.StringText(Escape(s), tail) == G.StringText(Escape(s), []) + tail
  {
    assert [] + tail == tail;
    CharsSplit(Escape(s), [], tail);
  }

  /** The first items of an array, joined by commas. */
  ghost function ItemsPrefix(items: seq<Value>, count: nat): Text
    requires count <= |items| && forall i :: 0 <= i < count ==> Serializable(items[i])
  {
    if count == 0 then []
    else ItemsPrefix(items, count - 1) + (if count == 1 then [] else [G.COMMA]) + Canonical(items[count - 1])
  }

  /** The first fields of a record, joined by commas. */
  ghost function FieldsPrefix(fields: map<Text, Value>, keys: seq<Text>, count: nat): Text
    requires count <= |keys| && forall i :: 0 <= i < count ==> keys[i] in fields && Serializable(fields[keys[i]])
  {
    if count == 0 then []
    else FieldsPrefix(fields, keys, count - 1) + (if count == 1 then [] else [G.COMMA])
         + FieldText(keys[count - 1], fields[keys[count - 1]])
  }

  ghost function FieldText(key: Text, value: Value): Text
    requires Serializable(value)
  {
    G.StringText(Escape(key), []) + [G.COLON] + Canonical(value)
  }

  /** What is written of an array, followed by what is left, is the whole array. */
  lemma ItemsPrefixIs(items: seq<Value>, count: nat)
    requires count <= |items| && Serializable(List(items))
    ensures ItemsPrefix(items, count) + ItemsText(items[count..], count == 0) == ItemsText(items, true)
  {
    var texts := seq(|items| + 1, k requires 0 <= k <= |items| => ItemsPrefix(items, k) + ItemsText(items[k..], k == 0));
    forall k | 0 <= k < |items| ensures texts[k + 1] == texts[k] { ItemsPrefixStep(items, k + 1); }
    AllTheSame(texts, count);
    NoItemsPrefix(items);
  }

  lemma NoItemsPrefix(items: seq<Value>)
    requires Serializable(List(items))
    ensures ItemsPrefix(items, 0) + ItemsText(items[0..], true) == ItemsText(items, true)
  {
    assert items[0..] == items;
    Nothing(ItemsText(items, true));
  }

  /** A list whose neighbours are equal holds one text only. */
  lemma {:induction false} AllTheSame(texts: seq<Text>, n: nat)
    requires n < |texts| && forall k :: 0 <= k < |texts| - 1 ==> texts[k + 1] == texts[k]
    ensures texts[n] == texts[0]
  {
    if n > 0 {
      AllTheSame(texts, n - 1);
      assert texts[n - 1 + 1] == texts[n - 1];
    }
  }

  lemma ItemsPrefixStep(items: seq<Value>, count: nat)
    requires 0 < count <= |items| && Serializable(List(items))
    ensures ItemsPrefix(items, count) + ItemsText(items[count..], false)
         == ItemsPrefix(items, count - 1) + ItemsText(items[count - 1..], count == 1)
  {
    assert items[count - 1..][1..] == items[count..];
    var tail := ItemsText(items[count..], false);
    CanonicalBefore(items[count - 1], tail);
    Join(ItemsPrefix(items, count - 1), count == 1, Canonical(items[count - 1]), tail);
  }

  lemma FieldsPrefixIs(v: Value, keys: seq<Text>, count: nat)
    requires v.Record? && Serializable(v) && count <= |keys| && forall k :: k in keys ==> k in v.fields
    ensures FieldsPrefix(v.fields, keys, count) + FieldsText(v, keys[count..], count == 0) == FieldsText(v, keys, true)
  {
    var texts := seq(|keys| + 1, k requires 0 <= k <= |keys| => FieldsPrefix(v.fields, keys, k) + FieldsText(v, keys[k..], k == 0));
    forall k | 0 <= k < |keys| ensures texts[k + 1] == texts[k] { FieldsPrefixStep(v, keys, k + 1); }
    AllTheSame(texts, count);
    NoFieldsPrefix(v, keys);
  }

  lemma NoFieldsPrefix(v: Value, keys: seq<Text>)
    requires v.Record? && Serializable(v) && forall k :: k in keys ==> k in v.fields
    ensures FieldsPrefix(v.fields, keys, 0) + FieldsText(v, keys[0..], true) == FieldsText(v, keys, true)
  {
    assert keys[0..] == keys;
    Nothing(FieldsText(v, keys, true));
  }

  lemma Nothing(text: Text)
    ensures [] + text == text
  {
  }

  lemma FieldsPrefixStep(v: Value, keys: seq<Text>, count: nat)
    requires v.Record? && Serializable(v) && 0 < count <= |keys| && forall k :: k in keys ==> k in v.fields
    ensures FieldsPrefix(v.fields, keys, count) + FieldsText(v, keys[count..], false)
         == FieldsPrefix(v.fields, keys, count - 1) + FieldsText(v, keys[count - 1..], count == 1)
  {
    assert keys[count - 1..][1..] == keys[count..];
    var key := keys[count - 1];
    var tail := FieldsText(v, keys[count..], false);
    FieldBefore(key, v.fields[key], tail);
    Join(FieldsPrefix(v.fields, keys, count - 1), count == 1, FieldText(key, v.fields[key]), tail);
  }

  lemma FieldBefore(key: Text, value: Value, tail: Text)
    requires Serializable(value)
    ensures G.StringText(Escape(key), [G.COLON] + G.NodeText(CanonicalTree(value), tail)) == FieldText(key, value) + tail
  {
    var c := Canonical(value);
    var k := G.StringText(Escape(key), []);
    CanonicalBefore(value, tail);
    StringBefore(key, [G.COLON] + (c + tail));
    Associative(k, [G.COLON], c + tail);
    Associative(k + [G.COLON], c, tail);
  }

  /** One more piece, after a comma unless it is the first. */
  lemma Join(a: Text, first: bool, piece: Text, tail: Text)
    ensures a + (if first then [] else [G.COMMA]) + piece + tail == a + (if first then piece + tail else [G.COMMA] + (piece + tail))
  {
    if first {
      assert a + [] == a;
      Associative(a, piece, tail);
    } else {
      Associative(a + [G.COMMA], piece, tail);
      Associative(a, [G.COMMA], piece + tail);
    }
  }

  /** Writes the value at the end of the builder; false stands for the exception. */
  method AppendCanonical(builder: StringBuilder, value: Value) returns (ok: bool)
    modifies builder
    ensures ok <==> Serializable(value)
    ensures ok ==> builder.content == old(builder.content) + Canonical(value)
    decreases value, 2
  {
    ghost var before := builder.content;
    match value {
      case Null => builder.Append(G.NULL); assert G.NULL + [] == G.NULL;
      case Str(text) => AppendJsonString(builder, text);
      case Boolean(b) =>
        builder.Append(if b then G.TRUE else G.FALSE);
        assert G.TRUE + [] == G.TRUE && G.FALSE + [] == G.FALSE;
      case Number(q) =>
        if !IsInteger(q) { return false; }
        builder.Append((if q.Floor < 0 then [G.MINUS] else []) + DecimalText(if q.Floor < 0 then -q.Floor else q.Floor));
        NumberText(q);
      case List(items) =>
        ok := AppendItems(builder, items);
        return;
      case Record(fields) =>
        ok := AppendFields(builder, value);
        return;
      case Unsupported => return false;
    }
    return true;
  }

  lemma NumberText(q: real)
    requires IsInteger(q)
    ensures Canonical(Number(q)) == (if q.Floor < 0 then [G.MINUS] else []) + DecimalText(if q.Floor < 0 then -q.Floor else q.Floor)
  {
  }

  method AppendItems(builder: StringBuilder, items: seq<Value>) returns (ok: bool)
    modifies builder
    ensures ok <==> Serializable(List(items))
    ensures ok ==> builder.content == old(builder.content) + Canonical(List(items))
    decreases items, 1
  {
    builder.Append([G.OPEN_BRACKET]);
    ok := AppendEachItem(builder, items);
    if !ok { return; }
    builder.Append([G.CLOSE_BRACKET]);
    ItemsFinish(old(builder.content), items);
  }

  method AppendEachItem(builder: StringBuilder, items: seq<Value>) returns (ok: bool)
    modifies builder
    ensures ok ==> ItemsWritten(old(builder.content), builder.content, items, |items|)
    ensures !ok ==> exists i :: 0 <= i < |items| && !Serializable(items[i])
    decreases items, 0
  {
    ghost var done := builder.content;
    assert done + [] == done;
    for index := 0 to |items|
      invariant ItemsWritten(done, builder.content, items, index)
    {
      ghost var here := builder.content;
      if index > 0 { builder.Append([G.COMMA]); }
      var written := AppendCanonical(builder, items[index]);
      if !written { return false; }
      ItemsStep(done, here, builder.content, items, index);
    }
    return true;
  }

  /** The first items stand after `done`. */
  ghost predicate ItemsWritten(done: Text, content: Text, items: seq<Value>, count: nat) {
    && count <= |items|
    && (forall i :: 0 <= i < count ==> Serializable(items[i]))
    && content == done + ItemsPrefix(items, count)
  }

  lemma ItemsStep(done: Text, before: Text, after: Text, items: seq<Value>, index: nat)
    requires index < |items| && Serializable(items[index]) && ItemsWritten(done, before, items, index)
    requires after == (if index == 0 then before else before + [G.COMMA]) + Canonical(items[index])
    ensures ItemsWritten(done, after, items, index + 1)
  {
    var prefix, piece := ItemsPrefix(items, index), Canonical(items[index]);
    ItemsPrefixGrows(items, index);
    Grow(done, prefix, index == 0, piece);
  }

  lemma ItemsPrefixGrows(items: seq<Value>, index: nat)
    requires index < |items| && forall i :: 0 <= i <= index ==> Serializable(items[i])
    ensures ItemsPrefix(items, index + 1) == ItemsPrefix(items, index) + (if index == 0 then [] else [G.COMMA]) + Canonical(items[index])
  {
  }

  lemma Grow(done: Text, prefix: Text, first: bool, piece: Text)
    ensures done + (prefix + (if first then [] else [G.COMMA]) + piece)
         == if first then done + prefix + piece else done + prefix + [G.COMMA] + piece
  {
    assert prefix + [] == prefix;
  }

  lemma CanonicalOfList(items: seq<Value>)
    requires Serializable(List(items))
    ensures Canonical(List(items)) == [G.OPEN_BRACKET] + ItemsText(items, true)
  {
    if items == [] {
      assert [] + ([G.CLOSE_BRACKET] + []) == [G.CLOSE_BRACKET];
    } else {
      ItemsTextIs(items);
    }
  }

  lemma CanonicalOfRecord(v: Value)
    requires v.Record? && Serializable(v)
    ensures Canonical(v) == [G.OPEN_BRACE] + FieldsText(v, SortedKeys(v.fields.Keys), true)
  {
    if SortedKeys(v.fields.Keys) == [] {
      assert [] + ([G.CLOSE_BRACE] + []) == [G.CLOSE_BRACE];
    } else {
      FieldsTextIs(v, SortedKeys(v.fields.Keys));
    }
  }

  lemma ItemsFinish(before: Text, items: seq<Value>)
    requires Serializable(List(items))
    ensures before + [G.OPEN_BRACKET] + ItemsPrefix(items, |items|) + [G.CLOSE_BRACKET] == before + Canonical(List(items))
  {
    ItemsPrefixIs(items, |items|);
    Enclose(before, G.OPEN_BRACKET, ItemsPrefix(items, |items|), G.CLOSE_BRACKET);
    CanonicalOfList(items);
  }

  lemma FieldsFinish(before: Text, v: Value)
    requires v.Record? && Serializable(v)
    ensures var keys := SortedKeys(v.fields.Keys);
            before + [G.OPEN_BRACE] + FieldsPrefix(v.fields, keys, |keys|) + [G.CLOSE_BRACE] == before + Canonical(v)
  {
    var keys := SortedKeys(v.fields.Keys);
    FieldsPrefixIs(v, keys, |keys|);
    Enclose(before, G.OPEN_BRACE, FieldsPrefix(v.fields, keys, |keys|), G.CLOSE_BRACE);
    CanonicalOfRecord(v);
  }

  lemma Enclose(before: Text, open: CodeUnit, all: Text, close: CodeUnit)
    ensures before + [open] + all + [close] == before + ([open] + (all + [close]))
  {
  }

  method AppendFields(builder: StringBuilder, value: Value) returns (ok: bool)
    requires value.Record?
    modifies builder
    ensures ok <==> Serializable(value)
    ensures ok ==> builder.content == old(builder.content) + Canonical(value)
    decreases value, 1
  {
    builder.Append([G.OPEN_BRACE]);
    var keys := OrderedKeys(value.fields);
    ok := AppendEachField(builder, value, keys);
    if !ok { return; }
    builder.Append([G.CLOSE_BRACE]);
    AllFieldsSerializable(value, keys);
    FieldsFinish(old(builder.content), value);
  }

  method AppendEachField(builder: StringBuilder, value: Value, keys: seq<Text>) returns (ok: bool)
    requires value.Record? && forall k :: k in keys ==> k in value.fields
    modifies builder
    ensures ok ==> FieldsWritten(old(builder.content), builder.content, value.fields, keys, |keys|)
    ensures !ok ==> !Serializable(value)
    decreases value, 0
  {
    ghost var done := builder.content;
    assert done + [] == done;
    for index := 0 to |keys|
      invariant FieldsWritten(done, builder.content, value.fields, keys, index)
    {
      ghost var here := builder.content;
      if index > 0 { builder.Append([G.COMMA]); }
      var written := AppendField(builder, keys[index], value.fields[keys[index]]);
      if !written { return false; }
      FieldsStep(done, here, builder.content, value.fields, keys, index);
    }
    return true;
  }

  /** The first fields stand after `done`. */
  ghost predicate FieldsWritten(done: Text, content: Text, fields: map<Text, Value>, keys: seq<Text>, count: nat) {
    && count <= |keys|
    && (forall i :: 0 <= i < count ==> keys[i] in fields && Serializable(fields[keys[i]]))
    && content == done + FieldsPrefix(fields, keys, count)
  }

  lemma FieldsStep(done: Text, before: Text, after: Text, fields: map<Text, Value>, keys: seq<Text>, index: nat)
    requires index < |keys| && keys[index] in fields && Serializable(fields[keys[index]])
    requires FieldsWritten(done, before, fields, keys, index)
    requires after == (if index == 0 then before else before + [G.COMMA]) + FieldText(keys[index], fields[keys[index]])
    ensures FieldsWritten(done, after, fields, keys, index + 1)
  {
    Grow(done, FieldsPrefix(fields, keys, index), index == 0, FieldText(keys[index], fields[keys[index]]));
  }

  method AppendField(builder: StringBuilder, key: Text, value: Value) returns (ok: bool)
    modifies builder
    ensures ok <==> Serializable(value)
    ensures ok ==> builder.content == old(builder.content) + FieldText(key, value)
    decreases value, 3
  {
    AppendJsonString(builder, key);
    builder.Append([G.COLON]);
    ok := AppendCanonical(builder, value);
  }

  lemma AllFieldsSerializable(value: Value, keys: seq<Text>)
    requires value.Record? && Lists(keys, value.fields.Keys)
    requires forall i :: 0 <= i < |keys| ==> Serializable(value.fields[keys[i]])
    ensures Serializable(value)
  {
    forall k | k in value.fields ensures Serializable(value.fields[k]) { assert k in keys; }
  }

  /** The keys of a record in ordinal order, whatever order the dictionary lists them in. */
  method OrderedKeys(fields: map<Text, Value>) returns (keys: seq<Text>)
    ensures keys == SortedKeys(fields.Keys)
  {
    var listed: seq<Text> := [];
    var remaining := fields.Keys;
    while remaining != {}
      invariant remaining <= fields.Keys
      invariant Lists(listed, fields.Keys - remaining)
      invariant forall i, j :: 0 <= i < j < |listed| ==> listed[i] != listed[j]
      decreases remaining
    {
      var k :| k in remaining;
      listed := listed + [k];
      remaining := remaining - {k};
    }
    keys := Sort(listed);
    SortIsSorted(listed);
    SortedKeysAreSorted(fields.Keys);
    SortedListingIsUnique(keys, SortedKeys(fields.Keys), fields.Keys);
  }

  /** What is left to write of a string. */
  function Unwritten(s: Text): Text { G.CharsText(Escape(s), []) }

  lemma EscapeStep(s: Text)
    requires s != [] && !(ShortLetter(s[0]).None? && PairAt(s, 0))
    ensures Escape(s).Chars? && Escape(s).tail == Escape(s[1..])
  {
  }

  lemma CharTextSplit(c: G.Char, a: Text, b: Text)
    ensures G.CharText(c, a + b) == G.CharText(c, a) + b
  {
  }

  /** How many units of the string the next escape stands for, and its text. */
  function NextPiece(s: Text): (int, Text)
    requires s != []
  {
    if ShortLetter(s[0]).None? && PairAt(s, 0) then (2, [s[0]] + [s[1]])
    else (1, G.CharText(Escape(s).head, []))
  }

  lemma UnwrittenStep(written: Text, s: Text)
    requires s != []
    ensures written + NextPiece(s).1 + Unwritten(s[NextPiece(s).0..]) == written + Unwritten(s)
  {
    var (n, piece) := NextPiece(s);
    var tail := Unwritten(s[n..]);
    assert Unwritten(s) == piece + tail by {
      if n == 2 {
        var e := Escape(s);
        assert e == G.Chars(G.Plain(s[0]), G.Chars(G.Plain(s[1]), Escape(s[2..])));
        assert G.CharsText(e.tail, []) == [s[1]] + tail;
        Associative([s[0]], [s[1]], tail);
      } else {
        EscapeStep(s);
        assert [] + tail == tail;
        CharTextSplit(Escape(s).head, [], tail);
      }
    }
    Associative(written, piece, tail);
  }

  method AppendJsonString(builder: StringBuilder, value: Text)
    modifies builder
    ensures builder.content == old(builder.content) + G.StringText(Escape(value), [])
  {
    builder.Append([QUOTE]);
    ghost var done := builder.content;
    var index := 0;
    while index < |value|
      invariant 0 <= index <= |value|
      invariant builder.content + Unwritten(value[index..]) == done + Unwritten(value)
    {
      ghost var rest := value[index..];
      ghost var here := builder.content;
      ghost var start := index;
      UnwrittenStep(here, rest);
      var current := value[index];
      if ShortLetter(current).Some? {
        builder.Append([BACKSLASH, ShortLetter(current).value]);
      } else if current < 0x20 || (IsHighSurrogate(current) && (index + 1 >= |value| || !IsLowSurrogate(value[index + 1])))
                || IsLowSurrogate(current) {
        builder.Append(G.CharText(HexEscape(current), []));
      } else {
        builder.Append([current]);
        if IsHighSurrogate(current) {
          index := index + 1;
          builder.Append([value[index]]);
        }
      }
      index := index + 1;
      assert index - start == NextPiece(rest).0;
      assert rest[index - start..] == value[index..];
      assert builder.content == here + NextPiece(rest).1;
    }
    builder.Append([QUOTE]);
    assert [QUOTE] + [] == [QUOTE];
    assert done + Unwritten(value) == old(builder.content) + ([QUOTE] + Unwritten(value));
  }

  method CanonicalSerialize(value: Value) returns (text: Option<Text>)
    ensures text.Some? <==> Serializable(value)
    ensures text.Some? ==> text.value == Canonical(value)
  {
    var builder := new StringBuilder();
    var ok := AppendCanonical(builder, value);
    text := if ok then Some(builder.content) else None;
  }
}
