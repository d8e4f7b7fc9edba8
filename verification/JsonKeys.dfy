/** Decoded object keys, and what it means that no object repeats one. */
module JsonKeys {
  import opened Utf16
  import opened Wrappers
  import opened JsonGrammar

  function HexValue(c: CodeUnit): (v: int)
    ensures 0 <= v < 16
  {
    if 0x30 <= c <= 0x39 then c as int - 0x30
    else if 0x41 <= c <= 0x46 then c as int - 0x41 + 10
    else if 0x61 <= c <= 0x66 then c as int - 0x61 + 10
    else 0
  }

  /** The code unit a character of a string literal stands for. */
  function Unescape(c: Char): CodeUnit {
    match c
    case Plain(u) => u
    case Short(l) =>
      if l == 0x62 then 0x08 else if l == 0x66 then 0x0C else if l == 0x6E then 0x0A
      else if l == 0x72 then 0x0D else if l == 0x74 then 0x09 else l
    case Hex(a, b, c, d) => (HexValue(a) * 0x1000 + HexValue(b) * 0x100 + HexValue(c) * 0x10 + HexValue(d)) as CodeUnit
  }

  function Decode(cs: Chars): Text {
    match cs case NoChars => [] case Chars(c, tail) => [Unescape(c)] + Decode(tail)
  }

  /** The decoded keys of an object, in order. */
  function Keys(ms: Members): seq<Text> {
    [Decode(ms.member.key)] + if ms.Members? then Keys(ms.more) else []
  }

  ghost predicate PairwiseDistinct(keys: seq<Text>) {
    forall i, j :: 0 <= i < j < |keys| ==> keys[i] != keys[j]
  }

  ghost predicate Unseen(keys: seq<Text>, seen: set<Text>) { forall i :: 0 <= i < |keys| ==> keys[i] !in seen }

  /** No object at any depth repeats a decoded key. */
  ghost predicate NoRepeatedKey(n: Node) {
    match n
    case Array(es) => NoRepeatedKeyInElements(es)
    case Object(ms) => PairwiseDistinct(Keys(ms)) && NoRepeatedKeyInValues(ms)
    case _ => true
  }

  ghost predicate NoRepeatedKeyInElements(es: Elements) {
    NoRepeatedKey(es.value) && (es.Elements? ==> NoRepeatedKeyInElements(es.more))
  }

  ghost predicate NoRepeatedKeyInValues(ms: Members) {
    NoRepeatedKey(ms.member.value) && (ms.Members? ==> NoRepeatedKeyInValues(ms.more))
  }

  /** The keys are new with respect to `seen` and to each other, and so on inside the values. */
  ghost predicate FreshMembers(ms: Members, seen: set<Text>) {
    && Decode(ms.member.key) !in seen
    && NoRepeatedKey(ms.member.value)
    && (ms.Members? ==> FreshMembers(ms.more, seen + {Decode(ms.member.key)}))
  }

  lemma {:induction false} FreshIsDistinct(ms: Members, seen: set<Text>)
    ensures FreshMembers(ms, seen) <==>
      Unseen(Keys(ms), seen) && PairwiseDistinct(Keys(ms)) && NoRepeatedKeyInValues(ms)
  {
    var key := Decode(ms.member.key);
    if ms.Members? {
      FreshIsDistinct(ms.more, seen + {key});
      ConsDistinct(key, Keys(ms.more), seen);
    } else {
      ConsDistinct(key, [], seen);
    }
  }

  lemma ConsDistinct(key: Text, tail: seq<Text>, seen: set<Text>)
    ensures Unseen([key] + tail, seen) && PairwiseDistinct([key] + tail) <==>
      key !in seen && Unseen(tail, seen + {key}) && PairwiseDistinct(tail)
  {
    var all := [key] + tail;
    assert forall i :: 0 <= i < |tail| ==> all[i + 1] == tail[i];
    if Unseen(all, seen) && PairwiseDistinct(all) {
      forall i | 0 <= i < |tail| ensures tail[i] !in seen + {key} { assert all[i + 1] !in seen && all[0] != all[i + 1]; }
      forall i, j | 0 <= i < j < |tail| ensures tail[i] != tail[j] { assert all[i + 1] != all[j + 1]; }
      assert all[0] == key;
    }
    if key !in seen && Unseen(tail, seen + {key}) && PairwiseDistinct(tail) {
      forall i | 0 <= i < |all| ensures all[i] !in seen { if i > 0 { assert tail[i - 1] !in seen + {key}; } }
      forall i, j | 0 <= i < j < |all| ensures all[i] != all[j] {
        assert tail[j - 1] !in seen + {key};
        if i > 0 { assert tail[i - 1] != tail[j - 1]; }
      }
    }
  }

  // ---------------------------------------------------------------- what a scan leaves behind

  ghost function ScanNode(digit: DigitClass, s: Text): Option<Text> {
    match ParseNode(digit, s)
    case None => None
    case Some((n, rest)) => if NoRepeatedKey(n) then Some(rest) else None
  }

  ghost function ScanElements(digit: DigitClass, s: Text): Option<Text> {
    match ParseElements(digit, s)
    case None => None
    case Some((es, rest)) => if NoRepeatedKeyInElements(es) then Some(rest) else None
  }

  ghost function ScanMembers(digit: DigitClass, s: Text, seen: set<Text>): Option<Text> {
    match ParseMembers(digit, s)
    case None => None
    case Some((ms, rest)) => if FreshMembers(ms, seen) then Some(rest) else None
  }
}
