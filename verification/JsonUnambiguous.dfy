/** Reading and writing syntax trees are inverse to each other, so the grammar is unambiguous. */
module JsonUnambiguous {
  import opened Utf16
  import opened Wrappers
  import opened JsonGrammar

  // ---------------------------------------------------------------- what the parser reads is in the text

  lemma {:induction false} BlankSound(s: Text)
    ensures AllWhitespace(Blank(s)) && s == Blank(s) + Skip(s)
    ensures Skip(s) == [] || !IsWhitespace(Skip(s)[0])
  {
    if s != [] && IsWhitespace(s[0]) { BlankSound(s[1..]); }
  }

  lemma {:induction false} DigitsSound(digit: DigitClass, s: Text)
    ensures AllDigits(digit, Digits(digit, s)) && s == Digits(digit, s) + SkipDigits(digit, s)
    ensures SkipDigits(digit, s) == [] || !digit(SkipDigits(digit, s)[0])
  {
    if s != [] && digit(s[0]) { DigitsSound(digit, s[1..]); }
  }

  lemma {:induction false} CharsSound(s: Text)
    requires ParseChars(s).Some?
    ensures ValidChars(ParseChars(s).value.0)
    ensures s == CharsText(ParseChars(s).value.0, ParseChars(s).value.1)
  {
    if s[0] == QUOTE {
    } else if s[0] != BACKSLASH {
      CharsSound(s[1..]);
    } else if s[1] == LETTER_U {
      CharsSound(s[6..]);
    } else {
      CharsSound(s[2..]);
    }
  }

  lemma {:induction false} WholeSound(digit: DigitClass, s: Text)
    requires ParseWhole(digit, s).Some?
    ensures ValidWhole(digit, ParseWhole(digit, s).value.0)
    ensures s == ParseWhole(digit, s).value.0 + ParseWhole(digit, s).value.1
  {
    DigitsSound(digit, s);
  }

  lemma {:induction false} FractionSound(digit: DigitClass, s: Text)
    requires ParseFraction(digit, s).Some?
    ensures AllDigits(digit, ParseFraction(digit, s).value.0)
    ensures s == FractionText(ParseFraction(digit, s).value.0, ParseFraction(digit, s).value.1)
  {
    if Starts(s, DOT) { DigitsSound(digit, s[1..]); }
  }

  lemma {:induction false} ExponentSound(digit: DigitClass, s: Text)
    requires ParseExponent(digit, s).Some?
    ensures ValidExponent(digit, ParseExponent(digit, s).value.0)
    ensures s == ExponentText(ParseExponent(digit, s).value.0, ParseExponent(digit, s).value.1)
  {
    if Starts(s, 0x65) || Starts(s, 0x45) {
      DigitsSound(digit, AfterSign(s[1..]));
      MarkedExponent(s, Digits(digit, AfterSign(s[1..])), SkipDigits(digit, AfterSign(s[1..])));
    }
  }

  lemma MarkedExponent(s: Text, digits: Text, rest: Text)
    requires s != [] && AfterSign(s[1..]) == digits + rest
    ensures s == ExponentText(Exponent(s[0], ExponentSign(s[1..]), digits), rest)
  {
    assert s[1..] == ExponentSign(s[1..]) + AfterSign(s[1..]);
    assert s == [s[0]] + s[1..];
  }

  lemma {:induction false} NumberSound(digit: DigitClass, s: Text)
    requires ParseNumber(digit, s).Some?
    ensures ValidNode(digit, ParseNumber(digit, s).value.0)
    ensures s == NodeText(ParseNumber(digit, s).value.0, ParseNumber(digit, s).value.1)
  {
    var s1 := if Starts(s, MINUS) then s[1..] else s;
    WholeSound(digit, s1);
    var s2 := ParseWhole(digit, s1).value.1;
    FractionSound(digit, s2);
    ExponentSound(digit, ParseFraction(digit, s2).value.1);
    assert s == SignText(Starts(s, MINUS), s1);
  }

  lemma {:induction false} NodeSound(digit: DigitClass, s: Text)
    requires ParseNode(digit, s).Some?
    ensures ValidNode(digit, ParseNode(digit, s).value.0)
    ensures s == NodeText(ParseNode(digit, s).value.0, ParseNode(digit, s).value.1)
    decreases |s|, 1
  {
    if Starts(s, OPEN_BRACE) {
      BlankSound(s[1..]);
      if !Starts(Skip(s[1..]), CLOSE_BRACE) { MembersSound(digit, s[1..]); }
    } else if Starts(s, OPEN_BRACKET) {
      BlankSound(s[1..]);
      if !Starts(Skip(s[1..]), CLOSE_BRACKET) { ElementsSound(digit, s[1..]); }
    } else if Starts(s, QUOTE) {
      CharsSound(s[1..]);
    } else if StartsWith(s, TRUE) || StartsWith(s, FALSE) || StartsWith(s, NULL) {
    } else {
      NumberSound(digit, s);
    }
  }

  lemma {:induction false} ElementsSound(digit: DigitClass, s: Text)
    requires ParseElements(digit, s).Some?
    ensures ValidElements(digit, ParseElements(digit, s).value.0)
    ensures s == ElementsText(ParseElements(digit, s).value.0, ParseElements(digit, s).value.1)
    decreases |s|, 3
  {
    ValueSound(digit, s);
    var (value, s1) := ParseNode(digit, Skip(s)).value;
    var s2 := Skip(s1);
    if Starts(s2, CLOSE_BRACKET) {
      assert s2 == [CLOSE_BRACKET] + s2[1..];
    } else {
      ElementsSound(digit, s2[1..]);
      assert s2 == [COMMA] + s2[1..];
    }
  }

  lemma {:induction false} StringSound(s: Text)
    requires ParseString(s).Some?
    ensures ValidChars(ParseString(s).value.0)
    ensures s == StringText(ParseString(s).value.0, ParseString(s).value.1)
  {
    CharsSound(s[1..]);
  }

  /** A value with the blanks around it. */
  lemma {:induction false} ValueSound(digit: DigitClass, s: Text)
    requires ParseNode(digit, Skip(s)).Some?
    ensures AllWhitespace(Blank(s))
    ensures var (value, tail) := ParseNode(digit, Skip(s)).value;
            && ValidNode(digit, value) && AllWhitespace(Blank(tail))
            && s == Blank(s) + NodeText(value, Blank(tail) + Skip(tail))
    decreases |s|, 2
  {
    BlankSound(s);
    NodeSound(digit, Skip(s));
    BlankSound(ParseNode(digit, Skip(s)).value.1);
  }

  lemma {:induction false} MemberSound(digit: DigitClass, s: Text)
    requires ParseMember(digit, s).Some?
    ensures ValidMember(digit, ParseMember(digit, s).value.0)
    ensures s == MemberText(ParseMember(digit, s).value.0, ParseMember(digit, s).value.1)
    decreases |s|, 3
  {
    BlankSound(s);
    StringSound(Skip(s));
    var (key, s1) := ParseString(Skip(s)).value;
    BlankSound(s1);
    var s2 := Skip(s1)[1..];
    assert Skip(s1) == [COLON] + s2;
    ValueSound(digit, s2);
    var (value, s3) := ParseNode(digit, Skip(s2)).value;
    var m := ParseMember(digit, s).value.0;
    assert m == Member(Blank(s), key, Blank(s1), Blank(s2), value, Blank(s3));
  }

  lemma {:induction false} MembersSound(digit: DigitClass, s: Text)
    requires ParseMembers(digit, s).Some?
    ensures ValidMembers(digit, ParseMembers(digit, s).value.0)
    ensures s == MembersText(ParseMembers(digit, s).value.0, ParseMembers(digit, s).value.1)
    decreases |s|, 4
  {
    MemberSound(digit, s);
    var s1 := ParseMember(digit, s).value.1;
    if Starts(s1, CLOSE_BRACE) {
      assert s1 == [CLOSE_BRACE] + s1[1..];
    } else {
      MembersSound(digit, s1[1..]);
      assert s1 == [COMMA] + s1[1..];
    }
  }

  // ---------------------------------------------------------------- the parser reads every derivation back

  /** What may follow a value: the end, a blank, or a separator. */
  predicate Boundary(rest: Text) {
    rest == [] || IsWhitespace(rest[0]) || rest[0] == COMMA || rest[0] == CLOSE_BRACKET || rest[0] == CLOSE_BRACE
  }

  lemma {:induction false} BlankComplete(gap: Text, rest: Text)
    requires AllWhitespace(gap) && (rest == [] || !IsWhitespace(rest[0]))
    ensures Blank(gap + rest) == gap && Skip(gap + rest) == rest
  {
    if gap == [] {
      assert gap + rest == rest;
    } else {
      BlankComplete(gap[1..], rest);
      assert (gap + rest)[1..] == gap[1..] + rest;
    }
  }

  lemma {:induction false} DigitsComplete(digit: DigitClass, ds: Text, rest: Text)
    requires AllDigits(digit, ds) && (rest == [] || !digit(rest[0]))
    ensures Digits(digit, ds + rest) == ds && SkipDigits(digit, ds + rest) == rest
  {
    if ds == [] {
      assert ds + rest == rest;
    } else {
      DigitsComplete(digit, ds[1..], rest);
      assert (ds + rest)[1..] == ds[1..] + rest;
    }
  }

  lemma {:induction false} CharsComplete(cs: Chars, rest: Text)
    requires ValidChars(cs)
    ensures ParseChars(CharsText(cs, rest)) == Some((cs, rest))
  {
    if cs.Chars? {
      CharsComplete(cs.tail, rest);
      var s := CharsText(cs, rest);
      assert s[(match cs.head case Plain(_) => 1 case Short(_) => 2 case Hex(_, _, _, _) => 6)..] == CharsText(cs.tail, rest);
    }
  }

  lemma AsciiDigit(digit: DigitClass, c: CodeUnit)
    requires c < 0x80
    ensures digit(c) <==> 0x30 <= c <= 0x39
  {
  }

  lemma SignComplete(sign: Text, tail: Text)
    requires sign == [] || sign == [PLUS] || sign == [MINUS]
    requires tail != [] && tail[0] != PLUS && tail[0] != MINUS
    ensures ExponentSign(sign + tail) == sign && AfterSign(sign + tail) == tail
  {
    if sign == [] {
      assert sign + tail == tail;
    } else {
      assert (sign + tail)[0] == sign[0] && (sign + tail)[1..] == tail;
    }
  }

  lemma ExponentComplete(digit: DigitClass, e: Exponent, rest: Text)
    requires ValidExponent(digit, e) && Boundary(rest)
    ensures ParseExponent(digit, ExponentText(e, rest)) == Some((e, rest))
    ensures ExponentText(e, rest) == [] || (!digit(ExponentText(e, rest)[0]) && ExponentText(e, rest)[0] != DOT)
  {
    if rest != [] { AsciiDigit(digit, rest[0]); }
    if e.Exponent? {
      var tail := e.digits + rest;
      AsciiDigit(digit, e.marker);
      AsciiDigit(digit, PLUS);
      AsciiDigit(digit, MINUS);
      DigitsComplete(digit, e.digits, rest);
      assert tail[0] == e.digits[0];
      SignComplete(e.sign, tail);
      var s := ExponentText(e, rest);
      assert s[0] == e.marker && s[1..] == e.sign + tail;
    }
  }

  lemma {:induction false} FractionComplete(digit: DigitClass, fraction: Text, rest: Text)
    requires AllDigits(digit, fraction) && (rest == [] || (!digit(rest[0]) && rest[0] != DOT))
    ensures ParseFraction(digit, FractionText(fraction, rest)) == Some((fraction, rest))
    ensures FractionText(fraction, rest) == [] || !digit(FractionText(fraction, rest)[0])
  {
    if fraction != [] { DigitsComplete(digit, fraction, rest); }
  }

  lemma {:induction false} WholeComplete(digit: DigitClass, whole: Text, rest: Text)
    requires ValidWhole(digit, whole) && (rest == [] || !digit(rest[0]))
    ensures ParseWhole(digit, whole + rest) == Some((whole, rest))
    ensures whole + rest != [] && 0x30 <= (whole + rest)[0] <= 0x39
  {
    if whole != [ZERO] { DigitsComplete(digit, whole, rest); }
  }

  lemma {:induction false} NumberComplete(digit: DigitClass, n: Node, rest: Text)
    requires n.Number? && ValidNode(digit, n) && Boundary(rest)
    ensures ParseNumber(digit, NodeText(n, rest)) == Some((n, rest))
    ensures NodeText(n, rest) != []
    ensures NodeText(n, rest)[0] == MINUS || 0x30 <= NodeText(n, rest)[0] <= 0x39
  {
    ExponentComplete(digit, n.exponent, rest);
    FractionComplete(digit, n.fraction, ExponentText(n.exponent, rest));
    WholeComplete(digit, n.whole, FractionText(n.fraction, ExponentText(n.exponent, rest)));
  }

  lemma {:induction false} NodeStart(digit: DigitClass, n: Node, rest: Text)
    requires ValidNode(digit, n) && Boundary(rest)
    ensures NodeText(n, rest) != [] && !Boundary(NodeText(n, rest))
  {
    if n.Number? { NumberComplete(digit, n, rest); }
  }

  lemma {:induction false} WordComplete(digit: DigitClass, w: Text, rest: Text)
    requires w == TRUE || w == FALSE || w == NULL
    ensures ParseNode(digit, w + rest) == Some((Word(w), rest))
  {
    assert (w + rest)[..|w|] == w;
    assert (w + rest)[0] == w[0];
  }

  lemma {:induction false} NumberNodeComplete(digit: DigitClass, n: Node, rest: Text)
    requires n.Number? && ValidNode(digit, n) && Boundary(rest)
    ensures ParseNode(digit, NodeText(n, rest)) == Some((n, rest))
  {
    NumberComplete(digit, n, rest);
    var s := NodeText(n, rest);
    assert |s| >= 4 ==> s[..4][0] == s[0];
    assert |s| >= 5 ==> s[..5][0] == s[0];
  }

  lemma {:induction false} StringNodeComplete(digit: DigitClass, cs: Chars, rest: Text)
    requires ValidChars(cs)
    ensures ParseNode(digit, NodeText(String(cs), rest)) == Some((String(cs), rest))
  {
    CharsComplete(cs, rest);
  }

  lemma {:induction false} EmptyComplete(digit: DigitClass, n: Node, rest: Text)
    requires (n.EmptyArray? || n.EmptyObject?) && AllWhitespace(n.gap)
    ensures ParseNode(digit, NodeText(n, rest)) == Some((n, rest))
  {
    BlankComplete(n.gap, [if n.EmptyArray? then CLOSE_BRACKET else CLOSE_BRACE] + rest);
  }

  lemma {:induction false} ArrayComplete(digit: DigitClass, es: Elements, rest: Text)
    requires !Starts(Skip(ElementsText(es, rest)), CLOSE_BRACKET)
    requires ParseElements(digit, ElementsText(es, rest)) == Some((es, rest))
    ensures ParseNode(digit, NodeText(Array(es), rest)) == Some((Array(es), rest))
  {
    assert NodeText(Array(es), rest)[1..] == ElementsText(es, rest);
  }

  lemma {:induction false} ObjectComplete(digit: DigitClass, ms: Members, rest: Text)
    requires !Starts(Skip(MembersText(ms, rest)), CLOSE_BRACE)
    requires ParseMembers(digit, MembersText(ms, rest)) == Some((ms, rest))
    ensures ParseNode(digit, NodeText(Object(ms), rest)) == Some((Object(ms), rest))
  {
    assert NodeText(Object(ms), rest)[1..] == MembersText(ms, rest);
  }

  lemma {:induction false} NodeComplete(digit: DigitClass, n: Node, rest: Text)
    requires ValidNode(digit, n) && Boundary(rest)
    ensures ParseNode(digit, NodeText(n, rest)) == Some((n, rest))
    decreases n
  {
    match n
    case Word(w) => WordComplete(digit, w, rest);
    case Number(_, _, _, _) => NumberNodeComplete(digit, n, rest);
    case String(cs) => StringNodeComplete(digit, cs, rest);
    case EmptyArray(_) => EmptyComplete(digit, n, rest);
    case EmptyObject(_) => EmptyComplete(digit, n, rest);
    case Array(es) =>
      ElementsComplete(digit, es, rest);
      ArrayComplete(digit, es, rest);
    case Object(ms) =>
      MembersComplete(digit, ms, rest);
      ObjectComplete(digit, ms, rest);
  }

  lemma {:induction false} ElementsComplete(digit: DigitClass, es: Elements, rest: Text)
    requires ValidElements(digit, es)
    ensures !Starts(Skip(ElementsText(es, rest)), CLOSE_BRACKET)
    ensures ParseElements(digit, ElementsText(es, rest)) == Some((es, rest))
    decreases es
  {
    var s2 := if es.LastElement? then [CLOSE_BRACKET] + rest else [COMMA] + ElementsText(es.more, rest);
    AfterBlank(es.after, s2);
    NodeStart(digit, es.value, es.after + s2);
    BlankComplete(es.before, NodeText(es.value, es.after + s2));
    BlankComplete(es.after, s2);
    NodeComplete(digit, es.value, es.after + s2);
    if es.Elements? { ElementsComplete(digit, es.more, rest); }
  }

  lemma AfterBlank(gap: Text, rest: Text)
    requires AllWhitespace(gap) && Boundary(rest)
    ensures Boundary(gap + rest)
  {
  }

  lemma {:induction false} MemberComplete(digit: DigitClass, m: Member, rest: Text)
    requires ValidMember(digit, m) && Boundary(rest) && rest != [] && !IsWhitespace(rest[0])
    ensures Starts(Skip(MemberText(m, rest)), QUOTE)
    ensures ParseMember(digit, MemberText(m, rest)) == Some((m, rest))
    decreases m
  {
    var s3 := m.after + rest;
    var s2 := m.afterColon + NodeText(m.value, s3);
    var s1 := m.beforeColon + ([COLON] + s2);
    AfterBlank(m.after, rest);
    NodeStart(digit, m.value, s3);
    BlankComplete(m.before, StringText(m.key, s1));
    CharsComplete(m.key, s1);
    BlankComplete(m.beforeColon, [COLON] + s2);
    BlankComplete(m.afterColon, NodeText(m.value, s3));
    NodeComplete(digit, m.value, s3);
    BlankComplete(m.after, rest);
  }

  lemma {:induction false} MembersComplete(digit: DigitClass, ms: Members, rest: Text)
    requires ValidMembers(digit, ms)
    ensures !Starts(Skip(MembersText(ms, rest)), CLOSE_BRACE)
    ensures ParseMembers(digit, MembersText(ms, rest)) == Some((ms, rest))
    decreases ms
  {
    var s1 := if ms.LastMember? then [CLOSE_BRACE] + rest else [COMMA] + MembersText(ms.more, rest);
    MemberComplete(digit, ms.member, s1);
    if ms.Members? { MembersComplete(digit, ms.more, rest); }
  }

  // ---------------------------------------------------------------- main results

  /** The parser decides the grammar: it returns a tree exactly when that tree derives the text. */
  lemma {:induction false} ParseDecidesGrammar(digit: DigitClass, text: Text, d: Document)
    ensures ParseDocument(digit, text) == Some(d) <==> Derives(digit, text, d)
  {
    if ParseDocument(digit, text) == Some(d) {
      BlankSound(text);
      NodeSound(digit, Skip(text));
      BlankSound(ParseNode(digit, Skip(text)).value.1);
    }
    if Derives(digit, text, d) {
      AfterBlank(d.after, []);
      assert d.after == d.after + [];
      NodeStart(digit, d.root, d.after);
      BlankComplete(d.before, NodeText(d.root, d.after));
      NodeComplete(digit, d.root, d.after);
      BlankComplete(d.after, []);
    }
  }

  /** No text has two derivations. */
  lemma {:induction false} Unambiguous(digit: DigitClass, text: Text, d: Document, e: Document)
    requires Derives(digit, text, d) && Derives(digit, text, e)
    ensures d == e
  {
    ParseDecidesGrammar(digit, text, d);
    ParseDecidesGrammar(digit, text, e);
  }
}
