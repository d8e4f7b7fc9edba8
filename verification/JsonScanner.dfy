/** The hand-written scanner of the Windows supervisor: a mutable index moves over the text. */
module JsonScanner {
  import opened Utf16
  import opened Wrappers
  import opened JsonGrammar
  import opened JsonUnambiguous
  import opened JsonKeys

  // ---------------------------------------------------------------- one step of each scan

  lemma ElementsStep(digit: DigitClass, s: Text)
    ensures ScanElements(digit, s) ==
      match ScanNode(digit, Skip(s))
      case None => None
      case Some(s1) =>
        var s2 := Skip(s1);
        if Starts(s2, CLOSE_BRACKET) then Some(s2[1..])
        else if Starts(s2, COMMA) then ScanElements(digit, s2[1..]) else None
  {
  }

  lemma MembersStep(digit: DigitClass, s: Text, seen: set<Text>)
    ensures ScanMembers(digit, s, seen) ==
      match ParseString(Skip(s))
      case None => None
      case Some((key, s1)) =>
        if Decode(key) in seen || !Starts(Skip(s1), COLON) then None
        else match ScanNode(digit, Skip(Skip(s1)[1..]))
          case None => None
          case Some(s3) =>
            var s4 := Skip(s3);
            if Starts(s4, CLOSE_BRACE) then Some(s4[1..])
            else if Starts(s4, COMMA) then ScanMembers(digit, s4[1..], seen + {Decode(key)}) else None
  {
    if ParseMember(digit, s).Some? {
      var (m, s4) := ParseMember(digit, s).value;
      assert ScanMembers(digit, s, seen).Some? ==> Decode(m.key) !in seen && NoRepeatedKey(m.value);
    }
  }

  lemma ObjectStep(digit: DigitClass, s: Text)
    requires Starts(s, OPEN_BRACE)
    ensures ScanNode(digit, s) ==
      var t := Skip(s[1..]);
      if Starts(t, CLOSE_BRACE) then Some(t[1..]) else ScanMembers(digit, s[1..], {})
  {
    if !Starts(Skip(s[1..]), CLOSE_BRACE) && ParseMembers(digit, s[1..]).Some? {
      FreshIsDistinct(ParseMembers(digit, s[1..]).value.0, {});
    }
  }

  lemma ArrayStep(digit: DigitClass, s: Text)
    requires Starts(s, OPEN_BRACKET)
    ensures ScanNode(digit, s) ==
      var t := Skip(s[1..]);
      if Starts(t, CLOSE_BRACKET) then Some(t[1..]) else ScanElements(digit, s[1..])
  {
  }

  lemma {:induction false} SkipTwice(s: Text)
    ensures Skip(Skip(s)) == Skip(s)
  {
    if s != [] && IsWhitespace(s[0]) { SkipTwice(s[1..]); }
  }

  /** Leading blanks make no difference to what elements or members leave behind. */
  lemma SkipFirst(digit: DigitClass, s: Text, seen: set<Text>)
    ensures ScanElements(digit, Skip(s)) == ScanElements(digit, s)
    ensures ScanMembers(digit, Skip(s), seen) == ScanMembers(digit, s, seen)
  {
    SkipTwice(s);
    ElementsStep(digit, s);
    ElementsStep(digit, Skip(s));
    MembersStep(digit, s, seen);
    MembersStep(digit, Skip(s), seen);
  }

  // ---------------------------------------------------------------- decoding a string token

  /** A complete string literal, decoded. */
  function DecodeToken(token: Text): Option<Text> {
    match ParseString(token)
    case None => None
    case Some((cs, rest)) => if rest == [] then Some(Decode(cs)) else None
  }

  lemma {:induction false} CharsTextSplit(cs: Chars, rest: Text)
    ensures CharsText(cs, rest) == CharsText(cs, []) + rest
  {
    if cs.Chars? {
      CharsTextSplit(cs.tail, rest);
      CharTextSplit(cs.head, CharsText(cs.tail, []), rest);
    }
  }

  lemma CharTextSplit(c: Char, s: Text, rest: Text)
    ensures CharText(c, s + rest) == CharText(c, s) + rest
  {
  }

  /** What the rest of a string literal leaves behind its closing quote. */
  function AfterQuote(s: Text): Option<Text> {
    match ParseChars(s) case None => None case Some((_, rest)) => Some(rest)
  }

  lemma AfterQuoteStep(s: Text)
    ensures AfterQuote(s) ==
      if s == [] then None
      else if s[0] == QUOTE then Some(s[1..])
      else if s[0] != BACKSLASH then (if s[0] < 0x20 then None else AfterQuote(s[1..]))
      else if |s| == 1 then None
      else if s[1] != LETTER_U then (if IsEscapeLetter(s[1]) then AfterQuote(s[2..]) else None)
      else if |s| >= 6 && IsHexDigit(s[2]) && IsHexDigit(s[3]) && IsHexDigit(s[4]) && IsHexDigit(s[5]) then AfterQuote(s[6..])
      else None
  {
  }

  lemma {:induction false} TokenOf(s: Text, cs: Chars, rest: Text)
    requires ParseString(s) == Some((cs, rest))
    ensures |rest| <= |s| && s[|s| - |rest|..] == rest
    ensures DecodeToken(s[..|s| - |rest|]) == Some(Decode(cs))
  {
    StringSound(s);
    CharsTextSplit(cs, rest);
    var token := StringText(cs, []);
    assert s == token + rest;
    assert s[..|s| - |rest|] == token;
    CharsComplete(cs, []);
  }

  // ---------------------------------------------------------------- the scanner

  class DuplicateKeyScanner {
    const text: Text
    const digit: DigitClass
    var index: nat

    constructor (value: Text, digitClass: DigitClass)
      ensures text == value && digit == digitClass && index == 0
    {
      text := value;
      digit := digitClass;
      index := 0;
    }

    ghost predicate Valid() reads this { index <= |text| }

    ghost function Rest(): Text
      requires Valid()
      reads this
    {
      text[index..]
    }

    /** True exactly when the text is a JSON document in which no object repeats a key. */
    method Scan() returns (ok: bool)
      requires index == 0
      modifies this
      ensures ok <==> exists d :: Derives(digit, text, d) && NoRepeatedKey(d.root)
    {
      assert text[0..] == text;
      SkipWhitespace();
      ok := Value();
      if ok {
        SkipWhitespace();
        ok := index == |text|;
      }
      ScanDecides(digit, text, ok);
    }

    method Value() returns (ok: bool)
      requires Valid()
      modifies this
      ensures Valid() && old(index) <= index
      ensures ScanNode(digit, old(Rest())) == if ok then Some(Rest()) else None
      decreases |text| - index, 1
    {
      if index >= |text| { return false; }
      var current := text[index];
      if current == OPEN_BRACE { ok := Object(); return; }
      if current == OPEN_BRACKET { ok := Array(); return; }
      if current == QUOTE {
        var key := String();
        return key.Some?;
      }
      ghost var s := Rest();
      ok := TakeLiteral(TRUE);
      if ok { return; }
      ok := TakeLiteral(FALSE);
      if ok { return; }
      ok := TakeLiteral(NULL);
      if ok { return; }
      ok := Number();
    }

    method Object() returns (ok: bool)
      requires Valid() && Starts(Rest(), OPEN_BRACE)
      modifies this
      ensures Valid() && old(index) <= index
      ensures ScanNode(digit, old(Rest())) == if ok then Some(Rest()) else None
      decreases |text| - index, 0
    {
      ObjectStep(digit, Rest());
      index := index + 1;
      SkipFirst(digit, Rest(), {});
      SkipTwice(Rest());
      SkipWhitespace();
      var closed := Take(CLOSE_BRACE);
      if closed { return true; }
      var keys: set<Text> := {};
      while true
        invariant Valid() && old(index) < index
        invariant Skip(Rest()) == Rest()
        invariant ScanNode(digit, old(Rest())) == ScanMembers(digit, Rest(), keys)
        decreases |text| - index
      {
        MembersStep(digit, Rest(), keys);
        if index >= |text| || text[index] != QUOTE { return false; }
        var key := String();
        if key.None? || key.value in keys { return false; }
        SkipWhitespace();
        var colon := Take(COLON);
        if !colon { return false; }
        SkipWhitespace();
        var value := Value();
        if !value { return false; }
        SkipWhitespace();
        closed := Take(CLOSE_BRACE);
        if closed { return true; }
        var comma := Take(COMMA);
        if !comma { return false; }
        keys := keys + {key.value};
        SkipFirst(digit, Rest(), keys);
        SkipTwice(Rest());
        SkipWhitespace();
      }
    }

    method Array() returns (ok: bool)
      requires Valid() && Starts(Rest(), OPEN_BRACKET)
      modifies this
      ensures Valid() && old(index) <= index
      ensures ScanNode(digit, old(Rest())) == if ok then Some(Rest()) else None
      decreases |text| - index, 0
    {
      ArrayStep(digit, Rest());
      index := index + 1;
      SkipFirst(digit, Rest(), {});
      SkipTwice(Rest());
      SkipWhitespace();
      var closed := Take(CLOSE_BRACKET);
      if closed { return true; }
      while true
        invariant Valid() && old(index) < index
        invariant Skip(Rest()) == Rest()
        invariant ScanNode(digit, old(Rest())) == ScanElements(digit, Rest())
        decreases |text| - index
      {
        ElementsStep(digit, Rest());
        var value := Value();
        if !value { return false; }
        SkipWhitespace();
        closed := Take(CLOSE_BRACKET);
        if closed { return true; }
        var comma := Take(COMMA);
        if !comma { return false; }
        SkipFirst(digit, Rest(), {});
        SkipTwice(Rest());
        SkipWhitespace();
      }
    }

    /** Consumes a string and returns what it decodes to. */
    method String() returns (key: Option<Text>)
      requires Valid()
      modifies this
      ensures Valid() && old(index) <= index
      ensures ParseString(old(Rest())).Some? <==> key.Some?
      ensures key.Some? ==> old(index) < index && Rest() == ParseString(old(Rest())).value.1
      ensures key.Some? ==> key.value == Decode(ParseString(old(Rest())).value.0)
    {
      ghost var s := Rest();
      var start := index;
      var begun := Take(QUOTE);
      if !begun { return None; }
      while index < |text|
        invariant Valid() && start < index
        invariant AfterQuote(s[1..]) == AfterQuote(Rest())
        decreases |text| - index
      {
        ghost var here := Rest();
        AfterQuoteStep(here);
        var current := text[index];
        index := index + 1;
        if current == QUOTE {
          assert Rest() == here[1..];
          ghost var (cs, rest) := ParseString(s).value;
          TokenOf(s, cs, rest);
          assert text[start..index] == s[..|s| - |rest|];
          key := DecodeToken(text[start..index]);
          return;
        }
        if current == BACKSLASH {
          if index >= |text| { return None; }
          var escape := text[index];
          index := index + 1;
          if escape == LETTER_U {
            if index + 4 > |text| || !IsHexDigit(text[index]) || !IsHexDigit(text[index + 1])
               || !IsHexDigit(text[index + 2]) || !IsHexDigit(text[index + 3]) {
              return None;
            }
            index := index + 4;
            assert Rest() == here[6..];
          } else if !IsEscapeLetter(escape) {
            return None;
          } else {
            assert Rest() == here[2..];
          }
        } else if current < 0x20 {
          return None;
        } else {
          assert Rest() == here[1..];
        }
      }
      return None;
    }

    method Number() returns (ok: bool)
      requires Valid()
      modifies this
      ensures Valid() && old(index) <= index
      ensures ok <==> ParseNumber(digit, old(Rest())).Some?
      ensures ok ==> Rest() == ParseNumber(digit, old(Rest())).value.1
    {
      var minus := Take(MINUS);
      ok := Whole();
      if ok { ok := Fraction(); }
      if ok { ok := Exponent(); }
    }

    method Whole() returns (ok: bool)
      requires Valid()
      modifies this
      ensures Valid() && old(index) <= index
      ensures ok <==> ParseWhole(digit, old(Rest())).Some?
      ensures ok ==> Rest() == ParseWhole(digit, old(Rest())).value.1
    {
      ok := Take(ZERO);
      if ok { return; }
      if index >= |text| || text[index] < 0x31 || text[index] > 0x39 { return false; }
      var any := SkipDigitRun();
      return true;
    }

    method Fraction() returns (ok: bool)
      requires Valid()
      modifies this
      ensures Valid() && old(index) <= index
      ensures ok <==> ParseFraction(digit, old(Rest())).Some?
      ensures ok ==> Rest() == ParseFraction(digit, old(Rest())).value.1
    {
      var dot := Take(DOT);
      if !dot { return true; }
      ok := SkipDigitRun();
    }

    method Exponent() returns (ok: bool)
      requires Valid()
      modifies this
      ensures Valid() && old(index) <= index
      ensures ok <==> ParseExponent(digit, old(Rest())).Some?
      ensures ok ==> Rest() == ParseExponent(digit, old(Rest())).value.1
    {
      if index < |text| && (text[index] == 0x65 || text[index] == 0x45) {
        ghost var s := Rest();
        index := index + 1;
        assert Rest() == s[1..];
        if index < |text| && (text[index] == PLUS || text[index] == MINUS) {
          index := index + 1;
          assert Rest() == s[1..][1..];
        }
        assert Rest() == AfterSign(s[1..]);
        var digits := SkipDigitRun();
        if !digits { return false; }
      }
      return true;
    }

    /** Moves past the digits ahead; tells whether there was one. */
    method SkipDigitRun() returns (any: bool)
      requires Valid()
      modifies this
      ensures Valid() && old(index) <= index
      ensures Rest() == SkipDigits(digit, old(Rest()))
      ensures any <==> Digits(digit, old(Rest())) != []
    {
      ghost var s := Rest();
      var start := index;
      while index < |text| && digit(text[index])
        invariant Valid() && start <= index
        invariant SkipDigits(digit, Rest()) == SkipDigits(digit, s)
        invariant start < index ==> Digits(digit, s) != []
        invariant start == index ==> Rest() == s
        decreases |text| - index
      {
        ghost var here := Rest();
        index := index + 1;
        assert Rest() == here[1..];
      }
      any := start != index;
    }

    method TakeLiteral(word: Text) returns (taken: bool)
      requires Valid()
      modifies this
      ensures Valid() && old(index) <= index
      ensures taken <==> StartsWith(old(Rest()), word)
      ensures Rest() == if taken then old(Rest())[|word|..] else old(Rest())
    {
      if index + |word| > |text| || text[index..index + |word|] != word {
        assert |word| <= |Rest()| ==> Rest()[..|word|] == text[index..index + |word|];
        return false;
      }
      assert Rest()[..|word|] == text[index..index + |word|];
      index := index + |word|;
      return true;
    }

    method Take(value: CodeUnit) returns (taken: bool)
      requires Valid()
      modifies this
      ensures Valid() && index == old(index) + (if taken then 1 else 0)
      ensures taken <==> Starts(old(Rest()), value)
      ensures Rest() == if taken then old(Rest())[1..] else old(Rest())
    {
      if index >= |text| || text[index] != value { return false; }
      index := index + 1;
      return true;
    }

    method SkipWhitespace()
      requires Valid()
      modifies this
      ensures Valid() && old(index) <= index
      ensures Rest() == Skip(old(Rest()))
    {
      ghost var s := Rest();
      while index < |text| && IsWhitespace(text[index])
        invariant Valid() && old(index) <= index
        invariant Skip(Rest()) == Skip(s)
        decreases |text| - index
      {
        ghost var here := Rest();
        index := index + 1;
        assert Rest() == here[1..];
      }
    }
  }

  // ---------------------------------------------------------------- main result

  /** What a whole scan found out, in terms of the grammar. */
  lemma {:induction false} ScanDecides(digit: DigitClass, text: Text, ok: bool)
    requires ok <==> ScanNode(digit, Skip(text)).Some? && Skip(ScanNode(digit, Skip(text)).value) == []
    ensures ok <==> exists d :: Derives(digit, text, d) && NoRepeatedKey(d.root)
  {
    if ok {
      var d := ParseDocument(digit, text).value;
      ParseDecidesGrammar(digit, text, d);
    }
    if d :| Derives(digit, text, d) && NoRepeatedKey(d.root) {
      ParseDecidesGrammar(digit, text, d);
    }
  }
}
