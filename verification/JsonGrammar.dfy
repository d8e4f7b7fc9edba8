/**
 The JSON grammar of RFC 8259, sections 2 to 7, over UTF-16 code units.

 A derivation is a concrete syntax tree. `NodeText(n, rest)` is the text of `n` followed by `rest`,
 and `ParseNode` reads a tree back. The digit class is a parameter, because the scanner classifies
 digits with `Char.IsDigit`, which also admits digits outside ASCII.
 */
module JsonGrammar {
  import opened Utf16
  import opened Wrappers

  const TRUE: Text := [0x74, 0x72, 0x75, 0x65]
  const FALSE: Text := [0x66, 0x61, 0x6C, 0x73, 0x65]
  const NULL: Text := [0x6E, 0x75, 0x6C, 0x6C]

  const COMMA: CodeUnit := 0x2C
  const MINUS: CodeUnit := 0x2D
  const PLUS: CodeUnit := 0x2B
  const DOT: CodeUnit := 0x2E
  const COLON: CodeUnit := 0x3A
  const ZERO: CodeUnit := 0x30
  const OPEN_BRACKET: CodeUnit := 0x5B
  const CLOSE_BRACKET: CodeUnit := 0x5D
  const OPEN_BRACE: CodeUnit := 0x7B
  const CLOSE_BRACE: CodeUnit := 0x7D
  const LETTER_U: CodeUnit := 0x75

  /** A digit class agrees with '0'..'9' on ASCII and is free elsewhere. */
  type DigitClass = f: CodeUnit -> bool
    | forall c: CodeUnit :: c < 0x80 ==> (f(c) <==> 0x30 <= c <= 0x39)
    witness (c: CodeUnit) => 0x30 <= c <= 0x39

  // ---------------------------------------------------------------- syntax trees

  /** One character of a string: itself, a two-unit escape, or a `\u` escape. */
  datatype Char = Plain(unit: CodeUnit) | Short(letter: CodeUnit) | Hex(a: CodeUnit, b: CodeUnit, c: CodeUnit, d: CodeUnit)

  datatype Chars = NoChars | Chars(head: Char, tail: Chars)

  datatype Exponent = NoExponent | Exponent(marker: CodeUnit, sign: Text, digits: Text)

  datatype Node =
    | Word(word: Text)
    | Number(negative: bool, whole: Text, fraction: Text, exponent: Exponent)
    | String(chars: Chars)
    | EmptyArray(gap: Text)
    | Array(elements: Elements)
    | EmptyObject(gap: Text)
    | Object(members: Members)

  datatype Elements =
    | LastElement(before: Text, value: Node, after: Text)
    | Elements(before: Text, value: Node, after: Text, more: Elements)

  datatype Member = Member(before: Text, key: Chars, beforeColon: Text, afterColon: Text, value: Node, after: Text)

  datatype Members = LastMember(member: Member) | Members(member: Member, more: Members)

  datatype Document = Document(before: Text, root: Node, after: Text)

  predicate IsWhitespace(c: CodeUnit) { c == 0x20 || c == 0x09 || c == 0x0D || c == 0x0A }

  predicate IsHexDigit(c: CodeUnit) { 0x30 <= c <= 0x39 || 0x41 <= c <= 0x46 || 0x61 <= c <= 0x66 }

  /** The letters after a backslash, `u` aside: quote, backslash, slash, b, f, n, r, t. */
  predicate IsEscapeLetter(c: CodeUnit) {
    c == QUOTE || c == BACKSLASH || c == 0x2F || c == 0x62 || c == 0x66 || c == 0x6E || c == 0x72 || c == 0x74
  }

  ghost predicate AllWhitespace(s: Text) { forall i :: 0 <= i < |s| ==> IsWhitespace(s[i]) }

  ghost predicate AllDigits(digit: DigitClass, s: Text) { forall i :: 0 <= i < |s| ==> digit(s[i]) }

  predicate ValidChar(c: Char) {
    match c
    case Plain(u) => u >= 0x20 && u != QUOTE && u != BACKSLASH
    case Short(l) => IsEscapeLetter(l)
    case Hex(a, b, c, d) => IsHexDigit(a) && IsHexDigit(b) && IsHexDigit(c) && IsHexDigit(d)
  }

  predicate ValidChars(cs: Chars) {
    match cs case NoChars => true case Chars(c, tail) => ValidChar(c) && ValidChars(tail)
  }

  ghost predicate ValidWhole(digit: DigitClass, whole: Text) {
    whole == [ZERO] || (whole != [] && 0x31 <= whole[0] <= 0x39 && AllDigits(digit, whole))
  }

  ghost predicate ValidExponent(digit: DigitClass, e: Exponent) {
    e.Exponent? ==>
      && (e.marker == 0x65 || e.marker == 0x45)
      && (e.sign == [] || e.sign == [PLUS] || e.sign == [MINUS])
      && e.digits != [] && AllDigits(digit, e.digits)
  }

  ghost predicate ValidNode(digit: DigitClass, n: Node) {
    match n
    case Word(w) => w == TRUE || w == FALSE || w == NULL
    case Number(_, whole, fraction, exponent) =>
      ValidWhole(digit, whole) && AllDigits(digit, fraction) && ValidExponent(digit, exponent)
    case String(cs) => ValidChars(cs)
    case EmptyArray(gap) => AllWhitespace(gap)
    case Array(es) => ValidElements(digit, es)
    case EmptyObject(gap) => AllWhitespace(gap)
    case Object(ms) => ValidMembers(digit, ms)
  }

  ghost predicate ValidElements(digit: DigitClass, es: Elements) {
    && AllWhitespace(es.before) && ValidNode(digit, es.value) && AllWhitespace(es.after)
    && (es.Elements? ==> ValidElements(digit, es.more))
  }

  ghost predicate ValidMember(digit: DigitClass, m: Member) {
    && AllWhitespace(m.before) && ValidChars(m.key)
    && AllWhitespace(m.beforeColon) && AllWhitespace(m.afterColon)
    && ValidNode(digit, m.value) && AllWhitespace(m.after)
  }

  ghost predicate ValidMembers(digit: DigitClass, ms: Members) {
    ValidMember(digit, ms.member) && (ms.Members? ==> ValidMembers(digit, ms.more))
  }

  ghost predicate ValidDocument(digit: DigitClass, d: Document) {
    AllWhitespace(d.before) && ValidNode(digit, d.root) && AllWhitespace(d.after)
  }

  // ---------------------------------------------------------------- writing a tree before a rest

  function CharText(c: Char, rest: Text): Text {
    match c
    case Plain(u) => [u] + rest
    case Short(l) => [BACKSLASH, l] + rest
    case Hex(a, b, c, d) => [BACKSLASH, LETTER_U, a, b, c, d] + rest
  }

  /** The characters of a string and its closing quote. */
  function CharsText(cs: Chars, rest: Text): Text {
    match cs case NoChars => [QUOTE] + rest case Chars(c, tail) => CharText(c, CharsText(tail, rest))
  }

  function StringText(cs: Chars, rest: Text): Text { [QUOTE] + CharsText(cs, rest) }

  function ExponentText(e: Exponent, rest: Text): Text {
    match e case NoExponent => rest case Exponent(m, sign, digits) => [m] + (sign + (digits + rest))
  }

  function FractionText(f: Text, rest: Text): Text { if f == [] then rest else [DOT] + (f + rest) }

  function SignText(negative: bool, rest: Text): Text { if negative then [MINUS] + rest else rest }

  function NodeText(n: Node, rest: Text): Text {
    match n
    case Word(w) => w + rest
    case Number(negative, whole, fraction, exponent) =>
      SignText(negative, whole + FractionText(fraction, ExponentText(exponent, rest)))
    case String(cs) => StringText(cs, rest)
    case EmptyArray(gap) => [OPEN_BRACKET] + (gap + ([CLOSE_BRACKET] + rest))
    case Array(es) => [OPEN_BRACKET] + ElementsText(es, rest)
    case EmptyObject(gap) => [OPEN_BRACE] + (gap + ([CLOSE_BRACE] + rest))
    case Object(ms) => [OPEN_BRACE] + MembersText(ms, rest)
  }

  /** The elements of an array from the first blank to the closing bracket. */
  function ElementsText(es: Elements, rest: Text): Text {
    es.before + NodeText(es.value, es.after +
      (if es.LastElement? then [CLOSE_BRACKET] + rest else [COMMA] + ElementsText(es.more, rest)))
  }

  function MemberText(m: Member, rest: Text): Text {
    m.before + StringText(m.key, m.beforeColon + ([COLON] + (m.afterColon + NodeText(m.value, m.after + rest))))
  }

  /** The members of an object from the first blank to the closing brace. */
  function MembersText(ms: Members, rest: Text): Text {
    MemberText(ms.member, if ms.LastMember? then [CLOSE_BRACE] + rest else [COMMA] + MembersText(ms.more, rest))
  }

  function DocumentText(d: Document): Text { d.before + NodeText(d.root, d.after) }

  /** The text derives from the grammar by this tree. */
  ghost predicate Derives(digit: DigitClass, text: Text, d: Document) {
    ValidDocument(digit, d) && DocumentText(d) == text
  }

  // ---------------------------------------------------------------- reading a tree back

  function Blank(s: Text): Text {
    if s != [] && IsWhitespace(s[0]) then [s[0]] + Blank(s[1..]) else []
  }

  function Skip(s: Text): (r: Text)
    ensures |r| <= |s|
  {
    if s != [] && IsWhitespace(s[0]) then Skip(s[1..]) else s
  }

  function Digits(digit: DigitClass, s: Text): Text {
    if s != [] && digit(s[0]) then [s[0]] + Digits(digit, s[1..]) else []
  }

  function SkipDigits(digit: DigitClass, s: Text): (r: Text)
    ensures |r| <= |s|
    ensures s != [] && digit(s[0]) ==> |r| < |s|
  {
    if s != [] && digit(s[0]) then SkipDigits(digit, s[1..]) else s
  }

  predicate Starts(s: Text, c: CodeUnit) { s != [] && s[0] == c }

  /** The characters of a string up to the closing quote, which is consumed. */
  function ParseChars(s: Text): (r: Option<(Chars, Text)>)
    ensures r.Some? ==> |r.value.1| < |s|
  {
    if s == [] then None
    else if s[0] == QUOTE then Some((NoChars, s[1..]))
    else if s[0] == BACKSLASH then
      if |s| == 1 then None
      else if s[1] == LETTER_U then
        if |s| < 6 || !ValidChar(Hex(s[2], s[3], s[4], s[5])) then None
        else Prepend(Hex(s[2], s[3], s[4], s[5]), ParseChars(s[6..]))
      else if !IsEscapeLetter(s[1]) then None
      else Prepend(Short(s[1]), ParseChars(s[2..]))
    else if s[0] < 0x20 then None
    else Prepend(Plain(s[0]), ParseChars(s[1..]))
  }

  function Prepend(c: Char, r: Option<(Chars, Text)>): Option<(Chars, Text)> {
    match r case None => None case Some((cs, rest)) => Some((Chars(c, cs), rest))
  }

  function ParseString(s: Text): (r: Option<(Chars, Text)>)
    ensures r.Some? ==> |r.value.1| < |s|
  {
    if !Starts(s, QUOTE) then None else ParseChars(s[1..])
  }

  function ParseWhole(digit: DigitClass, s: Text): (r: Option<(Text, Text)>)
    ensures r.Some? ==> |r.value.1| < |s|
  {
    if Starts(s, ZERO) then Some(([ZERO], s[1..]))
    else if s == [] || !(0x31 <= s[0] <= 0x39) then None
    else Some((Digits(digit, s), SkipDigits(digit, s)))
  }

  function ParseFraction(digit: DigitClass, s: Text): (r: Option<(Text, Text)>)
    ensures r.Some? ==> |r.value.1| <= |s|
  {
    if !Starts(s, DOT) then Some(([], s))
    else if Digits(digit, s[1..]) == [] then None
    else Some((Digits(digit, s[1..]), SkipDigits(digit, s[1..])))
  }

  function ExponentSign(s: Text): Text { if Starts(s, PLUS) then [PLUS] else if Starts(s, MINUS) then [MINUS] else [] }

  function AfterSign(s: Text): (r: Text)
    ensures |r| <= |s|
  {
    if Starts(s, PLUS) || Starts(s, MINUS) then s[1..] else s
  }

  function ParseExponent(digit: DigitClass, s: Text): (r: Option<(Exponent, Text)>)
    ensures r.Some? ==> |r.value.1| <= |s|
  {
    if !Starts(s, 0x65) && !Starts(s, 0x45) then Some((NoExponent, s))
    else
      var tail := AfterSign(s[1..]);
      if Digits(digit, tail) == [] then None
      else Some((Exponent(s[0], ExponentSign(s[1..]), Digits(digit, tail)), SkipDigits(digit, tail)))
  }

  function ParseNumber(digit: DigitClass, s: Text): (r: Option<(Node, Text)>)
    ensures r.Some? ==> |r.value.1| < |s|
  {
    var negative := Starts(s, MINUS);
    match ParseWhole(digit, if negative then s[1..] else s)
    case None => None
    case Some((whole, s2)) =>
      match ParseFraction(digit, s2)
      case None => None
      case Some((fraction, s3)) =>
        match ParseExponent(digit, s3)
        case None => None
        case Some((exponent, s4)) => Some((Number(negative, whole, fraction, exponent), s4))
  }

  predicate StartsWith(s: Text, word: Text) { |word| <= |s| && s[..|word|] == word }

  function ParseNode(digit: DigitClass, s: Text): (r: Option<(Node, Text)>)
    ensures r.Some? ==> |r.value.1| < |s|
    decreases |s|, 1
  {
    if Starts(s, OPEN_BRACE) then
      if Starts(Skip(s[1..]), CLOSE_BRACE) then Some((EmptyObject(Blank(s[1..])), Skip(s[1..])[1..]))
      else (match ParseMembers(digit, s[1..]) case None => None case Some((ms, rest)) => Some((Object(ms), rest)))
    else if Starts(s, OPEN_BRACKET) then
      if Starts(Skip(s[1..]), CLOSE_BRACKET) then Some((EmptyArray(Blank(s[1..])), Skip(s[1..])[1..]))
      else (match ParseElements(digit, s[1..]) case None => None case Some((es, rest)) => Some((Array(es), rest)))
    else if Starts(s, QUOTE) then
      (match ParseString(s) case None => None case Some((cs, rest)) => Some((String(cs), rest)))
    else if StartsWith(s, TRUE) then Some((Word(TRUE), s[|TRUE|..]))
    else if StartsWith(s, FALSE) then Some((Word(FALSE), s[|FALSE|..]))
    else if StartsWith(s, NULL) then Some((Word(NULL), s[|NULL|..]))
    else ParseNumber(digit, s)
  }

  function ParseElements(digit: DigitClass, s: Text): (r: Option<(Elements, Text)>)
    ensures r.Some? ==> |r.value.1| < |s|
    decreases |s|, 2
  {
    match ParseNode(digit, Skip(s))
    case None => None
    case Some((value, s1)) =>
      var s2 := Skip(s1);
      if Starts(s2, CLOSE_BRACKET) then Some((LastElement(Blank(s), value, Blank(s1)), s2[1..]))
      else if !Starts(s2, COMMA) then None
      else match ParseElements(digit, s2[1..])
           case None => None
           case Some((more, rest)) => Some((Elements(Blank(s), value, Blank(s1), more), rest))
  }

  function ParseMember(digit: DigitClass, s: Text): (r: Option<(Member, Text)>)
    ensures r.Some? ==> |r.value.1| < |s|
    decreases |s|, 2
  {
    match ParseString(Skip(s))
    case None => None
    case Some((key, s1)) =>
      if !Starts(Skip(s1), COLON) then None
      else
        var s2 := Skip(s1)[1..];
        match ParseNode(digit, Skip(s2))
        case None => None
        case Some((value, s3)) =>
          Some((Member(Blank(s), key, Blank(s1), Blank(s2), value, Blank(s3)), Skip(s3)))
  }

  function ParseMembers(digit: DigitClass, s: Text): (r: Option<(Members, Text)>)
    ensures r.Some? ==> |r.value.1| < |s|
    decreases |s|, 3
  {
    match ParseMember(digit, s)
    case None => None
    case Some((m, s1)) =>
      if Starts(s1, CLOSE_BRACE) then Some((LastMember(m), s1[1..]))
      else if !Starts(s1, COMMA) then None
      else match ParseMembers(digit, s1[1..])
           case None => None
           case Some((more, rest)) => Some((Members(m, more), rest))
  }

  function ParseDocument(digit: DigitClass, s: Text): Option<Document> {
    match ParseNode(digit, Skip(s))
    case None => None
    case Some((root, rest)) =>
      if Skip(rest) == [] then Some(Document(Blank(s), root, Blank(rest))) else None
  }
}
