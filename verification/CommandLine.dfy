/**
 Quoting of a target's arguments into one Windows command line, and the rules by which
 `CommandLineToArgvW` and the C run-time split such a line again. No text holds a NUL: the
 target parser refuses one.
 */
module CommandLine {
  import opened Utf16

  // ---------------------------------------------------------------- quoting

  predicate IsPlain(c: CodeUnit) {
    c != SPACE && c != TAB && c != NEWLINE && c != VERTICAL_TAB && c != QUOTE
  }

  predicate NeedsQuotes(value: Text) {
    value == [] || exists i :: 0 <= i < |value| && !IsPlain(value[i])
  }

  /** `count` backslashes before `rest`. */
  function Backslashes(count: nat, rest: Text): Text {
    if count == 0 then rest else [BACKSLASH] + Backslashes(count - 1, rest)
  }

  /** What follows the opening quote when `slashes` backslashes are pending, before `rest`. */
  function QuotedBody(value: Text, slashes: nat, rest: Text): Text {
    if value == [] then Backslashes(slashes * 2, [QUOTE] + rest)
    else if value[0] == BACKSLASH then QuotedBody(value[1..], slashes + 1, rest)
    else if value[0] == QUOTE then Backslashes(slashes * 2 + 1, [QUOTE] + QuotedBody(value[1..], 0, rest))
    else Backslashes(slashes, [value[0]] + QuotedBody(value[1..], 0, rest))
  }

  /** The quoted argument before `rest`. */
  function Quoted(value: Text, rest: Text): Text {
    if NeedsQuotes(value) then [QUOTE] + QuotedBody(value, 0, rest) else value + rest
  }

  /** The arguments quoted and joined by single spaces. */
  function Line(arguments: seq<Text>): Text {
    if arguments == [] then []
    else Quoted(arguments[0], if |arguments| == 1 then [] else [SPACE] + Line(arguments[1..]))
  }

  // ---------------------------------------------------------------- splitting

  /** What a quote doubled inside quotes means; the run-times differ on it. */
  datatype DoubledQuote = ClosesAndOpens | IsLiteral | IsLiteralAndCloses

  predicate IsBlank(c: CodeUnit) { c == SPACE || c == TAB }

  /**
   Reads one argument: 2n backslashes before a quote give n of them and the quote delimits, 2n+1
   give n and the quote is literal, other backslashes are literal; a blank outside quotes ends it.
   */
  function ReadArgument(rule: DoubledQuote, s: Text, quoted: bool, slashes: nat, read: Text): (r: (Text, Text))
    ensures |r.1| <= |s|
    ensures s != [] && (quoted || !IsBlank(s[0])) ==> |r.1| < |s|
    decreases |s|
  {
    if s == [] then (read + Backslashes(slashes, []), [])
    else if s[0] == BACKSLASH then ReadArgument(rule, s[1..], quoted, slashes + 1, read)
    else if s[0] == QUOTE then
      var halved := read + Backslashes(slashes / 2, []);
      if slashes % 2 == 1 then ReadArgument(rule, s[1..], quoted, 0, halved + [QUOTE])
      else if quoted && |s| > 1 && s[1] == QUOTE && rule != ClosesAndOpens then
        ReadArgument(rule, s[2..], rule == IsLiteral, 0, halved + [QUOTE])
      else ReadArgument(rule, s[1..], !quoted, 0, halved)
    else if !quoted && IsBlank(s[0]) then (read + Backslashes(slashes, []), s)
    else ReadArgument(rule, s[1..], quoted, 0, read + Backslashes(slashes, []) + [s[0]])
  }

  function SkipBlanks(s: Text): (r: Text)
    ensures |r| <= |s| && (r != [] ==> !IsBlank(r[0]))
  {
    if s != [] && IsBlank(s[0]) then SkipBlanks(s[1..]) else s
  }

  function ReadArguments(rule: DoubledQuote, s: Text): seq<Text>
    decreases |s|
  {
    var t := SkipBlanks(s);
    if t == [] then []
    else
      var (argument, rest) := ReadArgument(rule, t, false, 0, []);
      [argument] + ReadArguments(rule, rest)
  }

  /** The text up to the closing quote, and what follows it. */
  function UpToQuote(s: Text): (Text, Text) {
    if s == [] then ([], [])
    else if s[0] == QUOTE then ([], s[1..])
    else var (name, rest) := UpToQuote(s[1..]); ([s[0]] + name, rest)
  }

  function UpToBlank(s: Text): (Text, Text) {
    if s == [] || IsBlank(s[0]) then ([], s)
    else var (name, rest) := UpToBlank(s[1..]); ([s[0]] + name, rest)
  }

  /** The program name has its own rule: up to the next quote if it starts with one, without escapes. */
  function ReadLine(rule: DoubledQuote, line: Text): seq<Text> {
    var (name, rest) := if line != [] && line[0] == QUOTE then UpToQuote(line[1..]) else UpToBlank(line);
    [name] + ReadArguments(rule, rest)
  }

  // ---------------------------------------------------------------- one argument survives

  /** Where an argument ends: at the end of the line or at the separating space. */
  predicate Separated(rest: Text) { rest == [] || rest[0] == SPACE }

  lemma {:induction false} ReadBackslashes(rule: DoubledQuote, count: nat, s: Text, quoted: bool, slashes: nat, read: Text)
    ensures ReadArgument(rule, Backslashes(count, s), quoted, slashes, read) == ReadArgument(rule, s, quoted, slashes + count, read)
  {
    if count > 0 { ReadBackslashes(rule, count - 1, s, quoted, slashes + 1, read); }
  }

  lemma {:induction false} OneMore(count: nat, tail: Text, read: Text)
    ensures read + Backslashes(count + 1, []) + tail == read + Backslashes(count, []) + ([BACKSLASH] + tail)
  {
    assert Backslashes(count + 1, []) == Backslashes(count, []) + [BACKSLASH] by { Append(count); }
  }

  lemma {:induction false} Append(count: nat)
    ensures Backslashes(count + 1, []) == Backslashes(count, []) + [BACKSLASH]
  {
    if count > 0 { Append(count - 1); }
  }

  lemma {:induction false} BodyReads(rule: DoubledQuote, value: Text, slashes: nat, rest: Text, read: Text)
    requires Separated(rest)
    ensures ReadArgument(rule, QuotedBody(value, slashes, rest), true, 0, read) == (read + Backslashes(slashes, []) + value, rest)
    decreases |value|
  {
    if value == [] {
      ReadBackslashes(rule, slashes * 2, [QUOTE] + rest, true, 0, read);
      assert read + Backslashes(slashes, []) + value == read + Backslashes(slashes, []);
      ReadEnd(rule, slashes, rest, read);
    } else if value[0] == BACKSLASH {
      BodyReads(rule, value[1..], slashes + 1, rest, read);
      OneMore(slashes, value[1..], read);
      assert [BACKSLASH] + value[1..] == value;
    } else {
      var tail := QuotedBody(value[1..], 0, rest);
      var before := read + Backslashes(slashes, []) + [value[0]];
      BodyReads(rule, value[1..], 0, rest, before);
      assert before + [] + value[1..] == read + Backslashes(slashes, []) + value;
      if value[0] == QUOTE {
        ReadBackslashes(rule, slashes * 2 + 1, [QUOTE] + tail, true, 0, read);
      } else {
        ReadBackslashes(rule, slashes, [value[0]] + tail, true, 0, read);
      }
    }
  }

  /** The closing quote ends the argument, because a space or the end follows it. */
  lemma ReadEnd(rule: DoubledQuote, slashes: nat, rest: Text, read: Text)
    requires Separated(rest)
    ensures ReadArgument(rule, [QUOTE] + rest, true, slashes * 2, read) == (read + Backslashes(slashes, []), rest)
  {
    var halved := read + Backslashes(slashes, []);
    assert halved + Backslashes(0, []) == halved;
    assert ReadArgument(rule, rest, false, 0, halved) == (halved, rest);
    assert slashes * 2 / 2 == slashes && slashes * 2 % 2 == 0;
    assert rest != [] ==> ([QUOTE] + rest)[1] == SPACE;
  }

  lemma {:induction false} PlainReads(rule: DoubledQuote, value: Text, slashes: nat, rest: Text, read: Text)
    requires Separated(rest) && forall i :: 0 <= i < |value| ==> IsPlain(value[i])
    ensures ReadArgument(rule, value + rest, false, slashes, read) == (read + Backslashes(slashes, []) + value, rest)
    decreases |value|
  {
    var s := value + rest;
    if value == [] {
      assert s == rest;
      assert read + Backslashes(slashes, []) + value == read + Backslashes(slashes, []);
    } else {
      assert s[1..] == value[1..] + rest;
      if value[0] == BACKSLASH {
        PlainReads(rule, value[1..], slashes + 1, rest, read);
        OneMore(slashes, value[1..], read);
        assert [BACKSLASH] + value[1..] == value;
      } else {
        var before := read + Backslashes(slashes, []) + [value[0]];
        PlainReads(rule, value[1..], 0, rest, before);
        assert before + [] + value[1..] == read + Backslashes(slashes, []) + value;
      }
    }
  }

  /** Splitting returns exactly the argument that was quoted. */
  lemma {:induction false} QuotedReads(rule: DoubledQuote, value: Text, rest: Text)
    requires Separated(rest)
    ensures ReadArgument(rule, Quoted(value, rest), false, 0, []) == (value, rest)
    ensures Quoted(value, rest) != [] && !IsBlank(Quoted(value, rest)[0])
  {
    if NeedsQuotes(value) {
      assert [] + Backslashes(0, []) == [];
      BodyReads(rule, value, 0, rest, []);
      assert [] + Backslashes(0, []) + value == value;
    } else {
      PlainReads(rule, value, 0, rest, []);
      assert [] + Backslashes(0, []) + value == value;
    }
  }

  /** Splitting the joined line returns exactly the arguments. */
  lemma {:induction false} ArgumentsRoundTrip(rule: DoubledQuote, arguments: seq<Text>)
    ensures ReadArguments(rule, Line(arguments)) == arguments
    ensures ReadArguments(rule, [SPACE] + Line(arguments)) == arguments
  {
    if arguments != [] {
      var rest := if |arguments| == 1 then [] else [SPACE] + Line(arguments[1..]);
      QuotedReads(rule, arguments[0], rest);
      ArgumentsRoundTrip(rule, arguments[1..]);
      assert ReadArguments(rule, rest) == arguments[1..];
      assert SkipBlanks(Line(arguments)) == Line(arguments);
      assert [arguments[0]] + arguments[1..] == arguments;
    }
    assert SkipBlanks([SPACE] + Line(arguments)) == SkipBlanks(Line(arguments));
  }

  // ---------------------------------------------------------------- the program name

  /** The names that the program-name rule can return: it knows no escapes. */
  predicate NameSurvives(application: Text) {
    && QUOTE !in application
    && (NeedsQuotes(application) && application != [] ==> application[|application| - 1] != BACKSLASH)
  }

  lemma {:induction false} NameWithoutQuotesReads(value: Text, slashes: nat, rest: Text)
    requires QUOTE !in value && (value != [] ==> value[|value| - 1] != BACKSLASH) && (value == [] ==> slashes == 0)
    ensures UpToQuote(QuotedBody(value, slashes, rest)) == (Backslashes(slashes, value), rest)
    decreases |value|
  {
    if value != [] {
      var tail := value[1..];
      assert forall c :: c in tail ==> c in value;
      assert value == [value[0]] + tail;
      assert tail != [] ==> tail[|tail| - 1] == value[|value| - 1];
      if value[0] == BACKSLASH {
        NameWithoutQuotesReads(tail, slashes + 1, rest);
        MoveIn(slashes, tail);
      } else {
        NameWithoutQuotesReads(tail, 0, rest);
        PastBackslashes(slashes, [value[0]] + QuotedBody(tail, 0, rest));
        assert UpToQuote([value[0]] + QuotedBody(tail, 0, rest)) == (value, rest);
      }
    }
  }

  lemma {:induction false} MoveIn(count: nat, tail: Text)
    ensures Backslashes(count + 1, tail) == Backslashes(count, [BACKSLASH] + tail)
  {
    if count > 0 { MoveIn(count - 1, tail); }
  }

  lemma {:induction false} PastBackslashes(count: nat, s: Text)
    ensures UpToQuote(Backslashes(count, s)) == (Backslashes(count, UpToQuote(s).0), UpToQuote(s).1)
  {
    if count > 0 { PastBackslashes(count - 1, s); }
  }

  /** Reading up to a quote never returns a text with a quote in it. */
  lemma {:induction false} NoQuoteRead(s: Text)
    ensures QUOTE !in UpToQuote(s).0
  {
    if s != [] && s[0] != QUOTE { NoQuoteRead(s[1..]); }
  }

  /** A trailing backslash comes back doubled. */
  lemma {:induction false} TrailingBackslashGrows(value: Text, slashes: nat, rest: Text)
    requires QUOTE !in value && if value == [] then slashes > 0 else value[|value| - 1] == BACKSLASH
    ensures |UpToQuote(QuotedBody(value, slashes, rest)).0| > slashes + |value|
    decreases |value|
  {
    if value == [] {
      PastBackslashes(slashes * 2, [QUOTE] + rest);
      BackslashesLength(slashes * 2, []);
    } else {
      var tail := value[1..];
      assert forall c :: c in tail ==> c in value;
      assert tail != [] ==> tail[|tail| - 1] == value[|value| - 1];
      if value[0] == BACKSLASH {
        TrailingBackslashGrows(tail, slashes + 1, rest);
      } else {
        TrailingBackslashGrows(tail, 0, rest);
        var after := [value[0]] + QuotedBody(tail, 0, rest);
        PastBackslashes(slashes, after);
        BackslashesLength(slashes, UpToQuote(after).0);
      }
    }
  }

  lemma {:induction false} BackslashesLength(count: nat, s: Text)
    ensures |Backslashes(count, s)| == count + |s|
  {
    if count > 0 { BackslashesLength(count - 1, s); }
  }

  lemma {:induction false} PlainNameReads(value: Text, rest: Text)
    requires Separated(rest) && forall i :: 0 <= i < |value| ==> IsPlain(value[i])
    ensures UpToBlank(value + rest) == (value, rest)
  {
    if value == [] {
      assert value + rest == rest;
    } else {
      PlainNameReads(value[1..], rest);
      assert (value + rest)[1..] == value[1..] + rest;
      assert value == [value[0]] + value[1..];
    }
  }

  /** What the program-name rule returns for the first word of a line. */
  function ReadName(line: Text): (Text, Text) {
    if line != [] && line[0] == QUOTE then UpToQuote(line[1..]) else UpToBlank(line)
  }

  lemma {:induction false} NameReads(application: Text, rest: Text)
    requires Separated(rest)
    ensures NameSurvives(application) ==> ReadName(Quoted(application, rest)) == (application, rest)
    ensures !NameSurvives(application) ==> ReadName(Quoted(application, rest)).0 != application
  {
    if !NeedsQuotes(application) {
      PlainNameReads(application, rest);
    } else if QUOTE in application {
      NoQuoteRead(QuotedBody(application, 0, rest));
    } else if application != [] && application[|application| - 1] == BACKSLASH {
      TrailingBackslashGrows(application, 0, rest);
    } else {
      NameWithoutQuotesReads(application, 0, rest);
    }
  }

  /**
   The whole line comes back as it was exactly when the program name holds no quote and, if it has
   to be quoted, does not end with a backslash; the other arguments are unrestricted.
   */
  lemma {:induction false} LineRoundTrip(rule: DoubledQuote, application: Text, arguments: seq<Text>)
    ensures ReadLine(rule, Line([application] + arguments)) == [application] + arguments <==> NameSurvives(application)
  {
    var rest := if arguments == [] then [] else [SPACE] + Line(arguments);
    assert ([application] + arguments)[1..] == arguments;
    assert Line([application] + arguments) == Quoted(application, rest);
    NameReads(application, rest);
    ArgumentsRoundTrip(rule, arguments);
    assert ReadArguments(rule, rest) == arguments;
    assert ReadLine(rule, Quoted(application, rest))[0] == ReadName(Quoted(application, rest)).0;
  }

  // ---------------------------------------------------------------- the code

  lemma {:induction false} BodySplit(value: Text, slashes: nat, a: Text, b: Text)
    ensures QuotedBody(value, slashes, a + b) == QuotedBody(value, slashes, a) + b
    decreases |value|
  {
    if value == [] {
      BackslashesSplit(slashes * 2, [QUOTE] + a, b);
      assert ([QUOTE] + a) + b == [QUOTE] + (a + b);
    } else if value[0] == BACKSLASH {
      BodySplit(value[1..], slashes + 1, a, b);
    } else {
      BodySplit(value[1..], 0, a, b);
      var tail := QuotedBody(value[1..], 0, a);
      assert ([value[0]] + tail) + b == [value[0]] + (tail + b);
      BackslashesSplit(if value[0] == QUOTE then slashes * 2 + 1 else slashes, [value[0]] + tail, b);
    }
  }

  lemma {:induction false} BackslashesSplit(count: nat, a: Text, b: Text)
    ensures Backslashes(count, a + b) == Backslashes(count, a) + b
  {
    if count > 0 { BackslashesSplit(count - 1, a, b); }
  }

  method QuoteArgument(value: Text) returns (quoted: Text)
    ensures quoted == Quoted(value, [])
  {
    if |value| != 0 && forall i :: 0 <= i < |value| ==> IsPlain(value[i]) {
      assert value + [] == value;
      return value;
    }
    quoted := [QUOTE];
    var slashes := 0;
    for i := 0 to |value|
      invariant slashes >= 0
      invariant quoted + QuotedBody(value[i..], slashes, []) == [QUOTE] + QuotedBody(value, 0, [])
    {
      ghost var tail := QuotedBody(value[i + 1..], 0, []);
      ghost var here := quoted;
      assert value[i..][1..] == value[i + 1..];
      if value[i] == BACKSLASH { slashes := slashes + 1; continue; }
      if value[i] == QUOTE {
        quoted := quoted + Backslashes(slashes * 2 + 1, []) + [QUOTE];
        Piece(here, slashes * 2 + 1, QUOTE, tail);
      } else {
        quoted := quoted + Backslashes(slashes, []) + [value[i]];
        Piece(here, slashes, value[i], tail);
      }
      slashes := 0;
    }
    Piece(quoted, slashes * 2, QUOTE, []);
    quoted := quoted + Backslashes(slashes * 2, []) + [QUOTE];
    assert quoted + [] == quoted;
  }

  lemma Piece(before: Text, count: nat, c: CodeUnit, tail: Text)
    ensures before + Backslashes(count, []) + [c] + tail == before + Backslashes(count, [c] + tail)
  {
    BackslashesSplit(count, [], [c] + tail);
    assert [] + ([c] + tail) == [c] + tail;
    var b := Backslashes(count, []);
    assert before + b + [c] + tail == before + (b + ([c] + tail));
  }

  /** The ordinary branch: the program and its arguments, quoted and joined by spaces. */
  method BuildCommandLine(application: Text, arguments: seq<Text>) returns (line: Text)
    ensures line == Line([application] + arguments)
  {
    var all := [application] + arguments;
    line := QuoteArgument(application);
    JoinFirst(all);
    for i := 1 to |all|
      invariant line + Rest(all[i..]) == Line(all)
    {
      var quoted := QuoteArgument(all[i]);
      JoinStep(line, all, i);
      line := line + [SPACE] + quoted;
    }
    assert line + [] == line;
  }

  lemma JoinFirst(all: seq<Text>)
    requires all != []
    ensures Quoted(all[0], []) + Rest(all[1..]) == Line(all)
  {
    QuotedSplit(all[0], Rest(all[1..]));
  }

  lemma JoinStep(line: Text, all: seq<Text>, i: nat)
    requires i < |all|
    ensures line + [SPACE] + Quoted(all[i], []) + Rest(all[i + 1..]) == line + Rest(all[i..])
  {
    assert all[i..][1..] == all[i + 1..];
    JoinFirst(all[i..]);
    var quoted, rest := Quoted(all[i], []), Rest(all[i + 1..]);
    assert Rest(all[i..]) == [SPACE] + (quoted + rest);
    assert line + [SPACE] + quoted + rest == line + ([SPACE] + (quoted + rest));
  }

  /** What follows an argument on the line. */
  function Rest(arguments: seq<Text>): Text {
    if arguments == [] then [] else [SPACE] + Line(arguments)
  }

  lemma QuotedSplit(value: Text, rest: Text)
    ensures Quoted(value, rest) == Quoted(value, []) + rest
  {
    if NeedsQuotes(value) {
      assert [] + rest == rest;
      BodySplit(value, 0, [], rest);
      var body := QuotedBody(value, 0, []);
      assert ([QUOTE] + body) + rest == [QUOTE] + (body + rest);
    } else {
      assert value + [] == value;
    }
  }
}
