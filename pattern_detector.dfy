/**
 * The pattern detector service: classifies an example string by the first of
 * eleven anchored tests that accepts its trimmed form, and falls back to a
 * literal pattern made by escaping the regular-expression metacharacters.
 *
 * Each anchored test is written out as a recogniser over characters; the
 * scanning `RegExp` each matcher hands back is kept as data (its source text
 * and flags), since nothing here matches with it.
 */
module PatternDetector {
  import opened Wrappers
  import opened Text

  /** A `RegExp` value as data: its source text and its flags. */
  datatype Regex = Regex(source: string, flags: string)

  /** The anchored test of a matcher; `Accepts` gives each its meaning. */
  datatype Shape =
    | IsoTimestamp
    | GrafanaTimestamp
    | DateTime
    | DateOnly
    | Uuid
    | Email
    | Url
    | Ipv4
    | TimeOfDay
    | Integer
    | Decimal

  datatype Matcher = Matcher(name: string, description: string, test: Shape, pattern: Regex)

  datatype DetectedPattern = DetectedPattern(pattern: Regex, typeName: string, description: string)

  datatype PatternType = PatternType(name: string, description: string)

  /**
   * The anchored tests, most specific first. With `MatcherFor` this is the
   * matcher list: its `i`-th matcher is `MatcherFor(Precedence[i])`.
   */
  const Precedence: seq<Shape> := [
    IsoTimestamp, GrafanaTimestamp, DateTime, DateOnly, Uuid, Email, Url, Ipv4,
    TimeOfDay, Integer, Decimal
  ]

  /**
   * The matcher for each test: its name, description and scanning pattern.
   * Its name tells the test apart from every other one and from a literal.
   */
  function MatcherFor(test: Shape): (m: Matcher)
    ensures m.test == test
    ensures m.name != "literal"
    ensures forall other: Shape :: other != test ==> NameOf(other) != m.name
  {
    MatcherNamesDistinct();
    Matcher(NameOf(test), DescriptionOf(test), test, PatternOf(test))
  }

  function NameOf(test: Shape): string
  {
    match test
    case IsoTimestamp => "iso_timestamp"
    case GrafanaTimestamp => "grafana_timestamp"
    case DateTime => "datetime"
    case DateOnly => "date"
    case Uuid => "uuid"
    case Email => "email"
    case Url => "url"
    case Ipv4 => "ipv4"
    case TimeOfDay => "time"
    case Integer => "integer"
    case Decimal => "decimal"
  }

  function DescriptionOf(test: Shape): string
  {
    match test
    case IsoTimestamp => "ISO 8601 timestamp"
    case GrafanaTimestamp => "Grafana timestamp"
    case DateTime => "Date and time"
    case DateOnly => "Date (YYYY-MM-DD)"
    case Uuid => "UUID"
    case Email => "Email address"
    case Url => "URL"
    case Ipv4 => "IPv4 address"
    case TimeOfDay => "Time (HH:MM:SS)"
    case Integer => "Integer number"
    case Decimal => "Decimal number"
  }

  /** The global scanning pattern; nothing here matches with it. */
  function PatternOf(test: Shape): Regex
  {
    match test
    case IsoTimestamp =>
      Regex("\\d{4}-\\d{2}-\\d{2}T\\d{2}:\\d{2}:\\d{2}(?:\\.\\d{1,3})?Z?", "g")
    case GrafanaTimestamp =>
      Regex("\\d{4}-\\d{2}-\\d{2}\\s+\\d{2}:\\d{2}:\\d{2}\\.\\d{3}", "g")
    case DateTime =>
      Regex("\\d{4}-\\d{2}-\\d{2}\\s+\\d{2}:\\d{2}:\\d{2}", "g")
    case DateOnly =>
      Regex("\\d{4}-\\d{2}-\\d{2}", "g")
    case Uuid =>
      Regex("[0-9a-f]{8}-[0-9a-f]{4}-[0-9a-f]{4}-[0-9a-f]{4}-[0-9a-f]{12}", "gi")
    case Email =>
      Regex("[a-zA-Z0-9._%+-]+@[a-zA-Z0-9.-]+\\.[a-zA-Z]{2,}", "g")
    case Url =>
      Regex("https?:\\/\\/[^\\s]+", "g")
    case Ipv4 =>
      Regex("(?:(?:25[0-5]|2[0-4][0-9]|[01]?[0-9][0-9]?)\\.){3}(?:25[0-5]|2[0-4][0-9]|[01]?[0-9][0-9]?)", "g")
    case TimeOfDay =>
      Regex("\\d{2}:\\d{2}:\\d{2}(?:\\.\\d{1,3})?", "g")
    case Integer =>
      Regex("-?\\d+", "g")
    case Decimal =>
      Regex("-?\\d+\\.\\d+", "g")
  }

  // ---------------------------------------------------------------------------
  // Character classes
  // ---------------------------------------------------------------------------

  /** `[0-9a-f]` under the case-insensitive flag. */
  predicate IsHexDigit(c: char) { IsDigit(c) || 'a' <= c <= 'f' || 'A' <= c <= 'F' }

  predicate IsAsciiLetter(c: char) { IsLower(c) || IsUpper(c) }

  /** `[a-zA-Z0-9._%+-]`, the characters of an address's local part. */
  predicate IsLocalChar(c: char)
  {
    IsAsciiLetter(c) || IsDigit(c) || c == '.' || c == '_' || c == '%' || c == '+' || c == '-'
  }

  /** `[a-zA-Z0-9.-]`, the characters of an address's domain. */
  predicate IsDomainChar(c: char) { IsAsciiLetter(c) || IsDigit(c) || c == '.' || c == '-' }

  predicate AllSpace(s: string) { forall i :: 0 <= i < |s| ==> IsSpace(s[i]) }

  // ---------------------------------------------------------------------------
  // Recognisers for the anchored tests
  // ---------------------------------------------------------------------------

  /** `\d{n}` occupies `s[i..i + n]`. */
  predicate DigitsAt(s: string, i: nat, n: nat)
  {
    i + n <= |s| && forall k :: i <= k < i + n ==> IsDigit(s[k])
  }

  /** `\d{4}-\d{2}-\d{2}` occupies `s[i..i + 10]`. */
  predicate DateAt(s: string, i: nat)
  {
    i + 10 <= |s| && DigitsAt(s, i, 4) && s[i + 4] == '-' && DigitsAt(s, i + 5, 2)
    && s[i + 7] == '-' && DigitsAt(s, i + 8, 2)
  }

  /** `\d{2}:\d{2}:\d{2}` occupies `s[i..i + 8]`. */
  predicate ClockAt(s: string, i: nat)
  {
    i + 8 <= |s| && DigitsAt(s, i, 2) && s[i + 2] == ':' && DigitsAt(s, i + 3, 2)
    && s[i + 5] == ':' && DigitsAt(s, i + 6, 2)
  }

  /** The optional fraction `(\.\d{1,3})?` spans exactly `s[i..j]`. */
  predicate FractionSpan(s: string, i: nat, j: nat)
    requires i <= j <= |s|
  {
    i == j || (s[i] == '.' && 2 <= j - i <= 4 && DigitsAt(s, i + 1, j - i - 1))
  }

  /**
   * Date, `T`, clock, optional fraction, optional `Z`. A final `Z` can only be
   * the optional `Z`, since the fraction is made of digits.
   */
  predicate IsIsoTimestamp(s: string)
  {
    19 <= |s| && DateAt(s, 0) && s[10] == 'T' && ClockAt(s, 11)
    && var e := if s[|s| - 1] == 'Z' then |s| - 1 else |s|;
       19 <= e && FractionSpan(s, 19, e)
  }

  /**
   * Date, a non-empty run of white space, clock, `.` and three digits. The
   * tail is twelve characters starting with a digit, so the white-space run is
   * everything between the date and the tail.
   */
  predicate IsGrafanaTimestamp(s: string)
  {
    23 <= |s| && DateAt(s, 0) && AllSpace(s[10..|s| - 12]) && ClockAt(s, |s| - 12)
    && s[|s| - 4] == '.' && DigitsAt(s, |s| - 3, 3)
  }

  /** Date, a non-empty run of white space, clock. */
  predicate IsDateTime(s: string)
  {
    19 <= |s| && DateAt(s, 0) && AllSpace(s[10..|s| - 8]) && ClockAt(s, |s| - 8)
  }

  predicate IsDate(s: string)
  {
    |s| == 10 && DateAt(s, 0)
  }

  /** The positions of the hyphens in the 8-4-4-4-12 form. */
  predicate UuidHyphen(i: int) { i == 8 || i == 13 || i == 18 || i == 23 }

  predicate IsUuid(s: string)
  {
    |s| == 36
    && forall i :: 0 <= i < 36 ==> if UuidHyphen(i) then s[i] == '-' else IsHexDigit(s[i])
  }

  /** The index of the last `.` in `d`, or -1 when there is none. */
  function LastDot(d: string): (k: int)
    ensures -1 <= k < |d|
    ensures k >= 0 ==> d[k] == '.'
    ensures forall j :: k < j < |d| ==> d[j] != '.'
  {
    if |d| == 0 then -1
    else if d[|d| - 1] == '.' then |d| - 1
    else LastDot(d[..|d| - 1])
  }

  /**
   * `[a-zA-Z0-9.-]+\.[a-zA-Z]{2,}`: the letters-only tail can hold no `.`, so
   * the separating dot is the last one, with at least one character before it
   * and at least two letters after it.
   */
  predicate IsEmailDomain(d: string)
  {
    (forall i :: 0 <= i < |d| ==> IsDomainChar(d[i]))
    && var k := LastDot(d);
       1 <= k && k + 3 <= |d| && forall i :: k < i < |d| ==> IsAsciiLetter(d[i])
  }

  /**
   * Neither the local part nor the domain admits `@`, so an address has
   * exactly one `@`, with a non-empty local part before it.
   */
  predicate IsEmail(s: string)
  {
    var parts := Split(s, '@');
    |parts| == 2 && |parts[0]| >= 1
    && (forall i :: 0 <= i < |parts[0]| ==> IsLocalChar(parts[0][i]))
    && IsEmailDomain(parts[1])
  }

  /** `http://` or `https://`, then at least one character and no white space. */
  predicate IsUrl(s: string)
  {
    var rest :=
      if |s| >= 8 && s[..8] == "https://" then s[8..]
      else if |s| >= 7 && s[..7] == "http://" then s[7..]
      else "";
    |rest| >= 1 && forall i :: 0 <= i < |rest| ==> !IsSpace(rest[i])
  }

  /** One dot-separated group, as the three alternatives of the test read it. */
  predicate IsOctet(o: string)
  {
    (|o| == 3 && o[0] == '2' && o[1] == '5' && '0' <= o[2] <= '5')
    || (|o| == 3 && o[0] == '2' && '0' <= o[1] <= '4' && IsDigit(o[2]))
    || (1 <= |o| <= 3 && AllDigits(o) && (|o| < 3 || o[0] == '0' || o[0] == '1'))
  }

  /** Four groups separated by dots; a group holds no dot. */
  predicate IsIpv4(s: string)
  {
    var parts := Split(s, '.');
    |parts| == 4 && forall i :: 0 <= i < 4 ==> IsOctet(parts[i])
  }

  predicate IsTimeOfDay(s: string)
  {
    8 <= |s| && ClockAt(s, 0) && FractionSpan(s, 8, |s|)
  }

  /** A leading `-` can only be the optional sign. */
  function SignLength(s: string): (n: nat)
    ensures n <= 1 && n <= |s|
    ensures n == 1 <==> |s| > 0 && s[0] == '-'
  {
    if |s| > 0 && s[0] == '-' then 1 else 0
  }

  predicate IsInteger(s: string)
  {
    SignLength(s) < |s| && AllDigits(s[SignLength(s)..])
  }

  /** An optional sign, then digits, `.`, digits: one dot between two digit runs. */
  predicate IsDecimal(s: string)
  {
    var parts := Split(s[SignLength(s)..], '.');
    |parts| == 2 && |parts[0]| >= 1 && |parts[1]| >= 1
    && AllDigits(parts[0]) && AllDigits(parts[1])
  }

  /** Whether the anchored test `shape` accepts the whole of `s`. */
  predicate Accepts(shape: Shape, s: string)
  {
    match shape
    case IsoTimestamp => IsIsoTimestamp(s)
    case GrafanaTimestamp => IsGrafanaTimestamp(s)
    case DateTime => IsDateTime(s)
    case DateOnly => IsDate(s)
    case Uuid => IsUuid(s)
    case Email => IsEmail(s)
    case Url => IsUrl(s)
    case Ipv4 => IsIpv4(s)
    case TimeOfDay => IsTimeOfDay(s)
    case Integer => IsInteger(s)
    case Decimal => IsDecimal(s)
  }

  // ---------------------------------------------------------------------------
  // escapeRegex
  // ---------------------------------------------------------------------------

  /** The characters `escapeRegex` escapes: `. * + ? ^ $ { } ( ) | [ ] \`. */
  predicate IsRegexMeta(c: char)
  {
    c == '.' || c == '*' || c == '+' || c == '?' || c == '^' || c == '$' || c == '{'
    || c == '}' || c == '(' || c == ')' || c == '|' || c == '[' || c == ']' || c == '\\'
  }

  /** The number of metacharacters in `s`. */
  function MetaCount(s: string): (n: nat)
    ensures n <= |s|
  {
    if |s| == 0 then 0 else (if IsRegexMeta(s[0]) then 1 else 0) + MetaCount(s[1..])
  }

  /** Every metacharacter of `s` preceded by a backslash; the rest unchanged. */
  function EscapeRegex(s: string): (r: string)
    ensures |s| <= |r|
  {
    if |s| == 0 then ""
    else (if IsRegexMeta(s[0]) then ['\\', s[0]] else [s[0]]) + EscapeRegex(s[1..])
  }

  /** How a regular expression reads an identity escape: `\c` stands for `c`. */
  function Unescape(r: string): (s: string)
    ensures |s| <= |r|
  {
    if |r| == 0 then ""
    else if r[0] == '\\' && |r| >= 2 then [r[1]] + Unescape(r[2..])
    else [r[0]] + Unescape(r[1..])
  }

  /** Escaping adds exactly one character per metacharacter. */
  lemma {:induction false} EscapeRegexLength(s: string)
    ensures |EscapeRegex(s)| == |s| + MetaCount(s)
  {
    if |s| > 0 {
      EscapeRegexLength(s[1..]);
    }
  }

  /** Reading the escaped text back recovers the input. */
  lemma {:induction false} UnescapeEscapeRegex(s: string)
    ensures Unescape(EscapeRegex(s)) == s
  {
    if |s| > 0 {
      UnescapeEscapeRegex(s[1..]);
      var r := EscapeRegex(s);
      if IsRegexMeta(s[0]) {
        assert r[2..] == EscapeRegex(s[1..]);
      } else {
        assert r[1..] == EscapeRegex(s[1..]);
        assert s[0] != '\\';
      }
      assert s == [s[0]] + s[1..];
    }
  }

  /** Escaping works character by character, so it distributes over concatenation. */
  lemma {:induction false} EscapeRegexAppend(a: string, b: string)
    ensures EscapeRegex(a + b) == EscapeRegex(a) + EscapeRegex(b)
  {
    if |a| == 0 {
      assert a + b == b;
    } else {
      assert (a + b)[1..] == a[1..] + b;
      EscapeRegexAppend(a[1..], b);
    }
  }

  /** Text without metacharacters is its own escape. */
  lemma {:induction false} EscapeRegexPlain(s: string)
    requires forall i :: 0 <= i < |s| ==> !IsRegexMeta(s[i])
    ensures EscapeRegex(s) == s
  {
    if |s| > 0 {
      EscapeRegexPlain(s[1..]);
      assert s == [s[0]] + s[1..];
    }
  }

  // ---------------------------------------------------------------------------
  // detectPattern / getAvailablePatternTypes
  // ---------------------------------------------------------------------------

  /** The index of the first test of `tests` that accepts `s`. */
  function FirstAccepting(tests: seq<Shape>, s: string): (r: Option<nat>)
    ensures r.Some? ==> r.value < |tests| && Accepts(tests[r.value], s)
    ensures r.Some? ==> forall j :: 0 <= j < r.value ==> !Accepts(tests[j], s)
    ensures r.None? ==> forall j :: 0 <= j < |tests| ==> !Accepts(tests[j], s)
  {
    if |tests| == 0 then None
    else if Accepts(tests[0], s) then Some(0)
    else
      match FirstAccepting(tests[1..], s)
      case None => None
      case Some(i) => Some(i + 1)
  }

  /** The first accepting test is the one that accepts after a run of refusals. */
  lemma FirstAcceptingAt(tests: seq<Shape>, s: string, i: nat)
    requires i < |tests| && Accepts(tests[i], s)
    requires forall j :: 0 <= j < i ==> !Accepts(tests[j], s)
    ensures FirstAccepting(tests, s) == Some(i)
  {
  }

  /** What detection reports for a matcher. */
  function Detected(m: Matcher): DetectedPattern
  {
    DetectedPattern(m.pattern, m.name, m.description)
  }

  /**
   * The pattern of the first matcher whose test accepts the trimmed example,
   * or a literal pattern for the escaped trimmed example.
   */
  function DetectPattern(example: string): DetectedPattern
  {
    var trimmed := Trim(example);
    match FirstAccepting(Precedence, trimmed)
    case Some(i) => Detected(MatcherFor(Precedence[i]))
    case None => DetectedPattern(Regex(EscapeRegex(trimmed), "g"), "literal", "Exact match")
  }

  /**
   * The name and description of every matcher, in precedence order: every
   * test is listed, under a name no other entry and no literal pattern has.
   */
  function GetAvailablePatternTypes(): (r: seq<PatternType>)
    ensures |r| == |Precedence|
    ensures forall i :: 0 <= i < |r| ==>
      r[i] == PatternType(NameOf(Precedence[i]), DescriptionOf(Precedence[i]))
    ensures forall test: Shape :: PatternType(NameOf(test), DescriptionOf(test)) in r
    ensures forall i, j :: 0 <= i < j < |r| ==> r[i].name != r[j].name
    ensures forall i :: 0 <= i < |r| ==> r[i].name != "literal"
  {
    MatcherNamesDistinct();
    PrecedenceDistinct();
    var r := seq(|Precedence|, i requires 0 <= i < |Precedence| =>
      PatternType(MatcherFor(Precedence[i]).name, MatcherFor(Precedence[i]).description));
    assert forall test: Shape :: PatternType(NameOf(test), DescriptionOf(test)) in r by {
      PrecedenceCovers();
      forall test: Shape ensures PatternType(NameOf(test), DescriptionOf(test)) in r {
        assert test in Precedence;
        var i :| 0 <= i < |Precedence| && Precedence[i] == test;
        assert r[i] == PatternType(NameOf(test), DescriptionOf(test));
      }
    }
    r
  }

  // ---------------------------------------------------------------------------
  // Properties
  // ---------------------------------------------------------------------------

  /** The value of a digit character. */
  function DigitValue(c: char): int { c as int - '0' as int }

  /** The value of one, two or three digits, written out positionally. */
  lemma ShortDigitsValue(o: string)
    requires 1 <= |o| <= 3 && AllDigits(o)
    ensures |o| == 1 ==> DigitsValue(o) == DigitValue(o[0])
    ensures |o| == 2 ==> DigitsValue(o) == 10 * DigitValue(o[0]) + DigitValue(o[1])
    ensures |o| == 3 ==> DigitsValue(o) == 100 * DigitValue(o[0]) + 10 * DigitValue(o[1]) + DigitValue(o[2])
  {
    assert DigitsValue(o[..0]) == 0;
    if |o| >= 2 {
      assert o[..2][..1] == o[..1];
    }
    if |o| == 3 {
      assert o[..3] == o;
    }
  }

  /**
   * A group of the IPv4 test is one to three digits with value at most 255;
   * leading zeros are accepted.
   */
  lemma OctetValue(o: string)
    ensures IsOctet(o) <==> 1 <= |o| <= 3 && AllDigits(o) && DigitsValue(o) <= 255
  {
    if 1 <= |o| <= 3 && AllDigits(o) {
      ShortDigitsValue(o);
    }
  }

  /** A group holds no dot, so it splits on dots into itself. */
  lemma OctetSplit(o: string)
    requires IsOctet(o)
    ensures Split(o, '.') == [o]
  {
    assert forall i :: 0 <= i < |o| ==> IsDigit(o[i]);
    SplitNoSep(o, '.');
  }

  /** A string the IPv4 test accepts is four dot-separated groups of at most 255 each. */
  lemma Ipv4Sound(s: string)
    requires IsIpv4(s)
    ensures exists a, b, c, d ::
      s == a + "." + b + "." + c + "." + d && IsOctet(a) && IsOctet(b) && IsOctet(c) && IsOctet(d)
  {
    var p := Split(s, '.');
    JoinSplit(s, '.');
    calc {
      s;
      Join(p, '.');
      p[0] + "." + Join(p[1..], '.');
      { assert p[1..][1..] == p[2..]; }
      p[0] + "." + (p[1] + "." + Join(p[2..], '.'));
      { assert p[2..][1..] == p[3..]; }
      p[0] + "." + (p[1] + "." + (p[2] + "." + Join(p[3..], '.')));
      p[0] + "." + (p[1] + "." + (p[2] + "." + p[3]));
      p[0] + "." + p[1] + "." + p[2] + "." + p[3];
    }
  }

  /** Four groups of at most 255 each, joined by dots, pass the IPv4 test. */
  lemma Ipv4Complete(a: string, b: string, c: string, d: string)
    requires IsOctet(a) && IsOctet(b) && IsOctet(c) && IsOctet(d)
    ensures IsIpv4(a + "." + b + "." + c + "." + d)
  {
    OctetSplit(a);
    OctetSplit(b);
    OctetSplit(c);
    OctetSplit(d);
    var cd := c + "." + d;
    var bcd := b + "." + cd;
    assert a + "." + b + "." + c + "." + d == a + "." + bcd;
    calc {
      Split(a + "." + bcd, '.');
      { SplitConcat(a, bcd, '.'); }
      [a] + Split(bcd, '.');
      { SplitConcat(b, cd, '.'); }
      [a] + ([b] + Split(cd, '.'));
      { SplitConcat(c, d, '.'); }
      [a] + ([b] + ([c] + [d]));
      [a, b, c, d];
    }
  }

  /** The matcher names are pairwise distinct and none is `"literal"`. */
  lemma MatcherNamesDistinct()
    ensures forall a: Shape, b: Shape :: a != b ==> NameOf(a) != NameOf(b)
    ensures forall a: Shape :: NameOf(a) != "literal"
  {
  }

  /** Every test has its place in the precedence order. */
  lemma PrecedenceCovers()
    ensures forall test: Shape :: test in Precedence
  {
    forall test: Shape ensures test in Precedence {
      match test
      case IsoTimestamp => assert Precedence[0] == test;
      case GrafanaTimestamp => assert Precedence[1] == test;
      case DateTime => assert Precedence[2] == test;
      case DateOnly => assert Precedence[3] == test;
      case Uuid => assert Precedence[4] == test;
      case Email => assert Precedence[5] == test;
      case Url => assert Precedence[6] == test;
      case Ipv4 => assert Precedence[7] == test;
      case TimeOfDay => assert Precedence[8] == test;
      case Integer => assert Precedence[9] == test;
      case Decimal => assert Precedence[10] == test;
    }
  }

  /** No test occurs twice in the precedence order. */
  lemma PrecedenceDistinct()
    ensures forall i, j :: 0 <= i < j < |Precedence| ==> Precedence[i] != Precedence[j]
  {
  }

  /** Detection looks only at the trimmed example. */
  lemma DetectPatternTrimmed(example: string)
    ensures DetectPattern(example) == DetectPattern(Trim(example))
  {
    TrimIdempotent(example);
  }

  /**
   * The detected type is the name of the `i`-th matcher exactly when its test
   * accepts the trimmed example and no earlier test does; the whole result is
   * then that matcher's pattern, name and description.
   */
  lemma DetectPatternFirstMatch(example: string, i: nat)
    requires i < |Precedence|
    ensures DetectPattern(example).typeName == NameOf(Precedence[i])
        <==> Accepts(Precedence[i], Trim(example))
             && forall j :: 0 <= j < i ==> !Accepts(Precedence[j], Trim(example))
    ensures DetectPattern(example).typeName == NameOf(Precedence[i])
        ==> DetectPattern(example) == Detected(MatcherFor(Precedence[i]))
  {
    var t := Trim(example);
    var r := FirstAccepting(Precedence, t);
    MatcherNamesDistinct();
    PrecedenceDistinct();
    if r.Some? {
      assert DetectPattern(example) == Detected(MatcherFor(Precedence[r.value]));
      assert DetectPattern(example).typeName == NameOf(Precedence[i]) <==> r.value == i;
    } else {
      assert DetectPattern(example).typeName == "literal";
    }
  }

  /**
   * The literal fallback is taken exactly when no test accepts the trimmed
   * example, and then the pattern is the escaped trimmed example.
   */
  lemma DetectPatternLiteral(example: string)
    ensures DetectPattern(example).typeName == "literal"
        <==> forall j :: 0 <= j < |Precedence| ==> !Accepts(Precedence[j], Trim(example))
    ensures DetectPattern(example).typeName == "literal"
        ==> DetectPattern(example) == DetectedPattern(Regex(EscapeRegex(Trim(example)), "g"), "literal", "Exact match")
  {
    MatcherNamesDistinct();
  }

  /** The detected type is one of the listed pattern types, with its description, or `"literal"`. */
  lemma DetectPatternListed(example: string)
    ensures var d := DetectPattern(example);
      d.typeName == "literal" || PatternType(d.typeName, d.description) in GetAvailablePatternTypes()
  {
    var d := DetectPattern(example);
    var types := GetAvailablePatternTypes();
    match FirstAccepting(Precedence, Trim(example))
    case Some(i) =>
      assert types[i] == PatternType(d.typeName, d.description);
    case None =>
  }
}
