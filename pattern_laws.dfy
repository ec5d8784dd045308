/**
 * Properties of the pattern detector's anchored tests taken together: no two
 * tests accept the same string, so the first accepting test is the only one,
 * and the order of the matcher list never decides a classification.
 */
module PatternLaws {
  import opened Wrappers
  import opened Seqs
  import opened Text
  import opened PatternDetector

  /** The position of each test in the precedence order. */
  function Rank(test: Shape): (k: nat)
    ensures k < |Precedence| && Precedence[k] == test
  {
    match test
    case IsoTimestamp => 0
    case GrafanaTimestamp => 1
    case DateTime => 2
    case DateOnly => 3
    case Uuid => 4
    case Email => 5
    case Url => 6
    case Ipv4 => 7
    case TimeOfDay => 8
    case Integer => 9
    case Decimal => 10
  }

  // ---------------------------------------------------------------------------
  // The characters each test admits
  // ---------------------------------------------------------------------------

  /** Digits and dots, with a minus sign allowed in front. */
  predicate NumericChars(t: string)
  {
    forall i :: 0 <= i < |t| ==> IsDigit(t[i]) || t[i] == '.' || (i == 0 && t[i] == '-')
  }

  predicate DigitsAndDots(t: string)
  {
    forall i :: 0 <= i < |t| ==> IsDigit(t[i]) || t[i] == '.'
  }

  /** Digit groups joined by dots are digits and dots. */
  lemma {:induction false} JoinDigitGroups(parts: seq<string>)
    requires forall k :: 0 <= k < |parts| ==> AllDigits(parts[k])
    ensures DigitsAndDots(Join(parts, '.'))
  {
    if |parts| > 1 {
      JoinDigitGroups(parts[1..]);
      var rest := Join(parts[1..], '.');
      var t := parts[0] + "." + rest;
      assert Join(parts, '.') == t;
      forall i | 0 <= i < |t| ensures IsDigit(t[i]) || t[i] == '.'
      {
        if i < |parts[0]| {
          assert t[i] == parts[0][i];
        } else if i > |parts[0]| {
          assert t[i] == rest[i - |parts[0]| - 1];
        }
      }
    }
  }

  /** The strings the IPv4, integer and decimal tests accept are made of number characters. */
  lemma NumericShapes(s: string)
    requires IsIpv4(s) || IsInteger(s) || IsDecimal(s)
    ensures NumericChars(s)
  {
    if IsIpv4(s) {
      var parts := Split(s, '.');
      forall k | 0 <= k < |parts| ensures AllDigits(parts[k])
      {
        OctetValue(parts[k]);
      }
      JoinDigitGroups(parts);
      JoinSplit(s, '.');
    } else if IsDecimal(s) {
      var n := SignLength(s);
      var u := s[n..];
      JoinDigitGroups(Split(u, '.'));
      JoinSplit(u, '.');
      forall i | 0 <= i < |s| ensures IsDigit(s[i]) || s[i] == '.' || (i == 0 && s[i] == '-')
      {
        if i >= n {
          assert s[i] == u[i - n];
        }
      }
    } else {
      var n := SignLength(s);
      forall i | 0 <= i < |s| ensures IsDigit(s[i]) || s[i] == '.' || (i == 0 && s[i] == '-')
      {
        if i >= n {
          assert s[i] == s[n..][i - n];
        }
      }
    }
  }

  /** The characters of timestamps, dates and times of day. */
  predicate IsClockChar(c: char)
  {
    IsDigit(c) || c == '-' || c == 'T' || c == ':' || c == '.' || c == 'Z' || IsSpace(c)
  }

  /** Timestamps, dates and times of day contain no `@`. */
  lemma ClockShapesNoAt(s: string)
    requires IsIsoTimestamp(s) || IsGrafanaTimestamp(s) || IsDateTime(s) || IsDate(s) || IsTimeOfDay(s)
    ensures '@' !in s
  {
    forall i | 0 <= i < |s| ensures IsClockChar(s[i])
    {
      if IsTimeOfDay(s) {
        if i >= 8 {
          assert s[8] == '.';
          assert i == 8 || IsDigit(s[i]);
        }
      } else if i < 10 {
      } else if IsIsoTimestamp(s) {
        var e := if s[|s| - 1] == 'Z' then |s| - 1 else |s|;
        if 19 <= i < e {
          assert i == 19 || IsDigit(s[i]);
        }
      } else if IsGrafanaTimestamp(s) {
        if i < |s| - 12 {
          assert s[i] == s[10..|s| - 12][i - 10];
        }
      } else if IsDateTime(s) {
        if i < |s| - 8 {
          assert s[i] == s[10..|s| - 8][i - 10];
        }
      }
    }
  }

  /** An address has an `@` and no `:`. */
  lemma EmailChars(s: string)
    requires IsEmail(s)
    ensures '@' in s && ':' !in s
  {
    var parts := Split(s, '@');
    JoinSplit(s, '@');
    assert parts[1..] == [parts[1]];
    assert s == parts[0] + "@" + parts[1];
    assert s[|parts[0]|] == '@';
    forall i | 0 <= i < |s| ensures s[i] != ':'
    {
      if i < |parts[0]| {
        assert s[i] == parts[0][i];
      } else if i > |parts[0]| {
        assert s[i] == parts[1][i - |parts[0]| - 1];
      }
    }
  }

  /** A URL starts with `ht` and has a `:` among its first six characters. */
  lemma UrlChars(s: string)
    requires IsUrl(s)
    ensures |s| >= 8 && s[0] == 'h' && s[2] == 't' && (s[4] == ':' || s[5] == ':')
  {
    if |s| >= 8 && s[..8] == "https://" {
      assert s[0] == s[..8][0] && s[2] == s[..8][2] && s[5] == s[..8][5];
    } else {
      assert s[..7] == "http://";
      assert s[0] == s[..7][0] && s[2] == s[..7][2] && s[4] == s[..7][4];
    }
  }

  /** The IPv4 test needs three dots, the decimal test exactly one, the integer test none. */
  lemma DotCounts(s: string)
    ensures IsIpv4(s) ==> Count(s, '.') == 3
    ensures IsDecimal(s) ==> Count(s, '.') == 1
    ensures IsInteger(s) ==> Count(s, '.') == 0
  {
    var n := SignLength(s);
    if n == 1 {
      assert s[1..] == s[n..];
    } else {
      assert s[n..] == s;
    }
    if IsInteger(s) {
      CountMultiset(s[n..], '.');
      assert '.' !in s[n..];
    }
  }

  // ---------------------------------------------------------------------------
  // No two tests accept the same string
  // ---------------------------------------------------------------------------

  /** The four timestamp and date tests refuse each other's strings. */
  lemma DateShapesDistinct(s: string)
    ensures IsIsoTimestamp(s) ==> !IsGrafanaTimestamp(s) && !IsDateTime(s) && !IsDate(s)
    ensures IsGrafanaTimestamp(s) ==> !IsDateTime(s) && !IsDate(s)
    ensures IsDateTime(s) ==> !IsDate(s)
  {
    if IsGrafanaTimestamp(s) || IsDateTime(s) {
      assert IsSpace(s[10]) by {
        if IsGrafanaTimestamp(s) {
          assert s[10] == s[10..|s| - 12][0];
        } else {
          assert s[10] == s[10..|s| - 8][0];
        }
      }
    }
    if IsGrafanaTimestamp(s) {
      assert IsDigit(s[|s| - 3]);
    }
  }

  /** A timestamp or date is refused by every test after the four date tests. */
  lemma DateShapesExclude(s: string)
    requires IsIsoTimestamp(s) || IsGrafanaTimestamp(s) || IsDateTime(s) || IsDate(s)
    ensures !IsUuid(s) && !IsEmail(s) && !IsUrl(s) && !IsIpv4(s) && !IsTimeOfDay(s)
    ensures !IsInteger(s) && !IsDecimal(s)
  {
    assert s[4] == '-' && IsDigit(s[0]) && IsDigit(s[2]) && IsDigit(s[8]);
    assert !IsUuid(s) by {
      if |s| == 36 {
        assert UuidHyphen(8);
      }
    }
    ClockShapesNoAt(s);
    if IsEmail(s) {
      EmailChars(s);
    }
    if IsUrl(s) {
      UrlChars(s);
    }
    if IsIpv4(s) || IsInteger(s) || IsDecimal(s) {
      NumericShapes(s);
    }
  }

  /** A UUID is refused by every later test. */
  lemma UuidExcludes(s: string)
    requires IsUuid(s)
    ensures !IsEmail(s) && !IsUrl(s) && !IsIpv4(s) && !IsTimeOfDay(s) && !IsInteger(s) && !IsDecimal(s)
  {
    assert UuidHyphen(8) && !UuidHyphen(0) && !UuidHyphen(2);
    assert s[8] == '-';
    if IsEmail(s) {
      EmailChars(s);
    }
    if IsUrl(s) {
      UrlChars(s);
    }
    if IsIpv4(s) || IsInteger(s) || IsDecimal(s) {
      NumericShapes(s);
    }
  }

  /** An address is refused by every later test. */
  lemma EmailExcludes(s: string)
    requires IsEmail(s)
    ensures !IsUrl(s) && !IsIpv4(s) && !IsTimeOfDay(s) && !IsInteger(s) && !IsDecimal(s)
  {
    EmailChars(s);
    if IsUrl(s) {
      UrlChars(s);
    }
    if IsIpv4(s) || IsInteger(s) || IsDecimal(s) {
      NumericShapes(s);
    }
  }

  /** A URL is refused by every later test. */
  lemma UrlExcludes(s: string)
    requires IsUrl(s)
    ensures !IsIpv4(s) && !IsTimeOfDay(s) && !IsInteger(s) && !IsDecimal(s)
  {
    UrlChars(s);
    if IsIpv4(s) || IsInteger(s) || IsDecimal(s) {
      NumericShapes(s);
    }
  }

  /** An IPv4 address, a time of day and an integer are each refused by every later test. */
  lemma NumericExcludes(s: string)
    ensures IsIpv4(s) ==> !IsTimeOfDay(s) && !IsInteger(s) && !IsDecimal(s)
    ensures IsTimeOfDay(s) ==> !IsInteger(s) && !IsDecimal(s)
    ensures IsInteger(s) ==> !IsDecimal(s)
  {
    DotCounts(s);
    if IsTimeOfDay(s) && (IsIpv4(s) || IsInteger(s) || IsDecimal(s)) {
      NumericShapes(s);
    }
  }

  /** A test refuses every string an earlier test accepts. */
  lemma RefusedByLater(s: string, a: Shape, b: Shape)
    requires Accepts(a, s) && Rank(a) < Rank(b)
    ensures !Accepts(b, s)
  {
    match a
    case IsoTimestamp => DateShapesDistinct(s); DateShapesExclude(s);
    case GrafanaTimestamp => DateShapesDistinct(s); DateShapesExclude(s);
    case DateTime => DateShapesDistinct(s); DateShapesExclude(s);
    case DateOnly => DateShapesExclude(s);
    case Uuid => UuidExcludes(s);
    case Email => EmailExcludes(s);
    case Url => UrlExcludes(s);
    case Ipv4 => NumericExcludes(s);
    case TimeOfDay => NumericExcludes(s);
    case Integer => NumericExcludes(s);
    case Decimal =>
  }

  /** No string passes two different tests. */
  lemma AcceptsUnique(s: string, a: Shape, b: Shape)
    requires Accepts(a, s) && Accepts(b, s)
    ensures a == b
  {
    if Rank(a) < Rank(b) {
      RefusedByLater(s, a, b);
    } else if Rank(b) < Rank(a) {
      RefusedByLater(s, b, a);
    }
  }

  /**
   * Whatever test accepts the trimmed example decides the result, wherever
   * it stands in the matcher list: precedence never breaks a tie.
   */
  lemma DetectAccepted(example: string, test: Shape)
    requires Accepts(test, Trim(example))
    ensures DetectPattern(example) == Detected(MatcherFor(test))
  {
    var t := Trim(example);
    var i := Rank(test);
    PrecedenceDistinct();
    forall j | 0 <= j < i ensures !Accepts(Precedence[j], t)
    {
      if Accepts(Precedence[j], t) {
        AcceptsUnique(t, Precedence[j], test);
      }
    }
    FirstAcceptingAt(Precedence, t, i);
  }

  // ---------------------------------------------------------------------------
  // Sample classifications
  // ---------------------------------------------------------------------------

  /** A string with no white space at either end is its own trim. */
  lemma TrimUnpadded(s: string)
    requires |s| > 0 && !IsSpace(s[0]) && !IsSpace(s[|s| - 1])
    ensures Trim(s) == s
  {
    assert LeadingSpaces(s) == 0;
    assert s[0..] == s;
  }

  /** The sample timestamp has the shape of the ISO test. */
  lemma IsoTimestampSampleShape(s: string)
    requires s == "2024-01-15T10:30:00.123Z"
    ensures IsIsoTimestamp(s)
  {
    assert DateAt(s, 0);
    assert ClockAt(s, 11);
    assert FractionSpan(s, 19, 23);
  }

  /** An ISO 8601 timestamp with milliseconds and `Z` is classified as such. */
  lemma DetectIsoTimestampSample(s: string)
    requires s == "2024-01-15T10:30:00.123Z"
    ensures DetectPattern(s).typeName == "iso_timestamp"
  {
    IsoTimestampSampleShape(s);
    TrimUnpadded(s);
    DetectAccepted(s, IsoTimestamp);
  }

  /** `"42"` is an integer, and so not a decimal. */
  lemma DetectIntegerSample(s: string)
    requires s == "42"
    ensures DetectPattern(s).typeName == "integer"
  {
    TrimUnpadded(s);
    assert s[SignLength(s)..] == s;
    assert IsInteger(s);
    DetectAccepted(s, Integer);
  }

  /** The sample decimal has the shape of the decimal test. */
  lemma DecimalSampleShape(s: string)
    requires s == "3.14"
    ensures IsDecimal(s)
  {
    assert SignLength(s) == 0;
    assert s[0..] == s == "3" + "." + "14";
    SplitNoSep("3", '.');
    SplitNoSep("14", '.');
    SplitConcat("3", "14", '.');
  }

  /** `"3.14"` is a decimal. */
  lemma DetectDecimalSample(s: string)
    requires s == "3.14"
    ensures DetectPattern(s).typeName == "decimal"
  {
    DecimalSampleShape(s);
    TrimUnpadded(s);
    DetectAccepted(s, Decimal);
  }

  /** `"192.168.1.1"` is an IPv4 address. */
  lemma DetectIpv4Sample(s: string)
    requires s == "192.168.1.1"
    ensures DetectPattern(s).typeName == "ipv4"
  {
    TrimUnpadded(s);
    assert s == "192" + "." + "168" + "." + "1" + "." + "1";
    Ipv4Complete("192", "168", "1", "1");
    DetectAccepted(s, Ipv4);
  }
}
