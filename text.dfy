/**
 * String primitives the source takes from the JavaScript runtime, stated on
 * `string == seq<char>`: `split` and `join` with a one-character separator,
 * `trim`, ASCII case mapping, `includes`, the default `sort` order and the
 * decimal rendering of integers in template literals.
 */
module Text {
  import opened Seqs

  // ---------------------------------------------------------------------------
  // split / join
  // ---------------------------------------------------------------------------

  /**
   * `s.split(sep)` for a one-character separator: the maximal separator-free
   * pieces between separators, so there is always at least one piece
   * (`"".split(sep)` is `[""]`).
   */
  function Split(s: string, sep: char): (r: seq<string>)
    ensures |r| == Count(s, sep) + 1
    ensures forall i :: 0 <= i < |r| ==> sep !in r[i]
  {
    if |s| == 0 then [""]
    else
      var rest := Split(s[1..], sep);
      assert s == [s[0]] + s[1..];
      if s[0] == sep then [""] + rest
      else [[s[0]] + rest[0]] + rest[1..]
  }

  /** `parts.join(sep)`; the empty list joins to `""`. */
  function Join(parts: seq<string>, sep: char): string
  {
    if |parts| == 0 then ""
    else if |parts| == 1 then parts[0]
    else parts[0] + [sep] + Join(parts[1..], sep)
  }

  /** Joining the pieces of a split gives back the text. */
  lemma {:induction false} JoinSplit(s: string, sep: char)
    ensures Join(Split(s, sep), sep) == s
  {
    if |s| > 0 {
      var rest := Split(s[1..], sep);
      JoinSplit(s[1..], sep);
      if s[0] == sep {
        assert s == [sep] + s[1..];
      } else {
        assert s == [s[0]] + s[1..];
        if |rest| > 1 {
          assert rest == [rest[0]] + rest[1..];
        }
      }
    }
  }

  /** A text containing no separator splits into itself. */
  lemma SplitNoSep(s: string, sep: char)
    requires sep !in s
    ensures Split(s, sep) == [s]
  {
    var r := Split(s, sep);
    assert Count(s, sep) == 0 by {
      CountMultiset(s, sep);
      assert sep !in multiset(s);
    }
    JoinSplit(s, sep);
  }

  /** Splitting `a + sep + b` splits `a` and `b` independently. */
  lemma {:induction false} SplitConcat(a: string, b: string, sep: char)
    ensures Split(a + [sep] + b, sep) == Split(a, sep) + Split(b, sep)
  {
    var s := a + [sep] + b;
    if |a| == 0 {
      assert s == [sep] + b;
      assert s[1..] == b;
    } else {
      assert s[1..] == a[1..] + [sep] + b;
      SplitConcat(a[1..], b, sep);
    }
  }

  /** Splitting a join of separator-free parts gives back the parts. */
  lemma {:induction false} SplitJoin(parts: seq<string>, sep: char)
    requires |parts| >= 1
    requires forall i :: 0 <= i < |parts| ==> sep !in parts[i]
    ensures Split(Join(parts, sep), sep) == parts
  {
    SplitNoSep(parts[0], sep);
    if |parts| > 1 {
      SplitJoin(parts[1..], sep);
      SplitConcat(parts[0], Join(parts[1..], sep), sep);
    }
  }

  // ---------------------------------------------------------------------------
  // trim
  // ---------------------------------------------------------------------------

  /**
   * The characters `String.prototype.trim` removes and `\s` matches:
   * ECMAScript WhiteSpace and LineTerminator code points.
   */
  predicate IsSpace(c: char)
  {
    c == '\t' || c == '\n' || c == '\U{000B}' || c == '\U{000C}' || c == '\r' || c == ' '
    || c == '\U{00A0}' || c == '\U{1680}' || ('\U{2000}' <= c <= '\U{200A}')
    || c == '\U{2028}' || c == '\U{2029}' || c == '\U{202F}' || c == '\U{205F}'
    || c == '\U{3000}' || c == '\U{FEFF}'
  }

  /** The number of white-space characters at the start of `s`. */
  function LeadingSpaces(s: string): (k: nat)
    ensures k <= |s|
    ensures forall i :: 0 <= i < k ==> IsSpace(s[i])
    ensures k < |s| ==> !IsSpace(s[k])
  {
    if |s| > 0 && IsSpace(s[0]) then 1 + LeadingSpaces(s[1..]) else 0
  }

  /** The number of white-space characters at the end of `s`. */
  function TrailingSpaces(s: string): (k: nat)
    ensures k <= |s|
    ensures forall i :: |s| - k <= i < |s| ==> IsSpace(s[i])
    ensures k < |s| ==> !IsSpace(s[|s| - k - 1])
  {
    if |s| > 0 && IsSpace(s[|s| - 1]) then 1 + TrailingSpaces(s[..|s| - 1]) else 0
  }

  /** `s.trim()`: the text with leading and trailing white space removed. */
  function Trim(s: string): (r: string)
    ensures |r| > 0 ==> !IsSpace(r[0]) && !IsSpace(r[|r| - 1])
    ensures forall i :: 0 <= i < |r| ==> r[i] in s
    ensures r == "" <==> forall i :: 0 <= i < |s| ==> IsSpace(s[i])
  {
    var a := LeadingSpaces(s);
    var t := s[a..];
    var r := t[..|t| - TrailingSpaces(t)];
    assert forall i :: 0 <= i < |r| ==> r[i] == s[a + i];
    r
  }

  /** A character that is not in `s` is not in `Trim(s)`. */
  lemma TrimKeepsOut(s: string, c: char)
    requires c !in s
    ensures c !in Trim(s)
  {
  }

  /** Trimming is idempotent. */
  lemma TrimIdempotent(s: string)
    ensures Trim(Trim(s)) == Trim(s)
  {
    var r := Trim(s);
    if |r| > 0 {
      assert LeadingSpaces(r) == 0;
      assert TrailingSpaces(r) == 0;
      assert r[0..] == r;
    }
  }

  /** A line is blank when it trims to `""`. */
  predicate IsBlank(s: string)
  {
    Trim(s) == ""
  }

  // ---------------------------------------------------------------------------
  // ASCII case mapping
  // ---------------------------------------------------------------------------

  predicate IsLower(c: char) { 'a' <= c <= 'z' }

  predicate IsUpper(c: char) { 'A' <= c <= 'Z' }

  function UpperChar(c: char): char
  {
    if IsLower(c) then (c as int - 32) as char else c
  }

  function LowerChar(c: char): char
  {
    if IsUpper(c) then (c as int + 32) as char else c
  }

  /** `s.toUpperCase()` restricted to ASCII letters. */
  function ToUpper(s: string): (r: string)
    ensures |r| == |s|
    ensures forall i :: 0 <= i < |r| ==> !IsLower(r[i])
    ensures forall i :: 0 <= i < |s| ==> LowerChar(r[i]) == LowerChar(s[i])
  {
    seq(|s|, i requires 0 <= i < |s| => UpperChar(s[i]))
  }

  /** `s.toLowerCase()` restricted to ASCII letters. */
  function ToLower(s: string): (r: string)
    ensures |r| == |s|
    ensures forall i :: 0 <= i < |r| ==> !IsUpper(r[i])
    ensures forall i :: 0 <= i < |s| ==> UpperChar(r[i]) == UpperChar(s[i])
  {
    seq(|s|, i requires 0 <= i < |s| => LowerChar(s[i]))
  }

  // ---------------------------------------------------------------------------
  // includes
  // ---------------------------------------------------------------------------

  /** `n` occurs in `h` starting at offset `i`. */
  predicate OccursAt(h: string, n: string, i: int)
  {
    0 <= i <= |h| - |n| && h[i..i + |n|] == n
  }

  /** `h.includes(n)`: `n` occurs in `h` at some offset. */
  function Contains(h: string, n: string): (b: bool)
    ensures b <==> exists i :: OccursAt(h, n, i)
    decreases |h|
  {
    if |n| <= |h| && h[..|n|] == n then
      assert OccursAt(h, n, 0);
      true
    else if |h| == 0 then false
    else
      var b := Contains(h[1..], n);
      assert b ==> exists i :: OccursAt(h, n, i) by {
        if b {
          var j :| OccursAt(h[1..], n, j);
          assert OccursAt(h, n, j + 1);
        }
      }
      assert (exists i :: OccursAt(h, n, i)) ==> b by {
        if exists i :: OccursAt(h, n, i) {
          var i :| OccursAt(h, n, i);
          assert i > 0;
          assert OccursAt(h[1..], n, i - 1);
        }
      }
      b
  }

  /** An occurrence inside an occurrence is an occurrence. */
  lemma ContainsTrans(h: string, m: string, n: string)
    requires Contains(h, m) && Contains(m, n)
    ensures Contains(h, n)
  {
    var i :| OccursAt(h, m, i);
    var j :| OccursAt(m, n, j);
    var inner, outer := h[i + j..i + j + |n|], m[j..j + |n|];
    assert inner == outer by {
      assert h[i..i + |m|] == m;
      forall k | 0 <= k < |n| ensures inner[k] == outer[k] {
        assert h[i..i + |m|][j + k] == h[i + j + k];
      }
    }
    assert OccursAt(h, n, i + j);
  }

  /** Lower-casing both sides keeps an occurrence. */
  lemma ContainsLower(h: string, n: string)
    requires Contains(h, n)
    ensures Contains(ToLower(h), ToLower(n))
  {
    var i :| OccursAt(h, n, i);
    var lowered, needle := ToLower(h)[i..i + |n|], ToLower(n);
    assert lowered == needle by {
      forall k | 0 <= k < |n| ensures lowered[k] == needle[k] {
        assert h[i..i + |n|][k] == h[i + k] == n[k];
        assert lowered[k] == ToLower(h)[i + k] == LowerChar(h[i + k]);
        assert needle[k] == LowerChar(n[k]);
      }
    }
    assert OccursAt(ToLower(h), ToLower(n), i);
  }

  // ---------------------------------------------------------------------------
  // Default sort order: UTF-16 code unit by code unit
  // ---------------------------------------------------------------------------

  /**
   * The UTF-16 code units of one character: itself below U+10000, otherwise
   * its high and low surrogates.
   */
  function CharUnits(c: char): (u: seq<int>)
    ensures 1 <= |u| <= 2
    ensures forall k :: 0 <= k < |u| ==> 0 <= u[k] < 0x1_0000
    ensures |u| == 1 <==> (c as int) < 0x1_0000
  {
    if (c as int) < 0x1_0000 then [c as int]
    else
      var v := c as int - 0x1_0000;
      [0xD800 + v / 0x400, 0xDC00 + v % 0x400]
  }

  /** The UTF-16 encoding of a string, as JavaScript stores it. */
  function CodeUnits(s: string): (u: seq<int>)
    ensures |s| <= |u| <= 2 * |s|
  {
    if |s| == 0 then [] else CharUnits(s[0]) + CodeUnits(s[1..])
  }

  /** Lexicographic order on code-unit sequences; a prefix sorts first. */
  predicate UnitsLe(a: seq<int>, b: seq<int>)
  {
    |a| == 0 || (|b| > 0 && (a[0] < b[0] || (a[0] == b[0] && UnitsLe(a[1..], b[1..]))))
  }

  /**
   * `a` sorts no later than `b` under the default `Array.prototype.sort`
   * order, which compares the UTF-16 code units of the two strings.
   */
  predicate StrLe(a: string, b: string)
  {
    UnitsLe(CodeUnits(a), CodeUnits(b))
  }

  lemma {:induction false} UnitsLeTotal(a: seq<int>, b: seq<int>)
    ensures UnitsLe(a, b) || UnitsLe(b, a)
  {
    if |a| > 0 && |b| > 0 && a[0] == b[0] {
      UnitsLeTotal(a[1..], b[1..]);
    }
  }

  lemma {:induction false} UnitsLeTrans(a: seq<int>, b: seq<int>, c: seq<int>)
    requires UnitsLe(a, b) && UnitsLe(b, c)
    ensures UnitsLe(a, c)
  {
    if |a| > 0 && a[0] == b[0] && b[0] == c[0] {
      UnitsLeTrans(a[1..], b[1..], c[1..]);
    }
  }

  lemma StrLeTotal(a: string, b: string)
    ensures StrLe(a, b) || StrLe(b, a)
  {
    UnitsLeTotal(CodeUnits(a), CodeUnits(b));
  }

  lemma StrLeTrans(a: string, b: string, c: string)
    requires StrLe(a, b) && StrLe(b, c)
    ensures StrLe(a, c)
  {
    UnitsLeTrans(CodeUnits(a), CodeUnits(b), CodeUnits(c));
  }

  /**
   * The order is by code unit, not by code point: a character above U+FFFF
   * (here U+1F600, high surrogate 0xD83D) sorts before U+FF21.
   */
  lemma SurrogatesSortFirst(high: string, bmp: string)
    requires high == [0x1F600 as char] && bmp == [0xFF21 as char]
    ensures StrLe(high, bmp) && !StrLe(bmp, high)
  {
    assert CodeUnits(high) == [0xD83D, 0xDE00];
    assert CodeUnits(bmp) == [0xFF21];
  }

  predicate StrSorted(s: seq<string>)
  {
    forall i, j :: 0 <= i < j < |s| ==> StrLe(s[i], s[j])
  }

  function InsertStr(x: string, s: seq<string>): (r: seq<string>)
    ensures |r| == |s| + 1
    ensures multiset(r) == multiset(s) + multiset{x}
  {
    if |s| == 0 || StrLe(x, s[0]) then [x] + s
    else
      assert s == [s[0]] + s[1..];
      [s[0]] + InsertStr(x, s[1..])
  }

  lemma {:induction false} InsertStrSorted(x: string, s: seq<string>)
    requires StrSorted(s)
    ensures StrSorted(InsertStr(x, s))
  {
    if |s| > 0 && StrLe(x, s[0]) {
      forall j | 0 < j < |s| ensures StrLe(x, s[j]) {
        StrLeTrans(x, s[0], s[j]);
      }
    } else if |s| > 0 {
      var t := InsertStr(x, s[1..]);
      InsertStrSorted(x, s[1..]);
      StrLeTotal(x, s[0]);
      var r := [s[0]] + t;
      forall j | 0 < j < |r| ensures StrLe(r[0], r[j]) {
        assert r[j] in multiset(t);
        if r[j] != x {
          assert r[j] in multiset(s[1..]);
          var m :| 0 <= m < |s[1..]| && s[1..][m] == r[j];
          assert s[m + 1] == r[j];
        }
      }
      assert forall i, j :: 0 < i < j < |r| ==> r[i] == t[i - 1] && r[j] == t[j - 1];
    }
  }

  /** `lines.sort()`: a sorted permutation of `lines`. */
  function SortStrings(lines: seq<string>): (r: seq<string>)
    ensures StrSorted(r)
    ensures multiset(r) == multiset(lines)
    ensures |r| == |lines|
  {
    if |lines| == 0 then []
    else
      var t := SortStrings(lines[1..]);
      InsertStrSorted(lines[0], t);
      assert lines == [lines[0]] + lines[1..];
      InsertStr(lines[0], t)
  }

  /** Sorting an already sorted list leaves it as it is. */
  lemma {:induction false} SortSorted(lines: seq<string>)
    requires StrSorted(lines)
    ensures SortStrings(lines) == lines
  {
    if |lines| > 0 {
      SortSorted(lines[1..]);
    }
  }

  // ---------------------------------------------------------------------------
  // Decimal digits and integer rendering (`${n}` for an integer n)
  // ---------------------------------------------------------------------------

  predicate IsDigit(c: char) { '0' <= c <= '9' }

  predicate AllDigits(s: string)
  {
    forall i :: 0 <= i < |s| ==> IsDigit(s[i])
  }

  /** The value of a string of decimal digits. */
  function DigitsValue(s: string): nat
    requires AllDigits(s)
  {
    if |s| == 0 then 0
    else DigitsValue(s[..|s| - 1]) * 10 + (s[|s| - 1] as int - '0' as int)
  }

  function DigitChar(d: nat): (c: char)
    requires d < 10
    ensures IsDigit(c) && c as int - '0' as int == d
  {
    ('0' as int + d) as char
  }

  /** The decimal rendering of a natural number, without leading zeros. */
  function NatToString(n: nat): (s: string)
    ensures |s| >= 1 && AllDigits(s)
    ensures DigitsValue(s) == n
    ensures s[0] == '0' ==> s == "0"
  {
    if n < 10 then [DigitChar(n)]
    else
      var p := NatToString(n / 10);
      var s := p + [DigitChar(n % 10)];
      assert s[..|s| - 1] == p;
      s
  }

  /** `${n}` for an integer `n`: an optional minus sign, then the digits of `|n|`. */
  function IntToString(n: int): (s: string)
    ensures |s| >= 1
    ensures '\n' !in s
    ensures (s[0] == '-') == (n < 0)
    ensures n >= 0 ==> AllDigits(s) && DigitsValue(s) == n
    ensures n < 0 ==> AllDigits(s[1..]) && DigitsValue(s[1..]) == -n
  {
    if n >= 0 then NatToString(n)
    else
      var s := "-" + NatToString(-n);
      assert s[1..] == NatToString(-n);
      s
  }
}
