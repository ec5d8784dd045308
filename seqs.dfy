/**
 * Generic sequence operations the source takes from the JavaScript runtime:
 * `Array.prototype.filter`, `reverse`, and the stable `sort` with a numeric
 * comparator (`(a, b) => key(a) - key(b)`).
 */
module Seqs {

  /** `s.filter(p)`: the elements of `s` that satisfy `p`, in their original order. */
  function Filter<T(!new)>(s: seq<T>, p: T -> bool): (r: seq<T>)
    ensures |r| <= |s|
    ensures forall i :: 0 <= i < |r| ==> p(r[i])
    ensures forall x :: x in r <==> x in s && p(x)
  {
    if |s| == 0 then []
    else
      assert s == [s[0]] + s[1..];
      (if p(s[0]) then [s[0]] else []) + Filter(s[1..], p)
  }

  /** Filtering keeps every element that satisfies `p` as often as it occurs, and no other. */
  lemma {:induction false} FilterMultiset<T(!new)>(s: seq<T>, p: T -> bool)
    ensures forall x :: multiset(Filter(s, p))[x] == if p(x) then multiset(s)[x] else 0
  {
    if |s| > 0 {
      assert s == [s[0]] + s[1..];
      FilterMultiset(s[1..], p);
    }
  }

  /** Filtering distributes over concatenation: relative order is kept. */
  lemma {:induction false} FilterAppend<T(!new)>(a: seq<T>, b: seq<T>, p: T -> bool)
    ensures Filter(a + b, p) == Filter(a, p) + Filter(b, p)
  {
    if |a| == 0 {
      assert a + b == b;
    } else {
      assert (a + b)[0] == a[0];
      assert (a + b)[1..] == a[1..] + b;
      FilterAppend(a[1..], b, p);
    }
  }

  /** Filtering keeps everything exactly when every element satisfies `p`. */
  lemma {:induction false} FilterAll<T(!new)>(s: seq<T>, p: T -> bool)
    requires forall i :: 0 <= i < |s| ==> p(s[i])
    ensures Filter(s, p) == s
  {
    if |s| > 0 {
      FilterAll(s[1..], p);
    }
  }

  /** `s.reverse()` on a copy. */
  function Reverse<T>(s: seq<T>): (r: seq<T>)
    ensures |r| == |s|
    ensures forall i :: 0 <= i < |s| ==> r[i] == s[|s| - 1 - i]
  {
    if |s| == 0 then [] else Reverse(s[1..]) + [s[0]]
  }

  /** Reversing twice gives back the original order. */
  lemma ReverseReverse<T>(s: seq<T>)
    ensures Reverse(Reverse(s)) == s
  {
  }

  /** Occurrences of `x` in `s`. */
  function Count<T(==)>(s: seq<T>, x: T): (n: nat)
    ensures n <= |s|
  {
    if |s| == 0 then 0
    else (if s[0] == x then 1 else 0) + Count(s[1..], x)
  }

  /** `Count` is the multiplicity of `x` in `s`. */
  lemma {:induction false} CountMultiset<T>(s: seq<T>, x: T)
    ensures Count(s, x) == multiset(s)[x]
  {
    if |s| > 0 {
      assert s == [s[0]] + s[1..];
      CountMultiset(s[1..], x);
    }
  }

  // ---------------------------------------------------------------------------
  // Stable sort by an integer key (insertion sort; Array.prototype.sort is
  // required to be stable).
  // ---------------------------------------------------------------------------

  predicate SortedBy<T>(s: seq<T>, key: T -> int)
  {
    forall i, j :: 0 <= i < j < |s| ==> key(s[i]) <= key(s[j])
  }

  /** The elements of `s` whose key is `k`, in order: stability compares these. */
  function KeyClass<T>(s: seq<T>, key: T -> int, k: int): (c: seq<T>)
    ensures forall i :: 0 <= i < |c| ==> key(c[i]) == k && c[i] in s
  {
    if |s| == 0 then []
    else (if key(s[0]) == k then [s[0]] else []) + KeyClass(s[1..], key, k)
  }

  lemma {:induction false} KeyClassAppend<T>(a: seq<T>, b: seq<T>, key: T -> int, k: int)
    ensures KeyClass(a + b, key, k) == KeyClass(a, key, k) + KeyClass(b, key, k)
  {
    if |a| == 0 {
      assert a + b == b;
    } else {
      assert (a + b)[0] == a[0];
      assert (a + b)[1..] == a[1..] + b;
      KeyClassAppend(a[1..], b, key, k);
    }
  }

  lemma {:induction false} KeyClassMember<T>(s: seq<T>, key: T -> int, i: nat)
    requires i < |s|
    ensures s[i] in KeyClass(s, key, key(s[i]))
  {
    if i > 0 {
      KeyClassMember(s[1..], key, i - 1);
    }
  }

  /** Inserts `x` in front of every element whose key is not smaller. */
  function InsertBy<T>(x: T, s: seq<T>, key: T -> int): (r: seq<T>)
    ensures |r| == |s| + 1
    ensures multiset(r) == multiset(s) + multiset{x}
  {
    if |s| == 0 || key(x) <= key(s[0]) then [x] + s
    else
      assert s == [s[0]] + s[1..];
      [s[0]] + InsertBy(x, s[1..], key)
  }

  lemma {:induction false} InsertBySorted<T>(x: T, s: seq<T>, key: T -> int)
    requires SortedBy(s, key)
    ensures SortedBy(InsertBy(x, s, key), key)
  {
    if |s| > 0 && key(x) > key(s[0]) {
      var t := InsertBy(x, s[1..], key);
      InsertBySorted(x, s[1..], key);
      var r := [s[0]] + t;
      forall j | 0 < j < |r| ensures key(r[0]) <= key(r[j]) {
        assert r[j] in multiset(t);
        if r[j] != x {
          assert r[j] in multiset(s[1..]);
          var m :| 0 <= m < |s[1..]| && s[1..][m] == r[j];
          assert s[m + 1] == r[j];
        }
      }
      assert forall i, j :: 0 < i < j < |r| ==> r[i] == t[i - 1] && r[j] == t[j - 1];
    }
  }

  lemma {:induction false} InsertByClasses<T>(x: T, s: seq<T>, key: T -> int, k: int)
    ensures KeyClass(InsertBy(x, s, key), key, k) == KeyClass([x] + s, key, k)
  {
    if |s| > 0 && key(x) > key(s[0]) {
      var t := InsertBy(x, s[1..], key);
      var cx := KeyClass([x], key, k);
      var c0 := KeyClass([s[0]], key, k);
      assert cx == (if key(x) == k then [x] else []) by {
        assert [x][1..] == [];
        assert KeyClass([x][1..], key, k) == [];
      }
      assert c0 == (if key(s[0]) == k then [s[0]] else []) by {
        assert [s[0]][1..] == [];
        assert KeyClass([s[0]][1..], key, k) == [];
      }
      calc {
        KeyClass(InsertBy(x, s, key), key, k);
        KeyClass([s[0]] + t, key, k);
        { KeyClassAppend([s[0]], t, key, k); }
        c0 + KeyClass(t, key, k);
        { InsertByClasses(x, s[1..], key, k); }
        c0 + KeyClass([x] + s[1..], key, k);
        { KeyClassAppend([x], s[1..], key, k); }
        c0 + (cx + KeyClass(s[1..], key, k));
        cx + (c0 + KeyClass(s[1..], key, k));
        { KeyClassAppend([s[0]], s[1..], key, k); assert [s[0]] + s[1..] == s; }
        cx + KeyClass(s, key, k);
        { KeyClassAppend([x], s, key, k); }
        KeyClass([x] + s, key, k);
      }
    }
  }

  /** A stable sort of `s` by ascending `key`. */
  function SortBy<T>(s: seq<T>, key: T -> int): (r: seq<T>)
    ensures SortedBy(r, key)
    ensures multiset(r) == multiset(s)
    ensures |r| == |s|
    ensures forall k :: KeyClass(r, key, k) == KeyClass(s, key, k)
  {
    if |s| == 0 then []
    else
      var t := SortBy(s[1..], key);
      InsertBySorted(s[0], t, key);
      assert s == [s[0]] + s[1..];
      assert forall k :: KeyClass(InsertBy(s[0], t, key), key, k) == KeyClass(s, key, k) by {
        forall k ensures KeyClass(InsertBy(s[0], t, key), key, k) == KeyClass(s, key, k) {
          InsertByClasses(s[0], t, key, k);
          KeyClassAppend([s[0]], t, key, k);
          KeyClassAppend([s[0]], s[1..], key, k);
        }
      }
      InsertBy(s[0], t, key)
  }

  /**
   * A sorted sequence is determined by its key classes: two sorted sequences
   * that agree on the elements of every key, in order, are equal.
   */
  lemma {:induction false} SortedUnique<T>(r1: seq<T>, r2: seq<T>, key: T -> int)
    requires SortedBy(r1, key) && SortedBy(r2, key)
    requires forall k :: KeyClass(r1, key, k) == KeyClass(r2, key, k)
    ensures r1 == r2
    decreases |r1| + |r2|
  {
    if |r1| == 0 && |r2| == 0 {
    } else if |r1| == 0 || |r2| == 0 {
      // the nonempty one has a nonempty class for the key of its head
      var r := if |r1| == 0 then r2 else r1;
      KeyClassMember(r, key, 0);
      assert false;
    } else {
      var k1, k2 := key(r1[0]), key(r2[0]);
      KeyClassMember(r1, key, 0);
      KeyClassMember(r2, key, 0);
      SortedHeadBelow(r2, key, k1);
      SortedHeadBelow(r1, key, k2);
      assert k1 == k2;
      assert r1[0] == r2[0] by {
        assert KeyClass(r1, key, k1)[0] == r1[0];
        assert KeyClass(r2, key, k1)[0] == r2[0];
      }
      forall k ensures KeyClass(r1[1..], key, k) == KeyClass(r2[1..], key, k) {
        var h := if k == k1 then [r1[0]] else [];
        assert KeyClass(r1, key, k) == h + KeyClass(r1[1..], key, k);
        assert KeyClass(r2, key, k) == h + KeyClass(r2[1..], key, k);
        assert KeyClass(r1[1..], key, k) == KeyClass(r1, key, k)[|h|..];
        assert KeyClass(r2[1..], key, k) == KeyClass(r2, key, k)[|h|..];
      }
      SortedUnique(r1[1..], r2[1..], key);
    }
  }

  lemma SortedHeadBelow<T>(s: seq<T>, key: T -> int, k: int)
    requires SortedBy(s, key) && |s| > 0
    requires |KeyClass(s, key, k)| > 0
    ensures key(s[0]) <= k
  {
    var c := KeyClass(s, key, k);
    assert c[0] in s;
    var m :| 0 <= m < |s| && s[m] == c[0];
  }

  // ---------------------------------------------------------------------------
  // Distinct elements and subsequences
  // ---------------------------------------------------------------------------

  /** No element occurs twice. */
  predicate Distinct<T(==)>(s: seq<T>)
  {
    forall i, j :: 0 <= i < j < |s| ==> s[i] != s[j]
  }

  /** A sequence has distinct elements exactly when no element has multiplicity above one. */
  lemma {:induction false} DistinctMultiset<T>(s: seq<T>)
    ensures Distinct(s) <==> forall x :: multiset(s)[x] <= 1
  {
    if |s| > 0 {
      DistinctMultiset(s[1..]);
      assert s == [s[0]] + s[1..];
      if Distinct(s) {
        assert s[0] !in s[1..];
      }
      if forall x :: multiset(s)[x] <= 1 {
        assert multiset(s) == multiset{s[0]} + multiset(s[1..]);
        assert multiset(s)[s[0]] <= 1;
        assert multiset(s[1..])[s[0]] == 0;
        forall x ensures multiset(s[1..])[x] <= 1 {
          assert multiset(s)[x] <= 1;
        }
        forall i, j | 0 <= i < j < |s| ensures s[i] != s[j] {
          if i == 0 {
            assert s[j] == s[1..][j - 1];
            assert s[j] in multiset(s[1..]);
          } else {
            assert s[1..][i - 1] == s[i] && s[1..][j - 1] == s[j];
          }
        }
      }
    }
  }

  /** Permuting a sequence keeps its elements distinct. */
  lemma DistinctPermutation<T>(s: seq<T>, t: seq<T>)
    requires multiset(s) == multiset(t) && Distinct(s)
    ensures Distinct(t)
  {
    DistinctMultiset(s);
    DistinctMultiset(t);
  }

  /** `a` is obtained from `b` by deleting elements: it keeps their order. */
  predicate IsSubsequence<T(==)>(a: seq<T>, b: seq<T>)
    decreases |b|
  {
    |a| == 0 || (|b| > 0 && if a[0] == b[0] then IsSubsequence(a[1..], b[1..]) else IsSubsequence(a, b[1..]))
  }

  lemma {:induction false} SubsequenceSelf<T>(s: seq<T>)
    ensures IsSubsequence(s, s)
  {
    if |s| > 0 {
      SubsequenceSelf(s[1..]);
    }
  }

  lemma {:induction false} SubsequenceMembers<T>(a: seq<T>, b: seq<T>)
    requires IsSubsequence(a, b)
    ensures forall x :: x in a ==> x in b
    decreases |b|
  {
    if |a| > 0 {
      if a[0] == b[0] {
        SubsequenceMembers(a[1..], b[1..]);
        assert a == [a[0]] + a[1..];
      } else {
        SubsequenceMembers(a, b[1..]);
      }
    }
  }

  lemma {:induction false} SubsequencePrefix<T>(a: seq<T>, b: seq<T>, n: nat)
    requires IsSubsequence(a, b) && n <= |a|
    ensures IsSubsequence(a[..n], b)
    decreases |b|
  {
    if n > 0 {
      if a[0] == b[0] {
        SubsequencePrefix(a[1..], b[1..], n - 1);
        assert a[..n][1..] == a[1..][..n - 1];
      } else {
        SubsequencePrefix(a, b[1..], n);
      }
    }
  }

  lemma {:induction false} SubsequenceDrop<T>(a: seq<T>, b: seq<T>)
    requires |b| > 0 && IsSubsequence(a, b[1..])
    ensures IsSubsequence(a, b)
    decreases |b|, 0
  {
    if |a| > 0 && a[0] == b[0] {
      SubsequenceTail(a, b[1..]);
    }
  }

  lemma {:induction false} SubsequenceTail<T>(a: seq<T>, b: seq<T>)
    requires |a| > 0 && IsSubsequence(a, b)
    ensures IsSubsequence(a[1..], b)
    decreases |b|, 1
  {
    if a[0] == b[0] {
      SubsequenceDrop(a[1..], b);
    } else {
      SubsequenceTail(a, b[1..]);
      SubsequenceDrop(a[1..], b);
    }
  }

  /** Filtering deletes elements and keeps the order of the rest. */
  lemma {:induction false} FilterSubsequence<T(!new)>(s: seq<T>, p: T -> bool)
    ensures IsSubsequence(Filter(s, p), s)
  {
    if |s| > 0 {
      FilterSubsequence(s[1..], p);
      if p(s[0]) {
        assert Filter(s, p)[1..] == Filter(s[1..], p);
      } else {
        assert Filter(s, p) == Filter(s[1..], p);
        SubsequenceDrop(Filter(s, p), s);
      }
    }
  }
}
