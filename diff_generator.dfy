/**
 * The line-by-line diff of src/lib/services/diffGenerator.ts: the simple
 * index-wise comparison `generateSimpleDiff` and the counting `getDiffStats`.
 */
module DiffGenerator {
  import opened Seqs
  import opened Text

  datatype DiffType = Added | Removed | Unchanged

  /** One line of one side of the diff, numbered from 1. */
  datatype DiffLine = DiffLine(kind: DiffType, content: string, lineNumber: nat)

  datatype DiffResult = DiffResult(original: seq<DiffLine>, transformed: seq<DiffLine>)

  /** The statistics record; its `unchanged` count is `unchangedCount` here (`unchanged` is a Dafny keyword). */
  datatype DiffStats = DiffStats(
    originalLines: nat,
    transformedLines: nat,
    added: nat,
    removed: nat,
    unchangedCount: nat)

  // ---------------------------------------------------------------------------
  // generateSimpleDiff
  // ---------------------------------------------------------------------------

  /** The mark of original line `i`: kept when the transformed text has the same line there. */
  function OriginalKind(o: seq<string>, t: seq<string>, i: nat): DiffType
    requires i < |o|
  {
    if i < |t| && o[i] == t[i] then Unchanged else Removed
  }

  /** The mark of transformed line `i`: kept when the original text has the same line there. */
  function TransformedKind(o: seq<string>, t: seq<string>, i: nat): DiffType
    requires i < |t|
  {
    if i < |o| && o[i] == t[i] then Unchanged else Added
  }

  /** The original side: every original line, numbered from 1, marked by `OriginalKind`. */
  function OriginalSide(o: seq<string>, t: seq<string>): (r: seq<DiffLine>)
    ensures |r| == |o|
  {
    seq(|o|, i requires 0 <= i < |o| => DiffLine(OriginalKind(o, t, i), o[i], i + 1))
  }

  /** The transformed side: every transformed line, numbered from 1, marked by `TransformedKind`. */
  function TransformedSide(o: seq<string>, t: seq<string>): (r: seq<DiffLine>)
    ensures |r| == |t|
  {
    seq(|t|, i requires 0 <= i < |t| => DiffLine(TransformedKind(o, t, i), t[i], i + 1))
  }

  /** What `generateSimpleDiff` returns, line by line. */
  function SimpleDiff(original: string, transformed: string): DiffResult
  {
    var o, t := Split(original, '\n'), Split(transformed, '\n');
    DiffResult(OriginalSide(o, t), TransformedSide(o, t))
  }

  /** `generateSimpleDiff`: the two texts split into lines, then compared line by line. */
  method GenerateSimpleDiff(original: string, transformed: string) returns (r: DiffResult)
    ensures r == SimpleDiff(original, transformed)
  {
    var o, t := Split(original, '\n'), Split(transformed, '\n');
    var left, right := MarkChanges(o, t);
    r := DiffResult(left, right);
  }

  /**
   * The body of `generateSimpleDiff` after the split: both sides start all
   * `unchanged`, then one pass over the longer line list marks, in place, the
   * lines that differ.
   */
  method MarkChanges(o: seq<string>, t: seq<string>) returns (left: seq<DiffLine>, right: seq<DiffLine>)
    ensures left == OriginalSide(o, t) && right == TransformedSide(o, t)
  {
    var originalResult := new DiffLine[|o|](i requires 0 <= i < |o| => DiffLine(Unchanged, o[i], i + 1));
    var transformedResult := new DiffLine[|t|](i requires 0 <= i < |t| => DiffLine(Unchanged, t[i], i + 1));
    var maxLen := if |o| < |t| then |t| else |o|;
    for i := 0 to maxLen
      invariant forall k :: 0 <= k < i && k < |o| ==> originalResult[k] == OriginalSide(o, t)[k]
      invariant forall k :: i <= k < |o| ==> originalResult[k] == DiffLine(Unchanged, o[k], k + 1)
      invariant forall k :: 0 <= k < i && k < |t| ==> transformedResult[k] == TransformedSide(o, t)[k]
      invariant forall k :: i <= k < |t| ==> transformedResult[k] == DiffLine(Unchanged, t[k], k + 1)
    {
      if i >= |o| {
        transformedResult[i] := transformedResult[i].(kind := Added);
      } else if i >= |t| {
        originalResult[i] := originalResult[i].(kind := Removed);
      } else if o[i] != t[i] {
        originalResult[i] := originalResult[i].(kind := Removed);
        transformedResult[i] := transformedResult[i].(kind := Added);
      }
    }
    left, right := originalResult[..], transformedResult[..];
  }

  // ---------------------------------------------------------------------------
  // getDiffStats
  // ---------------------------------------------------------------------------

  /** The number of lines marked `kind`: `lines.filter(l => l.type === kind).length`. */
  function CountKind(lines: seq<DiffLine>, kind: DiffType): (n: nat)
    ensures n <= |lines|
  {
    if |lines| == 0 then 0
    else (if lines[0].kind == kind then 1 else 0) + CountKind(lines[1..], kind)
  }

  /** A side's marks split its lines: each line is counted under exactly one mark. */
  lemma {:induction false} CountKindsPartition(lines: seq<DiffLine>)
    ensures CountKind(lines, Added) + CountKind(lines, Removed) + CountKind(lines, Unchanged) == |lines|
  {
    if |lines| > 0 {
      CountKindsPartition(lines[1..]);
    }
  }

  /**
   * `getDiffStats`: the two line counts, `added` counted on the transformed
   * side, `removed` on the original side and `unchanged` on the transformed side.
   */
  function GetDiffStats(diff: DiffResult): (s: DiffStats)
    ensures s.added + s.unchangedCount <= s.transformedLines == |diff.transformed|
    ensures s.removed <= s.originalLines == |diff.original|
  {
    CountKindsPartition(diff.transformed);
    DiffStats(
      |diff.original|,
      |diff.transformed|,
      CountKind(diff.transformed, Added),
      CountKind(diff.original, Removed),
      CountKind(diff.transformed, Unchanged))
  }

  // ---------------------------------------------------------------------------
  // Properties of the simple diff
  // ---------------------------------------------------------------------------

  /** The contents of a side, in order. */
  function Contents(lines: seq<DiffLine>): (r: seq<string>)
    ensures |r| == |lines|
    ensures forall i :: 0 <= i < |lines| ==> r[i] == lines[i].content
  {
    seq(|lines|, i requires 0 <= i < |lines| => lines[i].content)
  }

  /**
   * Each side holds one entry per line of its text, numbered from 1: joining
   * the contents with '\n' gives the text back.
   */
  lemma SimpleDiffRestoresTexts(original: string, transformed: string)
    ensures var d := SimpleDiff(original, transformed);
      && Join(Contents(d.original), '\n') == original
      && Join(Contents(d.transformed), '\n') == transformed
      && (forall i :: 0 <= i < |d.original| ==> d.original[i].lineNumber == i + 1)
      && (forall i :: 0 <= i < |d.transformed| ==> d.transformed[i].lineNumber == i + 1)
  {
    var d := SimpleDiff(original, transformed);
    assert Contents(d.original) == Split(original, '\n');
    assert Contents(d.transformed) == Split(transformed, '\n');
    JoinSplit(original, '\n');
    JoinSplit(transformed, '\n');
  }

  /**
   * The original side is never `added` and the transformed side never
   * `removed`; a line is `unchanged` on one side exactly when it is on the
   * other, and then both sides hold the same content at that position.
   */
  lemma SimpleDiffSidesAgree(original: string, transformed: string)
    ensures var d := SimpleDiff(original, transformed);
      && (forall i :: 0 <= i < |d.original| ==> d.original[i].kind != Added)
      && (forall i :: 0 <= i < |d.transformed| ==> d.transformed[i].kind != Removed)
      && (forall i :: 0 <= i < |d.original| && d.original[i].kind == Unchanged ==>
            i < |d.transformed| && d.transformed[i].kind == Unchanged
            && d.transformed[i].content == d.original[i].content)
      && (forall i :: 0 <= i < |d.transformed| && d.transformed[i].kind == Unchanged ==>
            i < |d.original| && d.original[i].kind == Unchanged)
  {
  }

  /** Comparing a text with itself marks every line `unchanged` on both sides. */
  lemma SimpleDiffIdentical(text: string)
    ensures var d := SimpleDiff(text, text);
      && (forall i :: 0 <= i < |d.original| ==> d.original[i].kind == Unchanged)
      && (forall i :: 0 <= i < |d.transformed| ==> d.transformed[i].kind == Unchanged)
      && GetDiffStats(d).added == 0 && GetDiffStats(d).removed == 0
      && GetDiffStats(d).unchangedCount == GetDiffStats(d).transformedLines
  {
    var lines := Split(text, '\n');
    var left, right := OriginalSide(lines, lines), TransformedSide(lines, lines);
    assert forall i :: 0 <= i < |left| ==> left[i].kind == Unchanged;
    assert forall i :: 0 <= i < |right| ==> right[i].kind == Unchanged;
    CountNone(right, Added);
    CountNone(right, Removed);
    CountNone(left, Removed);
    CountKindsPartition(right);
  }

  lemma {:induction false} CountNone(lines: seq<DiffLine>, kind: DiffType)
    requires forall i :: 0 <= i < |lines| ==> lines[i].kind != kind
    ensures CountKind(lines, kind) == 0
  {
    if |lines| > 0 {
      CountNone(lines[1..], kind);
    }
  }

  /** The number of `unchanged` marks is the same on both sides of a simple diff. */
  lemma {:induction false} UnchangedCountsAgree(o: seq<DiffLine>, t: seq<DiffLine>)
    requires forall i :: 0 <= i < |o| ==> (o[i].kind == Unchanged <==> i < |t| && t[i].kind == Unchanged)
    requires forall i :: 0 <= i < |t| ==> (t[i].kind == Unchanged <==> i < |o| && o[i].kind == Unchanged)
    ensures CountKind(o, Unchanged) == CountKind(t, Unchanged)
  {
    if |o| > 0 && |t| > 0 {
      UnchangedCountsAgree(o[1..], t[1..]);
    } else if |o| > 0 {
      CountNone(o, Unchanged);
    } else if |t| > 0 {
      CountNone(t, Unchanged);
    }
  }

  /**
   * The statistics of a simple diff balance: `added + unchanged` is the
   * transformed line count and `removed + unchanged` the original line count.
   */
  lemma SimpleDiffStatsBalance(original: string, transformed: string)
    ensures var s := GetDiffStats(SimpleDiff(original, transformed));
      && s.added + s.unchangedCount == s.transformedLines
      && s.removed + s.unchangedCount == s.originalLines
  {
    var d := SimpleDiff(original, transformed);
    SimpleDiffSidesAgree(original, transformed);
    CountKindsPartition(d.original);
    CountKindsPartition(d.transformed);
    CountNone(d.original, Added);
    CountNone(d.transformed, Removed);
    UnchangedCountsAgree(d.original, d.transformed);
  }

  /** The mark seen from the other direction: `added` and `removed` trade places. */
  function Flip(kind: DiffType): DiffType
  {
    match kind
    case Added => Removed
    case Removed => Added
    case Unchanged => Unchanged
  }

  /** Diffing the texts the other way round swaps the sides and flips every mark. */
  lemma SimpleDiffSwap(original: string, transformed: string)
    ensures var d, e := SimpleDiff(original, transformed), SimpleDiff(transformed, original);
      && |e.original| == |d.transformed| && |e.transformed| == |d.original|
      && (forall i :: 0 <= i < |d.transformed| ==>
            e.original[i] == d.transformed[i].(kind := Flip(d.transformed[i].kind)))
      && (forall i :: 0 <= i < |d.original| ==>
            e.transformed[i] == d.original[i].(kind := Flip(d.original[i].kind)))
  {
  }
}
