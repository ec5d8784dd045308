/**
 * Laws of the transformation engine: how the line helpers compose with
 * themselves and with each other, and what the pipeline of
 * applyTransformations promises about disabled steps, step order and errors.
 */
module TransformLaws {
  import opened Wrappers
  import opened Seqs
  import opened Text
  import opened TransformEngine

  // ---------------------------------------------------------------------------
  // Line helpers
  // ---------------------------------------------------------------------------

  /** Removing blank lines a second time changes nothing. */
  lemma RemoveBlankLinesIdempotent(text: string)
    ensures RemoveBlankLinesText(RemoveBlankLinesText(text)) == RemoveBlankLinesText(text)
  {
    var r := RemoveBlankLinesText(text);
    RemoveBlankLinesLines(text);
    if r == "" {
      assert Split(r, '\n') == [""];
      assert IsBlank("");
      assert Filter([""], NonBlank) == [];
    } else {
      var kept := Filter(Split(text, '\n'), NonBlank);
      FilterAll(kept, NonBlank);
    }
  }

  /** Mapping the lines with `f` and then with `g` maps them with `g` after `f`. */
  lemma MapLinesTwice(text: string, f: string -> string, g: string -> string)
    requires forall line :: '\n' !in line ==> '\n' !in f(line)
    ensures var lines := Split(text, '\n');
      MapLines(MapLines(text, f), g)
        == Join(seq(|lines|, i requires 0 <= i < |lines| => g(f(lines[i]))), '\n')
  {
    var lines := Split(text, '\n');
    SplitMapLines(text, f);
    var mid := seq(|lines|, i requires 0 <= i < |lines| => f(lines[i]));
    assert seq(|mid|, i requires 0 <= i < |mid| => g(mid[i]))
        == seq(|lines|, i requires 0 <= i < |lines| => g(f(lines[i])));
  }

  /** Mapping twice with a line map that is idempotent on lines is mapping once. */
  lemma MapLinesIdempotent(text: string, f: string -> string)
    requires forall line :: '\n' !in line ==> '\n' !in f(line) && f(f(line)) == f(line)
    ensures MapLines(MapLines(text, f), f) == MapLines(text, f)
  {
    var lines := Split(text, '\n');
    MapLinesTwice(text, f, f);
    assert seq(|lines|, i requires 0 <= i < |lines| => f(f(lines[i])))
        == seq(|lines|, i requires 0 <= i < |lines| => f(lines[i]));
  }

  /** Mapping with `f` and then with a `g` that undoes `f` on lines gives the text back. */
  lemma MapLinesInverse(text: string, f: string -> string, g: string -> string)
    requires forall line :: '\n' !in line ==> '\n' !in f(line) && g(f(line)) == line
    ensures MapLines(MapLines(text, f), g) == text
  {
    var lines := Split(text, '\n');
    MapLinesTwice(text, f, g);
    assert seq(|lines|, i requires 0 <= i < |lines| => g(f(lines[i]))) == lines;
    JoinSplit(text, '\n');
  }

  /** Trimming the lines a second time changes nothing. */
  lemma TrimLinesIdempotent(text: string)
    ensures TrimLinesText(TrimLinesText(text)) == TrimLinesText(text)
  {
    forall line | '\n' !in line ensures '\n' !in Trim(line) && Trim(Trim(line)) == Trim(line) {
      TrimKeepsOut(line, '\n');
      TrimIdempotent(line);
    }
    MapLinesIdempotent(text, Trim);
  }

  /** Upper-casing a second time changes nothing (ASCII letters). */
  lemma UppercaseIdempotent(text: string)
    ensures ToUppercaseText(ToUppercaseText(text)) == ToUppercaseText(text)
  {
    var once := ToUppercaseText(text);
    forall i | 0 <= i < |once| ensures UpperChar(once[i]) == once[i] {
      assert !IsLower(once[i]);
    }
  }

  /** Lower-casing a second time changes nothing (ASCII letters). */
  lemma LowercaseIdempotent(text: string)
    ensures ToLowercaseText(ToLowercaseText(text)) == ToLowercaseText(text)
  {
    var once := ToLowercaseText(text);
    forall i | 0 <= i < |once| ensures LowerChar(once[i]) == once[i] {
      assert !IsUpper(once[i]);
    }
  }

  /**
   * removeDuplicates: every output line is an input line, the output lines
   * are distinct, and applying it twice is applying it once.
   */
  lemma RemoveDuplicatesLines(text: string)
    ensures var lines := Split(text, '\n');
      Split(DeduplicatedText(text), '\n') == FirstOccurrences(lines)
    ensures DeduplicatedText(DeduplicatedText(text)) == DeduplicatedText(text)
  {
    var lines := Split(text, '\n');
    var firsts := FirstOccurrences(lines);
    FirstOccurrencesSpec(lines);
    assert lines[0] in firsts;
    forall i | 0 <= i < |firsts| ensures '\n' !in firsts[i] {
      assert firsts[i] in lines;
    }
    SplitJoin(firsts, '\n');
    FirstOccurrencesDistinct(firsts);
  }

  /** sortLines: the output lines are the input lines, sorted; sorting twice is sorting once. */
  lemma SortLinesLines(text: string)
    ensures var sorted := Split(SortLinesText(text), '\n');
      StrSorted(sorted) && multiset(sorted) == multiset(Split(text, '\n'))
    ensures SortLinesText(SortLinesText(text)) == SortLinesText(text)
  {
    var lines := Split(text, '\n');
    var sorted := SortStrings(lines);
    forall i | 0 <= i < |sorted| ensures '\n' !in sorted[i] {
      assert sorted[i] in multiset(lines);
    }
    SplitJoin(sorted, '\n');
    SortSorted(sorted);
  }

  /** reverseLines is an involution. */
  lemma ReverseLinesTwice(text: string)
    ensures ReverseLinesText(ReverseLinesText(text)) == text
  {
    var lines := Split(text, '\n');
    var rev := Reverse(lines);
    SplitJoin(rev, '\n');
    ReverseReverse(lines);
    JoinSplit(text, '\n');
  }

  /**
   * wrapCodeBlock with a one-line language tag: the opening fence line, the
   * lines of the text, the closing fence line.
   */
  lemma WrapCodeBlockLines(text: string, language: string)
    requires '\n' !in language
    ensures Split(WrapCodeBlockText(text, language), '\n')
         == ["```" + language] + Split(text, '\n') + ["```"]
  {
    var head := "```" + language;
    var tail := text + ['\n'] + "```";
    calc {
      Split(WrapCodeBlockText(text, language), '\n');
      { assert WrapCodeBlockText(text, language) == head + ['\n'] + tail; }
      Split(head + ['\n'] + tail, '\n');
      { SplitConcat(head, tail, '\n'); }
      Split(head, '\n') + Split(tail, '\n');
      { SplitNoSep(head, '\n'); SplitConcat(text, "```", '\n'); SplitNoSep("```", '\n'); }
      [head] + (Split(text, '\n') + ["```"]);
    }
  }

  /** Dropping the first and last lines of a wrapped text gives the text back. */
  lemma WrapCodeBlockUnwrap(text: string, language: string)
    requires '\n' !in language
    ensures var lines := Split(WrapCodeBlockText(text, language), '\n');
      |lines| >= 2 && Join(lines[1..|lines| - 1], '\n') == text
  {
    WrapCodeBlockLines(text, language);
    var lines := Split(WrapCodeBlockText(text, language), '\n');
    assert lines[1..|lines| - 1] == Split(text, '\n');
    JoinSplit(text, '\n');
  }

  /** Dedenting `Spaces(n) + line` by `n` removes exactly the `n` spaces. */
  lemma DedentPadded(line: string, n: nat)
    ensures DedentLine(Spaces(n) + line, n) == line
  {
    var s := Spaces(n) + line;
    assert LeadingBlanks(s) >= n;
    assert s[n..] == line;
  }

  /** Dedenting by `n` undoes indenting by `n`. */
  lemma DedentAfterIndent(text: string, n: int)
    requires n >= 0
    ensures DedentText(IndentText(text, n), n) == text
  {
    var f := (line: string) => Spaces(n) + line;
    var g := (line: string) => DedentLine(line, n);
    forall line | '\n' !in line ensures '\n' !in f(line) && g(f(line)) == line {
      DedentPadded(line, n);
    }
    MapLinesInverse(text, f, g);
  }

  // ---------------------------------------------------------------------------
  // Dispatch
  // ---------------------------------------------------------------------------

  /** numberLines with a zero value numbers from 1 (`value || 1`). */
  lemma NumberLinesZeroStartsAtOne(text: string)
    ensures ApplyOp(text, NumberLines(0)) == NumberLinesText(text, 1)
  {
  }

  /** indent with a zero value indents by 2 (`value || 2`). */
  lemma IndentZeroIsTwo(text: string)
    ensures ApplyOp(text, Indent(0)) == IndentText(text, 2)
  {
  }

  /** dedent with a zero value dedents by 2 (`value || 2`). */
  lemma DedentZeroIsTwo(text: string)
    ensures ApplyOp(text, Dedent(0)) == DedentText(text, 2)
  {
  }

  /** getTransformationName has a display name for exactly the types the engine handles. */
  lemma NamedExactlyWhenHandled(op: Op)
    ensures TypeTag(op) in TransformationNames <==> Handled(op)
    ensures Handled(op) ==> TransformationName(TypeTag(op)) != TypeTag(op)
    ensures !Handled(op) ==> TransformationName(TypeTag(op)) == TypeTag(op)
  {
    match op
    case CaptureFirstMatch(_, _) =>
      assert TypeTag(op) !in TransformationNames;
    case CaptureLastMatch(_, _) =>
      assert TypeTag(op) !in TransformationNames;
    case CaptureReplace(_, _) =>
      assert TypeTag(op) !in TransformationNames;
    case InsertCaptured(_, _, _) =>
      assert TypeTag(op) !in TransformationNames;
    case JsonBeautify(_) =>
      assert TypeTag(op) !in TransformationNames;
    case _ =>
  }

  // ---------------------------------------------------------------------------
  // Pipeline
  // ---------------------------------------------------------------------------

  /** A step that stops the pipeline: an enabled regex replacement whose pattern does not compile. */
  predicate BadRegex(host: RegexHost, t: Transformation)
  {
    t.enabled && t.op.RegexReplace? && !ValidateRegex(host, t.op.pattern, t.op.flags)
  }

  /** With no transformation enabled the pipeline returns the text unchanged. */
  lemma PipelineNoneEnabled(host: RegexHost, text: string, ts: seq<Transformation>)
    requires forall i :: 0 <= i < |ts| ==> !ts[i].enabled
    ensures Pipeline(host, text, ts) == Success(text)
  {
    var s := Schedule(ts);
  }

  /** Running `a + b` runs `a`, then runs `b` on its output unless `a` failed. */
  lemma {:induction false} FoldAppend(host: RegexHost, text: string, a: seq<Transformation>,
                                      b: seq<Transformation>)
    requires AllIndentsDefined(a) && AllIndentsDefined(b)
    ensures AllIndentsDefined(a + b)
    ensures Fold(host, text, a + b) ==
      match Fold(host, text, a)
      case Failure(e) => Failure(e)
      case Success(mid) => Fold(host, mid, b)
    decreases |a|
  {
    if |a| == 0 {
      assert a + b == b;
    } else {
      assert (a + b)[0] == a[0];
      assert (a + b)[1..] == a[1..] + b;
      match ApplyTransformation(host, text, a[0])
      case Failure(_) =>
      case Success(next) =>
        FoldAppend(host, next, a[1..], b);
    }
  }

  /**
   * A run fails exactly when one of its steps is a bad regex, and then with
   * the error of the first such step.
   */
  lemma {:induction false} FoldFailure(host: RegexHost, text: string, steps: seq<Transformation>)
    requires AllIndentsDefined(steps)
    ensures Fold(host, text, steps).Failure? <==>
      exists i :: 0 <= i < |steps| && BadRegex(host, steps[i])
    ensures Fold(host, text, steps).Failure? ==>
      exists i :: 0 <= i < |steps| && BadRegex(host, steps[i])
        && (forall j :: 0 <= j < i ==> !BadRegex(host, steps[j]))
        && Fold(host, text, steps).error == "Invalid regex pattern: " + steps[i].op.pattern
    decreases |steps|
  {
    if |steps| > 0 {
      match ApplyTransformation(host, text, steps[0])
      case Failure(_) =>
        assert BadRegex(host, steps[0]);
      case Success(next) =>
        assert !BadRegex(host, steps[0]);
        var rest := steps[1..];
        FoldFailure(host, next, rest);
        assert forall i :: 0 < i < |steps| ==> steps[i] == rest[i - 1];
        if Fold(host, next, rest).Failure? {
          var i :| 0 <= i < |rest| && BadRegex(host, rest[i])
            && (forall j :: 0 <= j < i ==> !BadRegex(host, rest[j]))
            && Fold(host, next, rest).error == "Invalid regex pattern: " + rest[i].op.pattern;
          assert BadRegex(host, steps[i + 1]);
        } else {
          forall i | 0 <= i < |steps| ensures !BadRegex(host, steps[i]) {
            if i > 0 {
              assert !BadRegex(host, rest[i - 1]);
            }
          }
        }
    }
  }

  /** applyTransformations fails exactly when some transformation is a bad regex. */
  lemma PipelineFailure(host: RegexHost, text: string, ts: seq<Transformation>)
    requires AllIndentsDefined(ts)
    ensures Pipeline(host, text, ts).Failure? <==> exists t :: t in ts && BadRegex(host, t)
  {
    var s := Schedule(ts);
    FoldFailure(host, text, s);
    if exists t :: t in ts && BadRegex(host, t) {
      var t :| t in ts && BadRegex(host, t);
      assert t in s;
      var i :| 0 <= i < |s| && s[i] == t;
      assert BadRegex(host, s[i]);
    }
  }

  /** The steps of `[t]` that run and have order `k`: none unless `t` has order `k`. */
  lemma SingleClass(t: Transformation, k: int)
    requires t.order != k
    ensures KeyClass(Filter([t], IsEnabled), OrderOf, k) == []
  {
  }

  lemma KeyClass4(p: seq<Transformation>, q: seq<Transformation>, r: seq<Transformation>,
                  s: seq<Transformation>, k: int)
    ensures KeyClass(p + q + r + s, OrderOf, k)
         == KeyClass(p, OrderOf, k) + KeyClass(q, OrderOf, k) + KeyClass(r, OrderOf, k)
            + KeyClass(s, OrderOf, k)
  {
    KeyClassAppend(p + q + r, s, OrderOf, k);
    KeyClassAppend(p + q, r, OrderOf, k);
    KeyClassAppend(p, q, OrderOf, k);
  }

  lemma Filter4(p: seq<Transformation>, q: seq<Transformation>, r: seq<Transformation>,
                s: seq<Transformation>)
    ensures Filter(p + q + r + s, IsEnabled)
         == Filter(p, IsEnabled) + Filter(q, IsEnabled) + Filter(r, IsEnabled) + Filter(s, IsEnabled)
  {
    FilterAppend(p + q + r, s, IsEnabled);
    FilterAppend(p + q, r, IsEnabled);
    FilterAppend(p, q, IsEnabled);
  }

  /**
   * Swapping two neighbouring transformations with different orders does not
   * change which steps run or in what order.
   */
  lemma ScheduleSwapAdjacent(ts: seq<Transformation>, i: nat)
    requires i + 1 < |ts| && ts[i].order != ts[i + 1].order
    ensures Schedule(ts) == Schedule(ts[..i] + [ts[i + 1], ts[i]] + ts[i + 2..])
  {
    var a, b := ts[..i], ts[i + 2..];
    var x, y := ts[i], ts[i + 1];
    var swapped := a + [y] + [x] + b;
    assert ts == a + [x] + [y] + b;
    assert ts[..i] + [ts[i + 1], ts[i]] + ts[i + 2..] == swapped;
    var fa, fx, fy, fb := Filter(a, IsEnabled), Filter([x], IsEnabled), Filter([y], IsEnabled),
      Filter(b, IsEnabled);
    forall k ensures KeyClass(Schedule(ts), OrderOf, k) == KeyClass(Schedule(swapped), OrderOf, k) {
      var ca, cx, cy, cb := KeyClass(fa, OrderOf, k), KeyClass(fx, OrderOf, k),
        KeyClass(fy, OrderOf, k), KeyClass(fb, OrderOf, k);
      calc {
        KeyClass(Schedule(ts), OrderOf, k);
        KeyClass(Filter(a + [x] + [y] + b, IsEnabled), OrderOf, k);
        { Filter4(a, [x], [y], b); }
        KeyClass(fa + fx + fy + fb, OrderOf, k);
        { KeyClass4(fa, fx, fy, fb, k); }
        ca + cx + cy + cb;
        { if x.order != k {
            SingleClass(x, k);
            assert ca + cx + cy == ca + cy + cx by { assert cx == []; assert ca + cx == ca; }
          } else {
            SingleClass(y, k);
            assert ca + cx + cy == ca + cy + cx by { assert cy == []; assert ca + cy == ca; }
          } }
        ca + cy + cx + cb;
        { KeyClass4(fa, fy, fx, fb, k); }
        KeyClass(fa + fy + fx + fb, OrderOf, k);
        { Filter4(a, [y], [x], b); }
        KeyClass(Filter(swapped, IsEnabled), OrderOf, k);
        KeyClass(Schedule(swapped), OrderOf, k);
      }
    }
    SortedUnique(Schedule(ts), Schedule(swapped), OrderOf);
  }
}
