/**
 * The line-oriented transformation engine of src/lib/services/transformEngine.ts
 * and the `Transformation` union of src/lib/types/template.ts that it
 * dispatches on. Text is split on '\n', each helper maps, filters, sorts or
 * reverses the lines, and the lines are joined again with '\n'.
 */
module TransformEngine {
  import opened Wrappers
  import opened Seqs
  import opened Text

  // ---------------------------------------------------------------------------
  // Data model
  // ---------------------------------------------------------------------------

  datatype Position = Start | End

  /**
   * The operation of a transformation: the `type` tag with its payload. The
   * source keeps the payload of string and number operations in a field
   * called `value`; here each payload field is named after its role.
   */
  datatype Op =
    | RemoveBlankLines
    | TrimLines
    | ToUppercase
    | ToLowercase
    | RemoveDuplicates
    | SortLines
    | ReverseLines
    | WrapCodeBlock(language: string)
    | AddPrefix(prefix: string)
    | AddSuffix(suffix: string)
    | RegexReplace(pattern: string, replacement: string, flags: string)
    | NumberLines(startFrom: int)
    | Indent(spaces: int)
    | Dedent(spaces: int)
    | CaptureFirstMatch(example: string, slotName: string)
    | CaptureLastMatch(example: string, slotName: string)
    | CaptureReplace(slotName: string, replacement: string)
    | InsertCaptured(slotName: string, position: Position, format: string)
    | JsonBeautify(indentWidth: int)

  /** One step of a template: the shared `BaseTransformation` fields and its operation. */
  datatype Transformation = Transformation(id: string, enabled: bool, order: int, op: Op)

  /** The `type` discriminant string of an operation. */
  function TypeTag(op: Op): string
  {
    match op
    case RemoveBlankLines => "remove_blank_lines"
    case TrimLines => "trim_lines"
    case ToUppercase => "to_uppercase"
    case ToLowercase => "to_lowercase"
    case RemoveDuplicates => "remove_duplicates"
    case SortLines => "sort_lines"
    case ReverseLines => "reverse_lines"
    case WrapCodeBlock(_) => "wrap_code_block"
    case AddPrefix(_) => "add_prefix"
    case AddSuffix(_) => "add_suffix"
    case RegexReplace(_, _, _) => "regex_replace"
    case NumberLines(_) => "number_lines"
    case Indent(_) => "indent"
    case Dedent(_) => "dedent"
    case CaptureFirstMatch(_, _) => "capture_first_match"
    case CaptureLastMatch(_, _) => "capture_last_match"
    case CaptureReplace(_, _) => "capture_replace"
    case InsertCaptured(_, _, _) => "insert_captured"
    case JsonBeautify(_) => "json_beautify"
  }

  /** The operations the engine's switch has a case for; the rest reach `default`. */
  predicate Handled(op: Op)
  {
    !(op.CaptureFirstMatch? || op.CaptureLastMatch? || op.CaptureReplace?
      || op.InsertCaptured? || op.JsonBeautify?)
  }

  /**
   * The host's regular-expression engine, which this model does not
   * interpret: whether `new RegExp(pattern, flags)` compiles, and what
   * `text.replace(regex, replacement)` returns for a compiled one.
   */
  datatype RegexHost = RegexHost(
    compiles: (string, string) -> bool,
    replace: (string, string, string, string) -> string)

  // ---------------------------------------------------------------------------
  // Line helpers
  // ---------------------------------------------------------------------------

  /** `text.split('\n').map(f).join('\n')`. */
  function MapLines(text: string, f: string -> string): string
  {
    var lines := Split(text, '\n');
    Join(seq(|lines|, i requires 0 <= i < |lines| => f(lines[i])), '\n')
  }

  /** When `f` adds no line break, mapping keeps exactly one output line per input line. */
  lemma SplitMapLines(text: string, f: string -> string)
    requires forall line :: '\n' !in line ==> '\n' !in f(line)
    ensures var lines := Split(text, '\n');
      Split(MapLines(text, f), '\n') == seq(|lines|, i requires 0 <= i < |lines| => f(lines[i]))
  {
    var lines := Split(text, '\n');
    var mapped := seq(|lines|, i requires 0 <= i < |lines| => f(lines[i]));
    SplitJoin(mapped, '\n');
  }

  predicate NonBlank(line: string)
  {
    !IsBlank(line)
  }

  predicate AllBlank(lines: seq<string>)
  {
    forall i :: 0 <= i < |lines| ==> IsBlank(lines[i])
  }

  /** removeBlankLines: keeps the lines whose trimmed form is not empty. */
  function RemoveBlankLinesText(text: string): string
  {
    Join(Filter(Split(text, '\n'), NonBlank), '\n')
  }

  /**
   * removeBlankLines leaves the empty text exactly when every line is blank,
   * and otherwise its lines are the non-blank input lines, in order.
   */
  lemma RemoveBlankLinesLines(text: string)
    ensures var lines := Split(text, '\n');
      RemoveBlankLinesText(text) == "" <==> AllBlank(lines)
    ensures RemoveBlankLinesText(text) != "" ==>
      Split(RemoveBlankLinesText(text), '\n') == Filter(Split(text, '\n'), NonBlank)
  {
    var lines := Split(text, '\n');
    var kept := Filter(lines, NonBlank);
    assert RemoveBlankLinesText(text) == Join(kept, '\n');
    KeptLines(lines, kept);
  }

  lemma KeptLines(lines: seq<string>, kept: seq<string>)
    requires forall i :: 0 <= i < |lines| ==> '\n' !in lines[i]
    requires kept == Filter(lines, NonBlank)
    ensures Join(kept, '\n') == "" <==> AllBlank(lines)
    ensures Join(kept, '\n') != "" ==> Split(Join(kept, '\n'), '\n') == kept
  {
    forall i | 0 <= i < |kept| ensures '\n' !in kept[i] {
      assert kept[i] in lines;
    }
    if kept == [] {
      forall i | 0 <= i < |lines| ensures IsBlank(lines[i]) {
        assert lines[i] !in kept;
      }
    } else {
      SplitJoin(kept, '\n');
      assert kept[0] != "";
      assert Join(kept, '\n') != "";
      assert kept[0] in lines;
    }
  }

  /** trimLines. */
  function TrimLinesText(text: string): string
  {
    MapLines(text, Trim)
  }

  /** trimLines keeps one line per input line, each trimmed. */
  lemma TrimLinesLines(text: string)
    ensures var lines := Split(text, '\n');
      Split(TrimLinesText(text), '\n') == seq(|lines|, i requires 0 <= i < |lines| => Trim(lines[i]))
  {
    forall line | '\n' !in line ensures '\n' !in Trim(line) {
      TrimKeepsOut(line, '\n');
    }
    SplitMapLines(text, Trim);
  }

  /** toUpperCase (ASCII letters only, see README). */
  function ToUppercaseText(text: string): (r: string)
    ensures |r| == |text|
    ensures forall i :: 0 <= i < |r| ==> !IsLower(r[i])
    ensures forall i :: 0 <= i < |text| ==> LowerChar(r[i]) == LowerChar(text[i])
  {
    ToUpper(text)
  }

  /** toLowerCase (ASCII letters only, see README). */
  function ToLowercaseText(text: string): (r: string)
    ensures |r| == |text|
    ensures forall i :: 0 <= i < |r| ==> !IsUpper(r[i])
    ensures forall i :: 0 <= i < |text| ==> UpperChar(r[i]) == UpperChar(text[i])
  {
    ToLower(text)
  }

  /** The index of the first occurrence of `x` in `s`. */
  function FirstIndex(s: seq<string>, x: string): (k: nat)
    requires x in s
    ensures k < |s| && s[k] == x && x !in s[..k]
  {
    if s[0] == x then 0
    else
      var k := FirstIndex(s[1..], x);
      assert s[..k + 1] == [s[0]] + s[1..][..k];
      k + 1
  }

  lemma FirstIndexPrefix(s: seq<string>, t: seq<string>, x: string)
    requires x in s
    ensures FirstIndex(s + t, x) == FirstIndex(s, x)
  {
    var k := FirstIndex(s, x);
    assert (s + t)[k] == x;
  }

  /**
   * The first occurrence of each line, in input order: the specification of
   * the `seen` loop of removeDuplicates.
   */
  function FirstOccurrences(lines: seq<string>): seq<string>
    decreases |lines|
  {
    if |lines| == 0 then []
    else
      var init, last := lines[..|lines| - 1], lines[|lines| - 1];
      var r := FirstOccurrences(init);
      if last in init then r else r + [last]
  }

  /** The lines of `r`, all from `lines`, appear in the order of their first occurrence there. */
  predicate InFirstOccurrenceOrder(lines: seq<string>, r: seq<string>)
  {
    forall i, j :: 0 <= i < j < |r| && r[i] in lines && r[j] in lines ==>
      FirstIndex(lines, r[i]) < FirstIndex(lines, r[j])
  }

  /**
   * removeDuplicates keeps every distinct line once, and orders the kept
   * lines by where each first occurs.
   */
  lemma {:induction false} FirstOccurrencesSpec(lines: seq<string>)
    ensures forall x :: x in FirstOccurrences(lines) <==> x in lines
    ensures Distinct(FirstOccurrences(lines))
    ensures InFirstOccurrenceOrder(lines, FirstOccurrences(lines))
    decreases |lines|
  {
    if |lines| > 0 {
      var init, last := lines[..|lines| - 1], lines[|lines| - 1];
      assert lines == init + [last];
      FirstOccurrencesSpec(init);
      var r := FirstOccurrences(init);
      forall x | x in init ensures FirstIndex(lines, x) == FirstIndex(init, x) {
        FirstIndexPrefix(init, [last], x);
      }
      if last in init {
        assert FirstOccurrences(lines) == r;
      } else {
        var r' := r + [last];
        assert FirstOccurrences(lines) == r';
        assert FirstIndex(lines, last) == |init|;
        assert Distinct(r');
        forall i, j | 0 <= i < j < |r'| && r'[i] in lines && r'[j] in lines
          ensures FirstIndex(lines, r'[i]) < FirstIndex(lines, r'[j])
        {
          assert r'[i] == r[i] && r[i] in init;
          if j < |r| {
            assert r'[j] == r[j] && r[j] in init;
          }
        }
      }
    }
  }

  /** A list without repeated lines is its own first occurrences. */
  lemma {:induction false} FirstOccurrencesDistinct(lines: seq<string>)
    requires forall i, j :: 0 <= i < j < |lines| ==> lines[i] != lines[j]
    ensures FirstOccurrences(lines) == lines
  {
    if |lines| > 0 {
      var init := lines[..|lines| - 1];
      FirstOccurrencesDistinct(init);
      assert lines[|lines| - 1] !in init;
      assert lines == init + [lines[|lines| - 1]];
    }
  }

  /** The text removeDuplicates returns. */
  function DeduplicatedText(text: string): string
  {
    Join(FirstOccurrences(Split(text, '\n')), '\n')
  }

  /** removeDuplicates: the `seen` set and `result` list grown in a loop. */
  method RemoveDuplicatesText(text: string) returns (r: string)
    ensures r == Join(FirstOccurrences(Split(text, '\n')), '\n')
  {
    var lines := Split(text, '\n');
    var seen: set<string> := {};
    var result: seq<string> := [];
    for k := 0 to |lines|
      invariant forall x :: x in seen <==> x in lines[..k]
      invariant result == FirstOccurrences(lines[..k])
    {
      var line := lines[k];
      assert lines[..k + 1] == lines[..k] + [line];
      assert lines[..k + 1][..k] == lines[..k];
      if line !in seen {
        seen := seen + {line};
        result := result + [line];
      }
    }
    assert lines[..|lines|] == lines;
    r := Join(result, '\n');
  }

  /** sortLines. */
  function SortLinesText(text: string): string
  {
    Join(SortStrings(Split(text, '\n')), '\n')
  }

  /** reverseLines. */
  function ReverseLinesText(text: string): string
  {
    Join(Reverse(Split(text, '\n')), '\n')
  }

  /** wrapCodeBlock: an opening fence with the language tag, the text, a closing fence. */
  function WrapCodeBlockText(text: string, language: string): string
  {
    "```" + language + "\n" + text + "\n```"
  }

  /** addPrefix. */
  function AddPrefixText(text: string, prefix: string): string
  {
    MapLines(text, line => prefix + line)
  }

  /** A prefix without a line break is put in front of every line, one output line per input line. */
  lemma AddPrefixLines(text: string, prefix: string)
    requires '\n' !in prefix
    ensures var lines := Split(text, '\n');
      Split(AddPrefixText(text, prefix), '\n')
        == seq(|lines|, i requires 0 <= i < |lines| => prefix + lines[i])
  {
    SplitMapLines(text, line => prefix + line);
  }

  /** addSuffix. */
  function AddSuffixText(text: string, suffix: string): string
  {
    MapLines(text, line => line + suffix)
  }

  /** A suffix without a line break is put after every line, one output line per input line. */
  lemma AddSuffixLines(text: string, suffix: string)
    requires '\n' !in suffix
    ensures var lines := Split(text, '\n');
      Split(AddSuffixText(text, suffix), '\n')
        == seq(|lines|, i requires 0 <= i < |lines| => lines[i] + suffix)
  {
    SplitMapLines(text, line => line + suffix);
  }

  /** validateRegex: whether `new RegExp(pattern, flags)` compiles. */
  function ValidateRegex(host: RegexHost, pattern: string, flags: string): bool
  {
    host.compiles(pattern, flags)
  }

  /** regexReplace: a pattern that does not compile is reported, naming the pattern. */
  function RegexReplaceText(host: RegexHost, text: string, pattern: string, replacement: string,
                            flags: string): (r: Result<string, string>)
    ensures r.Failure? <==> !ValidateRegex(host, pattern, flags)
    ensures r.Failure? ==> r.error == "Invalid regex pattern: " + pattern
    ensures r.Success? ==> r.value == host.replace(text, pattern, flags, replacement)
  {
    if host.compiles(pattern, flags) then Success(host.replace(text, pattern, flags, replacement))
    else Failure("Invalid regex pattern: " + pattern)
  }

  /** The label numberLines puts in front of line `index`. */
  function LineLabel(index: int, startFrom: int): (s: string)
    ensures '\n' !in s
  {
    IntToString(index + startFrom) + ". "
  }

  /** numberLines: line `i` (from 0) becomes `${i + startFrom}. ` followed by the line. */
  function NumberLinesText(text: string, startFrom: int): string
  {
    var lines := Split(text, '\n');
    Join(seq(|lines|, i requires 0 <= i < |lines| => LineLabel(i, startFrom) + lines[i]), '\n')
  }

  /** numberLines keeps one line per input line, each behind its label. */
  lemma NumberLinesLines(text: string, startFrom: int)
    ensures var lines := Split(text, '\n');
      Split(NumberLinesText(text, startFrom), '\n')
        == seq(|lines|, i requires 0 <= i < |lines| => LineLabel(i, startFrom) + lines[i])
  {
    var lines := Split(text, '\n');
    SplitJoin(seq(|lines|, i requires 0 <= i < |lines| => LineLabel(i, startFrom) + lines[i]), '\n');
  }

  /** `' '.repeat(n)`. */
  function Spaces(n: nat): (s: string)
    ensures |s| == n && forall i :: 0 <= i < n ==> s[i] == ' '
  {
    seq(n, _ => ' ')
  }

  /** indent: `' '.repeat(spaces)` throws for a negative count, so callers pass `spaces >= 0`. */
  function IndentText(text: string, spaces: int): string
    requires spaces >= 0
  {
    AddPrefixText(text, Spaces(spaces))
  }

  /** indent puts `spaces` spaces in front of every line. */
  lemma IndentLines(text: string, spaces: int)
    requires spaces >= 0
    ensures var lines := Split(text, '\n');
      Split(IndentText(text, spaces), '\n')
        == seq(|lines|, i requires 0 <= i < |lines| => Spaces(spaces) + lines[i])
  {
    AddPrefixLines(text, Spaces(spaces));
  }

  /** The number of ' ' characters at the start of `line`. */
  function LeadingBlanks(line: string): (k: nat)
    ensures k <= |line|
    ensures forall i :: 0 <= i < k ==> line[i] == ' '
    ensures k < |line| ==> line[k] != ' '
  {
    if |line| > 0 && line[0] == ' ' then 1 + LeadingBlanks(line[1..]) else 0
  }

  /** The number of spaces dedent removes from `line`: as many as there are, at most `spaces`. */
  function DedentCount(line: string, spaces: int): (k: nat)
    ensures k <= LeadingBlanks(line) && k <= |line|
    ensures spaces <= 0 ==> k == 0
    ensures spaces > 0 ==> k <= spaces && (k == spaces || k == LeadingBlanks(line))
  {
    if spaces <= 0 then 0
    else if LeadingBlanks(line) < spaces then LeadingBlanks(line)
    else spaces
  }

  /** One line of dedent: the line without its first `DedentCount` characters, which are spaces. */
  function DedentLine(line: string, spaces: int): (r: string)
    ensures |r| <= |line| && line == Spaces(|line| - |r|) + r
    ensures |line| - |r| == DedentCount(line, spaces)
    ensures '\n' !in line ==> '\n' !in r
  {
    var k := DedentCount(line, spaces);
    assert line == line[..k] + line[k..];
    line[k..]
  }

  /** The `while` loop of dedent's per-line callback. */
  method RemoveLeadingSpaces(line: string, spaces: int) returns (r: string)
    ensures r == DedentLine(line, spaces)
  {
    var removed := 0;
    var i := 0;
    while i < |line| && line[i] == ' ' && removed < spaces
      invariant 0 <= i <= |line| && removed == i
      invariant i <= LeadingBlanks(line)
      invariant i == 0 || i <= spaces
    {
      i := i + 1;
      removed := removed + 1;
    }
    r := line[i..];
  }

  /** dedent. */
  function DedentText(text: string, spaces: int): string
  {
    MapLines(text, line => DedentLine(line, spaces))
  }

  /** dedent keeps one line per input line, each with its leading spaces removed up to the count. */
  lemma DedentLines(text: string, spaces: int)
    ensures var lines := Split(text, '\n');
      Split(DedentText(text, spaces), '\n')
        == seq(|lines|, i requires 0 <= i < |lines| => DedentLine(lines[i], spaces))
  {
    SplitMapLines(text, line => DedentLine(line, spaces));
  }

  // ---------------------------------------------------------------------------
  // Dispatch
  // ---------------------------------------------------------------------------

  /** `value || fallback` for a number: 0 falls back. */
  function OrDefault(value: int, fallback: int): int
  {
    if value == 0 then fallback else value
  }

  /** The call the engine makes is defined: an enabled indent does not ask for a negative count. */
  predicate IndentDefined(t: Transformation)
  {
    t.enabled && t.op.Indent? ==> t.op.spaces >= 0
  }

  /**
   * The text function the engine's switch selects for an enabled non-regex
   * operation; the operations without a case leave the text as it is.
   */
  function LineTransformer(op: Op): string -> string
    requires !op.RegexReplace?
    requires op.Indent? ==> op.spaces >= 0
  {
    match op
    case RemoveBlankLines => RemoveBlankLinesText
    case TrimLines => TrimLinesText
    case ToUppercase => ToUppercaseText
    case ToLowercase => ToLowercaseText
    case RemoveDuplicates => DeduplicatedText
    case SortLines => SortLinesText
    case ReverseLines => ReverseLinesText
    case WrapCodeBlock(language) => text => WrapCodeBlockText(text, language)
    case AddPrefix(prefix) => text => AddPrefixText(text, prefix)
    case AddSuffix(suffix) => text => AddSuffixText(text, suffix)
    case NumberLines(startFrom) => text => NumberLinesText(text, OrDefault(startFrom, 1))
    case Indent(spaces) => text => IndentText(text, OrDefault(spaces, 2))
    case Dedent(spaces) => text => DedentText(text, OrDefault(spaces, 2))
    case _ => text => text
  }

  /** The text an enabled non-regex operation produces. */
  function ApplyOp(text: string, op: Op): (r: string)
    requires !op.RegexReplace?
    requires op.Indent? ==> op.spaces >= 0
    ensures !Handled(op) ==> r == text
  {
    if Handled(op) then LineTransformer(op)(text) else text
  }

  /** applyTransformation: dispatches on the operation of an enabled transformation. */
  function ApplyTransformation(host: RegexHost, text: string, t: Transformation): (r: Result<string, string>)
    requires IndentDefined(t)
    ensures !t.enabled ==> r == Success(text)
    ensures !Handled(t.op) ==> r == Success(text)
    ensures r.Failure? <==> t.enabled && t.op.RegexReplace? && !ValidateRegex(host, t.op.pattern, t.op.flags)
    ensures r.Failure? ==> r.error == "Invalid regex pattern: " + t.op.pattern
  {
    if !t.enabled then Success(text)
    else if t.op.RegexReplace? then
      RegexReplaceText(host, text, t.op.pattern, t.op.replacement, t.op.flags)
    else Success(ApplyOp(text, t.op))
  }

  // ---------------------------------------------------------------------------
  // Pipeline
  // ---------------------------------------------------------------------------

  predicate IsEnabled(t: Transformation)
  {
    t.enabled
  }

  function OrderOf(t: Transformation): int
  {
    t.order
  }

  /** The steps applyTransformations runs: the enabled ones, stably sorted by `order`. */
  function Schedule(ts: seq<Transformation>): (s: seq<Transformation>)
    ensures SortedBy(s, OrderOf)
    ensures forall t :: t in s <==> t in ts && t.enabled
    ensures forall k :: KeyClass(s, OrderOf, k) == KeyClass(Filter(ts, IsEnabled), OrderOf, k)
  {
    var s := SortBy(Filter(ts, IsEnabled), OrderOf);
    assert forall t :: t in s <==> t in multiset(s);
    s
  }

  predicate AllIndentsDefined(ts: seq<Transformation>)
  {
    forall t :: t in ts ==> IndentDefined(t)
  }

  /** Applies the steps in turn; the first failing step ends the run with its error. */
  function Fold(host: RegexHost, text: string, steps: seq<Transformation>): Result<string, string>
    requires AllIndentsDefined(steps)
    decreases |steps|
  {
    if |steps| == 0 then Success(text)
    else
      match ApplyTransformation(host, text, steps[0])
      case Failure(e) => Failure(e)
      case Success(next) => Fold(host, next, steps[1..])
  }

  /** What applyTransformations computes. */
  function Pipeline(host: RegexHost, text: string, ts: seq<Transformation>): Result<string, string>
    requires AllIndentsDefined(ts)
  {
    Fold(host, text, Schedule(ts))
  }

  /** applyTransformations: the `for` loop that reassigns `result`. */
  method ApplyTransformations(host: RegexHost, text: string, ts: seq<Transformation>)
    returns (r: Result<string, string>)
    requires AllIndentsDefined(ts)
    ensures r == Fold(host, text, Schedule(ts))
  {
    var sorted := Schedule(ts);
    var result := text;
    for i := 0 to |sorted|
      invariant AllIndentsDefined(sorted[i..])
      invariant Fold(host, text, sorted) == Fold(host, result, sorted[i..])
    {
      var rest := sorted[i..];
      assert rest[1..] == sorted[i + 1..];
      FoldStep(host, result, rest);
      var step := ApplyTransformation(host, result, rest[0]);
      if step.Failure? {
        return Failure(step.error);
      }
      result := step.value;
    }
    r := Success(result);
  }

  /** One step of the fold: the first step's error ends it, its result feeds the rest. */
  lemma FoldStep(host: RegexHost, text: string, steps: seq<Transformation>)
    requires AllIndentsDefined(steps) && |steps| > 0
    ensures AllIndentsDefined(steps[1..])
    ensures var step := ApplyTransformation(host, text, steps[0]);
      && (step.Failure? ==> Fold(host, text, steps) == Failure(step.error))
      && (step.Success? ==> Fold(host, text, steps) == Fold(host, step.value, steps[1..]))
  {
  }

  // ---------------------------------------------------------------------------
  // getTransformationName
  // ---------------------------------------------------------------------------

  const TransformationNames: map<string, string> := map[
    "remove_blank_lines" := "Remove Blank Lines",
    "trim_lines" := "Trim Lines",
    "to_uppercase" := "To Uppercase",
    "to_lowercase" := "To Lowercase",
    "remove_duplicates" := "Remove Duplicates",
    "sort_lines" := "Sort Lines",
    "reverse_lines" := "Reverse Lines",
    "wrap_code_block" := "Wrap in Code Block",
    "add_prefix" := "Add Prefix",
    "add_suffix" := "Add Suffix",
    "regex_replace" := "Regex Replace",
    "number_lines" := "Number Lines",
    "indent" := "Indent",
    "dedent" := "Dedent"
  ]

  /** getTransformationName: the display name, or the type string itself when there is none. */
  function TransformationName(typeName: string): string
  {
    if typeName in TransformationNames then TransformationNames[typeName] else typeName
  }
}
