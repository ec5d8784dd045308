# ClipForm core, modelled in Dafny

ClipForm saves text-transformation templates and runs them over clipboard
text. This project models the four parts of ClipForm that hold its logic, and
proves what each part promises.

- **Transformation engine** (`src/lib/services/transformEngine.ts`).
  - The line helpers split the text on `'\n'`, then map, filter, sort or reverse the lines, and join them again.
  - `applyTransformation` dispatches on the `Transformation` union of `src/lib/types/template.ts`.
  - `applyTransformations` keeps the enabled steps and stably sorts them by `order`. It then folds the dispatcher over them, and a regex error stops the fold.
  - `getTransformationName` maps a type tag to a display name.
  - Modules `TransformEngine` and `TransformLaws`.
- **Pattern detector** (`src/lib/services/patternDetector.ts`).
  - Classifies a trimmed example by the first of eleven anchored tests that accepts it.
  - Falls back to a literal pattern built by `escapeRegex`.
  - Each anchored test is written out as a recogniser over characters.
  - Modules `PatternDetector` and `PatternLaws`.
- **Template store** (`src/lib/stores/templateStore.ts`).
  - Covers the id-keyed list operations, search, category filtering, the capped most-recently-used list, and the starred and recent views.
  - The writable stores are the classes `TemplateStore.TemplateStore` and `TemplateStore.RecentStore`. Each holds a `seq` field that its methods reassign.
  - Each method's new state is given by a function on the old list, and the properties are proved about those functions.
  - Fresh ids and timestamps are parameters.
- **Simple diff** (`src/lib/services/diffGenerator.ts`).
  - `generateSimpleDiff` compares two texts line by line, by index. Its marking loop works in place on two arrays.
  - `getDiffStats` counts the marks.
  - Module `DiffGenerator`.

The shared modules are `Wrappers` (`Option`, `Result`), `Seqs` and `Text`:
- `Seqs` holds filtering, a stable sort by integer key, and subsequences.
- `Text` holds the JavaScript string semantics the core relies on:
  - `split` and `join` on one character;
  - `trim` over the ECMAScript white-space set;
  - `includes`;
  - comparison by code unit, as the default `sort` uses;
  - number-to-string conversion.

A thrown `Error` becomes the `Failure` case of a `Result` carrying its message.

A note on the pattern detector: the eleven anchored tests accept pairwise
disjoint sets of strings (`PatternLaws.AcceptsUnique`). The matcher order is
therefore never what decides the result: `PatternLaws.DetectAccepted` shows
that a string any test accepts is classified by that test, wherever the test
sits in the list. The first-match loop is still modelled as written
(`PatternDetector.DetectPatternFirstMatch`).

## Model

| member | source | states |
|---|---|---|
| Text.Split | src/lib/services/transformEngine.ts:14 | `split('\n')` yields one more piece than there are separators, hence at least one, and no piece holds the separator |
| Text.StrLeTotal | src/lib/services/transformEngine.ts:65 | any two strings are ordered one way or the other by UTF-16 code units |
| Text.StrLeTrans | src/lib/services/transformEngine.ts:65 | the code-unit order is transitive |
| Text.SurrogatesSortFirst | src/lib/services/transformEngine.ts:65 | U+1F600 sorts before U+FF21, as its high surrogate 0xD83D is the smaller first code unit |
| Text.JoinSplit | src/lib/services/transformEngine.ts:13-16 | joining the pieces of a split with the same separator gives the text back |
| TransformEngine.SplitMapLines | src/lib/services/transformEngine.ts:22-27 | a split-map-join whose line function adds no line break yields exactly one output line per input line, in order, each the function of its input line |
| TransformEngine.RemoveBlankLinesLines | src/lib/services/transformEngine.ts:12-17 | removeBlankLines gives `""` exactly when every line is blank after trimming; otherwise its lines are exactly the non-blank input lines, in order |
| TransformLaws.RemoveBlankLinesIdempotent | src/lib/services/transformEngine.ts:12-17 | removing blank lines twice is removing them once |
| TransformEngine.TrimLinesLines | src/lib/services/transformEngine.ts:22-27 | trimLines keeps one line per input line, each line trimmed |
| TransformLaws.TrimLinesIdempotent | src/lib/services/transformEngine.ts:22-27 | trimming the lines twice is trimming them once |
| TransformEngine.ToUppercaseText | src/lib/services/transformEngine.ts:32-34 | toUpperCase keeps the length, leaves no lower-case ASCII letter, and keeps each character's letter (the result and the input agree once lower-cased) |
| TransformLaws.UppercaseIdempotent | src/lib/services/transformEngine.ts:32-34 | upper-casing twice is upper-casing once |
| TransformEngine.ToLowercaseText | src/lib/services/transformEngine.ts:39-41 | toLowerCase keeps the length, leaves no upper-case ASCII letter, and keeps each character's letter (the result and the input agree once upper-cased) |
| TransformLaws.LowercaseIdempotent | src/lib/services/transformEngine.ts:39-41 | lower-casing twice is lower-casing once |
| TransformEngine.FirstIndex | src/lib/services/transformEngine.ts:51-56 | the index of the first occurrence of a line: it holds the line and no earlier index does |
| TransformEngine.FirstOccurrencesSpec | src/lib/services/transformEngine.ts:46-59 | the kept lines are exactly the input lines, pairwise distinct, each kept at its first occurrence and in input order |
| TransformEngine.FirstOccurrencesDistinct | src/lib/services/transformEngine.ts:46-59 | lines that are already distinct are all kept, in order |
| TransformEngine.RemoveDuplicatesText | src/lib/services/transformEngine.ts:46-59 | the loop that grows `seen` and `result` produces the join of the first occurrences of the lines |
| TransformLaws.RemoveDuplicatesLines | src/lib/services/transformEngine.ts:46-59 | removeDuplicates yields the first occurrences as its lines, and applying it twice is applying it once |
| TransformLaws.SortLinesLines | src/lib/services/transformEngine.ts:64-66 | sortLines yields a permutation of the input lines, sorted by UTF-16 code unit, so a surrogate pair sorts by its high surrogate; sorting twice is sorting once |
| TransformLaws.ReverseLinesTwice | src/lib/services/transformEngine.ts:71-73 | reversing the lines twice gives the text back |
| TransformLaws.WrapCodeBlockLines | src/lib/services/transformEngine.ts:78-80 | the wrapped text's lines are the fence with the language, the text's lines, then the closing fence |
| TransformLaws.WrapCodeBlockUnwrap | src/lib/services/transformEngine.ts:78-80 | dropping the first and last lines of the wrapped text gives the text back |
| TransformEngine.AddPrefixLines | src/lib/services/transformEngine.ts:85-93 | addPrefix keeps one line per input line, each preceded by the prefix |
| TransformEngine.AddSuffixLines | src/lib/services/transformEngine.ts:95-100 | addSuffix keeps one line per input line, each followed by the suffix |
| TransformEngine.RegexReplaceText | src/lib/services/transformEngine.ts:105-112 | regexReplace fails exactly when the pattern and flags do not compile, with message `"Invalid regex pattern: " + pattern`; otherwise it returns the host's replacement |
| TransformEngine.LineLabel | src/lib/services/transformEngine.ts:119 | a line label `(index + startFrom) + ". "` holds no line break |
| TransformEngine.NumberLinesLines | src/lib/services/transformEngine.ts:117-120 | numberLines keeps one line per input line, line `i` preceded by the label of `i + startFrom` |
| TransformEngine.IndentLines | src/lib/services/transformEngine.ts:125-131 | indent keeps one line per input line, each preceded by the given number of spaces |
| TransformEngine.LeadingBlanks | src/lib/services/transformEngine.ts:142 | the length of a line's leading run of spaces |
| TransformEngine.DedentCount | src/lib/services/transformEngine.ts:139-147 | dedent removes `min(spaces, leading spaces)` characters, and none for a count of 0 or less |
| TransformEngine.DedentLine | src/lib/services/transformEngine.ts:140-148 | a dedented line is the input line with exactly `DedentCount` spaces taken off its front, and the rest untouched |
| TransformEngine.RemoveLeadingSpaces | src/lib/services/transformEngine.ts:139-148 | the `while` loop advancing `i` and `removed` computes the dedented line |
| TransformEngine.DedentLines | src/lib/services/transformEngine.ts:136-150 | dedent keeps one line per input line, each line dedented |
| TransformLaws.DedentPadded | src/lib/services/transformEngine.ts:136-150 | dedenting by `n` a line that starts with `n` added spaces removes exactly those spaces |
| TransformLaws.DedentAfterIndent | src/lib/services/transformEngine.ts:125-150 | dedent by `n` undoes indent by `n`, for `n >= 0` |
| TransformEngine.ApplyOp | src/lib/services/transformEngine.ts:172-219 | the switch leaves the text as it is for the five types it has no case for |
| TransformLaws.NumberLinesZeroStartsAtOne | src/lib/services/transformEngine.ts:208-209 | a number_lines value of 0 numbers from 1 |
| TransformLaws.IndentZeroIsTwo | src/lib/services/transformEngine.ts:211-212 | an indent value of 0 indents by 2 |
| TransformLaws.DedentZeroIsTwo | src/lib/services/transformEngine.ts:214-215 | a dedent value of 0 dedents by 2 |
| TransformEngine.ApplyTransformation | src/lib/services/transformEngine.ts:167-220 | a disabled step or an unhandled type gives the text back; the step fails exactly for an enabled regex_replace whose pattern does not compile, with that error message |
| TransformEngine.Schedule | src/lib/services/transformEngine.ts:227-229 | the scheduled steps are exactly the enabled ones, sorted by `order`, and steps of equal order keep their input order |
| TransformEngine.ApplyTransformations | src/lib/services/transformEngine.ts:225-243 | the loop reassigning `result` equals the fold of the dispatcher over the scheduled steps, stopping at the first error |
| TransformLaws.PipelineNoneEnabled | src/lib/services/transformEngine.ts:225-243 | with no step enabled the pipeline gives the text back |
| TransformLaws.FoldAppend | src/lib/services/transformEngine.ts:232-240 | folding over two runs of steps is folding over the first, then over the second from its result |
| TransformLaws.FoldFailure | src/lib/services/transformEngine.ts:232-240 | a fold fails exactly when one of its steps is an enabled regex_replace that does not compile, and then with the first such step's message |
| TransformLaws.PipelineFailure | src/lib/services/transformEngine.ts:225-243 | the pipeline fails exactly when some input step is an enabled regex_replace that does not compile |
| TransformLaws.ScheduleSwapAdjacent | src/lib/services/transformEngine.ts:227-229 | swapping two neighbouring steps of different `order` does not change the schedule |
| TransformLaws.NamedExactlyWhenHandled | src/lib/services/transformEngine.ts:248-266 | a type tag has a display name exactly when the engine's switch handles it; the other tags are returned as they are |
| PatternDetector.MatcherFor | src/lib/services/patternDetector.ts:20-98 | the matcher built for a test carries that test, under a name no other matcher has and that is not `literal` |
| PatternLaws.Rank | src/lib/services/patternDetector.ts:20-98 | each test has a position in the precedence order |
| PatternDetector.MatcherNamesDistinct | src/lib/services/patternDetector.ts:20-98 | the matcher names are pairwise distinct and none is `"literal"` |
| PatternDetector.PrecedenceDistinct | src/lib/services/patternDetector.ts:20-98 | no test occurs twice in the matcher list |
| PatternDetector.LastDot | src/lib/services/patternDetector.ts:60 | the position of the last dot in an address domain, or -1 |
| PatternDetector.OctetValue | src/lib/services/patternDetector.ts:74 | an IPv4 group is one to three ASCII digits with value at most 255, leading zeros allowed |
| PatternDetector.Ipv4Sound | src/lib/services/patternDetector.ts:74 | every string the IPv4 test accepts is four dot-separated groups of value at most 255 |
| PatternDetector.Ipv4Complete | src/lib/services/patternDetector.ts:74 | any four such groups joined by dots pass the IPv4 test |
| PatternLaws.NumericShapes | src/lib/services/patternDetector.ts:74-95 | IPv4 addresses, integers and decimals consist of digits and dots, with an optional leading minus |
| PatternLaws.DotCounts | src/lib/services/patternDetector.ts:74-95 | the IPv4 test needs three dots, the decimal test one and the integer test none |
| PatternLaws.ClockShapesNoAt | src/lib/services/patternDetector.ts:25-81 | timestamps, dates and times of day hold no `@` |
| PatternLaws.EmailChars | src/lib/services/patternDetector.ts:60 | an accepted address holds an `@` and no `:` |
| PatternLaws.UrlChars | src/lib/services/patternDetector.ts:67 | an accepted URL starts `ht…` and has its `:` at position 4 or 5 |
| PatternLaws.DateShapesDistinct | src/lib/services/patternDetector.ts:25-46 | the ISO, Grafana, date-time and date tests refuse each other's strings |
| PatternLaws.DateShapesExclude | src/lib/services/patternDetector.ts:25-95 | a timestamp or date is refused by every later test |
| PatternLaws.UuidExcludes | src/lib/services/patternDetector.ts:53-95 | a UUID is refused by every later test |
| PatternLaws.EmailExcludes | src/lib/services/patternDetector.ts:60-95 | an address is refused by every later test |
| PatternLaws.UrlExcludes | src/lib/services/patternDetector.ts:67-95 | a URL is refused by every later test |
| PatternLaws.NumericExcludes | src/lib/services/patternDetector.ts:74-95 | an IPv4 address, a time of day and an integer are each refused by every later test |
| PatternLaws.RefusedByLater | src/lib/services/patternDetector.ts:20-98 | a test refuses every string an earlier test accepts |
| PatternLaws.AcceptsUnique | src/lib/services/patternDetector.ts:20-98 | no string passes two different tests |
| PatternDetector.EscapeRegex | src/lib/services/patternDetector.ts:103-105 | escaping never shortens the text |
| PatternDetector.EscapeRegexLength | src/lib/services/patternDetector.ts:103-105 | the escaped text is one character longer per metacharacter `. * + ? ^ $ { } ( ) \| [ ] \` |
| PatternDetector.UnescapeEscapeRegex | src/lib/services/patternDetector.ts:103-105 | reading the escaped text as identity escapes gives the input back |
| PatternDetector.EscapeRegexAppend | src/lib/services/patternDetector.ts:103-105 | escaping works character by character: it distributes over concatenation |
| PatternDetector.EscapeRegexPlain | src/lib/services/patternDetector.ts:103-105 | text without metacharacters is left as it is |
| PatternDetector.FirstAccepting | src/lib/services/patternDetector.ts:116-124 | the index found accepts and every earlier test refuses; none is found only when every test refuses |
| PatternDetector.FirstAcceptingAt | src/lib/services/patternDetector.ts:116-124 | a test that accepts after a run of refusals is the one found |
| PatternDetector.DetectPatternTrimmed | src/lib/services/patternDetector.ts:113 | detection depends only on the trimmed example |
| PatternDetector.DetectPatternFirstMatch | src/lib/services/patternDetector.ts:116-124 | the detected type is the `i`-th matcher's name exactly when its test is the first to accept the trimmed example, and the result is then that matcher's pattern, name and description |
| PatternDetector.DetectPatternLiteral | src/lib/services/patternDetector.ts:126-132 | the type is `"literal"` exactly when no test accepts, and the result is then the escaped trimmed example with flag `g` and description `"Exact match"` |
| PatternLaws.DetectAccepted | src/lib/services/patternDetector.ts:112-133 | a trimmed example that a test accepts is classified by that test's matcher |
| PatternDetector.GetAvailablePatternTypes | src/lib/services/patternDetector.ts:138-143 | one entry per matcher, in matcher order (entry i is the name and description of the i-th matcher): every matcher's name and description is listed, the names are pairwise distinct and none is `literal` |
| PatternDetector.DetectPatternListed | src/lib/services/patternDetector.ts:112-143 | the detected type is one of the listed pattern types, with its description, or `"literal"` |
| PatternLaws.TrimUnpadded | src/lib/services/patternDetector.ts:113 | a string with no white space at either end is its own trim |
| PatternLaws.IsoTimestampSampleShape | src/lib/services/patternDetector.ts:25 | example: `"2024-01-15T10:30:00.123Z"` has the ISO shape |
| PatternLaws.DetectIsoTimestampSample | src/lib/services/patternDetector.ts:25 | example: `"2024-01-15T10:30:00.123Z"` is detected as iso_timestamp |
| PatternLaws.DetectIntegerSample | src/lib/services/patternDetector.ts:88 | example: `"42"` is detected as integer, not decimal |
| PatternLaws.DecimalSampleShape | src/lib/services/patternDetector.ts:95 | example: `"3.14"` has the decimal shape |
| PatternLaws.DetectDecimalSample | src/lib/services/patternDetector.ts:95 | example: `"3.14"` is detected as decimal |
| PatternLaws.DetectIpv4Sample | src/lib/services/patternDetector.ts:74 | example: `"192.168.1.1"` is detected as ipv4 |
| TemplateStore.NewTemplate | src/lib/stores/templateStore.ts:31-38 | the created template carries the given fields, the fresh id, the two clock readings as `createdAt` and `updatedAt`, and usage count 0 |
| TemplateStore.TemplateStore.Create | src/lib/stores/templateStore.ts:31-42 | create appends exactly the new template at the end and returns its id |
| TemplateStore.Merge | src/lib/stores/templateStore.ts:50-52 | the merged template is stamped with the update time |
| TemplateStore.MergeNoChanges | src/lib/stores/templateStore.ts:50-52 | merging `{}` only stamps the time |
| TemplateStore.MergeCombine | src/lib/stores/templateStore.ts:50-52 | two merges in a row are one merge of the combined partial objects, later keys winning |
| TemplateStore.MergeIdempotent | src/lib/stores/templateStore.ts:50-52 | repeating an update with the same partial object and time changes nothing more |
| TemplateStore.UpdateById | src/lib/stores/templateStore.ts:47-55 | update keeps the length and order, merges exactly the templates with the id, and leaves the others as they are |
| TemplateStore.TemplateStore.Update | src/lib/stores/templateStore.ts:47-55 | the store's list becomes the updated list |
| TemplateStore.UpdateKeepsIds | src/lib/stores/templateStore.ts:47-55 | an update that does not set `id` keeps every id in place |
| TemplateStore.UpdateTwice | src/lib/stores/templateStore.ts:47-55 | two updates of one id are one update with the combined partial object |
| TemplateStore.DeleteById | src/lib/stores/templateStore.ts:60-62 | delete keeps exactly the templates with another id, in order |
| TemplateStore.DeleteCount | src/lib/stores/templateStore.ts:60-62 | delete removes as many templates as carry the id |
| TemplateStore.TemplateStore.Delete | src/lib/stores/templateStore.ts:60-62 | the store's list becomes the list without the id |
| TemplateStore.DeleteCreated | src/lib/stores/templateStore.ts:31-62 | deleting a freshly created template gives back the list before the create |
| TemplateStore.DeleteMissing | src/lib/stores/templateStore.ts:60-62 | deleting an id no template carries changes nothing |
| TemplateStore.ToggleStarById | src/lib/stores/templateStore.ts:67-75 | toggleStar flips `starred` exactly on the templates with the id, stamps them, and leaves the others as they are |
| TemplateStore.TemplateStore.ToggleStar | src/lib/stores/templateStore.ts:67-75 | the store's list becomes the toggled list |
| TemplateStore.ToggleStarTwice | src/lib/stores/templateStore.ts:67-75 | toggling twice restores every star; only the matching templates' `updatedAt` moves |
| TemplateStore.IncrementUsageById | src/lib/stores/templateStore.ts:80-86 | incrementUsageCount adds 1 to the usage count of the templates with the id, keeps `updatedAt`, and changes nothing else |
| TemplateStore.TemplateStore.IncrementUsageCount | src/lib/stores/templateStore.ts:80-86 | the store's list becomes the incremented list |
| TemplateStore.IncrementTotalUsage | src/lib/stores/templateStore.ts:80-86 | the total usage grows by the number of templates carrying the id |
| TemplateStore.IndexOfId | src/lib/stores/templateStore.ts:92 | the position of the first template with the id, or the length when there is none |
| TemplateStore.FindById | src/lib/stores/templateStore.ts:91-93 | getById finds nothing exactly when no template has the id, and otherwise finds the first one that has it |
| TemplateStore.FindCreated | src/lib/stores/templateStore.ts:31-42 | a created template is found under its fresh id |
| TemplateStore.Search | src/lib/stores/templateStore.ts:98-111 | a blank query returns every template; otherwise exactly those whose lower-cased name, description or a tag contains the lower-cased query, as a subsequence that keeps each one's multiplicity |
| TemplateStore.SearchNarrows | src/lib/stores/templateStore.ts:98-111 | a query containing another finds no template the shorter one misses |
| TemplateStore.FilterByCategory | src/lib/stores/templateStore.ts:116-122 | `""` returns every template; otherwise exactly the templates of that category, as a subsequence that keeps each one's multiplicity |
| TemplateStore.CategoryListed | src/lib/stores/templateStore.ts:116-136 | a category is collected exactly when it is non-empty and filtering by it finds a template |
| TemplateStore.TemplateStore.GetCategories | src/lib/stores/templateStore.ts:127-136 | getCategories returns the present non-empty categories, each once, sorted by UTF-16 code unit |
| TemplateStore.Copy | src/lib/stores/templateStore.ts:147-155 | the duplicate has the original's fields, the name with `" (Copy)"`, no star, the fresh id, the two clock readings as `createdAt` and `updatedAt`, and usage count 0 |
| TemplateStore.TemplateStore.Duplicate | src/lib/stores/templateStore.ts:141-159 | a missing id changes nothing and returns nothing; otherwise the copy of the first match is appended and its id returned |
| TemplateStore.CountId | src/lib/stores/templateStore.ts:61 | the number of templates carrying an id is at most the list's length |
| TemplateStore.StarredTemplates | src/lib/stores/templateStore.ts:176-178 | the view holds exactly the starred templates with their multiplicities, ordered by usage count descending, ties in list order |
| TemplateStore.MostUsedFirst | src/lib/stores/templateStore.ts:177 | a list sorted by the comparator `b.usageCount - a.usageCount` has non-increasing usage counts |
| TemplateStore.Touch | src/lib/stores/templateStore.ts:198-207 | add puts the new entry first and keeps at most 10 entries |
| TemplateStore.TouchSpec | src/lib/stores/templateStore.ts:198-207 | behind the new entry come the newest entries of other ids, a prefix of the old list without that id, and an entry is dropped only when the list is at its cap |
| TemplateStore.TouchUnique | src/lib/stores/templateStore.ts:198-207 | add keeps the ids of the recent list distinct |
| TemplateStore.TouchTwice | src/lib/stores/templateStore.ts:198-207 | adding an id twice is adding it once, at the later time |
| TemplateStore.RecentStore.Add | src/lib/stores/templateStore.ts:198-207 | the recent list becomes the touched list |
| TemplateStore.RecentStore.Clear | src/lib/stores/templateStore.ts:212-214 | clear empties the recent list |
| TemplateStore.RecentTemplates | src/lib/stores/templateStore.ts:223-230 | the view keeps the recent order, drops the ids no template carries, and shows for each id the first template with it |
| DiffGenerator.OriginalSide | src/lib/services/diffGenerator.ts:91-95 | the original side has one entry per original line |
| DiffGenerator.TransformedSide | src/lib/services/diffGenerator.ts:97-101 | the transformed side has one entry per transformed line |
| DiffGenerator.GenerateSimpleDiff | src/lib/services/diffGenerator.ts:87-120 | generateSimpleDiff returns the two sides, each split into lines and marked by index |
| DiffGenerator.MarkChanges | src/lib/services/diffGenerator.ts:91-119 | the arrays start all `unchanged`, and the loop up to the longer length marks them: past either end the line is `added` or `removed`, and at a shared index unequal lines are `removed` and `added` |
| DiffGenerator.SimpleDiffRestoresTexts | src/lib/services/diffGenerator.ts:88-101 | joining each side's contents gives its text back, and line `i` carries number `i + 1` |
| DiffGenerator.SimpleDiffSidesAgree | src/lib/services/diffGenerator.ts:104-114 | the original side is never `added` and the transformed side never `removed`; an index is `unchanged` on one side exactly when it is on the other, with the same content |
| DiffGenerator.SimpleDiffIdentical | src/lib/services/diffGenerator.ts:87-141 | comparing a text with itself marks every line `unchanged`, with no additions or removals in the statistics |
| DiffGenerator.SimpleDiffSwap | src/lib/services/diffGenerator.ts:87-120 | diffing the other way round swaps the sides and trades `added` for `removed` |
| DiffGenerator.CountKind | src/lib/services/diffGenerator.ts:137-139 | a filter-and-count never exceeds the list's length |
| DiffGenerator.CountKindsPartition | src/lib/services/diffGenerator.ts:137-139 | the three counts of a side add up to its length |
| DiffGenerator.GetDiffStats | src/lib/services/diffGenerator.ts:133-141 | the line counts are the side lengths; `added + unchanged` is at most the transformed count and `removed` at most the original count |
| DiffGenerator.UnchangedCountsAgree | src/lib/services/diffGenerator.ts:137-139 | sides whose `unchanged` marks agree index by index have equal `unchanged` counts |
| DiffGenerator.SimpleDiffStatsBalance | src/lib/services/diffGenerator.ts:104-141 | for a simple diff, `added + unchanged` is the transformed line count and `removed + unchanged` the original line count |

## Left out

- The regular-expression engine is not interpreted. Whether `new RegExp(pattern, flags)` compiles, and what `text.replace` returns, are the two functions of a `RegexHost` parameter.
- The scanning `/g` `RegExp` objects of the pattern matchers are kept as data: their source text and flags. They are shared objects with a `lastIndex`, and nothing in the core scans with them.
- Case conversion and trimming follow ASCII letters and the ECMAScript white-space set over code units. Unicode case mapping and locale rules are not modelled.
- A string is a sequence of Unicode scalar values. JavaScript strings may also hold lone surrogates, which a Dafny `char` cannot; the sort order splits each scalar value above U+FFFF into its UTF-16 surrogate pair.
- Numbers (`order`, `value`, `usageCount`) are integers. Fractions, `NaN` and the floating-point subtraction in the sort comparators are not modelled.
- TransformEngine.IndentText: requires a non-negative count. `' '.repeat` throws a `RangeError` for a negative count, and the model excludes that call rather than raising it.
- The capture, capture-replace, insert-captured and JSON-beautify types are declared but have no case in the engine's switch. They pass the text through, as the switch's `default` does. The capture context and JSON printing are not part of the engine.
- The string `value` of wrap_code_block, add_prefix and add_suffix is always present. The source turns a missing language into `''`, but a missing prefix or suffix would be printed as `"undefined"`. That case is not modelled.
- The `console.error` logging in `applyTransformations` is output only and is not modelled.
- `getTransformationName` looks up an object literal. Prototype keys such as `"constructor"` are not modelled.
- `generateDiff` wraps the `diff-match-patch` library and is not part of this model.
- Persistence is not modelled: the `subscribe` auto-save to browser storage, `loadTemplates`, `reset` and its `require`.
- `Date.now()`, `Math.random()` and `new Date().toISOString()` are not modelled. Fresh ids and timestamps are method parameters. `update` and `toggleStar` read the clock once per matching template inside `map`; the model stamps every matching template with one reading per call, which differs only when several templates share an id.
- TemplateStore.Merge: a partial object that sets a required field to `undefined` is not modelled. For the optional fields, an absent key and a key set to `undefined` are both modelled.
- The store's queries (`getById`, `search`, `filterByCategory`) and the derived stores are functions of the list. The store's reactive subscription is not modelled.
- DiffGenerator.MarkChanges: a `DiffLine` is a value in an array. Mutating the `type` field of a shared object is modelled as storing an updated value.
- The optional `lineNumber` of a `DiffLine` is always present, since `generateSimpleDiff` always sets it.
