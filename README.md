# Research-paper model parser, modelled in Dafny

This project models `parseModels` in `lib/parser.ts`. That function takes the
unstructured text of a research paper and turns it into one `ModelData`
record for each language model the text mentions. The pipeline has five
steps, and each one is modelled:

1. **Detection.** Each model-family pattern in the bank is run over the whole
   text. Every match is normalised to a display name: trimmed, with each
   white-space run turned into one space. It is also keyed by a canonical key:
   lower-cased, with white space and hyphens removed. For each key, the
   earliest mention is kept.
2. **Segmentation.** The kept mentions are sorted by position. Each one gets a
   text window. The window starts 100 characters before the mention. It ends
   at the next mention or, for the last mention, 1500 characters after it.
3. **Deduplication.** A second pass over the windows, by the same key, keeps
   the longer window.
4. **Extraction.** Each window yields these fields:
   - the parameter count, from eight strategies tried in order;
   - the MMLU, HumanEval and GSM8K scores, each from three patterns, with an
     optional shot count;
   - the memory footprint, stated in the text or estimated from the count;
   - a compression sentence;
   - a best use case;
   - a one-line summary.
5. **Ordering.** The records are sorted by parameter count, descending, with
   the engine's stable sort.

Most of the source's regular expressions are built around a model name or a
benchmark label. These are not re-implemented. They are matched by a `Regex`
engine passed in as a parameter: `first` stands for `String.prototype.match`
and `scan` for repeated global `exec`. The model fixes which pattern is asked
for, in which order, and what is done with each answer. Every property below
holds for any engine. Three patterns involve no name and are written out in
full:
- `([\d.]+)\s*[Bb]`;
- `([\d.]+)\s*[Mm]`;
- the shot-count search `LABEL[^.]*?(\d+)-shot`.

JavaScript numbers are modelled as `Num`, which is either a real value or
`NaN`. `parseFloat` and `parseInt` are modelled on the digit-and-dot strings
the patterns capture.

Modules, one file each:
- `Text`: white space as ECMAScript defines it, `trim`, the `/\s+/g`
  collapse, the canonical key, ASCII `toLowerCase`, `includes`, `slice` and
  `join`.
- `Numbers`: `parseFloat`, `parseInt`, rounding, and decimal rendering.
- `StableSort`: `Array.prototype.sort` as a stable insertion order.
- `Patterns`: the pattern bank, the engine interface, and the hand-written
  matchers.
- `ModelTypes`: the output record.
- `Detection`: the first-mention map.
- `Segmentation`: `findModelChunks`.
- `Extractors`: parameter count, benchmarks, memory and compression.
- `Inference`: `inferBestUseCase` and `buildOneLiner`.
- `Parser`: `parseModels`.

## Model

| member | source | states |
|---|---|---|
| Text.Normalize | lib/parser.ts:42-44 | A normalised name has no white space at either end. Every white-space character in it is a plain space, and no two are adjacent. A name already in that form comes back unchanged. |
| Text.NormalizeKeepsNonSpaces | lib/parser.ts:42-44 | Normalising keeps every character that is not white space, in its order. |
| Text.Collapse | lib/parser.ts:43 | The collapsed text is no longer than the input, is empty exactly when the input is, and starts with white space exactly when the input does. |
| Text.CollapseAppend | lib/parser.ts:43 | Collapsing splits at any point that follows a non-space: the collapse of the whole is the collapse of each side, concatenated. |
| Text.CollapseBetweenWords | lib/parser.ts:43 | A white-space run between a non-space and a non-space (or the end) becomes exactly one space; it neither disappears nor keeps several characters. |
| Text.NormalizeBetweenWords | lib/parser.ts:42-44 | Normalising two trimmed words separated by any white-space run gives their normal forms joined by one space, so "a\tb" becomes "a b". |
| Text.TrimStart | lib/parser.ts:43 | Trimming the front leaves a suffix of the input that is empty or starts with a non-space. |
| Text.TrimEnd | lib/parser.ts:233 | Trimming the back leaves a prefix of the input that is empty or ends with a non-space. |
| Text.NormalizeIdempotent | lib/parser.ts:42-44 | Normalising a normalised name changes nothing. |
| Text.CanonicalKey | lib/parser.ts:57 | The key is the lower-cased name with its white space and hyphens removed, the remaining characters kept in order. So it is no longer than the name and contains no white space, no hyphen and no upper-case ASCII letter. |
| Text.CanonicalKeyOfNormalize | lib/parser.ts:56-57 | Normalising a name never changes its key, so keying the normalised name finds the same model as keying the raw capture. |
| Text.CanonicalKeyOfCollapse | lib/parser.ts:43 | Collapsing white-space runs leaves the key unchanged. |
| Text.CollapseSingleSpaced | lib/parser.ts:43 | After `replace(/\s+/g, " ")`, every white-space character is a space, and no two are adjacent. |
| Text.CollapseLast | lib/parser.ts:43 | Collapsing keeps a trailing non-space character. A trailing white-space run becomes a single space. |
| Text.CollapseKeepsSingleSpaced | lib/parser.ts:43 | Collapsing a single-spaced text returns it unchanged. |
| Text.TrimStartStripsSpaces | lib/parser.ts:43 | What `trim` removes at the front is white space only. |
| Text.TrimEndStripsSpaces | lib/parser.ts:43 | What `trim` removes at the back is white space only. |
| Text.Trim | lib/parser.ts:233 | The trimmed text is no longer than the input and has no white space at either end. |
| Text.Includes | lib/parser.ts:252 | `includes` is true exactly when the word occurs at some position of the text. |
| Text.InstructionImpliesInstruct | lib/parser.ts:271 | A text containing "instruction" also contains "instruct". |
| Text.Join | lib/parser.ts:323 | Joining no parts gives the empty string, and joining one part gives that part. A longer join starts with its first part. |
| Text.JoinSnoc | lib/parser.ts:323 | Appending a part to a non-empty list appends the separator and that part to the join. |
| Text.Slice | lib/parser.ts:81 | Within bounds, `slice(start, end)` is the characters from start up to end. An end past the length is clamped to it. Crossed bounds give the empty string. The result is never longer than the text. |
| Numbers.ParseFloat | lib/parser.ts:112 | `parseFloat` is NaN exactly when the text does not start a number; otherwise the value is non-negative. |
| Numbers.ParseInt | lib/parser.ts:170 | `parseInt` is NaN exactly when the text does not start with a digit; otherwise the value is a non-negative integer. |
| Numbers.ParseFloatOfNat | lib/parser.ts:300 | Parsing the decimal rendering of a natural number gives that number back. |
| Numbers.ParseFloatOfTenths | lib/parser.ts:298 | Parsing a one-decimal rendering gives back the number of tenths divided by ten. |
| Numbers.Round | lib/parser.ts:215-217 | `Math.round` lands within half a unit of its argument, with halves rounded up. |
| Numbers.RoundMonotone | lib/parser.ts:215-217 | Rounding preserves order. |
| StableSort.OrderStable | lib/parser.ts:68-70 | Whatever the comparator, every inversion of the input order is one the comparator asked for. |
| StableSort.OrderSorted | lib/parser.ts:68-70 | With a consistent comparator, no element is placed after one the comparator wants after it. |
| StableSort.PermutationFacts | lib/parser.ts:68-70 | The sort order holds each position below n exactly once. |
| Patterns.NumberBeforeUnit | lib/parser.ts:106 | `([\d.]+)\s*[Bb]` captures a non-empty run of digits and dots. It fails exactly when no position holds such a run followed by optional white space and the unit. |
| Patterns.NumberBeforeUnitTakesWholeRun | lib/parser.ts:106 | The capture starts at the beginning of a digit-and-dot run, never inside one. |
| Patterns.FirstUnitAt | lib/parser.ts:106 | The match found is the leftmost one. |
| Patterns.ShotsAfter | lib/parser.ts:173-177 | The search fails exactly when no position holds the label followed by a shot count before any full stop. When it succeeds the capture is a non-empty run of digits. |
| Patterns.ShotsAfterLeftmost | lib/parser.ts:173-177 | The capture is the shot count after the leftmost label occurrence that has one. |
| Patterns.ShotSearch | lib/parser.ts:173-175 | The search returns the first label position, from the starting point on, that is followed by a shot count. It returns nothing exactly when no such position exists. |
| Patterns.ShotFrom | lib/parser.ts:174 | `[^.]*?(\d+)-shot` finds the nearest shot count that comes before any full stop. It finds nothing exactly when no shot count precedes the first full stop. |
| Detection.MentionOf | lib/parser.ts:57-58 | A mention's name is `Normalize` of the match's group 1. It is keyed by that name's canonical key and carries the match index. |
| Detection.MentionFromScan | lib/parser.ts:53-58 | Every mention is the mention of a match that the scan of one of the patterns yields. |
| Detection.Mentions | lib/parser.ts:53-63 | Every mention the scan yields has a normalised name, keyed by its canonical key. |
| Detection.Lookup | lib/parser.ts:59 | `found.get(key)` returns the entry with that key, or nothing when no entry has it. |
| Detection.FoldSummarizes | lib/parser.ts:53-63 | The map has one entry per key; every entry is a mention; every key mentioned has an entry at its smallest index; when two mentions of a key share that index, the earlier one is kept. |
| Detection.FoldDistinct | lib/parser.ts:59-61 | No two entries of the map share a key. |
| Detection.FoldEmpty | lib/parser.ts:65 | The map is empty exactly when nothing was mentioned. |
| Detection.RememberStep | lib/parser.ts:59-61 | Recording one match keeps the map a summary of every mention seen so far. |
| Segmentation.FindModelChunks | lib/parser.ts:50-86 | The loop over the pattern bank and its matches builds the first-mention map, then sorts and segments it, producing exactly `ModelChunks`. |
| Segmentation.RecordAll | lib/parser.ts:55-62 | Recording a pattern's matches one by one gives the map of all mentions seen so far followed by these matches. |
| Segmentation.Record | lib/parser.ts:59-61 | One `found.set` step is the map update `Remember`. |
| Segmentation.SortByPosition | lib/parser.ts:68-70 | The entries come back in the sort order by index. |
| Segmentation.ByPositionMembers | lib/parser.ts:68-70 | Sorting by position keeps exactly the map's entries, with distinct keys. |
| Segmentation.ByPositionSorted | lib/parser.ts:68-70 | Entries are in ascending index order. Equal indices keep the map's insertion order. |
| Segmentation.Segment | lib/parser.ts:72-83 | The chunk loop produces exactly the window of each entry. |
| Segmentation.WindowStart | lib/parser.ts:74 | The window starts at most 100 characters before the mention, and exactly 100 unless it is clamped to the start of the text. |
| Segmentation.WindowEnd | lib/parser.ts:75-78 | The window ends at the next mention. For the last mention it ends at the smaller of the text length and the mention plus 1500. |
| Segmentation.Windows | lib/parser.ts:73-83 | There is one chunk per entry, in order, each carrying its entry's name. |
| Segmentation.WindowFacts | lib/parser.ts:74-81 | A chunk has its entry's name. Its text is `text.slice(start, end)` with both bounds clamped. It begins at most 100 characters before the mention. The last chunk has at most 1600 characters. |
| Segmentation.ModelChunksFacts | lib/parser.ts:50-86 | No chunks come out exactly when nothing was mentioned. Chunk names are normalised and have pairwise distinct keys. Every mentioned key has a chunk. |
| Segmentation.ChunkFromScan | lib/parser.ts:53-83 | Every chunk's name is the normalised group 1 of a match that the scan of one of the family patterns yields. |
| Segmentation.ChunksCover | lib/parser.ts:59-83 | Every mention is represented by a chunk with its key. |
| Extractors.FirstOf | lib/parser.ts:109-114 | The first strategy that answers decides. The result is none only when every strategy fails. |
| Extractors.Group1 | lib/parser.ts:111 | `match?.[1]` is truthy exactly when the pattern matches with a non-empty group 1. |
| Extractors.CountSources | lib/parser.ts:93-136 | There are eight strategies. The six readings of the chunk come before the two readings of the name. Each bare unit letter is scaled by the unit it names. Within the chunk and within the name, billions are tried before millions. |
| Extractors.CountNonNegative | lib/parser.ts:106-112 | Whichever strategy answers, a count that is a number is not negative. |
| Extractors.ExtractParamCount | lib/parser.ts:88-139 | The count is never negative. It is 0 when none of the eight strategies captures. |
| Extractors.ParamCountFromFirstCapture | lib/parser.ts:109-136 | The first capturing strategy decides: the count is its capture parsed and scaled by 1e9 or 1e6. |
| Extractors.ParamCountFromName | lib/parser.ts:127-131 | When no text pattern matches, "Llama 3.1 8B" yields 8e9 from the name. |
| Extractors.ParamCountCanBeNaN | lib/parser.ts:106-112 | A chunk reading ". B" captures "." and yields a NaN count. |
| Extractors.ScoreInRange | lib/parser.ts:163-167 | Whichever pattern answers, its score is in (0, 100]. |
| Extractors.ExtractBenchmark | lib/parser.ts:141-186 | A score found is in (0, 100]. None comes back exactly when no pattern yields an in-range score. |
| Extractors.OutOfRangeFallsThrough | lib/parser.ts:165-167 | A first-pattern score above 100 is skipped, and the remaining patterns decide. |
| Extractors.BenchmarkFromFirstInRange | lib/parser.ts:163-181 | The first pattern with an in-range score decides: the result is that score and its shot count. |
| Extractors.Shots | lib/parser.ts:169-179 | With a non-empty shot group the count is `parseInt` of that group. Otherwise a count is present exactly when the nearby search finds one, and it is then that capture read as an integer, never NaN. |
| Extractors.ExplicitMemory | lib/parser.ts:199-211 | A footprint is stated exactly when its pattern captures. |
| Extractors.Estimate | lib/parser.ts:215-217 | The estimate lies within 0.05 GB of count times bytes per parameter. |
| Extractors.MemoryField | lib/parser.ts:209-217 | A stated figure is used as it is. A field is null exactly when nothing is stated and the count is not positive. |
| Extractors.ExtractMemory | lib/parser.ts:188-221 | The three fields are those of `MemoryOf`. |
| Extractors.StatedMemoryKept | lib/parser.ts:209-215 | A stated footprint is never overwritten by an estimate. |
| Extractors.MemoryEstimated | lib/parser.ts:214-218 | With a positive count, every field is filled, and a missing one is estimated to within 0.05 GB. |
| Extractors.MemoryUnknown | lib/parser.ts:214 | Without a positive count, a field not stated stays null. |
| Extractors.EstimatesOrdered | lib/parser.ts:215-217 | For a positive count, the FP16 estimate is at least the INT8 one, which is at least the INT4 one. |
| Extractors.Truncate | lib/parser.ts:235 | A text of up to 200 characters is kept. A longer one becomes its first 200 characters plus "...". |
| Extractors.Capitalize | lib/parser.ts:237 | Only the first character changes, to its upper case. |
| Extractors.Clean | lib/parser.ts:233-237 | The match is trimmed, truncated to 200 characters plus an ellipsis, and capitalised. In both cases the first character is the upper case of the trimmed text's first character. |
| Extractors.CompressionIsCleaned | lib/parser.ts:230-239 | Whichever pattern answers, the cleaned sentence has at most 203 characters. |
| Extractors.ExtractCompression | lib/parser.ts:223-243 | The result has at most 203 characters. It is null exactly when no pattern matches non-empty text. |
| Extractors.CompressionFromFirstMatch | lib/parser.ts:230-239 | The first pattern that matches decides, and its match is cleaned. |
| Inference.IncludesAny | lib/parser.ts:252 | The text includes one of the words exactly when some word occurs in it. |
| Inference.InferBestUseCase | lib/parser.ts:245-285 | "coding" needs HumanEval above 60 and "reasoning" needs GSM8K above 70. "chat", "instruction-following" and "multilingual" each need a keyword. "general-purpose" needs HumanEval at most 60, GSM8K at most 80, and no chat, instruction or language keyword. |
| Inference.CodingRule | lib/parser.ts:252-258 | A code keyword with HumanEval above 60 gives "coding", whatever else holds. |
| Inference.ReasoningRule | lib/parser.ts:261-265 | When the coding rule does not fire, a math keyword with GSM8K above 70 gives "reasoning". |
| Inference.InstructionRule | lib/parser.ts:271-273 | When neither score-backed keyword rule fires and there is no chat keyword, an instruction keyword gives "instruction-following". |
| Inference.MultilingualRule | lib/parser.ts:275-277 | When no earlier rule fires, a language keyword gives "multilingual". |
| Inference.ScoreRules | lib/parser.ts:279-284 | When no keyword rule fires, the result is "coding" if HumanEval > 60, else "reasoning" if GSM8K > 80, else "general-purpose". |
| Inference.ChatPriority | lib/parser.ts:252-269 | With a chat keyword, the result is "chat" unless the coding or reasoning rule fires first. |
| Inference.ReasoningWithoutKeyword | lib/parser.ts:261-281 | Without a math keyword, "reasoning" comes back exactly when no later keyword matches, HumanEval is not above 60, and GSM8K is above 80. |
| Inference.ScoresAlone | lib/parser.ts:279-284 | Without any keyword, the result is "coding" if HumanEval > 60, else "reasoning" if GSM8K > 80, else "general-purpose". |
| Inference.MMLUIgnored | lib/parser.ts:282-284 | The MMLU score never changes the use case. |
| Inference.InstructWordsReduce | lib/parser.ts:271 | The two instruction keywords together act as "instruct" alone. |
| Inference.CountNumber | lib/parser.ts:296-301 | A positive count renders as a string starting with a digit. |
| Inference.CountNumberBillions | lib/parser.ts:298 | A count of at least 1e9 is shown in billions, within 0.05 of the exact figure. |
| Inference.CountNumberMillions | lib/parser.ts:300 | A count between 1e6 and 1e9 is shown in millions, within 0.5 of the exact figure. |
| Inference.Strengths | lib/parser.ts:314-317 | "knowledge", "code" and "math" are listed exactly when MMLU > 70, HumanEval > 50 and GSM8K > 70 respectively. No other word is listed, none twice, and always in the order knowledge, code, math. |
| Inference.CollectStrengths | lib/parser.ts:314-317 | The pushes build exactly `Strengths`. |
| Inference.BuildOneLiner | lib/parser.ts:287-324 | The summary is the join of `SummaryParts` with ", ". |
| Inference.CountUnit | lib/parser.ts:297-301 | The unit is "B" exactly from 1e9 up, "M" exactly from 1e6 below 1e9, and empty below 1e6. |
| Inference.Opening | lib/parser.ts:295-305 | Without a positive count the opening is "Model". With one, it ends in " parameter model" after a non-empty count. |
| Inference.SummaryOpening | lib/parser.ts:295-305 | Without a positive count the summary starts with "Model". With one, it starts with a digit. |
| Inference.BareSummary | lib/parser.ts:303-323 | With no positive count, no context window and no strength, the summary is exactly "Model". |
| Inference.SummaryShape | lib/parser.ts:307-321 | There is one part, plus one for a context window and one when some strength is listed. The first part is the opening. A context window is the second part: the captured group followed by "K context". With strengths, the last part is "strong on " and the strengths joined by ", ". |
| Parser.Keep | lib/parser.ts:336-340 | A new key appends the chunk at the end. A known key keeps the list length, and the chunk held under it is the longer of the old one and the new one. Chunks under other keys are untouched. |
| Parser.KeepKeys | lib/parser.ts:336-340 | One step keeps the keys distinct and holds only chunks it was given. |
| Parser.FindKey | lib/parser.ts:337 | `deduped.get(key)` finds the entry with that key, or nothing. |
| Parser.DedupKeys | lib/parser.ts:335-341 | After deduplication, keys are distinct and every kept chunk is an input chunk. |
| Parser.DedupDistinct | lib/parser.ts:335-341 | When the keys are already distinct, deduplication is the identity. |
| Parser.LongerReplaces | lib/parser.ts:338 | Of two chunks with the same key, the strictly longer window wins. |
| Parser.ModelChunksDistinct | lib/parser.ts:335-341 | The detected chunks already have distinct keys, so the second pass keeps all of them. |
| Parser.RecordOf | lib/parser.ts:345-367 | A record carries its chunk's name. |
| Parser.BuildRecord | lib/parser.ts:346-367 | The record built in the loop is `RecordOf`. |
| Parser.BuildRecords | lib/parser.ts:343-368 | The loop builds one record per deduplicated chunk, in order. |
| Parser.DedupChunks | lib/parser.ts:335-341 | The deduplication loop computes `Dedup`. |
| Parser.SortRecords | lib/parser.ts:371 | The sort call computes `SortByCount`. |
| Parser.SortByCount | lib/parser.ts:371 | The sorted records are a rearrangement of the input. |
| Parser.SortByCountDescending | lib/parser.ts:371 | When no count is NaN, no record is followed by one with a greater count. |
| Parser.SortByCountStable | lib/parser.ts:371 | In the model's stable order, a record is placed ahead of an earlier one only when its count is strictly greater. With no NaN count this is the order the comparator fixes; with a NaN count it is the model's choice (see "Left out"). |
| Parser.SortByCountKeepsAll | lib/parser.ts:371 | Every record appears in the sorted result. |
| Parser.ParseModels | lib/parser.ts:329-374 | The whole pipeline computes `ParseResult`. |
| Parser.ParseResultEmpty | lib/parser.ts:332 | No records come back exactly when no model is mentioned. |
| Parser.ParseResultRecords | lib/parser.ts:343-371 | There is exactly one record per detected chunk, each built from its chunk. |
| Parser.ParseResultNames | lib/parser.ts:329-374 | No two records have names with the same key. |
| Parser.ParseResultDescending | lib/parser.ts:371 | When no count is NaN, the records come back in descending parameter count. |

## Left out

- The regular-expression engine is not modelled. The family patterns, the
  name- and label-anchored count, score, memory, compression and context
  patterns, and the escaping of names into patterns (lib/parser.ts:90,145)
  are all supplied by the `Regex` parameter. No property depends on what it
  returns.
- Restarting each pattern's scan (`lastIndex = 0`) is modelled by `scan`
  returning the global matches over the whole text.
- `toLowerCase` and the upper-casing of the first letter cover the ASCII
  letters only. Unicode case mapping is not modelled.
- JavaScript doubles are modelled as exact reals plus `NaN`. Overflow,
  infinities and rounding error are not modelled.
- `Array.prototype.sort` is modelled as a stable insertion order over
  positions, not as the engine's algorithm. Its order is proved sorted only
  when no parameter count is NaN. With a NaN count the comparator at
  lib/parser.ts:371 is inconsistent, and ECMAScript leaves the resulting
  order implementation-defined. The model's order is then one stable choice
  among them, and an engine's merge-and-insertion sort can place records
  differently (a record can move ahead of a NaN record it does not beat).
  Only the permutation is a promise of the program in that case.
- Inference.CountNumber: a positive count below 1e6 is rendered with its
  integer part only. JavaScript's `${paramCount}` would also print a
  fraction.
- Inference.InferBestUseCase: the ensures give the conditions each answer
  needs, which are necessary but not sufficient. Sufficiency is stated rule by
  rule in separate lemmas: CodingRule, ReasoningRule, ChatPriority,
  InstructionRule, MultilingualRule and ScoreRules.
- Lengths and positions count Unicode characters. JavaScript counts UTF-16
  code units in `text.length`, `match.index` and `slice`
  (lib/parser.ts:74-81), in the 200-character test and cut
  (lib/parser.ts:235) and in the window-length comparison
  (lib/parser.ts:338). Text outside the Basic Multilingual Plane therefore
  shifts window bounds, the 1600 cap and the 200-character cut, and a cut
  in JavaScript can split a surrogate pair.
- The `modelName` argument of `buildOneLiner` (lib/parser.ts:288) is never
  read by the source. `Inference.BuildOneLiner` takes it and ignores it too.
- `ModelData` field names and JSON rendering are not modelled. The API
  route, UI components and file upload are not part of this model.
- The second branch of the deduplication test (lib/parser.ts:338) never
  fires on `findModelChunks` output, because keys are already distinct.
  This is proved by Parser.ModelChunksDistinct rather than carried as a
  special case.
