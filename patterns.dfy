/**
 * The pattern bank and the regular expressions the extractors run.
 *
 * The family patterns and the patterns built around a model name or a
 * benchmark label are matched by a `Regex` engine handed in by the caller:
 * the model states which pattern is asked for, in which order, and what is
 * done with the answer, not how JavaScript's backtracking finds it. The
 * patterns that involve no name, `([\d.]+)\s*[Bb]`, `([\d.]+)\s*[Mm]` and
 * the shot-count search `LABEL[^.]*?(\d+)-shot`, are written out here.
 */
module Patterns {
  import opened Wrappers
  import opened Text
  import opened Numbers

  /** The model families of the pattern bank, plus the generic "Name (NB parameters)" rule. */
  datatype Family =
    | Llama | Mistral | Gpt | Gemma | Phi | Falcon | Qwen | Mpt | Bloom
    | Vicuna | Claude | DeepSeek | Yi | Command | Generic

  /** The pattern bank in scanning order; on a tie in position the earlier family wins. */
  const ModelPatterns: seq<Family> :=
    [Llama, Mistral, Gpt, Gemma, Phi, Falcon, Qwen, Mpt, Bloom, Vicuna, Claude, DeepSeek, Yi, Command, Generic]

  datatype Benchmark = MMLU | HumanEval | GSM8K

  function Label(b: Benchmark): string
  {
    match b
    case MMLU => "MMLU"
    case HumanEval => "HumanEval"
    case GSM8K => "GSM8K"
  }

  datatype Precision = FP16 | INT8 | INT4

  /** The single-match patterns of the extractors, each with the name or label it is built around. */
  datatype Rule =
    | NameThenBillion(name: string)   // NAME[^.]*?(\d+(?:\.\d+)?)\s*[Bb](?:illion)?...
    | BillionThenName(name: string)   // (\d+(?:\.\d+)?)\s*[Bb](?:illion)?...[^.]*?NAME
    | NameThenB(name: string)         // NAME\s*(\d+(?:\.\d+)?)[Bb]
    | BThenName(name: string)         // (\d+(?:\.\d+)?)[Bb]\s*NAME
    | NameThenMillion(name: string)   // NAME[^.]*?(\d+(?:\.\d+)?)\s*[Mm](?:illion)?...
    | ScoreAfterLabel(tag: string)  // LABEL[^.]*?(score)...(?:\((\d+)-shot\))?
    | ScoreOnLabel(tag: string)     // (score)%? (on|for) LABEL (?:\((\d+)-shot\))?
    | LabelScoreOf(tag: string)     // LABEL (score)? (of|:)? (score)...(?:\((\d+)-shot\))?
    | ExplicitMemory(p: Precision)    // PRECISION-KEYWORD[^.]*?([\d.]+)\s*GB
    | CompressionMention              // (quantiz|compress|prun)[^.]*(GPTQ|...|INT8)[^.]*
    | MethodImpact                    // (GPTQ|AWQ|GGUF|SqueezeLLM)[^.]*(accuracy|...|retains?)[^.]*
    | BitsQuantized                   // (4-bit|8-bit|INT4|INT8)\s*quantiz[^.]*(number)[^.]*
    | ContextWindow                   // ([\d,]+)\s*[Kk]\s*(?:token)?\s*(?:context|ctx)

  /** A successful match: its index, the matched text `match[0]`, and groups 1 and 2 ("" when a group did not take part). */
  datatype Match = Match(index: nat, whole: string, group1: string, group2: string)

  /**
   * The regular-expression engine: `first` is `String.prototype.match` with
   * a non-global pattern, `scan` the successive `exec` results of a global
   * family pattern over the whole text, restarted from the beginning.
   */
  datatype Regex = Regex(first: (Rule, string) -> Option<Match>, scan: (Family, string) -> seq<Match>)

  /** The end of the run of `[\d.]` characters that starts at `i`. */
  function NumRunEnd(s: string, i: nat): (j: nat)
    requires i <= |s|
    ensures i <= j <= |s|
    ensures forall k :: i <= k < j ==> IsNumChar(s[k])
    ensures j < |s| ==> !IsNumChar(s[j])
    decreases |s| - i
  {
    if i < |s| && IsNumChar(s[i]) then NumRunEnd(s, i + 1) else i
  }

  /** The end of the white-space run that starts at `i`. */
  function SpacesEnd(s: string, i: nat): (j: nat)
    requires i <= |s|
    ensures i <= j <= |s|
    ensures forall k :: i <= k < j ==> IsSpace(s[k])
    ensures j < |s| ==> !IsSpace(s[j])
    decreases |s| - i
  {
    if i < |s| && IsSpace(s[i]) then SpacesEnd(s, i + 1) else i
  }

  /**
   * `([\d.]+)\s*u` (case-insensitive) matches at i. The greedy `[\d.]+` can
   * only succeed with the whole run: a shorter run is followed by a digit
   * or a dot, which neither `\s` nor the unit letter accepts.
   */
  predicate UnitAt(s: string, i: nat, unit: char)
  {
    && i < |s| && IsNumChar(s[i])
    && var k := SpacesEnd(s, NumRunEnd(s, i));
       k < |s| && Lower(s[k]) == unit
  }

  /** The leftmost position from `from` on where the unit pattern matches. */
  function FirstUnitAt(s: string, unit: char, from: nat): (r: Option<nat>)
    requires from <= |s|
    ensures r.Some? ==> from <= r.value < |s| && UnitAt(s, r.value, unit)
    ensures r.Some? ==> forall j :: from <= j < r.value ==> !UnitAt(s, j, unit)
    ensures r.None? ==> forall j :: from <= j < |s| ==> !UnitAt(s, j, unit)
    decreases |s| - from
  {
    if from == |s| then None
    else if UnitAt(s, from, unit) then Some(from)
    else FirstUnitAt(s, unit, from + 1)
  }

  /** Group 1 of `s.match(/([\d.]+)\s*u/i)`: the digits and dots before the unit, or None when there is no match. */
  function NumberBeforeUnit(s: string, unit: char): (r: Option<string>)
    ensures r.Some? ==> |r.value| > 0 && forall k :: 0 <= k < |r.value| ==> IsNumChar(r.value[k])
    ensures r.None? <==> forall j :: 0 <= j < |s| ==> !UnitAt(s, j, unit)
  {
    match FirstUnitAt(s, unit, 0)
    case Some(i) => Some(s[i..NumRunEnd(s, i)])
    case None => None
  }

  /** The leftmost match is never inside a run: the capture is a whole run of digits and dots. */
  lemma NumberBeforeUnitTakesWholeRun(s: string, unit: char)
    requires FirstUnitAt(s, unit, 0).Some?
    ensures var i := FirstUnitAt(s, unit, 0).value; i == 0 || !IsNumChar(s[i - 1])
  {
    var i := FirstUnitAt(s, unit, 0).value;
    if i > 0 && IsNumChar(s[i - 1]) {
      UnitAtExtendsLeft(s, i, unit);
      assert false;
    }
  }

  lemma UnitAtExtendsLeft(s: string, i: nat, unit: char)
    requires 0 < i < |s| && IsNumChar(s[i - 1]) && UnitAt(s, i, unit)
    ensures UnitAt(s, i - 1, unit)
  {
    assert NumRunEnd(s, i - 1) == NumRunEnd(s, i);
  }

  /** The text "-shot", compared case-insensitively. */
  predicate ShotSuffixAt(s: string, e: nat)
  {
    && e + 5 <= |s|
    && s[e] == '-' && Lower(s[e + 1]) == 's' && Lower(s[e + 2]) == 'h'
    && Lower(s[e + 3]) == 'o' && Lower(s[e + 4]) == 't'
  }

  /** `(\d+)-shot` matches at q (the greedy `\d+` succeeds only with the whole digit run). */
  predicate ShotAt(s: string, q: nat)
  {
    q < |s| && IsDigit(s[q]) && ShotSuffixAt(s, DigitRun(s, q))
  }

  /** No full stop in s[from..j]. */
  predicate NoStopBetween(s: string, from: nat, j: nat)
    requires from <= j <= |s|
  {
    forall k :: from <= k < j ==> s[k] != '.'
  }

  /** The lazy gap `[^.]*?` followed by `(\d+)-shot`: the first q from `from` on where a shot count starts, not crossing a '.'. */
  function ShotFrom(s: string, from: nat): (r: Option<nat>)
    requires from <= |s|
    ensures r.Some? ==> from <= r.value < |s| && ShotAt(s, r.value) && NoStopBetween(s, from, r.value)
    ensures r.Some? ==> forall j :: from <= j < r.value ==> !ShotAt(s, j)
    ensures r.None? ==> forall j :: from <= j < |s| && NoStopBetween(s, from, j) ==> !ShotAt(s, j)
    decreases |s| - from
  {
    if from == |s| then None
    else if ShotAt(s, from) then Some(from)
    else if s[from] == '.' then None
    else ShotFrom(s, from + 1)
  }

  /** The label occurs at p, compared case-insensitively. */
  predicate LabelAt(s: string, tag: string, p: nat)
  {
    p + |tag| <= |s| && forall k :: 0 <= k < |tag| ==> Lower(s[p + k]) == Lower(tag[k])
  }

  /** `LABEL[^.]*?(\d+)-shot` matches at p: the label is there and its gap reaches a shot count. */
  predicate LabelShotAt(s: string, tag: string, p: nat)
  {
    LabelAt(s, tag, p) && ShotFrom(s, p + |tag|).Some?
  }

  /** The leftmost position from p0 on where the label pattern matches. */
  function ShotSearch(s: string, tag: string, p0: nat): (r: Option<nat>)
    ensures r.Some? ==> p0 <= r.value && LabelShotAt(s, tag, r.value)
    ensures r.Some? ==> forall p :: p0 <= p < r.value ==> !LabelShotAt(s, tag, p)
    ensures r.None? ==> forall p :: p0 <= p ==> !LabelShotAt(s, tag, p)
    decreases |s| - p0
  {
    if p0 + |tag| > |s| then None
    else if LabelShotAt(s, tag, p0) then Some(p0)
    else ShotSearch(s, tag, p0 + 1)
  }

  /** The digit run of the shot count that starts at q. */
  function ShotDigits(s: string, q: nat): (r: string)
    requires ShotAt(s, q)
    ensures |r| > 0 && AllDigits(r)
  {
    s[q..DigitRun(s, q)]
  }

  /** p is the leftmost position where the label pattern matches. */
  predicate FirstLabelShot(s: string, tag: string, p: nat)
  {
    LabelShotAt(s, tag, p) && forall p': nat :: p' < p ==> !LabelShotAt(s, tag, p')
  }

  /**
   * Group 1 of `s.match(new RegExp(LABEL + "[^.]*?(\\d+)-shot", "i"))`: the
   * digits of the nearest shot count after the leftmost label occurrence
   * that reaches one without crossing a full stop.
   */
  function ShotsAfter(s: string, tag: string): (r: Option<string>)
    ensures r.None? <==> forall p: nat :: !LabelShotAt(s, tag, p)
    ensures r.Some? ==> |r.value| > 0 && AllDigits(r.value)
  {
    ShotSearchFromStart(s, tag);
    match ShotSearch(s, tag, 0)
    case Some(p) => Some(ShotDigits(s, ShotFrom(s, p + |tag|).value))
    case None => None
  }

  /** The search from 0 finds the leftmost match of all, and none only when there is none. */
  lemma ShotSearchFromStart(s: string, tag: string)
    ensures ShotSearch(s, tag, 0).None? ==> forall p: nat :: !LabelShotAt(s, tag, p)
    ensures ShotSearch(s, tag, 0).Some? ==> FirstLabelShot(s, tag, ShotSearch(s, tag, 0).value)
  {
  }

  /** The capture is the shot count reached from the leftmost label match. */
  lemma ShotsAfterLeftmost(s: string, tag: string, p: nat)
    requires FirstLabelShot(s, tag, p)
    ensures ShotsAfter(s, tag) == Some(ShotDigits(s, ShotFrom(s, p + |tag|).value))
  {
    ShotSearchFromStart(s, tag);
    var q := ShotSearch(s, tag, 0).value;
    FirstLabelShotUnique(s, tag, p, q);
    ShotsAfterFound(s, tag);
  }

  lemma ShotsAfterFound(s: string, tag: string)
    requires ShotSearch(s, tag, 0).Some?
    ensures var p := ShotSearch(s, tag, 0).value;
      p + |tag| <= |s| && ShotFrom(s, p + |tag|).Some? &&
      ShotsAfter(s, tag) == Some(ShotDigits(s, ShotFrom(s, p + |tag|).value))
  {
  }

  lemma FirstLabelShotUnique(s: string, tag: string, p: nat, q: nat)
    requires FirstLabelShot(s, tag, p) && FirstLabelShot(s, tag, q)
    ensures p == q
  {
    assert LabelShotAt(s, tag, p) && LabelShotAt(s, tag, q);
  }
}
