/**
 * The field extractors that read one chunk of text: parameter count,
 * benchmark scores, memory footprint and compression notes. Each tries its
 * patterns in a fixed order and takes the first that yields a value.
 */
module Extractors {
  import opened Wrappers
  import opened Text
  import opened Numbers
  import opened Patterns
  import opened ModelTypes

  /**
   * The pattern cascade: the result of the first strategy, in order, that
   * yields a value (`for (const pat of patterns) { ... return ... }`).
   */
  function FirstOf<S, R>(xs: seq<S>, attempt: S -> Option<R>): (r: Option<R>)
    ensures r.None? <==> forall k :: 0 <= k < |xs| ==> attempt(xs[k]).None?
    ensures r.Some? ==> exists k :: 0 <= k < |xs| && attempt(xs[k]) == r && forall j :: 0 <= j < k ==> attempt(xs[j]).None?
  {
    if xs == [] then None
    else match attempt(xs[0])
      case Some(v) => Some(v)
      case None =>
        var rest := FirstOf(xs[1..], attempt);
        assert forall k :: 1 <= k < |xs| ==> xs[k] == xs[1..][k - 1];
        rest
  }

  /** The strategy that succeeds first decides the cascade. */
  lemma {:induction false} FirstOfAt<S, R>(xs: seq<S>, attempt: S -> Option<R>, k: nat)
    requires k < |xs| && attempt(xs[k]).Some?
    requires forall j :: 0 <= j < k ==> attempt(xs[j]).None?
    ensures FirstOf(xs, attempt) == attempt(xs[k])
  {
    if k > 0 {
      assert attempt(xs[0]).None?;
      FirstOfAt(xs[1..], attempt, k - 1);
    }
  }

  /** Group 1 of a single-match pattern, when the pattern matches and the group is non-empty (`match?.[1]`). */
  function Group1(re: Regex, rule: Rule, text: string): (r: Option<string>)
    ensures r.Some? ==> r.value != ""
    ensures r.None? <==> (re.first(rule, text).None? || re.first(rule, text).value.group1 == "")
  {
    match re.first(rule, text)
    case Some(m) => if m.group1 != "" then Some(m.group1) else None
    case None => None
  }

  // ---------------------------------------------------------------------
  // extractParamCount

  /** Where a parameter count may be read, and the unit it is scaled by. */
  datatype CountSource =
    | InText(rule: Rule, factor: real)        // a name-anchored pattern over the chunk
    | UnitInText(unit: char, factor: real)    // `/([\d.]+)\s*[Bb]/i` over the chunk
    | UnitInName(unit: char, factor: real)    // the same over the model name

  /**
   * The strategies of `extractParamCount`, in the order they are tried: every
   * reading of the chunk comes before the two readings of the name, billions
   * are tried before millions within each, and a bare unit letter is scaled
   * by the unit it names.
   */
  function CountSources(name: string): (r: seq<CountSource>)
    ensures |r| == 8
    ensures forall k :: 0 <= k < |r| ==> (r[k].UnitInName? <==> k >= 6)
    ensures forall k :: 0 <= k < |r| && !r[k].InText? ==>
      (r[k].unit == 'b' && r[k].factor == 1e9) || (r[k].unit == 'm' && r[k].factor == 1e6)
    ensures forall k :: 0 <= k < |r| && r[k].factor == 1e6 ==> forall j :: 0 <= j < |r| && r[j].factor == 1e9 && r[j].UnitInName? == r[k].UnitInName? ==> j < k
  {
    [ InText(NameThenBillion(name), 1e9), InText(BillionThenName(name), 1e9),
      InText(NameThenB(name), 1e9), InText(BThenName(name), 1e9),
      UnitInText('b', 1e9),
      InText(NameThenMillion(name), 1e6),
      UnitInName('b', 1e9), UnitInName('m', 1e6) ]
  }

  /** The digits a strategy captures, if it matches. */
  function CountCapture(re: Regex, text: string, name: string, s: CountSource): (r: Option<string>)
    ensures r.Some? ==> r.value != ""
  {
    match s
    case InText(rule, _) => Group1(re, rule, text)
    case UnitInText(unit, _) => NumberBeforeUnit(text, unit)
    case UnitInName(unit, _) => NumberBeforeUnit(name, unit)
  }

  /** `parseFloat(match[1]) * factor` for a strategy that matches. */
  function CountAttempt(re: Regex, text: string, name: string): CountSource -> Option<Num>
  {
    s => match CountCapture(re, text, name, s)
      case Some(c) => Some(Scale(ParseFloat(c), s.factor))
      case None => None
  }

  /**
   * `extractParamCount`: the first strategy's number times its unit, or 0
   * when no strategy matches. The count is never negative; it is NaN only
   * when the captured text does not start a number (a lone "." say).
   */
  function ExtractParamCount(re: Regex, text: string, name: string): (r: Num)
    ensures r.Value? ==> r.v >= 0.0
    ensures (forall k :: 0 <= k < |CountSources(name)| ==> CountCapture(re, text, name, CountSources(name)[k]).None?)
            ==> r == Value(0.0)
  {
    CountNonNegative(re, text, name);
    match FirstOf(CountSources(name), CountAttempt(re, text, name))
    case Some(n) => n
    case None => Value(0.0)
  }

  lemma CountNonNegative(re: Regex, text: string, name: string)
    ensures var r := FirstOf(CountSources(name), CountAttempt(re, text, name));
      r.Some? && r.value.Value? ==> r.value.v >= 0.0
  {
    var r := FirstOf(CountSources(name), CountAttempt(re, text, name));
    if r.Some? {
      var k :| 0 <= k < |CountSources(name)| && CountAttempt(re, text, name)(CountSources(name)[k]) == r;
    }
  }

  /**
   * The first strategy that captures decides the count: it is the capture
   * read as a number and scaled by that strategy's unit.
   */
  lemma ParamCountFromFirstCapture(re: Regex, text: string, name: string, k: nat)
    requires k < |CountSources(name)|
    requires CountCapture(re, text, name, CountSources(name)[k]).Some?
    requires forall j :: 0 <= j < k ==> CountCapture(re, text, name, CountSources(name)[j]).None?
    ensures ExtractParamCount(re, text, name)
         == Scale(ParseFloat(CountCapture(re, text, name, CountSources(name)[k]).value), CountSources(name)[k].factor)
  {
    FirstOfAt(CountSources(name), CountAttempt(re, text, name), k);
  }

  /**
   * When the chunk says nothing, the count comes from the name: "Llama 3.1 8B"
   * gives 8 billion, since the `[\d.]+` run "3.1" is not followed by a B.
   */
  lemma ParamCountFromName(re: Regex, text: string)
    requires forall k :: 0 <= k < 6 ==> CountCapture(re, text, "Llama 3.1 8B", CountSources("Llama 3.1 8B")[k]).None?
    ensures ExtractParamCount(re, text, "Llama 3.1 8B") == Value(8e9)
  {
    LlamaCapture();
    ParseFloatOfNat(8);
    ParamCountFromFirstCapture(re, text, "Llama 3.1 8B", 6);
  }

  /** The unit pattern skips "3.1" (followed by a space and "8") and captures "8". */
  lemma LlamaCapture()
    ensures NumberBeforeUnit("Llama 3.1 8B", 'b') == Some("8")
  {
    var s := "Llama 3.1 8B";
    LlamaFromSix();
    assert forall j :: 0 <= j < 6 ==> !IsNumChar(s[j]);
    assert FirstUnitAt(s, 'b', 0) == Some(10);
    assert s[10..11] == "8";
  }

  lemma LlamaFromSix()
    ensures FirstUnitAt("Llama 3.1 8B", 'b', 6) == Some(10)
  {
    var s := "Llama 3.1 8B";
    LlamaAtTen();
    assert NumRunEnd(s, 9) == 9 && NumRunEnd(s, 8) == 9 && NumRunEnd(s, 7) == 9 && NumRunEnd(s, 6) == 9;
    assert SpacesEnd(s, 10) == 10 && SpacesEnd(s, 9) == 10;
    assert !UnitAt(s, 9, 'b') && !UnitAt(s, 8, 'b') && !UnitAt(s, 7, 'b') && !UnitAt(s, 6, 'b');
  }

  lemma LlamaAtTen()
    ensures FirstUnitAt("Llama 3.1 8B", 'b', 10) == Some(10)
  {
    var s := "Llama 3.1 8B";
    assert NumRunEnd(s, 11) == 11 && NumRunEnd(s, 10) == 11;
    assert SpacesEnd(s, 11) == 11;
    assert UnitAt(s, 10, 'b');
  }

  /** A chunk whose only count-like text is ". B" yields NaN: `parseFloat(".")` is NaN. */
  lemma ParamCountCanBeNaN(re: Regex, name: string)
    requires forall k :: 0 <= k < 4 ==> Group1(re, CountSources(name)[k].rule, ". B").None?
    ensures ExtractParamCount(re, ". B", name).NaN?
  {
    DotCapture();
    ParamCountFromFirstCapture(re, ". B", name, 4);
  }

  /** The unit pattern over ". B" captures the lone dot. */
  lemma DotCapture()
    ensures NumberBeforeUnit(". B", 'b') == Some(".")
  {
    var s := ". B";
    assert NumRunEnd(s, 1) == 1 && NumRunEnd(s, 0) == 1;
    assert SpacesEnd(s, 2) == 2 && SpacesEnd(s, 1) == 2;
    assert UnitAt(s, 0, 'b');
    assert FirstUnitAt(s, 'b', 0) == Some(0);
    assert s[0..1] == ".";
  }

  // ---------------------------------------------------------------------
  // extractBenchmark

  /** The three score patterns for a benchmark label, in order. */
  function ScoreRules(b: Benchmark): seq<Rule>
  {
    [ScoreAfterLabel(Label(b)), ScoreOnLabel(Label(b)), LabelScoreOf(Label(b))]
  }

  /** The shot count: group 2 of the score pattern, or else the first "LABEL ... N-shot" in the chunk. */
  function Shots(text: string, b: Benchmark, m: Match): (r: Option<Num>)
    ensures m.group2 != "" ==> r == Some(ParseInt(m.group2))
    ensures m.group2 == "" ==> (r.Some? <==> ShotsAfter(text, Label(b)).Some?)
    ensures m.group2 == "" && r.Some? ==> r == Some(ParseInt(ShotsAfter(text, Label(b)).value)) && r.value.Value?
  {
    if m.group2 != "" then Some(ParseInt(m.group2))
    else match ShotsAfter(text, Label(b))
      case Some(d) => Some(ParseInt(d))
      case None => None
  }

  /** A score pattern yields a result when it matches and its number is in (0, 100]. */
  function ScoreAttempt(re: Regex, text: string, b: Benchmark): Rule -> Option<BenchmarkScore>
  {
    rule => match re.first(rule, text)
      case Some(m) =>
        if m.group1 == "" then None
        else (match ParseFloat(m.group1)
          case Value(s) => if 0.0 < s <= 100.0 then Some(BenchmarkScore(s, Shots(text, b, m))) else None
          case NaN => None)
      case None => None
  }

  /** `extractBenchmark`: the first score pattern with a percentage in range. */
  function ExtractBenchmark(re: Regex, text: string, b: Benchmark): (r: Option<BenchmarkScore>)
    ensures r.Some? ==> 0.0 < r.value.score <= 100.0
    ensures r.None? <==> forall k :: 0 <= k < 3 ==> ScoreAttempt(re, text, b)(ScoreRules(b)[k]).None?
  {
    ScoreInRange(re, text, b);
    FirstOf(ScoreRules(b), ScoreAttempt(re, text, b))
  }

  lemma ScoreInRange(re: Regex, text: string, b: Benchmark)
    ensures var r := FirstOf(ScoreRules(b), ScoreAttempt(re, text, b));
      r.Some? ==> 0.0 < r.value.score <= 100.0
  {
    var r := FirstOf(ScoreRules(b), ScoreAttempt(re, text, b));
    if r.Some? {
      var k :| 0 <= k < 3 && ScoreAttempt(re, text, b)(ScoreRules(b)[k]) == r;
    }
  }

  /**
   * An out-of-range score does not stop the search: when the first pattern
   * reads more than 100, the next patterns are tried.
   */
  lemma OutOfRangeFallsThrough(re: Regex, text: string, b: Benchmark, m: Match)
    requires re.first(ScoreAfterLabel(Label(b)), text) == Some(m)
    requires ParseFloat(m.group1).Value? && ParseFloat(m.group1).v > 100.0
    ensures ExtractBenchmark(re, text, b) == FirstOf(ScoreRules(b)[1..], ScoreAttempt(re, text, b))
  {
  }

  /**
   * A score pattern in range decides the result when no earlier pattern is
   * in range; its shot count is group 2, or the nearby "N-shot" fallback.
   */
  lemma BenchmarkFromFirstInRange(re: Regex, text: string, b: Benchmark, k: nat)
    requires k < 3 && re.first(ScoreRules(b)[k], text).Some?
    requires var m := re.first(ScoreRules(b)[k], text).value;
      m.group1 != "" && ParseFloat(m.group1).Value? && 0.0 < ParseFloat(m.group1).v <= 100.0
    requires forall j :: 0 <= j < k ==> ScoreAttempt(re, text, b)(ScoreRules(b)[j]).None?
    ensures var m := re.first(ScoreRules(b)[k], text).value;
      ExtractBenchmark(re, text, b) == Some(BenchmarkScore(ParseFloat(m.group1).v, Shots(text, b, m)))
  {
    FirstOfAt(ScoreRules(b), ScoreAttempt(re, text, b), k);
  }

  // ---------------------------------------------------------------------
  // extractMemory

  /** The stated memory for a precision: `([\d.]+)\s*GB` after its keyword, as a number. */
  function ExplicitMemory(re: Regex, text: string, p: Precision): (r: Option<Num>)
    ensures r.Some? <==> Group1(re, Patterns.ExplicitMemory(p), text).Some?
  {
    match Group1(re, Patterns.ExplicitMemory(p), text)
    case Some(g) => Some(ParseFloat(g))
    case None => None
  }

  /** Bytes per parameter at each precision. */
  function BytesPerParam(p: Precision): real
  {
    match p
    case FP16 => 2.0
    case INT8 => 1.0
    case INT4 => 0.5
  }

  /** `Math.round(paramCount * bytes / 1e9 * 10) / 10`: gigabytes to one decimal. */
  function Estimate(paramCount: real, p: Precision): (r: real)
    ensures var exact := paramCount * BytesPerParam(p) / 1e9;
      exact - 0.05 < r <= exact + 0.05
  {
    Round(paramCount * BytesPerParam(p) / 1e9 * 10.0) as real / 10.0
  }

  /** The memory field for one precision: the stated figure, else the estimate when the count is positive. */
  function MemoryField(re: Regex, text: string, paramCount: Num, p: Precision): (r: Option<Num>)
    ensures ExplicitMemory(re, text, p).Some? ==> r == ExplicitMemory(re, text, p)
    ensures r.None? <==> ExplicitMemory(re, text, p).None? && !IsPositive(paramCount)
  {
    match ExplicitMemory(re, text, p)
    case Some(v) => Some(v)
    case None => if IsPositive(paramCount) then Some(Value(Estimate(paramCount.v, p))) else None
  }

  function MemoryOf(re: Regex, text: string, paramCount: Num): MemoryFootprint
  {
    MemoryFootprint(MemoryField(re, text, paramCount, FP16),
                    MemoryField(re, text, paramCount, INT8),
                    MemoryField(re, text, paramCount, INT4))
  }

  /** `extractMemory`: fills the stated figures, then estimates the ones still null. */
  method ExtractMemory(re: Regex, text: string, paramCount: Num) returns (m: MemoryFootprint)
    ensures m == MemoryOf(re, text, paramCount)
  {
    m := MemoryFootprint(None, None, None);
    var fp16Match := Group1(re, Patterns.ExplicitMemory(FP16), text);
    var int8Match := Group1(re, Patterns.ExplicitMemory(INT8), text);
    var int4Match := Group1(re, Patterns.ExplicitMemory(INT4), text);
    if fp16Match.Some? { m := m.(fp16 := Some(ParseFloat(fp16Match.value))); }
    if int8Match.Some? { m := m.(int8 := Some(ParseFloat(int8Match.value))); }
    if int4Match.Some? { m := m.(int4 := Some(ParseFloat(int4Match.value))); }
    if IsPositive(paramCount) {
      if m.fp16.None? { m := m.(fp16 := Some(Value(Round(paramCount.v * 2.0 / 1e9 * 10.0) as real / 10.0))); }
      if m.int8.None? { m := m.(int8 := Some(Value(Round(paramCount.v * 1.0 / 1e9 * 10.0) as real / 10.0))); }
      if m.int4.None? { m := m.(int4 := Some(Value(Round(paramCount.v * 0.5 / 1e9 * 10.0) as real / 10.0))); }
    }
  }

  /** A figure stated in the text is kept, whatever the parameter count. */
  lemma StatedMemoryKept(re: Regex, text: string, paramCount: Num, p: Precision)
    requires ExplicitMemory(re, text, p).Some?
    ensures MemoryField(re, text, paramCount, p) == ExplicitMemory(re, text, p)
  {
  }

  /**
   * With a positive count every field is filled; an unstated one is the
   * count times the precision's bytes per parameter, in GB, to within 0.05.
   */
  lemma MemoryEstimated(re: Regex, text: string, paramCount: Num, p: Precision)
    requires IsPositive(paramCount)
    ensures MemoryField(re, text, paramCount, p).Some?
    ensures ExplicitMemory(re, text, p).None? ==>
      var f := MemoryField(re, text, paramCount, p).value;
      var exact := paramCount.v * BytesPerParam(p) / 1e9;
      f.Value? && exact - 0.05 < f.v <= exact + 0.05
  {
  }

  /** Without a positive count (zero or NaN), a figure the text does not state stays null. */
  lemma MemoryUnknown(re: Regex, text: string, paramCount: Num, p: Precision)
    requires !IsPositive(paramCount) && ExplicitMemory(re, text, p).None?
    ensures MemoryField(re, text, paramCount, p).None?
  {
  }

  /** Estimated figures never grow as precision drops: FP16 >= INT8 >= INT4. */
  lemma EstimatesOrdered(paramCount: real)
    requires paramCount > 0.0
    ensures Estimate(paramCount, FP16) >= Estimate(paramCount, INT8) >= Estimate(paramCount, INT4)
  {
    RoundMonotone(paramCount * 1.0 / 1e9 * 10.0, paramCount * 2.0 / 1e9 * 10.0);
    RoundMonotone(paramCount * 0.5 / 1e9 * 10.0, paramCount * 1.0 / 1e9 * 10.0);
  }

  // ---------------------------------------------------------------------
  // extractCompression

  const CompressionRules: seq<Rule> := [CompressionMention, MethodImpact, BitsQuantized]

  /** At most 200 characters, with "..." appended when cut. */
  function Truncate(s: string): (r: string)
    ensures |s| <= 200 ==> r == s
    ensures |s| > 200 ==> |r| == 203 && r[..200] == s[..200] && r[200..] == "..."
  {
    if |s| > 200 then s[..200] + "..." else s
  }

  /** `charAt(0).toUpperCase() + slice(1)`. */
  function Capitalize(s: string): (r: string)
    ensures |r| == |s|
    ensures s != [] ==> r[0] == Upper(s[0]) && r[1..] == s[1..]
  {
    if s == [] then [] else [Upper(s[0])] + s[1..]
  }

  /**
   * The clean-up of a compression note: trimmed, cut to 200 characters
   * plus "...", first letter upper-cased. Past the first character the
   * note is the trimmed text, or its first 200 characters and "...".
   */
  function Clean(s: string): (r: string)
    ensures var t := Trim(s);
      && (|t| <= 200 ==> |r| == |t| && (t != [] ==> r[0] == Upper(t[0]) && r[1..] == t[1..]))
      && (|t| > 200 ==> |r| == 203 && r[0] == Upper(t[0]) && r[1..200] == t[1..200] && r[200..] == "...")
  {
    var t := Trim(s);
    if |t| > 200 then
      TruncateKeepsHead(t);
      Capitalize(Truncate(t))
    else Capitalize(Truncate(t))
  }

  lemma TruncateKeepsHead(t: string)
    requires |t| > 200
    ensures Truncate(t)[0] == t[0] && Truncate(t)[1..200] == t[1..200]
  {
    assert Truncate(t)[..200] == t[..200];
  }

  /** A compression pattern yields its cleaned-up match when the match is non-empty. */
  function CompressionAttempt(re: Regex, text: string): Rule -> Option<string>
  {
    rule => match re.first(rule, text)
      case Some(m) => if m.whole != "" then Some(Clean(m.whole)) else None
      case None => None
  }

  /**
   * `extractCompression`: the cleaned-up match of the first compression
   * pattern that matches; null when none matches.
   */
  function ExtractCompression(re: Regex, text: string): (r: Option<string>)
    ensures r.Some? ==> |r.value| <= 203
    ensures r.None? <==> forall k :: 0 <= k < 3 ==>
      re.first(CompressionRules[k], text).None? || re.first(CompressionRules[k], text).value.whole == ""
  {
    CompressionIsCleaned(re, text);
    FirstOf(CompressionRules, CompressionAttempt(re, text))
  }

  lemma CompressionIsCleaned(re: Regex, text: string)
    ensures var r := FirstOf(CompressionRules, CompressionAttempt(re, text));
      r.Some? ==> |r.value| <= 203
  {
    var r := FirstOf(CompressionRules, CompressionAttempt(re, text));
    if r.Some? {
      var k :| 0 <= k < 3 && CompressionAttempt(re, text)(CompressionRules[k]) == r;
      assert r.value == Clean(re.first(CompressionRules[k], text).value.whole);
    }
  }

  /** The first pattern with a non-empty match supplies the note. */
  lemma CompressionFromFirstMatch(re: Regex, text: string, k: nat)
    requires k < 3 && re.first(CompressionRules[k], text).Some?
    requires re.first(CompressionRules[k], text).value.whole != ""
    requires forall j :: 0 <= j < k ==> CompressionAttempt(re, text)(CompressionRules[j]).None?
    ensures ExtractCompression(re, text) == Some(Clean(re.first(CompressionRules[k], text).value.whole))
  {
    FirstOfAt(CompressionRules, CompressionAttempt(re, text), k);
  }
}
