/**
 * The derived fields of a record: the best use case, read from keywords in
 * the chunk and from benchmark scores, and the one-line summary.
 */
module Inference {
  import opened Wrappers
  import opened Text
  import opened Numbers
  import opened Patterns
  import opened ModelTypes
  import Extractors

  /** Some word of the list occurs in s. */
  function IncludesAny(s: string, words: seq<string>): (r: bool)
    ensures r <==> exists k :: 0 <= k < |words| && Includes(s, words[k])
  {
    if words == [] then false
    else if Includes(s, words[0]) then true
    else
      var r := IncludesAny(s, words[1..]);
      assert forall k :: 1 <= k < |words| ==> words[k] == words[1..][k - 1];
      r
  }

  const CodeWords: seq<string> := ["code", "coding", "programming"]
  const MathWords: seq<string> := ["math", "reasoning"]
  const ChatWords: seq<string> := ["chat", "conversation", "dialogue"]
  const InstructWords: seq<string> := ["instruction", "instruct"]
  const LanguageWords: seq<string> := ["multilingual", "translation"]

  /** `benchmarks.X && benchmarks.X.score > t`. */
  predicate ScoreAbove(b: Option<BenchmarkScore>, t: real)
  {
    b.Some? && b.value.score > t
  }

  /**
   * `inferBestUseCase`: a keyword decides when it is backed by a score
   * (coding by HumanEval above 60, reasoning by GSM8K above 70) or needs
   * none (chat, instruction following, multilingual); otherwise the scores
   * decide alone, with a stricter GSM8K bar of 80. An MMLU above 70 leads
   * to general purpose, the same as no evidence at all.
   */
  function InferBestUseCase(text: string, bm: Benchmarks): (r: UseCase)
    ensures r == Coding ==> ScoreAbove(bm.humanEval, 60.0)
    ensures r == Reasoning ==> ScoreAbove(bm.gsm8k, 70.0)
    ensures r == Chat ==> IncludesAny(LowerAll(text), ChatWords)
    ensures r == InstructionFollowing ==> IncludesAny(LowerAll(text), InstructWords)
    ensures r == Multilingual ==> IncludesAny(LowerAll(text), LanguageWords)
    ensures r == GeneralPurpose ==>
      !ScoreAbove(bm.humanEval, 60.0) && !ScoreAbove(bm.gsm8k, 80.0) &&
      !IncludesAny(LowerAll(text), ChatWords) && !IncludesAny(LowerAll(text), InstructWords) &&
      !IncludesAny(LowerAll(text), LanguageWords)
  {
    var lower := LowerAll(text);
    if IncludesAny(lower, CodeWords) && ScoreAbove(bm.humanEval, 60.0) then Coding
    else if IncludesAny(lower, MathWords) && ScoreAbove(bm.gsm8k, 70.0) then Reasoning
    else if IncludesAny(lower, ChatWords) then Chat
    else if IncludesAny(lower, InstructWords) then InstructionFollowing
    else if IncludesAny(lower, LanguageWords) then Multilingual
    else if ScoreAbove(bm.humanEval, 60.0) then Coding
    else if ScoreAbove(bm.gsm8k, 80.0) then Reasoning
    else GeneralPurpose
  }

  /** Rule 1: a coding keyword backed by HumanEval above 60 gives coding, whatever else holds. */
  lemma CodingRule(text: string, bm: Benchmarks)
    requires IncludesAny(LowerAll(text), CodeWords) && ScoreAbove(bm.humanEval, 60.0)
    ensures InferBestUseCase(text, bm) == Coding
  {
  }

  /** Rule 2: when rule 1 does not fire, a math keyword backed by GSM8K above 70 gives reasoning. */
  lemma ReasoningRule(text: string, bm: Benchmarks)
    requires !(IncludesAny(LowerAll(text), CodeWords) && ScoreAbove(bm.humanEval, 60.0))
    requires IncludesAny(LowerAll(text), MathWords) && ScoreAbove(bm.gsm8k, 70.0)
    ensures InferBestUseCase(text, bm) == Reasoning
  {
  }

  /** Neither backed keyword rule fires. */
  predicate NoBackedKeyword(text: string, bm: Benchmarks)
  {
    && !(IncludesAny(LowerAll(text), CodeWords) && ScoreAbove(bm.humanEval, 60.0))
    && !(IncludesAny(LowerAll(text), MathWords) && ScoreAbove(bm.gsm8k, 70.0))
  }

  /** Rule 4: after rules 1-3, an instruction keyword gives instruction following. */
  lemma InstructionRule(text: string, bm: Benchmarks)
    requires NoBackedKeyword(text, bm) && !IncludesAny(LowerAll(text), ChatWords)
    requires IncludesAny(LowerAll(text), InstructWords)
    ensures InferBestUseCase(text, bm) == InstructionFollowing
  {
  }

  /** Rule 5: after rules 1-4, a multilingual or translation keyword gives multilingual. */
  lemma MultilingualRule(text: string, bm: Benchmarks)
    requires NoBackedKeyword(text, bm) && !IncludesAny(LowerAll(text), ChatWords)
    requires !IncludesAny(LowerAll(text), InstructWords) && IncludesAny(LowerAll(text), LanguageWords)
    ensures InferBestUseCase(text, bm) == Multilingual
  {
  }

  /** Rules 6-8: when no keyword rule fires, HumanEval above 60, then GSM8K above 80, decide; otherwise general purpose. */
  lemma ScoreRules(text: string, bm: Benchmarks)
    requires NoBackedKeyword(text, bm) && !IncludesAny(LowerAll(text), ChatWords)
    requires !IncludesAny(LowerAll(text), InstructWords) && !IncludesAny(LowerAll(text), LanguageWords)
    ensures InferBestUseCase(text, bm) ==
      if ScoreAbove(bm.humanEval, 60.0) then Coding
      else if ScoreAbove(bm.gsm8k, 80.0) then Reasoning
      else GeneralPurpose
  {
  }

  /** Without a math or reasoning keyword, reasoning needs GSM8K above 80. */
  lemma ReasoningWithoutKeyword(text: string, bm: Benchmarks)
    requires !IncludesAny(LowerAll(text), MathWords)
    ensures InferBestUseCase(text, bm) == Reasoning <==>
      !IncludesAny(LowerAll(text), ChatWords + InstructWords + LanguageWords) &&
      !ScoreAbove(bm.humanEval, 60.0) && ScoreAbove(bm.gsm8k, 80.0)
  {
    IncludesAnyConcat(LowerAll(text), ChatWords, InstructWords);
    IncludesAnyConcat(LowerAll(text), ChatWords + InstructWords, LanguageWords);
  }

  /** A chat keyword wins unless a backed coding or reasoning keyword comes first. */
  lemma ChatPriority(text: string, bm: Benchmarks)
    requires IncludesAny(LowerAll(text), ChatWords)
    ensures InferBestUseCase(text, bm) == Chat <==>
      !(IncludesAny(LowerAll(text), CodeWords) && ScoreAbove(bm.humanEval, 60.0)) &&
      !(IncludesAny(LowerAll(text), MathWords) && ScoreAbove(bm.gsm8k, 70.0))
  {
  }

  /** With none of the keywords, the scores alone decide. */
  lemma ScoresAlone(text: string, bm: Benchmarks)
    requires !IncludesAny(LowerAll(text), CodeWords + MathWords + ChatWords + InstructWords + LanguageWords)
    ensures InferBestUseCase(text, bm) ==
      if ScoreAbove(bm.humanEval, 60.0) then Coding
      else if ScoreAbove(bm.gsm8k, 80.0) then Reasoning
      else GeneralPurpose
  {
    var lower := LowerAll(text);
    IncludesAnyConcat(lower, CodeWords, MathWords);
    IncludesAnyConcat(lower, CodeWords + MathWords, ChatWords);
    IncludesAnyConcat(lower, CodeWords + MathWords + ChatWords, InstructWords);
    IncludesAnyConcat(lower, CodeWords + MathWords + ChatWords + InstructWords, LanguageWords);
  }

  /** The MMLU score never changes the use case. */
  lemma MMLUIgnored(text: string, bm: Benchmarks, other: Option<BenchmarkScore>)
    ensures InferBestUseCase(text, bm.(mmlu := other)) == InferBestUseCase(text, bm)
  {
  }

  /** Testing for "instruction" as well as "instruct" adds nothing. */
  lemma InstructWordsReduce(s: string)
    ensures IncludesAny(s, InstructWords) <==> Includes(s, "instruct")
  {
    InstructionImpliesInstruct(s);
  }

  lemma IncludesAnyConcat(s: string, a: seq<string>, b: seq<string>)
    ensures IncludesAny(s, a + b) <==> IncludesAny(s, a) || IncludesAny(s, b)
  {
    var ab := a + b;
    if IncludesAny(s, ab) {
      var k :| 0 <= k < |ab| && Includes(s, ab[k]);
      if k >= |a| {
        assert ab[k] == b[k - |a|];
      }
    }
    if IncludesAny(s, a) {
      var k :| 0 <= k < |a| && Includes(s, a[k]);
      assert ab[k] == a[k];
    }
    if IncludesAny(s, b) {
      var k :| 0 <= k < |b| && Includes(s, b[k]);
      assert ab[|a| + k] == b[k];
    }
  }

  // ---------------------------------------------------------------------
  // buildOneLiner

  /** The number in the count's rendering: `toFixed(1)` of billions, `toFixed(0)` of millions, else the count. */
  function CountNumber(count: real): (r: string)
    requires count > 0.0
    ensures |r| > 0 && IsDigit(r[0])
  {
    if count >= 1e9 then
      var tenths := Round(count / 1e9 * 10.0);
      assert tenths >= 10;
      TenthsToString(tenths as nat)
    else if count >= 1e6 then
      var millions := Round(count / 1e6);
      assert millions >= 1;
      NatToString(millions as nat)
    else NatToString(count.Floor as nat)
  }

  /** The unit after the number: "B", "M", or none. */
  function CountUnit(count: real): (r: string)
    ensures r == "B" <==> count >= 1e9
    ensures r == "M" <==> 1e6 <= count < 1e9
    ensures r == "" <==> count < 1e6
  {
    if count >= 1e9 then "B" else if count >= 1e6 then "M" else ""
  }

  /** A count of a billion or more is shown in billions to one decimal, within 0.05 of the exact figure. */
  lemma CountNumberBillions(count: real)
    requires count >= 1e9
    ensures ParseFloat(CountNumber(count)).Value?
    ensures var shown := ParseFloat(CountNumber(count)).v;
      count / 1e9 - 0.05 < shown <= count / 1e9 + 0.05
  {
    var tenths := Round(count / 1e9 * 10.0);
    ParseFloatOfTenths(tenths as nat);
  }

  /** A count from a million up to a billion is shown in whole millions, within half a million. */
  lemma CountNumberMillions(count: real)
    requires 1e6 <= count < 1e9
    ensures ParseFloat(CountNumber(count)).Value?
    ensures var shown := ParseFloat(CountNumber(count)).v;
      count / 1e6 - 0.5 < shown <= count / 1e6 + 0.5
  {
    var millions := Round(count / 1e6);
    ParseFloatOfNat(millions as nat);
  }

  /** `strengths`: the benchmarks above their bars, in the order knowledge, code, math. */
  function Strengths(bm: Benchmarks): (r: seq<string>)
    ensures |r| <= 3
    ensures r == [] <==> !ScoreAbove(bm.mmlu, 70.0) && !ScoreAbove(bm.humanEval, 50.0) && !ScoreAbove(bm.gsm8k, 70.0)
    ensures ("knowledge" in r <==> ScoreAbove(bm.mmlu, 70.0))
         && ("code" in r <==> ScoreAbove(bm.humanEval, 50.0))
         && ("math" in r <==> ScoreAbove(bm.gsm8k, 70.0))
    ensures forall i :: 0 <= i < |r| ==> StrengthRank(r[i]) < 3
    ensures forall i, j :: 0 <= i < j < |r| ==> StrengthRank(r[i]) < StrengthRank(r[j])
  {
    (if ScoreAbove(bm.mmlu, 70.0) then ["knowledge"] else [])
    + (if ScoreAbove(bm.humanEval, 50.0) then ["code"] else [])
    + (if ScoreAbove(bm.gsm8k, 70.0) then ["math"] else [])
  }

  /** The place of a strength in the order knowledge, code, math; 3 for any other word. */
  function StrengthRank(w: string): nat
  {
    if w == "knowledge" then 0 else if w == "code" then 1 else if w == "math" then 2 else 3
  }

  /** The opening part: "<count> parameter model", or "Model" without a positive count. */
  function Opening(count: Num): (r: string)
    ensures !IsPositive(count) ==> r == "Model"
    ensures IsPositive(count) ==> |r| > 16 && r[|r| - 16..] == " parameter model"
  {
    if IsPositive(count) then CountNumber(count.v) + CountUnit(count.v) + " parameter model" else "Model"
  }

  /** The parts of the summary, in order: opening, context window, strengths. */
  function SummaryParts(re: Regex, count: Num, bm: Benchmarks, text: string): seq<string>
  {
    [Opening(count)]
    + (match Extractors.Group1(re, ContextWindow, text)
       case Some(g) => [g + "K context"]
       case None => [])
    + (if Strengths(bm) != [] then ["strong on " + Join(Strengths(bm), ", ")] else [])
  }

  /**
   * `buildOneLiner`: pushes the opening, the context window when the text
   * names one, and the strengths when there are any, then joins them. The
   * model name is a parameter of the source function that it never reads.
   */
  method BuildOneLiner(re: Regex, name: string, count: Num, bm: Benchmarks, text: string) returns (r: string)
    ensures r == Join(SummaryParts(re, count, bm, text), ", ")
  {
    var parts: seq<string> := [];
    if IsPositive(count) {
      var paramStr := CountNumber(count.v) + CountUnit(count.v);
      parts := parts + [paramStr + " parameter model"];
    } else {
      parts := parts + ["Model"];
    }
    assert parts == [Opening(count)];
    var ctxMatch := Extractors.Group1(re, ContextWindow, text);
    if ctxMatch.Some? {
      parts := parts + [ctxMatch.value + "K context"];
    }
    ghost var head := parts;
    var strengths := CollectStrengths(bm);
    if |strengths| > 0 {
      parts := parts + ["strong on " + Join(strengths, ", ")];
    }
    SummaryPartsSplit(re, count, bm, text, head, parts);
    r := Join(parts, ", ");
  }

  lemma SummaryPartsSplit(re: Regex, count: Num, bm: Benchmarks, text: string, head: seq<string>, parts: seq<string>)
    requires head == [Opening(count)] + (match Extractors.Group1(re, ContextWindow, text)
                                         case Some(g) => [g + "K context"]
                                         case None => [])
    requires parts == head + (if Strengths(bm) != [] then ["strong on " + Join(Strengths(bm), ", ")] else [])
    ensures parts == SummaryParts(re, count, bm, text)
  {
  }

  /** The pushes onto `strengths`. */
  method CollectStrengths(bm: Benchmarks) returns (strengths: seq<string>)
    ensures strengths == Strengths(bm)
  {
    strengths := [];
    if ScoreAbove(bm.mmlu, 70.0) { strengths := strengths + ["knowledge"]; }
    if ScoreAbove(bm.humanEval, 50.0) { strengths := strengths + ["code"]; }
    if ScoreAbove(bm.gsm8k, 70.0) { strengths := strengths + ["math"]; }
  }

  /**
   * The summary opens with "Model" exactly when the count is not positive
   * (zero or NaN); otherwise with the count's digits.
   */
  lemma SummaryOpening(re: Regex, count: Num, bm: Benchmarks, text: string)
    ensures var r := Join(SummaryParts(re, count, bm, text), ", ");
      && (!IsPositive(count) ==> |r| >= 5 && r[..5] == "Model")
      && (IsPositive(count) ==> |r| > 0 && IsDigit(r[0]))
  {
    var parts := SummaryParts(re, count, bm, text);
    var o := Opening(count);
    assert parts[0] == o;
    if IsPositive(count) {
      assert o[0] == CountNumber(count.v)[0];
    }
  }

  /**
   * With no positive count, no context window and no strength, the summary
   * is exactly "Model".
   */
  lemma BareSummary(re: Regex, count: Num, bm: Benchmarks, text: string)
    requires !IsPositive(count)
    requires Extractors.Group1(re, ContextWindow, text).None?
    requires !ScoreAbove(bm.mmlu, 70.0) && !ScoreAbove(bm.humanEval, 50.0) && !ScoreAbove(bm.gsm8k, 70.0)
    ensures Join(SummaryParts(re, count, bm, text), ", ") == "Model"
  {
    assert SummaryParts(re, count, bm, text) == ["Model"];
  }

  /**
   * The parts are the opening, then the context part when the text names a
   * context window, then the strengths part when there are strengths.
   */
  lemma SummaryShape(re: Regex, count: Num, bm: Benchmarks, text: string)
    ensures var parts := SummaryParts(re, count, bm, text);
      var ctx := Extractors.Group1(re, ContextWindow, text);
      && |parts| == 1 + (if ctx.Some? then 1 else 0) + (if Strengths(bm) != [] then 1 else 0)
      && parts[0] == Opening(count)
      && (ctx.Some? ==> parts[1] == ctx.value + "K context")
      && (Strengths(bm) != [] ==> parts[|parts| - 1] == "strong on " + Join(Strengths(bm), ", "))
  {
  }
}
