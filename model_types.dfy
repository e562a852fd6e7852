/** The record the parser returns for each model, one field per entry of `ModelData`. */
module ModelTypes {
  import opened Wrappers
  import opened Numbers

  /** A benchmark result: a percentage, and the number of in-context examples when one was found. */
  datatype BenchmarkScore = BenchmarkScore(score: real, shots: Option<Num>)

  datatype Benchmarks = Benchmarks(
    mmlu: Option<BenchmarkScore>,
    humanEval: Option<BenchmarkScore>,
    gsm8k: Option<BenchmarkScore>)

  /** Memory needed at each precision, in GB; None where neither stated nor estimated. */
  datatype MemoryFootprint = MemoryFootprint(fp16: Option<Num>, int8: Option<Num>, int4: Option<Num>)

  datatype UseCase = Coding | Reasoning | Chat | InstructionFollowing | Multilingual | GeneralPurpose

  /** The label the record carries for a use case. */
  function UseCaseLabel(u: UseCase): string
  {
    match u
    case Coding => "coding"
    case Reasoning => "reasoning"
    case Chat => "chat"
    case InstructionFollowing => "instruction-following"
    case Multilingual => "multilingual"
    case GeneralPurpose => "general-purpose"
  }

  datatype ModelRecord = ModelRecord(
    modelName: string,
    parameterCount: Num,
    keyBenchmarks: Benchmarks,
    memoryFootprintGb: MemoryFootprint,
    compressionPerformance: Option<string>,
    bestUseCase: UseCase,
    oneLineSummary: string)
}
