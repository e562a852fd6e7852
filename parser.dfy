/**
 * `parseModels`: cuts the text into model chunks, deduplicates them by
 * canonical name, builds one record per chunk and sorts the records by
 * parameter count, largest first.
 */
module Parser {
  import opened Wrappers
  import opened Text
  import opened Numbers
  import opened Patterns
  import opened ModelTypes
  import opened StableSort
  import opened Detection
  import opened Segmentation
  import opened Extractors
  import opened Inference

  // ---------------------------------------------------------------------
  // Deduplication by canonical name

  /** `chunk.name.toLowerCase().replace(/[\s-]+/g, "")`. */
  function ChunkKey(c: Chunk): string
  {
    CanonicalKey(c.name)
  }

  /** The position of the chunk kept under `key`, or -1. */
  function FindKey(d: seq<Chunk>, key: string): (i: int)
    ensures -1 <= i < |d|
    ensures i >= 0 ==> ChunkKey(d[i]) == key && forall j :: 0 <= j < i ==> ChunkKey(d[j]) != key
    ensures i == -1 <==> forall j :: 0 <= j < |d| ==> ChunkKey(d[j]) != key
  {
    FindKeyFrom(d, key, 0)
  }

  /** The first position at or after `from` whose chunk has `key`, or -1. */
  function FindKeyFrom(d: seq<Chunk>, key: string, from: nat): (i: int)
    requires from <= |d|
    ensures -1 <= i < |d|
    ensures i >= 0 ==> from <= i && ChunkKey(d[i]) == key && forall j :: from <= j < i ==> ChunkKey(d[j]) != key
    ensures i == -1 <==> forall j :: from <= j < |d| ==> ChunkKey(d[j]) != key
    decreases |d| - from
  {
    if from == |d| then -1
    else if ChunkKey(d[from]) == key then from
    else FindKeyFrom(d, key, from + 1)
  }


  /** One step of the dedup loop: a new key is added; a known key takes the chunk with the longer text, in place. */
  function Keep(d: seq<Chunk>, c: Chunk): (r: seq<Chunk>)
    ensures |d| <= |r| <= |d| + 1
    ensures forall j :: 0 <= j < |d| && ChunkKey(d[j]) != ChunkKey(c) ==> r[j] == d[j]
    ensures |r| == |d| + 1 <==> forall j :: 0 <= j < |d| ==> ChunkKey(d[j]) != ChunkKey(c)
    ensures |r| == |d| + 1 ==> r[|d|] == c
    ensures |r| == |d| ==> var i := FindKey(d, ChunkKey(c));
      0 <= i && (r == d[i := c] || r == d)
      && |r[i].textBlock| >= |c.textBlock| && |r[i].textBlock| >= |d[i].textBlock|
  {
    var i := FindKey(d, ChunkKey(c));
    if i < 0 then d + [c]
    else if |c.textBlock| > |d[i].textBlock| then d[i := c]
    else d
  }

  /** The `deduped` map after the chunks `cs`, in insertion order. */
  function Dedup(cs: seq<Chunk>): seq<Chunk>
  {
    if cs == [] then [] else Keep(Dedup(cs[..|cs| - 1]), cs[|cs| - 1])
  }

  predicate DistinctChunkKeys(cs: seq<Chunk>)
  {
    forall i, j :: 0 <= i < j < |cs| ==> ChunkKey(cs[i]) != ChunkKey(cs[j])
  }

  /** The map holds each key once, and only keys of the chunks. */
  lemma {:induction false} DedupKeys(cs: seq<Chunk>)
    ensures DistinctChunkKeys(Dedup(cs))
    ensures forall i :: 0 <= i < |Dedup(cs)| ==> Dedup(cs)[i] in cs
  {
    if cs != [] {
      var init, c := cs[..|cs| - 1], cs[|cs| - 1];
      assert init + [c] == cs;
      DedupKeys(init);
      var d := Dedup(init);
      assert Dedup(cs) == Keep(d, c);
      KeepKeys(d, c);
      forall i | 0 <= i < |Dedup(cs)| ensures Dedup(cs)[i] in cs {
        assert Dedup(cs)[i] in d || Dedup(cs)[i] == c;
      }
    }
  }

  /** One dedup step keeps the keys distinct and only ever holds chunks it was given. */
  lemma KeepKeys(d: seq<Chunk>, c: Chunk)
    requires DistinctChunkKeys(d)
    ensures DistinctChunkKeys(Keep(d, c))
    ensures forall i :: 0 <= i < |Keep(d, c)| ==> Keep(d, c)[i] in d || Keep(d, c)[i] == c
  {
    var i := FindKey(d, ChunkKey(c));
    if i >= 0 && |c.textBlock| > |d[i].textBlock| {
      assert forall j :: 0 <= j < |d| && j != i ==> Keep(d, c)[j] == d[j];
    }
  }

  /** Chunks whose keys are already distinct pass through the dedup unchanged. */
  lemma {:induction false} DedupDistinct(cs: seq<Chunk>)
    requires DistinctChunkKeys(cs)
    ensures Dedup(cs) == cs
  {
    if cs != [] {
      var init, c := cs[..|cs| - 1], cs[|cs| - 1];
      assert init + [c] == cs;
      DedupDistinct(init);
      assert forall j :: 0 <= j < |init| ==> ChunkKey(init[j]) != ChunkKey(c);
      assert FindKey(init, ChunkKey(c)) == -1;
    }
  }

  /** Of two chunks with the same key, the one with the longer text is kept. */
  lemma LongerReplaces(a: Chunk, b: Chunk)
    requires ChunkKey(a) == ChunkKey(b) && |b.textBlock| > |a.textBlock|
    ensures Dedup([a, b]) == [b]
  {
    assert [a, b][..1] == [a];
    assert [a][..0] == [];
    assert Dedup([a]) == [a];
    assert FindKey([a], ChunkKey(b)) == 0;
  }

  // ---------------------------------------------------------------------
  // Records

  /** The record built from one chunk. */
  function RecordOf(re: Regex, c: Chunk): (r: ModelRecord)
    ensures r.modelName == c.name
  {
    var count := ExtractParamCount(re, c.textBlock, c.name);
    var bm := Benchmarks(ExtractBenchmark(re, c.textBlock, MMLU),
                         ExtractBenchmark(re, c.textBlock, HumanEval),
                         ExtractBenchmark(re, c.textBlock, GSM8K));
    ModelRecord(c.name, count, bm, MemoryOf(re, c.textBlock, count), ExtractCompression(re, c.textBlock),
                InferBestUseCase(c.textBlock, bm), Join(SummaryParts(re, count, bm, c.textBlock), ", "))
  }

  /** The body of the record loop. */
  method BuildRecord(re: Regex, c: Chunk) returns (r: ModelRecord)
    ensures r == RecordOf(re, c)
  {
    var count := ExtractParamCount(re, c.textBlock, c.name);
    var bm := Benchmarks(ExtractBenchmark(re, c.textBlock, MMLU),
                         ExtractBenchmark(re, c.textBlock, HumanEval),
                         ExtractBenchmark(re, c.textBlock, GSM8K));
    var memory := ExtractMemory(re, c.textBlock, count);
    var compression := ExtractCompression(re, c.textBlock);
    var bestUse := InferBestUseCase(c.textBlock, bm);
    var summary := BuildOneLiner(re, c.name, count, bm, c.textBlock);
    r := ModelRecord(c.name, count, bm, memory, compression, bestUse, summary);
  }

  /** `RecordOf` as a value, so that the lemmas about lists of records need not look inside it. */
  function Build(re: Regex): Chunk -> ModelRecord
  {
    c => RecordOf(re, c)
  }

  /** One record per chunk, in order. */
  function RecordsWith(build: Chunk -> ModelRecord, cs: seq<Chunk>): (rs: seq<ModelRecord>)
    ensures |rs| == |cs| && forall i :: 0 <= i < |cs| ==> rs[i] == build(cs[i])
  {
    seq(|cs|, i requires 0 <= i < |cs| => build(cs[i]))
  }

  lemma RecordsWithSnoc(build: Chunk -> ModelRecord, cs: seq<Chunk>, k: nat)
    requires k < |cs|
    ensures RecordsWith(build, cs[..k + 1]) == RecordsWith(build, cs[..k]) + [build(cs[k])]
  {
  }

  // ---------------------------------------------------------------------
  // Sorting by parameter count

  /** The comparator `(a, b) => b.parameter_count - a.parameter_count`: a goes after b when b's count is larger. */
  function ByCount(rs: seq<ModelRecord>): (nat, nat) -> bool
  {
    (a: nat, b: nat) => a < |rs| && b < |rs| && Greater(rs[b].parameterCount, rs[a].parameterCount)
  }

  /** No record has a NaN count. */
  predicate Comparable(rs: seq<ModelRecord>)
  {
    forall i :: 0 <= i < |rs| ==> rs[i].parameterCount.Value?
  }

  lemma ByCountConsistent(rs: seq<ModelRecord>)
    requires Comparable(rs)
    ensures Consistent(ByCount(rs), |rs|)
  {
  }

  /** The insertion order of the stable sort by count. */
  function CountOrder(rs: seq<ModelRecord>): (order: seq<nat>)
    ensures IsPermutation(order, |rs|)
  {
    Order(|rs|, ByCount(rs))
  }

  /** The records sorted by parameter count, largest first, with a stable sort. */
  function SortByCount(rs: seq<ModelRecord>): (r: seq<ModelRecord>)
    ensures |r| == |rs|
    ensures forall j :: 0 <= j < |r| ==> CountOrder(rs)[j] < |rs| && r[j] == rs[CountOrder(rs)[j]]
  {
    var order := CountOrder(rs);
    PermutationFacts(order, |rs|);
    seq(|rs|, j requires 0 <= j < |rs| => rs[order[j]])
  }

  /** `results.sort(...)`. */
  method SortRecords(rs: seq<ModelRecord>) returns (sorted: seq<ModelRecord>)
    ensures sorted == SortByCount(rs)
  {
    var order := Order(|rs|, ByCount(rs));
    PermutationFacts(order, |rs|);
    sorted := seq(|rs|, j requires 0 <= j < |rs| => rs[order[j]]);
    assert order == CountOrder(rs);
  }

  /** With no NaN count, the sorted records never increase in count. */
  lemma SortByCountDescending(rs: seq<ModelRecord>)
    requires Comparable(rs)
    ensures var r := SortByCount(rs);
      forall i, j :: 0 <= i < j < |r| ==> !Greater(r[j].parameterCount, r[i].parameterCount)
  {
    var order := CountOrder(rs);
    PermutationFacts(order, |rs|);
    ByCountConsistent(rs);
    OrderSorted(|rs|, ByCount(rs));
    var r := SortByCount(rs);
    forall i, j | 0 <= i < j < |r| ensures !Greater(r[j].parameterCount, r[i].parameterCount) {
      assert !ByCount(rs)(order[i], order[j]);
    }
  }

  /**
   * The model's stable order only moves a record ahead of an earlier one when
   * its count is strictly larger. With a NaN count an engine may order the
   * records otherwise.
   */
  lemma SortByCountStable(rs: seq<ModelRecord>)
    ensures var order := CountOrder(rs);
      forall i, j :: 0 <= i < j < |order| && order[j] < order[i] ==>
        order[i] < |rs| && order[j] < |rs| && Greater(rs[order[i]].parameterCount, rs[order[j]].parameterCount)
  {
    var order := CountOrder(rs);
    PermutationFacts(order, |rs|);
    OrderStable(|rs|, ByCount(rs));
  }

  /** Every record appears in the sorted result. */
  lemma SortByCountKeepsAll(rs: seq<ModelRecord>, k: nat)
    requires k < |rs|
    ensures rs[k] in SortByCount(rs)
  {
    var order := CountOrder(rs);
    PermutationFacts(order, |rs|);
    PermutationCovers(order, |rs|, k);
    var j :| 0 <= j < |order| && order[j] == k;
    assert SortByCount(rs)[j] == rs[k];
  }

  // ---------------------------------------------------------------------
  // parseModels

  /** The loop that fills `deduped`. */
  method DedupChunks(chunks: seq<Chunk>) returns (deduped: seq<Chunk>)
    ensures deduped == Dedup(chunks)
  {
    deduped := [];
    for k := 0 to |chunks|
      invariant deduped == Dedup(chunks[..k])
    {
      var chunk := chunks[k];
      var key := ChunkKey(chunk);
      var i := FindKey(deduped, key);
      if i < 0 {
        deduped := deduped + [chunk];
      } else if |chunk.textBlock| > |deduped[i].textBlock| {
        deduped := deduped[i := chunk];
      }
      assert chunks[..k + 1][..k] == chunks[..k];
    }
    assert chunks[..|chunks|] == chunks;
  }

  /** The loop that pushes one record per kept chunk. */
  method BuildRecords(re: Regex, deduped: seq<Chunk>) returns (results: seq<ModelRecord>)
    ensures results == RecordsWith(Build(re), deduped)
  {
    results := [];
    for k := 0 to |deduped|
      invariant results == RecordsWith(Build(re), deduped[..k])
    {
      var r := BuildRecord(re, deduped[k]);
      assert r == Build(re)(deduped[k]);
      RecordsWithSnoc(Build(re), deduped, k);
      results := results + [r];
    }
    assert deduped[..|deduped|] == deduped;
  }

  /** The records reported for a list of chunks. */
  function ParseChunks(build: Chunk -> ModelRecord, chunks: seq<Chunk>): seq<ModelRecord>
  {
    if chunks == [] then [] else SortByCount(RecordsWith(build, Dedup(chunks)))
  }

  /** What `parseModels` returns. */
  function ParseResult(re: Regex, text: string): seq<ModelRecord>
  {
    ParseChunks(Build(re), ModelChunks(re, text))
  }

  /** `parseModels`: chunks, dedup loop, record loop, sort. */
  method ParseModels(re: Regex, text: string) returns (models: seq<ModelRecord>)
    ensures models == ParseResult(re, text)
  {
    var chunks := FindModelChunks(re, text);
    if |chunks| == 0 {
      return [];
    }
    var deduped := DedupChunks(chunks);
    var results := BuildRecords(re, deduped);
    models := SortRecords(results);
  }

  /** The chunks of a text have distinct keys. */
  lemma ModelChunksDistinct(re: Regex, text: string)
    ensures DistinctChunkKeys(ModelChunks(re, text))
  {
    ModelChunksFacts(re, text);
  }

  /** No model is reported exactly when no pattern matches the text. */
  lemma ParseResultEmpty(re: Regex, text: string)
    ensures ParseResult(re, text) == [] <==> Mentions(re, text, ModelPatterns) == []
  {
    ModelChunksFacts(re, text);
  }

  /** The models are the chunks' records, one per chunk: each chunk's record is there, and nothing else. */
  predicate OnePerChunk(build: Chunk -> ModelRecord, chunks: seq<Chunk>, models: seq<ModelRecord>)
  {
    && |models| == |chunks|
    && (forall j :: 0 <= j < |chunks| ==> build(chunks[j]) in models)
    && (forall i :: 0 <= i < |models| ==> exists j :: 0 <= j < |chunks| && models[i] == build(chunks[j]))
  }

  /** Chunks with distinct keys give one record each, every one reported. */
  lemma ParseChunksRecords(build: Chunk -> ModelRecord, chunks: seq<Chunk>)
    requires DistinctChunkKeys(chunks)
    ensures OnePerChunk(build, chunks, ParseChunks(build, chunks))
  {
    DedupDistinct(chunks);
    if chunks != [] {
      var rs := RecordsWith(build, chunks);
      var order := CountOrder(rs);
      PermutationFacts(order, |rs|);
      forall j | 0 <= j < |chunks| ensures build(chunks[j]) in ParseChunks(build, chunks) {
        SortByCountKeepsAll(rs, j);
      }
      forall i | 0 <= i < |chunks| ensures exists j :: 0 <= j < |chunks| && ParseChunks(build, chunks)[i] == build(chunks[j]) {
        assert ParseChunks(build, chunks)[i] == build(chunks[order[i]]);
      }
    }
  }

  /**
   * The chunks already name distinct models, so the dedup keeps them all:
   * there is one record per chunk, and each chunk's record is reported.
   */
  lemma ParseResultRecords(re: Regex, text: string)
    ensures OnePerChunk(Build(re), ModelChunks(re, text), ParseResult(re, text))
  {
    ModelChunksDistinct(re, text);
    ParseChunksRecords(Build(re), ModelChunks(re, text));
  }

  /** Each record carries its chunk's name. */
  lemma BuildKeepsName(re: Regex, c: Chunk)
    ensures Build(re)(c).modelName == c.name
  {
  }

  /** Records of chunks with distinct keys, each carrying its chunk's name, carry distinct keys. */
  lemma ParseChunksNames(build: Chunk -> ModelRecord, chunks: seq<Chunk>)
    requires DistinctChunkKeys(chunks)
    requires forall j :: 0 <= j < |chunks| ==> build(chunks[j]).modelName == chunks[j].name
    ensures var models := ParseChunks(build, chunks);
      forall i, j :: 0 <= i < j < |models| ==> CanonicalKey(models[i].modelName) != CanonicalKey(models[j].modelName)
  {
    DedupDistinct(chunks);
    if chunks != [] {
      var rs := RecordsWith(build, chunks);
      var order := CountOrder(rs);
      PermutationFacts(order, |rs|);
      var models := ParseChunks(build, chunks);
      forall i, j | 0 <= i < j < |models|
        ensures CanonicalKey(models[i].modelName) != CanonicalKey(models[j].modelName)
      {
        assert models[i].modelName == chunks[order[i]].name;
        assert models[j].modelName == chunks[order[j]].name;
        assert order[i] != order[j];
      }
    }
  }

  /** The reported models have pairwise distinct canonical names. */
  lemma ParseResultNames(re: Regex, text: string)
    ensures var models := ParseResult(re, text);
      forall i, j :: 0 <= i < j < |models| ==> CanonicalKey(models[i].modelName) != CanonicalKey(models[j].modelName)
  {
    var chunks := ModelChunks(re, text);
    ModelChunksDistinct(re, text);
    forall j | 0 <= j < |chunks| ensures Build(re)(chunks[j]).modelName == chunks[j].name {
      BuildKeepsName(re, chunks[j]);
    }
    ParseChunksNames(Build(re), chunks);
  }

  /** When no count is NaN, the models come largest count first. */
  lemma ParseResultDescending(re: Regex, text: string)
    requires Comparable(RecordsWith(Build(re), ModelChunks(re, text)))
    ensures var models := ParseResult(re, text);
      forall i, j :: 0 <= i < j < |models| ==> !Greater(models[j].parameterCount, models[i].parameterCount)
  {
    var chunks := ModelChunks(re, text);
    ModelChunksDistinct(re, text);
    DedupDistinct(chunks);
    if chunks != [] {
      SortByCountDescending(RecordsWith(Build(re), chunks));
    }
  }
}
