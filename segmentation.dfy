/**
 * Chunk segmentation (`findModelChunks`, second half): the map's entries are
 * sorted by position, and each gets the text from 100 characters before its
 * mention up to the next mention, or 1500 characters past the last one.
 */
module Segmentation {
  import opened Text
  import opened Patterns
  import opened StableSort
  import opened Detection

  /** The text that goes with one detected model. */
  datatype Chunk = Chunk(name: string, textBlock: string)

  /** The comparator `(a, b) => a.index - b.index` over positions of the map. */
  function ByIndex(found: seq<Mention>): (nat, nat) -> bool
  {
    (a: nat, b: nat) => a < |found| && b < |found| && found[a].index > found[b].index
  }

  lemma ByIndexConsistent(found: seq<Mention>)
    ensures Consistent(ByIndex(found), |found|)
  {
  }

  /** The insertion order of the stable sort by position. */
  function PositionOrder(found: seq<Mention>): (order: seq<nat>)
    ensures IsPermutation(order, |found|)
  {
    Order(|found|, ByIndex(found))
  }

  /** The map's entries, sorted by position with a stable sort. */
  function ByPosition(found: seq<Mention>): (r: seq<Mention>)
    ensures |r| == |found|
    ensures forall j :: 0 <= j < |r| ==> PositionOrder(found)[j] < |found| && r[j] == found[PositionOrder(found)[j]]
  {
    var order := PositionOrder(found);
    PermutationFacts(order, |found|);
    seq(|found|, j requires 0 <= j < |found| => found[order[j]])
  }

  lemma PermutationCovers(order: seq<nat>, n: nat, p: nat)
    requires IsPermutation(order, n) && p < n
    ensures p in order
  {
    assert Range(n)[p] == p;
    assert p in multiset(Range(n));
  }

  /** The sorted entries are the map's entries, each exactly once. */
  lemma ByPositionMembers(found: seq<Mention>)
    requires DistinctKeys(found)
    ensures var r := ByPosition(found);
      && (forall j :: 0 <= j < |r| ==> r[j] in found)
      && (forall k :: 0 <= k < |found| ==> found[k] in r)
      && DistinctKeys(r)
  {
    var n := |found|;
    var order := PositionOrder(found);
    var r := ByPosition(found);
    PermutationFacts(order, n);
    forall k | 0 <= k < n ensures found[k] in r {
      PermutationCovers(order, n, k);
      var j :| 0 <= j < n && order[j] == k;
      assert r[j] == found[k];
    }
    forall i, j | 0 <= i < j < n ensures r[i].key != r[j].key {
      assert order[i] != order[j];
    }
  }

  /**
   * The sorted entries ascend by position; entries at the same position
   * keep the map's insertion order.
   */
  lemma ByPositionSorted(found: seq<Mention>)
    requires DistinctKeys(found)
    ensures var r := ByPosition(found);
      && (forall i, j :: 0 <= i < j < |r| ==> r[i].index <= r[j].index)
      && (forall i, j :: 0 <= i < j < |r| && r[i].index == r[j].index ==>
            Lookup(found, r[i].key) < Lookup(found, r[j].key))
  {
    var n := |found|;
    var order := PositionOrder(found);
    var r := ByPosition(found);
    PermutationFacts(order, n);
    forall j | 0 <= j < n ensures Lookup(found, r[j].key) == order[j] {
      LookupAt(found, r[j].key, order[j]);
    }
    ByIndexConsistent(found);
    OrderSorted(n, ByIndex(found));
    OrderStable(n, ByIndex(found));
    forall i, j | 0 <= i < j < n ensures r[i].index <= r[j].index {
      assert !ByIndex(found)(order[i], order[j]);
    }
    forall i, j | 0 <= i < j < n && r[i].index == r[j].index ensures order[i] < order[j] {
      assert !ByIndex(found)(order[j], order[i]);
      assert order[i] != order[j];
    }
  }

  /** `Math.max(0, index - 100)`. */
  function WindowStart(index: nat): (r: nat)
    ensures r <= index <= r + 100
    ensures r > 0 ==> index == r + 100
  {
    if index >= 100 then index - 100 else 0
  }

  /** The next entry's position, or `Math.min(text.length, index + 1500)` for the last entry. */
  function WindowEnd(text: string, entries: seq<Mention>, i: nat): (r: nat)
    requires i < |entries|
    ensures i + 1 < |entries| ==> r == entries[i + 1].index
    ensures i + 1 == |entries| ==>
      r <= |text| && r <= entries[i].index + 1500 && (r == |text| || r == entries[i].index + 1500)
  {
    if i + 1 < |entries| then entries[i + 1].index
    else if entries[i].index + 1500 < |text| then entries[i].index + 1500
    else |text|
  }

  /** One chunk per entry, in order, each `text.slice(start, end)`. */
  function Windows(text: string, entries: seq<Mention>): (r: seq<Chunk>)
    ensures |r| == |entries|
    ensures forall i :: 0 <= i < |r| ==> r[i].name == entries[i].name
  {
    seq(|entries|, i requires 0 <= i < |entries| =>
      Chunk(entries[i].name, Slice(text, WindowStart(entries[i].index), WindowEnd(text, entries, i))))
  }

  /**
   * Chunk i carries entry i's name and is the stretch of text that starts
   * 100 characters before the mention (or at the start of the text) and
   * ends at the next mention (clamped to the text, empty when the next
   * mention comes first); the last chunk is at most 1600 characters.
   */
  lemma WindowFacts(text: string, entries: seq<Mention>, i: nat)
    requires i < |entries|
    ensures var c := Windows(text, entries)[i];
      var idx := entries[i].index;
      var lo := if WindowStart(idx) < |text| then WindowStart(idx) else |text|;
      var end := WindowEnd(text, entries, i);
      var hi := if end < lo then lo else if end < |text| then end else |text|;
      && c.name == entries[i].name
      && lo <= hi <= |text|
      && c.textBlock == text[lo..hi]
      && (idx <= |text| ==> lo <= idx && idx - lo <= 100)
      && (i + 1 == |entries| ==> |c.textBlock| <= 1600)
  {
  }

  /** The chunks of a text: one per detected model, in order of first mention. */
  function ModelChunks(re: Regex, text: string): seq<Chunk>
  {
    ChunksOf(text, Mentions(re, text, ModelPatterns))
  }

  lemma FoldSnoc(cs: seq<Mention>, c: Mention)
    ensures Fold(cs + [c]) == Remember(Fold(cs), c)
  {
    assert (cs + [c])[..|cs|] == cs;
  }

  lemma MentionsSnoc(re: Regex, text: string, p: nat)
    requires p < |ModelPatterns|
    ensures Mentions(re, text, ModelPatterns[..p + 1])
         == Mentions(re, text, ModelPatterns[..p]) + MentionsOf(re.scan(ModelPatterns[p], text))
  {
    assert ModelPatterns[..p + 1][..p] == ModelPatterns[..p];
  }

  /** The body of the match loop: keep a new name, or move it to an earlier index. */
  method Record(found: seq<Mention>, c: Mention) returns (found': seq<Mention>)
    ensures found' == Remember(found, c)
  {
    found' := found;
    var i := Lookup(found, c.key);
    if i < 0 {
      found' := found + [c];
    } else if c.index < found[i].index {
      found' := found[i := c];
    }
  }

  lemma MentionsOfSnoc(ms: seq<Match>, k: nat)
    requires k < |ms|
    ensures MentionsOf(ms[..k + 1]) == MentionsOf(ms[..k]) + [MentionOf(ms[k])]
  {
  }

  lemma SeenSnoc(seen: seq<Mention>, ms: seq<Match>, k: nat)
    requires k < |ms|
    ensures seen + MentionsOf(ms[..k + 1]) == seen + MentionsOf(ms[..k]) + [MentionOf(ms[k])]
  {
    MentionsOfSnoc(ms, k);
  }

  /** The loop over one pattern's matches. */
  method RecordAll(found: seq<Mention>, matches: seq<Match>, ghost seen: seq<Mention>) returns (found': seq<Mention>)
    requires found == Fold(seen)
    ensures found' == Fold(seen + MentionsOf(matches))
  {
    found' := found;
    ghost var done := seen;
    for k := 0 to |matches|
      invariant done == seen + MentionsOf(matches[..k])
      invariant found' == Fold(done)
    {
      var c := MentionOf(matches[k]);
      FoldSnoc(done, c);
      found' := Record(found', c);
      SeenSnoc(seen, matches, k);
      done := done + [c];
    }
    assert matches[..|matches|] == matches;
  }

  /** `findModelChunks`: scans the pattern bank into the map, then cuts one chunk per entry. */
  method FindModelChunks(re: Regex, text: string) returns (chunks: seq<Chunk>)
    ensures chunks == ModelChunks(re, text)
  {
    var found: seq<Mention> := [];
    ghost var seen: seq<Mention> := [];
    for p := 0 to |ModelPatterns|
      invariant seen == Mentions(re, text, ModelPatterns[..p])
      invariant found == Fold(seen)
    {
      var matches := re.scan(ModelPatterns[p], text);
      found := RecordAll(found, matches, seen);
      MentionsSnoc(re, text, p);
      seen := seen + MentionsOf(matches);
    }
    assert ModelPatterns[..|ModelPatterns|] == ModelPatterns;
    if |found| == 0 {
      return [];
    }
    var entries := SortByPosition(found);
    chunks := Segment(text, entries);
  }

  /** `Array.from(found.values()).sort((a, b) => a.index - b.index)`. */
  method SortByPosition(found: seq<Mention>) returns (entries: seq<Mention>)
    ensures entries == ByPosition(found)
  {
    var order := Order(|found|, ByIndex(found));
    PermutationFacts(order, |found|);
    entries := seq(|found|, j requires 0 <= j < |found| => found[order[j]]);
    assert order == PositionOrder(found);
  }

  /** The loop that pushes one chunk per sorted entry. */
  method Segment(text: string, entries: seq<Mention>) returns (chunks: seq<Chunk>)
    ensures chunks == Windows(text, entries)
  {
    chunks := [];
    for i := 0 to |entries|
      invariant |chunks| == i
      invariant forall j :: 0 <= j < i ==> chunks[j] == Windows(text, entries)[j]
    {
      var start := WindowStart(entries[i].index);
      var end := WindowEnd(text, entries, i);
      chunks := chunks + [Chunk(entries[i].name, Slice(text, start, end))];
    }
  }

  /** The chunks cut from the map of the mentions `ms`. */
  function ChunksOf(text: string, ms: seq<Mention>): seq<Chunk>
  {
    var found := Fold(ms);
    if found == [] then [] else Windows(text, ByPosition(found))
  }

  ghost predicate WellKeyed(ms: seq<Mention>)
  {
    forall i :: 0 <= i < |ms| ==> Normalized(ms[i].name) && ms[i].key == CanonicalKey(ms[i].name)
  }

  /** Each chunk's name is the normalized name of one of the mentions, and no two chunks share a key. */
  lemma ChunkNames(text: string, ms: seq<Mention>)
    requires WellKeyed(ms)
    ensures var chunks := ChunksOf(text, ms);
      && (forall i :: 0 <= i < |chunks| ==> Normalized(chunks[i].name))
      && (forall i, j :: 0 <= i < j < |chunks| ==> CanonicalKey(chunks[i].name) != CanonicalKey(chunks[j].name))
  {
    var found := Fold(ms);
    FoldDistinct(ms);
    ByPositionMembers(found);
    var r := ByPosition(found);
    forall i | 0 <= i < |r| ensures Normalized(r[i].name) && r[i].key == CanonicalKey(r[i].name) {
      EntryIsMention(ms, PositionOrder(found)[i]);
    }
    ChunkOfEntry(text, ms);
  }

  /**
   * Every chunk is named `normalizeModelName(match[1])` for a match that the
   * scan of one of the family patterns yields.
   */
  lemma ChunkFromScan(re: Regex, text: string, i: nat)
    requires i < |ModelChunks(re, text)|
    ensures exists f, mt :: f in ModelPatterns && mt in re.scan(f, text) && ModelChunks(re, text)[i].name == Normalize(mt.group1)
  {
    var ms := Mentions(re, text, ModelPatterns);
    var found := Fold(ms);
    assert ModelChunks(re, text) == ChunksOf(text, ms);
    ChunkOfEntry(text, ms);
    var k := PositionOrder(found)[i];
    EntryIsMention(ms, k);
    var j :| 0 <= j < |ms| && ms[j] == found[k];
    MentionFromScan(re, text, ModelPatterns, j);
  }

  /** Chunk i is named after the i-th entry by position. */
  lemma ChunkOfEntry(text: string, ms: seq<Mention>)
    ensures var chunks := ChunksOf(text, ms);
      |chunks| == |Fold(ms)| && forall i :: 0 <= i < |chunks| ==> chunks[i].name == ByPosition(Fold(ms))[i].name
  {
  }

  /** Every mention's key is held by some entry of the map. */
  lemma MentionHasEntry(ms: seq<Mention>, j: nat)
    requires j < |ms|
    ensures exists k :: 0 <= k < |Fold(ms)| && Fold(ms)[k].key == ms[j].key
  {
    FoldSummarizes(ms);
    var k := Lookup(Fold(ms), ms[j].key);
    assert Fold(ms)[k].key == ms[j].key;
  }

  /** Each entry of the map is one of the mentions. */
  lemma EntryIsMention(ms: seq<Mention>, k: nat)
    requires k < |Fold(ms)|
    ensures Fold(ms)[k] in ms
  {
    FoldSummarizes(ms);
  }

  /** Each entry of the map has a place in the sorted entries. */
  lemma EntryIsPlaced(found: seq<Mention>, k: nat)
    requires k < |found|
    ensures exists i :: 0 <= i < |found| && ByPosition(found)[i] == found[k]
  {
    var order := PositionOrder(found);
    PermutationFacts(order, |found|);
    PermutationCovers(order, |found|, k);
    var i :| 0 <= i < |order| && order[i] == k;
    assert ByPosition(found)[i] == found[k];
  }

  /** Every mention has a chunk under its key. */
  lemma ChunksCover(text: string, ms: seq<Mention>, m: Mention)
    requires WellKeyed(ms) && m in ms
    ensures var chunks := ChunksOf(text, ms);
      exists i :: 0 <= i < |chunks| && CanonicalKey(chunks[i].name) == m.key
  {
    var found := Fold(ms);
    var j :| 0 <= j < |ms| && ms[j] == m;
    MentionHasEntry(ms, j);
    var k :| 0 <= k < |found| && found[k].key == m.key;
    EntryIsMention(ms, k);
    EntryIsPlaced(found, k);
    var i :| 0 <= i < |found| && ByPosition(found)[i] == found[k];
    ChunkOfEntry(text, ms);
    assert ChunksOf(text, ms)[i].name == found[k].name;
  }

  /**
   * The chunks name each detected model once, by its normalized name; every
   * mention in the text has a chunk under its canonical key; and there are
   * no chunks exactly when no pattern matches.
   */
  lemma ModelChunksFacts(re: Regex, text: string)
    ensures var chunks := ModelChunks(re, text);
      var ms := Mentions(re, text, ModelPatterns);
      && (chunks == [] <==> ms == [])
      && (forall i :: 0 <= i < |chunks| ==> Normalized(chunks[i].name))
      && (forall i, j :: 0 <= i < j < |chunks| ==> CanonicalKey(chunks[i].name) != CanonicalKey(chunks[j].name))
      && (forall m :: m in ms ==> exists i :: 0 <= i < |chunks| && CanonicalKey(chunks[i].name) == m.key)
  {
    var ms := Mentions(re, text, ModelPatterns);
    assert ModelChunks(re, text) == ChunksOf(text, ms);
    FoldEmpty(ms);
    ChunkNames(text, ms);
    forall m | m in ms ensures exists i :: 0 <= i < |ChunksOf(text, ms)| && CanonicalKey(ChunksOf(text, ms)[i].name) == m.key {
      ChunksCover(text, ms, m);
    }
  }
}
