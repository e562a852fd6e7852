/**
 * Model detection: every family pattern is scanned over the whole text, and
 * each mention is entered in an insertion-ordered map from canonical key to
 * the earliest mention of that key (`findModelChunks`, first half).
 */
module Detection {
  import opened Wrappers
  import opened Text
  import opened Patterns

  /** A mention of a model: its canonical key, its position, and its normalized display name. */
  datatype Mention = Mention(key: string, index: nat, name: string)

  /** The mention a match of a family pattern makes: group 1 normalized, and keyed. */
  function MentionOf(m: Match): (r: Mention)
    ensures r.name == Normalize(m.group1)
    ensures Normalized(r.name) && r.key == CanonicalKey(r.name) && r.index == m.index
  {
    var name := Normalize(m.group1);
    Mention(CanonicalKey(name), m.index, name)
  }

  function MentionsOf(ms: seq<Match>): (r: seq<Mention>)
    ensures |r| == |ms| && forall i :: 0 <= i < |ms| ==> r[i] == MentionOf(ms[i])
  {
    seq(|ms|, i requires 0 <= i < |ms| => MentionOf(ms[i]))
  }

  /** Every mention the pattern bank makes, pattern by pattern and, within a pattern, match by match. */
  function Mentions(re: Regex, text: string, families: seq<Family>): (r: seq<Mention>)
    ensures forall i :: 0 <= i < |r| ==> Normalized(r[i].name) && r[i].key == CanonicalKey(r[i].name)
  {
    if families == [] then []
    else Mentions(re, text, families[..|families| - 1]) + MentionsOf(re.scan(families[|families| - 1], text))
  }

  /** Every mention is made by a match that one of the patterns' scans yields. */
  lemma {:induction false} MentionFromScan(re: Regex, text: string, families: seq<Family>, i: nat)
    requires i < |Mentions(re, text, families)|
    ensures exists f, mt :: f in families && mt in re.scan(f, text) && Mentions(re, text, families)[i] == MentionOf(mt)
    decreases |families|
  {
    var init, f := families[..|families| - 1], families[|families| - 1];
    var before := Mentions(re, text, init);
    if i < |before| {
      MentionFromScan(re, text, init, i);
      var g, mt :| g in init && mt in re.scan(g, text) && before[i] == MentionOf(mt);
      assert g in families;
    } else {
      var mt := re.scan(f, text)[i - |before|];
      assert Mentions(re, text, families)[i] == MentionOf(mt);
    }
  }

  /** The position of `key` in the map, or -1 (`found.has` / `found.get`). */
  function Lookup(found: seq<Mention>, key: string): (i: int)
    ensures -1 <= i < |found|
    ensures i >= 0 ==> found[i].key == key && forall j :: 0 <= j < i ==> found[j].key != key
    ensures i == -1 <==> forall j :: 0 <= j < |found| ==> found[j].key != key
  {
    if found == [] then -1
    else if found[0].key == key then 0
    else
      var i := Lookup(found[1..], key);
      if i < 0 then -1 else i + 1
  }

  /** One update of the map: a new key is added at the end; a known key is overwritten in place only by a strictly earlier mention. */
  function Remember(found: seq<Mention>, c: Mention): seq<Mention>
  {
    var i := Lookup(found, c.key);
    if i < 0 then found + [c]
    else if c.index < found[i].index then found[i := c]
    else found
  }

  /** The map after the mentions `cs`, in order. */
  function Fold(cs: seq<Mention>): seq<Mention>
  {
    if cs == [] then [] else Remember(Fold(cs[..|cs| - 1]), cs[|cs| - 1])
  }

  predicate DistinctKeys(found: seq<Mention>)
  {
    forall i, j :: 0 <= i < j < |found| ==> found[i].key != found[j].key
  }

  /** Every mention's key is in the map, with an index no later than that mention's. */
  predicate Covers(found: seq<Mention>, cs: seq<Mention>)
  {
    forall j :: 0 <= j < |cs| ==>
      var i := Lookup(found, cs[j].key); i >= 0 && found[i].index <= cs[j].index
  }

  /** Every entry of the map is one of the mentions. */
  predicate FromMentions(found: seq<Mention>, cs: seq<Mention>)
  {
    forall k :: 0 <= k < |found| ==> found[k] in cs
  }

  /** Ties go to the first mention: a mention with an entry's key and index comes no earlier than that entry's own mention. */
  predicate FirstOnTie(found: seq<Mention>, cs: seq<Mention>)
  {
    forall k, j ::
      0 <= k < |found| && 0 <= j < |cs| && cs[j].key == found[k].key && cs[j].index == found[k].index ==>
      found[k] in cs[..j + 1]
  }

  /** What the map says about the mentions entered so far. */
  predicate Summarizes(found: seq<Mention>, cs: seq<Mention>)
  {
    DistinctKeys(found) && Covers(found, cs) && FromMentions(found, cs) && FirstOnTie(found, cs)
  }

  /** The map holds each key at most once. */
  lemma {:induction false} FoldDistinct(cs: seq<Mention>)
    ensures DistinctKeys(Fold(cs))
  {
    if cs != [] {
      FoldDistinct(cs[..|cs| - 1]);
    }
  }

  /** After an update, a key already present keeps its place, with an index no later than before. */
  lemma RememberKeepsOthers(d: seq<Mention>, c: Mention, key: string)
    requires DistinctKeys(d) && Lookup(d, key) >= 0
    ensures var i := Lookup(d, key); Lookup(Remember(d, c), key) == i && Remember(d, c)[i].index <= d[i].index
  {
    var e := Remember(d, c);
    var ic := Lookup(d, c.key);
    if ic >= 0 && c.index < d[ic].index {
      assert |e| == |d|;
      assert forall j :: 0 <= j < |d| && j != ic ==> e[j] == d[j];
    } else if ic < 0 {
      assert forall j :: 0 <= j < |d| ==> e[j] == d[j];
    }
  }

  /** The position that holds a key, with no earlier position holding it, is what `Lookup` finds. */
  lemma LookupAt(found: seq<Mention>, key: string, k: nat)
    requires k < |found| && found[k].key == key
    requires forall j :: 0 <= j < k ==> found[j].key != key
    ensures Lookup(found, key) == k
  {
  }

  lemma RememberCovers(d: seq<Mention>, cs: seq<Mention>, c: Mention)
    requires DistinctKeys(d) && Covers(d, cs)
    ensures Covers(Remember(d, c), cs + [c])
  {
    var e := Remember(d, c);
    var ic := Lookup(d, c.key);
    if ic < 0 {
      LookupAt(e, c.key, |d|);
    } else if c.index < d[ic].index {
      LookupAt(e, c.key, ic);
    }
    assert Lookup(e, c.key) >= 0 && e[Lookup(e, c.key)].index <= c.index;
    forall j | 0 <= j < |cs| + 1
      ensures var i := Lookup(e, (cs + [c])[j].key); i >= 0 && e[i].index <= (cs + [c])[j].index
    {
      if j < |cs| {
        assert (cs + [c])[j] == cs[j];
        RememberKeepsOthers(d, c, cs[j].key);
      }
    }
  }

  lemma RememberFromMentions(d: seq<Mention>, cs: seq<Mention>, c: Mention)
    requires FromMentions(d, cs)
    ensures FromMentions(Remember(d, c), cs + [c])
  {
    var e := Remember(d, c);
    forall k | 0 <= k < |e| ensures e[k] in cs + [c] {
      if e[k] != c {
        assert e[k] == d[k];
        assert d[k] in cs;
      }
    }
  }

  /** An entry that was already in the map keeps its tie guarantee when one more mention is entered. */
  lemma OldEntryFirstOnTie(d: seq<Mention>, cs: seq<Mention>, c: Mention, k: nat, j: nat)
    requires FromMentions(d, cs) && FirstOnTie(d, cs)
    requires k < |d| && j <= |cs|
    requires (cs + [c])[j].key == d[k].key && (cs + [c])[j].index == d[k].index
    ensures d[k] in (cs + [c])[..j + 1]
  {
    var cs' := cs + [c];
    if j < |cs| {
      assert cs'[j] == cs[j];
      assert cs'[..j + 1] == cs[..j + 1];
    } else {
      assert cs'[..j + 1] == cs';
      assert d[k] in cs;
    }
  }

  lemma RememberFirstOnTie(d: seq<Mention>, cs: seq<Mention>, c: Mention)
    requires Summarizes(d, cs)
    ensures FirstOnTie(Remember(d, c), cs + [c])
  {
    var e, cs' := Remember(d, c), cs + [c];
    var ic := Lookup(d, c.key);
    forall k, j | 0 <= k < |e| && 0 <= j < |cs'| && cs'[j].key == e[k].key && cs'[j].index == e[k].index
      ensures e[k] in cs'[..j + 1]
    {
      if k < |d| && e[k] == d[k] {
        OldEntryFirstOnTie(d, cs, c, k, j);
      } else {
        NewEntryFirstOnTie(d, cs, c, k, j);
      }
    }
  }

  /** A mention that makes the update write its entry ties with no earlier mention of the same key. */
  lemma UpdateHasNoEarlierTie(d: seq<Mention>, cs: seq<Mention>, c: Mention)
    requires Covers(d, cs)
    requires var i := Lookup(d, c.key); i < 0 || c.index < d[i].index
    ensures forall j :: 0 <= j < |cs| ==> !(cs[j].key == c.key && cs[j].index == c.index)
  {
  }

  /** An entry the update wrote is the newest mention, and no earlier mention ties with it. */
  lemma NewEntryFirstOnTie(d: seq<Mention>, cs: seq<Mention>, c: Mention, k: nat, j: nat)
    requires DistinctKeys(d) && Covers(d, cs)
    requires k < |Remember(d, c)| && j <= |cs| && !(k < |d| && Remember(d, c)[k] == d[k])
    requires (cs + [c])[j].key == Remember(d, c)[k].key && (cs + [c])[j].index == Remember(d, c)[k].index
    ensures Remember(d, c)[k] in (cs + [c])[..j + 1]
  {
    var e, cs' := Remember(d, c), cs + [c];
    assert e[k] == c;
    UpdateHasNoEarlierTie(d, cs, c);
    assert j == |cs|;
    assert cs'[..j + 1] == cs';
  }

  lemma RememberDistinct(d: seq<Mention>, c: Mention)
    requires DistinctKeys(d)
    ensures DistinctKeys(Remember(d, c))
  {
  }

  lemma RememberStep(d: seq<Mention>, cs: seq<Mention>, c: Mention)
    requires Summarizes(d, cs)
    ensures Summarizes(Remember(d, c), cs + [c])
  {
    RememberDistinct(d, c);
    RememberCovers(d, cs, c);
    RememberFromMentions(d, cs, c);
    RememberFirstOnTie(d, cs, c);
  }

  /**
   * The map built from the mentions holds each key once, holds every key
   * mentioned with its earliest index, holds only actual mentions, and on
   * a tie in index holds the mention that came first.
   */
  lemma {:induction false} FoldSummarizes(cs: seq<Mention>)
    ensures Summarizes(Fold(cs), cs)
  {
    if cs != [] {
      var init, c := cs[..|cs| - 1], cs[|cs| - 1];
      assert init + [c] == cs;
      assert Fold(cs) == Remember(Fold(init), c);
      FoldSummarizes(init);
      RememberStep(Fold(init), init, c);
    }
  }

  /** The map is empty exactly when there are no mentions. */
  lemma FoldEmpty(cs: seq<Mention>)
    ensures Fold(cs) == [] <==> cs == []
  {
    if cs != [] {
      FoldSummarizes(cs);
      assert Lookup(Fold(cs), cs[0].key) >= 0;
    }
  }
}
