/** The incremental embedding cache: after any builds, current nodes have fresh vectors. */
module Embedding {
  import opened OrderedMaps

  type Vector = seq<real>

  datatype NodeInfo = NodeInfo(contentHash: string, canonicalText: string)

  datatype EmbeddingState = EmbeddingState(
    nodes: OMap<NodeInfo>, provider: string, model: string, version: int, dimension: int)

  datatype CacheEntry = CacheEntry(contentHash: string, provider: string, model: string, version: int)

  datatype Metrics = Metrics(hits: nat, misses: nat, rebuilt: nat, total: nat, providerChange: bool)

  /** What the builder keeps from one build to the next. */
  datatype Cache = Cache(
    entries: map<string, CacheEntry>, vectors: map<string, Vector>, provider: string, model: string, version: int)

  // ----- One build as a function

  predicate SpecChanged(c: Cache, s: EmbeddingState) {
    s.provider != c.provider || s.model != c.model || s.version != c.version
  }

  function Reset(c: Cache, s: EmbeddingState): Cache {
    if SpecChanged(c, s) then Cache(map[], map[], s.provider, s.model, s.version) else c
  }

  function NodeOf(s: EmbeddingState, id: string): NodeInfo {
    if id in s.nodes.at then s.nodes.at[id] else NodeInfo("", "")
  }

  function EntryOf(s: EmbeddingState, id: string): CacheEntry {
    CacheEntry(NodeOf(s, id).contentHash, s.provider, s.model, s.version)
  }

  predicate IsStale(entries: map<string, CacheEntry>, s: EmbeddingState, id: string) {
    id !in entries || entries[id] != EntryOf(s, id)
  }

  function StaleNodes(entries: map<string, CacheEntry>, s: EmbeddingState, ids: seq<string>): seq<string> {
    if ids == [] then []
    else
      var n := |ids| - 1;
      StaleNodes(entries, s, ids[..n]) + if IsStale(entries, s, ids[n]) then [ids[n]] else []
  }

  function Fill<V>(ids: seq<string>, f: string -> V): map<string, V> {
    map id | id in ids :: f(id)
  }

  function VectorsOf(embed: string -> Vector, s: EmbeddingState): string -> Vector {
    id => embed(NodeOf(s, id).canonicalText)
  }

  function EntriesOf(s: EmbeddingState): string -> CacheEntry { id => EntryOf(s, id) }

  function EmbedAll(embed: string -> Vector, c: Cache, s: EmbeddingState, ids: seq<string>): Cache {
    c.(vectors := c.vectors + Fill(ids, VectorsOf(embed, s)), entries := c.entries + Fill(ids, EntriesOf(s)))
  }

  lemma FillSnoc<V>(m: map<string, V>, ids: seq<string>, id: string, f: string -> V)
    ensures m + Fill(ids + [id], f) == (m + Fill(ids, f))[id := f(id)]
  {
    assert forall k :: k in ids + [id] <==> k in ids || k == id;
  }

  lemma EmbedNone(embed: string -> Vector, c: Cache, s: EmbeddingState)
    ensures EmbedAll(embed, c, s, []) == c
  {
    assert EmbedAll(embed, c, s, []).vectors == c.vectors && EmbedAll(embed, c, s, []).entries == c.entries;
  }

  function BuildOnce(embed: string -> Vector, c: Cache, s: EmbeddingState): Cache {
    var base := Reset(c, s);
    EmbedAll(embed, base, s, StaleNodes(base.entries, s, s.nodes.keys))
  }

  lemma {:induction false} StaleNodesExact(entries: map<string, CacheEntry>, s: EmbeddingState, ids: seq<string>)
    ensures forall id :: id in StaleNodes(entries, s, ids) <==> id in ids && IsStale(entries, s, id)
    ensures |StaleNodes(entries, s, ids)| <= |ids|
  {
    if ids != [] {
      var n := |ids| - 1;
      StaleNodesExact(entries, s, ids[..n]);
      assert ids == ids[..n] + [ids[n]];
    }
  }

  // ----- The builder

  /** The dict of vectors, which callers get as it is and later builds change. */
  class VectorDict {
    var at: map<string, Vector>

    constructor ()
      ensures at == map[]
    {
      at := map[];
    }
  }

  class EmbeddingBuilder {
    const embed: string -> Vector
    const vectors: VectorDict
    var cache: map<string, CacheEntry>
    var lastProvider: string
    var lastModel: string
    var lastVersion: int
    var metrics: Metrics

    constructor (provider: string -> Vector)
      ensures embed == provider && fresh(vectors) && Kept() == Cache(map[], map[], "", "", 0)
    {
      embed := provider;
      vectors := new VectorDict();
      cache, lastProvider, lastModel, lastVersion := map[], "", "", 0;
      metrics := Metrics(0, 0, 0, 0, false);
    }

    ghost function Kept(): Cache
      reads this, vectors
    {
      Cache(cache, vectors.at, lastProvider, lastModel, lastVersion)
    }

    /** The part of `build` that compares provider, model and version. */
    method Invalidate(s: EmbeddingState)
      modifies this, vectors
      ensures Kept() == Reset(old(Kept()), s)
      ensures metrics == old(metrics).(providerChange := old(metrics.providerChange) || SpecChanged(old(Kept()), s))
    {
      if s.provider != lastProvider || s.model != lastModel || s.version != lastVersion {
        metrics := metrics.(providerChange := true);
        cache, vectors.at := map[], map[];
        lastProvider, lastModel, lastVersion := s.provider, s.model, s.version;
      }
    }

    /** The loop that finds the changed nodes and counts hits and misses. */
    method Diff(s: EmbeddingState) returns (changed: seq<string>)
      requires Consistent(s.nodes) && metrics.hits == metrics.misses == 0
      modifies this`metrics
      ensures changed == StaleNodes(cache, s, s.nodes.keys)
      ensures |changed| <= |s.nodes.keys|
      ensures metrics == old(metrics).(hits := |s.nodes.keys| - |changed|, misses := |changed|)
    {
      changed := [];
      for i := 0 to |s.nodes.keys|
        invariant changed == StaleNodes(cache, s, s.nodes.keys[..i]) && |changed| <= i
        invariant metrics == old(metrics).(hits := i - |changed|, misses := |changed|)
      {
        var id := s.nodes.keys[i];
        assert s.nodes.keys[..i + 1][..i] == s.nodes.keys[..i];
        var hash := s.nodes.at[id].contentHash;
        if id !in cache {
          changed := changed + [id];
          metrics := metrics.(misses := metrics.misses + 1);
        } else {
          var e := cache[id];
          if e.contentHash != hash || e.provider != s.provider || e.model != s.model || e.version != s.version {
            changed := changed + [id];
            metrics := metrics.(misses := metrics.misses + 1);
          } else {
            metrics := metrics.(hits := metrics.hits + 1);
          }
        }
      }
      assert s.nodes.keys[..|s.nodes.keys|] == s.nodes.keys;
    }

    /** The loop that stores the new vectors. */
    method StoreVectors(s: EmbeddingState, changed: seq<string>, newVectors: seq<Vector>)
      requires |newVectors| == |changed|
      requires forall i | 0 <= i < |changed| :: newVectors[i] == embed(NodeOf(s, changed[i]).canonicalText)
      modifies vectors, this`cache
      ensures Kept() == EmbedAll(embed, old(Kept()), s, changed)
    {
      ghost var v, e := VectorsOf(embed, s), EntriesOf(s);
      EmbedNone(embed, Kept(), s);
      for i := 0 to |changed|
        invariant vectors.at == old(vectors.at) + Fill(changed[..i], v)
        invariant cache == old(cache) + Fill(changed[..i], e)
      {
        assert changed[..i + 1] == changed[..i] + [changed[i]];
        FillSnoc(old(vectors.at), changed[..i], changed[i], v);
        FillSnoc(old(cache), changed[..i], changed[i], e);
        vectors.at := vectors.at[changed[i] := newVectors[i]];
        cache := cache[changed[i] := EntryOf(s, changed[i])];
      }
      assert changed[..|changed|] == changed;
    }

    /** `build`; the provider embeds each text of the list on its own. Every build returns the one dict that the builder has. */
    method Build(s: EmbeddingState) returns (r: VectorDict)
      requires Consistent(s.nodes)
      modifies this, vectors
      ensures Kept() == BuildOnce(embed, old(Kept()), s) && r == vectors
      ensures metrics.misses == metrics.rebuilt == |StaleNodes(Reset(old(Kept()), s).entries, s, s.nodes.keys)|
      ensures metrics.hits + metrics.misses == metrics.total == |s.nodes.keys|
      ensures metrics.providerChange <==> SpecChanged(old(Kept()), s)
    {
      metrics := Metrics(0, 0, 0, |s.nodes.keys|, false);
      Invalidate(s);
      ghost var base := Kept();
      var changed := Diff(s);
      if changed == [] {
        EmbedNone(embed, base, s);
        return vectors;
      }
      var texts := seq(|changed|, i requires 0 <= i < |changed| => NodeOf(s, changed[i]).canonicalText);
      var newVectors := seq(|texts|, i requires 0 <= i < |texts| => embed(texts[i]));
      StoreVectors(s, changed, newVectors);
      metrics := metrics.(rebuilt := |changed|);
      r := vectors;
    }
  }

  // ----- What every build keeps

  /** A content hash determines the text. */
  ghost predicate Hashed(s: EmbeddingState, text: string -> string) {
    Consistent(s.nodes) && forall id | id in s.nodes.at :: s.nodes.at[id].canonicalText == text(s.nodes.at[id].contentHash)
  }

  /** An entry and a vector come together, carry the last specification, and agree through the hash. */
  ghost predicate EntryOk(embed: string -> Vector, c: Cache, text: string -> string, id: string) {
    && (id in c.entries <==> id in c.vectors)
    && (id in c.entries ==>
          && c.entries[id].provider == c.provider && c.entries[id].model == c.model && c.entries[id].version == c.version
          && c.vectors[id] == embed(text(c.entries[id].contentHash)))
  }

  ghost predicate Coherent(embed: string -> Vector, c: Cache, text: string -> string) {
    c.entries.Keys == c.vectors.Keys && forall id :: EntryOk(embed, c, text, id)
  }

  ghost predicate Fresh(embed: string -> Vector, c: Cache, s: EmbeddingState) {
    forall id | id in s.nodes.at :: id in c.vectors && c.vectors[id] == embed(s.nodes.at[id].canonicalText)
  }

  /** What a build leaves for one node: rebuilt from this state, or kept because its entry is this state's. */
  lemma BuildAt(embed: string -> Vector, c: Cache, s: EmbeddingState, id: string)
    requires Consistent(s.nodes) && c.entries.Keys == c.vectors.Keys
    ensures var base, d := Reset(c, s), BuildOnce(embed, c, s);
            && (id in d.entries <==> id in base.entries || id in s.nodes.at) && (id in d.vectors <==> id in d.entries)
            && (id in d.entries ==>
                  if id in s.nodes.at && IsStale(base.entries, s, id)
                  then d.entries[id] == EntryOf(s, id) && d.vectors[id] == embed(NodeOf(s, id).canonicalText)
                  else id in base.entries && d.entries[id] == base.entries[id] && d.vectors[id] == base.vectors[id])
  {
    StaleNodesExact(Reset(c, s).entries, s, s.nodes.keys);
  }

  lemma BuildKeeps(embed: string -> Vector, c: Cache, s: EmbeddingState, text: string -> string)
    requires Coherent(embed, c, text) && Hashed(s, text)
    ensures Coherent(embed, BuildOnce(embed, c, s), text) && Fresh(embed, BuildOnce(embed, c, s), s)
  {
    forall id ensures EntryOk(embed, BuildOnce(embed, c, s), text, id) {
      BuildAt(embed, c, s, id);
      assert EntryOk(embed, c, text, id);
    }
    forall id | id in s.nodes.at
      ensures id in BuildOnce(embed, c, s).vectors && BuildOnce(embed, c, s).vectors[id] == embed(s.nodes.at[id].canonicalText)
    {
      BuildAt(embed, c, s, id);
      assert EntryOk(embed, c, text, id);
    }
  }

  function Builds(embed: string -> Vector, c: Cache, states: seq<EmbeddingState>): Cache {
    if states == [] then c
    else BuildOnce(embed, Builds(embed, c, states[..|states| - 1]), states[|states| - 1])
  }

  const NoCache := Cache(map[], map[], "", "", 0)

  /** After any builds the cache is coherent, and every node of the last state has the vector of its text. */
  lemma {:induction false} BuildsFresh(embed: string -> Vector, states: seq<EmbeddingState>, text: string -> string)
    requires forall s | s in states :: Hashed(s, text)
    ensures var c := Builds(embed, NoCache, states);
            Coherent(embed, c, text) && (states != [] ==> Fresh(embed, c, states[|states| - 1]))
  {
    if states != [] {
      var n := |states| - 1;
      BuildsFresh(embed, states[..n], text);
      BuildKeeps(embed, Builds(embed, NoCache, states[..n]), states[n], text);
    }
  }

  /** A second build of the same state embeds nothing and changes nothing. */
  lemma BuildTwice(embed: string -> Vector, c: Cache, s: EmbeddingState)
    requires Consistent(s.nodes) && c.entries.Keys == c.vectors.Keys
    ensures var d := BuildOnce(embed, c, s);
            StaleNodes(Reset(d, s).entries, s, s.nodes.keys) == [] && BuildOnce(embed, d, s) == d
  {
    var d := BuildOnce(embed, c, s);
    var again := StaleNodes(d.entries, s, s.nodes.keys);
    StaleNodesExact(d.entries, s, s.nodes.keys);
    if again != [] {
      assert again[0] in again;
      BuildAt(embed, c, s, again[0]);
      assert false;
    }
    EmbedNone(embed, d, s);
  }

  /** Deleted nodes stay; only a change of provider, model or version drops them. */
  lemma BuiltKeys(embed: string -> Vector, c: Cache, s: EmbeddingState)
    requires Consistent(s.nodes) && c.entries.Keys == c.vectors.Keys
    ensures BuildOnce(embed, c, s).vectors.Keys == (if SpecChanged(c, s) then {} else c.vectors.Keys) + s.nodes.at.Keys
  {
    StaleNodesExact(Reset(c, s).entries, s, s.nodes.keys);
  }

  // ----- What invalidates the cache

  /** The vector of a node that is gone survives a build exactly if provider, model and version are as they were. */
  lemma InvalidatedExact(embed: string -> Vector, c: Cache, before: EmbeddingState, s: EmbeddingState, id: string)
    requires Consistent(before.nodes) && Consistent(s.nodes) && c.entries.Keys == c.vectors.Keys
    requires id in before.nodes.at && id !in s.nodes.at
    ensures id in BuildOnce(embed, BuildOnce(embed, c, before), s).vectors <==>
            s.provider == before.provider && s.model == before.model && s.version == before.version
  {
    BuildAt(embed, c, before, id);
    BuildAt(embed, BuildOnce(embed, c, before), s, id);
  }

  lemma {:induction false} StaleAlike(entries: map<string, CacheEntry>, s: EmbeddingState, d: int, ids: seq<string>)
    ensures StaleNodes(entries, s.(dimension := d), ids) == StaleNodes(entries, s, ids)
  {
    if ids != [] { StaleAlike(entries, s, d, ids[..|ids| - 1]); }
  }

  /** The dimension has no part in a build. */
  lemma DimensionIgnored(embed: string -> Vector, c: Cache, s: EmbeddingState, d: int)
    ensures BuildOnce(embed, c, s.(dimension := d)) == BuildOnce(embed, c, s)
  {
    var base, t := Reset(c, s), s.(dimension := d);
    StaleAlike(base.entries, s, d, s.nodes.keys);
    var ids := StaleNodes(base.entries, s, s.nodes.keys);
    forall id ensures VectorsOf(embed, t)(id) == VectorsOf(embed, s)(id) && EntriesOf(t)(id) == EntriesOf(s)(id) {
      assert NodeOf(t, id) == NodeOf(s, id);
    }
    assert Fill(ids, VectorsOf(embed, t)) == Fill(ids, VectorsOf(embed, s));
    assert Fill(ids, EntriesOf(t)) == Fill(ids, EntriesOf(s));
  }

  /** After a change of dimension alone, a build embeds nothing and every vector of the old dimension stays. */
  lemma OldDimensionSurvives(embed: string -> Vector, c: Cache, s: EmbeddingState, d: int)
    requires Consistent(s.nodes) && c.entries.Keys == c.vectors.Keys
    ensures var before, t := BuildOnce(embed, c, s), s.(dimension := d);
            StaleNodes(Reset(before, t).entries, t, t.nodes.keys) == [] && BuildOnce(embed, before, t) == before
  {
    BuildTwice(embed, c, s);
    var before := BuildOnce(embed, c, s);
    DimensionIgnored(embed, before, s, d);
    StaleAlike(Reset(before, s).entries, s, d, s.nodes.keys);
  }
}
