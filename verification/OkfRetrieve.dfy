/** Graph-expanded retrieval (memory/okf/graph.go): base hits, then the neighbours of the hits with decayed scores. */
module OkfRetrieve {
  import opened Common
  import opened OkfGraph

  datatype Chunk = Chunk(documentId: string, conceptId: string, text: string)

  datatype Hit = Hit(chunk: Chunk, score: real)

  /** What the wrapped store answers. */
  datatype Answer = Hits(hits: seq<Hit>) | Failed(reason: string)

  function Pow(x: real, n: nat): real { if n == 0 then 1.0 else x * Pow(x, n - 1) }

  /** The settings with their defaults filled in. */
  datatype Settings = Settings(depth: int, decay: real, includeInlinks: bool) {
    function Depth(): nat { if depth <= 0 then 1 else depth }
    function Decay(): real { if decay <= 0.0 then 0.5 else decay }
  }

  // ---- What expansion promises ----

  predicate InBase(base: seq<Hit>, id: string) { exists i :: 0 <= i < |base| && base[i].chunk.conceptId == id }

  /** Hit `i` offers `id`, `k` links away, the score `s`. */
  ghost predicate Offers(adj: string -> seq<string>, st: Settings, base: seq<Hit>, i: nat, k: nat, id: string, s: real)
  {
    && i < |base| && 1 <= k <= st.Depth() && AtDistance(adj, base[i].chunk.conceptId, id, k)
    && s == base[i].score * Pow(st.Decay(), k)
  }

  /** `id` is no base hit, and `s` is the best score any of the first `n` hits offers it. */
  ghost predicate IsBest(adj: string -> seq<string>, st: Settings, base: seq<Hit>, n: nat, id: string, s: real)
  {
    && !InBase(base, id)
    && (exists i: nat, k: nat :: i < n && Offers(adj, st, base, i, k, id, s))
    && (forall i: nat, k: nat, t :: i < n && Offers(adj, st, base, i, k, id, t) ==> t <= s)
  }

  /** Chunk `i` is the first of its document. */
  predicate IsFirst(chunks: seq<Chunk>, i: nat)
  {
    i < |chunks| && forall j :: 0 <= j < i ==> chunks[j].documentId != chunks[i].documentId
  }

  /** Each document under its id, with its first chunk. */
  ghost predicate IsIndex(chunks: seq<Chunk>, byId: map<string, Chunk>)
  {
    && (forall i: nat :: IsFirst(chunks, i) ==> chunks[i].documentId in byId && byId[chunks[i].documentId] == chunks[i])
    && (forall id :: id in byId ==> byId[id].documentId == id && byId[id] in chunks)
    && (forall i :: 0 <= i < |chunks| ==> chunks[i].documentId in byId)
  }

  /** Before in the output: the better score, or with equal scores the smaller id. */
  predicate Ranks(a: Hit, b: Hit)
  {
    a.score > b.score || (a.score == b.score && StringLess(a.chunk.documentId, b.chunk.documentId))
  }

  /** Exactly the indexed neighbours outside the base, each with its best score, ranked. */
  ghost predicate IsExpansion(adj: string -> seq<string>, st: Settings, base: seq<Hit>, byId: map<string, Chunk>,
    tail: seq<Hit>)
  {
    && (forall h :: h in tail <==> exists id ::
          id in byId && h.chunk == byId[id] && IsBest(adj, st, base, |base|, id, h.score))
    && (forall i, j :: 0 <= i < j < |tail| ==> Ranks(tail[i], tail[j]))
  }

  lemma {:induction false} RanksIsStrict(a: Hit, b: Hit)
    ensures !(Ranks(a, b) && Ranks(b, a))
  {
    StringLessTotal(a.chunk.documentId, b.chunk.documentId);
  }

  /** Only one list meets the promise, so the order in which a map is walked cannot show in the result. */
  lemma {:induction false} ExpansionIsDetermined(adj: string -> seq<string>, st: Settings, base: seq<Hit>,
    byId: map<string, Chunk>, s: seq<Hit>, t: seq<Hit>)
    requires IsExpansion(adj, st, base, byId, s) && IsExpansion(adj, st, base, byId, t)
    ensures s == t
  {
    assert forall h :: h in s <==> h in t;
    hide IsBest;
    forall a, b ensures !(Ranks(a, b) && Ranks(b, a)) { RanksIsStrict(a, b); }
    SortedIsUnique(Ranks, s, t);
  }

  // ---- The expander ----

  class GraphExpander {
    const bundle: Bundle?
    const chunks: seq<Chunk>
    const settings: Settings
    var indexed: bool
    var byId: map<string, Chunk>

    ghost predicate Valid()
      reads this, bundle
    {
      && (bundle != null ==> bundle.Valid())
      && (indexed ==> IsIndex(chunks, byId))
    }

    /** `chunks` are those of the bundle's concepts, in order. */
    constructor (bundle: Bundle?, chunks: seq<Chunk>, settings: Settings)
      requires bundle != null ==> bundle.Valid()
      ensures Valid() && this.bundle == bundle && this.chunks == chunks && this.settings == settings && !indexed
    {
      this.bundle, this.chunks, this.settings := bundle, chunks, settings;
      indexed, byId := false, map[];
    }

    method BuildChunkIndex()
      requires Valid()
      modifies this
      ensures Valid() && indexed
    {
      if indexed { return; }
      byId := map[];
      var n := 0;
      while n < |chunks|
        invariant 0 <= n <= |chunks| && !indexed
        invariant IsIndex(chunks[..n], byId)
      {
        var ch := chunks[n];
        ghost var before := byId;
        if ch.documentId !in byId {
          byId := byId[ch.documentId := ch];
        }
        IndexStep(chunks, n, before, byId);
        n := n + 1;
      }
      assert chunks[..n] == chunks;
      indexed := true;
    }

    /** The concepts at distance 1 to `depth` of `seed`, the nearer first, with their distance. */
    method Expand(seed: string, depth: int) returns (out: seq<Hop>)
      requires Valid() && bundle != null
      modifies bundle
      ensures Valid() && IsNeighborhood(Adjacency(bundle.concepts, settings.includeInlinks), seed, depth, out)
    {
      hide IsNeighborhood, Searched, Discover, Flat, Adjacency;
      ghost var adj := Adjacency(bundle.concepts, settings.includeInlinks);
      bundle.BuildGraph();
      var seen, frontier := {seed}, [seed];
      out := [];
      SearchBegins(adj, seed);
      if depth <= 0 {
        NoDepthNoNeighbors(adj, seed, depth);
        return;
      }
      var d := 1;
      while d <= depth && |frontier| > 0
        invariant 1 <= d <= depth + 1
        invariant Searched(adj, seed, d - 1, seen, out, frontier)
        decreases depth + 1 - d
        modifies {}
      {
        ghost var before := seen;
        var next;
        seen, next := bundle.Round(settings.includeInlinks, seen, frontier);
        SearchStep(adj, seed, d - 1, before, out, frontier, next, seen);
        out := out + Hops(next, d);
        frontier := next;
        d := d + 1;
      }
      SearchEnds(adj, seed, d - 1, depth, seen, out, frontier);
    }

    /** Takes one hit's offers into account. */
    method Improve(base: seq<Hit>, hops: seq<Hop>, score: real, inBase: set<string>, before: map<string, real>,
      ghost offers: set<Offer>) returns (best: map<string, real>)
      requires Collected(base, offers, before) && forall id :: id in inBase <==> InBase(base, id)
      ensures Collected(base, offers + Scored(hops, settings, score), best)
    {
      hide InBase, Collected, OfferOf;
      best := before;
      assert offers + Scored(hops[..0], settings, score) == offers;
      var m := 0;
      while m < |hops|
        invariant 0 <= m <= |hops|
        invariant Collected(base, offers + Scored(hops[..m], settings, score), best)
      {
        var o := OfferOf(hops[m], settings, score);
        ScoredStep(hops, m, settings, score);
        CollectStep(base, offers + Scored(hops[..m], settings, score), best, o);
        assert offers + Scored(hops[..m + 1], settings, score) == offers + Scored(hops[..m], settings, score) + {o};
        if o.id !in inBase {
          if o.id !in best || o.score > best[o.id] {
            best := best[o.id := o.score];
          }
        }
        m := m + 1;
      }
      assert hops[..m] == hops;
    }

    /** The best score every neighbour of a hit is offered. */
    method BestScores(base: seq<Hit>) returns (best: map<string, real>, ghost offers: set<Offer>)
      requires Valid() && bundle != null
      modifies bundle
      ensures Valid()
      ensures AreOffers(Adjacency(bundle.concepts, settings.includeInlinks), settings, base, |base|, offers)
      ensures Collected(base, offers, best)
    {
      hide IsNeighborhood, Adjacency, AreOffers, Offers, Pow, Valid, IsIndex, Collected, Scored;
      var inBase := set r | r in base :: r.chunk.conceptId;
      BaseIds(base, inBase);
      ghost var adj := Adjacency(bundle.concepts, settings.includeInlinks);
      best, offers := map[], {};
      NoOffers(adj, settings, base);
      var n := 0;
      while n < |base|
        invariant 0 <= n <= |base| && Valid()
        invariant AreOffers(adj, settings, base, n, offers) && Collected(base, offers, best)
      {
        var hops := Expand(base[n].chunk.conceptId, settings.Depth());
        best := Improve(base, hops, base[n].score, inBase, best, offers);
        OffersStep(adj, settings, base, n, offers, hops);
        offers := offers + Scored(hops, settings, base[n].score);
        n := n + 1;
      }
    }

    /** The ids with a score, best first; the map hands them out in any order. */
    method RankedIds(best: map<string, real>) returns (ids: seq<string>)
      ensures SortedBy(ByBest(best), ids) && forall id :: id in ids <==> id in best
    {
      hide StrictTotal, StrictTotalOn, SortedBy, ByBest;
      ids := [];
      var left := best.Keys;
      while left != {}
        invariant left <= best.Keys
        invariant forall id :: id in ids <==> id in best && id !in left
        invariant forall i, j :: 0 <= i < j < |ids| ==> ids[i] != ids[j]
        decreases left
      {
        var id :| id in left;
        left := left - {id};
        ids := ids + [id];
      }
      ByBestIsStrictTotal(best);
      TotalOnAll(ByBest(best), ids);
      SortSorts(ByBest(best), ids);
      ids := Sort(ByBest(best), ids);
    }

    /** The wrapped store's answer, and behind its hits what the graph adds to them. */
    method Retrieve(inner: Answer) returns (r: Answer)
      requires Valid()
      modifies this, bundle
      ensures Valid()
      ensures inner.Failed? || bundle == null || inner.hits == [] ==> r == inner
      ensures inner.Hits? && bundle != null && inner.hits != [] ==>
        && r.Hits? && inner.hits <= r.hits && IsIndex(chunks, byId)
        && IsExpansion(Adjacency(bundle.concepts, settings.includeInlinks), settings, inner.hits, byId,
             r.hits[|inner.hits|..])
    {
      if inner.Failed? || bundle == null || |inner.hits| == 0 {
        return inner;
      }
      BuildChunkIndex();
      hide IsExpansion, Adjacency, AreOffers, Collected, SortedBy, AreHits, IsIndex;
      var base := inner.hits;
      var best, offers := BestScores(base);
      var ids := RankedIds(best);
      var out := base;
      ghost var tail := [];
      NoHits(byId, best);
      var i := 0;
      while i < |ids|
        invariant 0 <= i <= |ids|
        invariant out == base + tail && AreHits(byId, best, ids[..i], tail)
        modifies {}
      {
        NextHit(chunks, byId, best, ids, i, tail);
        if ids[i] in byId {
          out := out + [Hit(byId[ids[i]], best[ids[i]])];
          tail := tail + [Hit(byId[ids[i]], best[ids[i]])];
        }
        i := i + 1;
      }
      assert ids[..i] == ids;
      ExpansionIsComplete(Adjacency(bundle.concepts, settings.includeInlinks), settings, base, offers, byId, best, ids,
        tail);
      assert out[|base|..] == tail;
      return Hits(out);
    }
  }

  lemma {:induction false} IndexStep(chunks: seq<Chunk>, n: nat, before: map<string, Chunk>, after: map<string, Chunk>)
    requires n < |chunks| && IsIndex(chunks[..n], before)
    requires after == if chunks[n].documentId in before then before else before[chunks[n].documentId := chunks[n]]
    ensures IsIndex(chunks[..n + 1], after)
  {
    var c, c' := chunks[..n], chunks[..n + 1];
    assert c' == c + [chunks[n]];
    forall i: nat | IsFirst(c', i) ensures c'[i].documentId in after && after[c'[i].documentId] == c'[i] {
      FirstInPrefix(chunks, n, i);
    }
    forall id | id in after ensures after[id].documentId == id && after[id] in c' {
    }
    hide IsFirst;
    forall i | 0 <= i < |c'| ensures c'[i].documentId in after {
      assert i < n ==> c'[i] == c[i];
    }
  }

  lemma {:induction false} FirstInPrefix(chunks: seq<Chunk>, n: nat, i: nat)
    requires n < |chunks| && IsFirst(chunks[..n + 1], i)
    ensures i < n ==> IsFirst(chunks[..n], i)
    ensures i == n ==> forall j :: 0 <= j < n ==> chunks[..n][j].documentId != chunks[n].documentId
  {
    assert forall j :: 0 <= j < n ==> chunks[..n][j] == chunks[..n + 1][j];
  }

  // ---- Scores ----

  datatype Offer = Offer(id: string, score: real)

  /** The offers of the first `n` hits. */
  ghost predicate AreOffers(adj: string -> seq<string>, st: Settings, base: seq<Hit>, n: nat, offers: set<Offer>)
  {
    forall o :: o in offers <==> exists i: nat, k: nat :: i < n && Offers(adj, st, base, i, k, o.id, o.score)
  }

  /** The best offer for every id outside the base that has one. */
  ghost predicate Collected(base: seq<Hit>, offers: set<Offer>, best: map<string, real>)
  {
    && (forall o :: o in offers && !InBase(base, o.id) ==> o.id in best && o.score <= best[o.id])
    && (forall id :: id in best ==> !InBase(base, id) && Offer(id, best[id]) in offers)
  }

  /** A hit's score, decayed by one factor a hop. */
  function OfferOf(h: Hop, st: Settings, score: real): Offer { Offer(h.id, score * Pow(st.Decay(), h.hops)) }

  ghost function Scored(hops: seq<Hop>, st: Settings, score: real): set<Offer>
  {
    set h | h in hops :: OfferOf(h, st, score)
  }

  lemma {:induction false} OffersStep(adj: string -> seq<string>, st: Settings, base: seq<Hit>, n: nat,
    offers: set<Offer>, hops: seq<Hop>)
    requires n < |base| && AreOffers(adj, st, base, n, offers)
    requires IsNeighborhood(adj, base[n].chunk.conceptId, st.Depth(), hops)
    ensures AreOffers(adj, st, base, n + 1, offers + Scored(hops, st, base[n].score))
  {
    hide AtDistance, Pow;
    var all := offers + Scored(hops, st, base[n].score);
    forall o ensures o in all <==> exists i: nat, k: nat :: i < n + 1 && Offers(adj, st, base, i, k, o.id, o.score) {
      if o in Scored(hops, st, base[n].score) {
        var h :| h in hops && o == OfferOf(h, st, base[n].score);
        assert Hop(h.id, h.hops) in hops;
        assert Offers(adj, st, base, n, h.hops, o.id, o.score);
      }
      forall k: nat | Offers(adj, st, base, n, k, o.id, o.score) ensures o in all {
        var h := Hop(o.id, k);
        assert h in hops;
        assert o == OfferOf(h, st, base[n].score);
      }
    }
  }

  lemma {:induction false} ScoredStep(hops: seq<Hop>, m: nat, st: Settings, score: real)
    requires m < |hops|
    ensures Scored(hops[..m + 1], st, score) ==
      Scored(hops[..m], st, score) + {OfferOf(hops[m], st, score)}
  {
    hide OfferOf;
    assert hops[..m + 1] == hops[..m] + [hops[m]];
    assert hops[m] in hops[..m + 1];
  }

  /** One more offer. */
  lemma {:induction false} CollectStep(base: seq<Hit>, offers: set<Offer>, best: map<string, real>, o: Offer)
    requires Collected(base, offers, best)
    ensures Collected(base, offers + {o},
      if !InBase(base, o.id) && (o.id !in best || o.score > best[o.id]) then best[o.id := o.score] else best)
  {
    hide InBase;
  }

  lemma {:induction false} BestOfAll(adj: string -> seq<string>, st: Settings, base: seq<Hit>, offers: set<Offer>,
    best: map<string, real>, id: string, s: real)
    requires AreOffers(adj, st, base, |base|, offers) && Collected(base, offers, best)
    ensures IsBest(adj, st, base, |base|, id, s) <==> id in best && best[id] == s
  {
    hide Offers, InBase;
    if IsBest(adj, st, base, |base|, id, s) {
      assert Offer(id, s) in offers;
      assert id in best && Offer(id, best[id]) in offers;
      var i: nat, k: nat :| i < |base| && Offers(adj, st, base, i, k, id, best[id]);
    }
    if id in best && best[id] == s {
      forall i: nat, k: nat, t | i < |base| && Offers(adj, st, base, i, k, id, t) ensures t <= s {
        assert Offer(id, t) in offers;
      }
      assert Offer(id, s) in offers;
    }
  }

  function ScoreOf(best: map<string, real>, id: string): real { if id in best then best[id] else 0.0 }

  predicate Better(best: map<string, real>, a: string, b: string)
  {
    ScoreOf(best, a) > ScoreOf(best, b) || (ScoreOf(best, a) == ScoreOf(best, b) && StringLess(a, b))
  }

  function ByBest(best: map<string, real>): (string, string) -> bool { (a, b) => Better(best, a, b) }

  lemma {:induction false} ByBestIsStrictTotal(best: map<string, real>)
    ensures StrictTotal(ByBest(best))
  {
    hide StringLess;
    StringOrderIsStrictTotal();
    var less := ByBest(best);
    forall x, y ensures !less(x, x) && (x == y || less(x, y) || less(y, x)) {
      assert !StringLess(x, x) && (x == y || StringLess(x, y) || StringLess(y, x));
    }
    forall x, y, z | less(x, y) && less(y, z) ensures less(x, z) {
      assert StringLess(x, y) && StringLess(y, z) ==> StringLess(x, z);
    }
  }

  /** The hits for some ranked ids, those the index knows. */
  ghost predicate AreHits(byId: map<string, Chunk>, best: map<string, real>, ids: seq<string>, tail: seq<Hit>)
    requires forall id :: id in ids ==> id in best
  {
    && (forall h :: h in tail <==> exists id :: id in ids && id in byId && h == Hit(byId[id], best[id]))
    && (forall i, j :: 0 <= i < j < |tail| ==> Ranks(tail[i], tail[j]))
  }

  lemma {:induction false} BaseIds(base: seq<Hit>, ids: set<string>)
    requires ids == set r | r in base :: r.chunk.conceptId
    ensures forall id :: id in ids <==> InBase(base, id)
  {
    forall id | InBase(base, id) ensures id in ids {
      var i :| 0 <= i < |base| && base[i].chunk.conceptId == id;
      assert base[i] in base;
    }
  }

  lemma {:induction false} NoOffers(adj: string -> seq<string>, st: Settings, base: seq<Hit>)
    ensures AreOffers(adj, st, base, 0, {}) && Collected(base, {}, map[])
  {
  }

  lemma {:induction false} NoHits(byId: map<string, Chunk>, best: map<string, real>)
    ensures AreHits(byId, best, [], [])
  {
  }

  lemma {:induction false} NextHit(chunks: seq<Chunk>, byId: map<string, Chunk>, best: map<string, real>,
    ids: seq<string>, i: nat, tail: seq<Hit>)
    requires i < |ids| && (forall id :: id in ids <==> id in best) && IsIndex(chunks, byId)
    requires SortedBy(ByBest(best), ids) && AreHits(byId, best, ids[..i], tail)
    ensures AreHits(byId, best, ids[..i + 1], if ids[i] in byId then tail + [Hit(byId[ids[i]], best[ids[i]])] else tail)
  {
    var id := ids[i];
    assert ids[..i + 1] == ids[..i] + [id];
    if id in byId {
      var h := Hit(byId[id], best[id]);
      forall j | 0 <= j < |tail| ensures Ranks(tail[j], h) {
        assert tail[j] in tail;
        var other :| other in ids[..i] && other in byId && tail[j] == Hit(byId[other], best[other]);
        var k :| 0 <= k < i && ids[k] == other;
        assert ByBest(best)(ids[k], ids[i]);
      }
    }
  }

  lemma {:induction false} ExpansionIsComplete(adj: string -> seq<string>, st: Settings, base: seq<Hit>,
    offers: set<Offer>, byId: map<string, Chunk>, best: map<string, real>, ids: seq<string>, tail: seq<Hit>)
    requires AreOffers(adj, st, base, |base|, offers) && Collected(base, offers, best)
    requires (forall id :: id in ids <==> id in best) && AreHits(byId, best, ids, tail)
    ensures IsExpansion(adj, st, base, byId, tail)
  {
    hide AreOffers, Collected, IsBest, Ranks;
    forall id, s: real ensures IsBest(adj, st, base, |base|, id, s) <==> id in best && best[id] == s {
      BestOfAll(adj, st, base, offers, best, id, s);
    }
  }
}
