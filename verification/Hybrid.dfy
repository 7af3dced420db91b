/** Reciprocal rank fusion (pkg/memory/hybrid.go), over exact reals. */
module Hybrid {
  import opened Common
  import opened Text

  datatype Chunk = Chunk(id: string, documentId: string, index: int, text: string)

  datatype Answer = Ranked(chunks: seq<Chunk>) | Failed(reason: string)

  /** A source answers a request for so many results; None is a nil source. */
  type Source = Option<int -> Answer>

  datatype Config = Config(sources: seq<Source>, k: int, rrfK: int, pool: int) {
    function RrfK(): (r: int) ensures r > 0 { if rrfK <= 0 then 60 else rrfK }

    function K(queryK: int): (r: int)
      ensures r > 0
    {
      if queryK > 0 then queryK else if k > 0 then k else 5
    }

    function Pool(queryK: int): (r: int)
      ensures r > 0 && (pool > 0 ==> r == pool)
      ensures pool <= 0 ==> r >= 20 && r >= 4 * K(queryK) && (r == 20 || r == 4 * K(queryK))
    {
      if pool > 0 then pool else if 4 * K(queryK) < 20 then 20 else 4 * K(queryK)
    }
  }

  datatype Result = Result(chunk: Chunk, score: real)

  datatype Response = Results(results: seq<Result>) | NoSources | NilSource | SourceFailed(reason: string)

  // ---- Fusion keys ----

  /** What chunks are fused by: the id, or the document and the ordinal of a chunk without one. */
  function Key(c: Chunk): string { if c.id != "" then c.id else c.documentId + "\0" + Itoa(c.index) }

  /** With NUL-free ids, the same key means the same id, or the same place in the same document. */
  lemma {:induction false} KeyIdentifies(a: Chunk, b: Chunk)
    requires '\0' !in a.id + a.documentId + b.id + b.documentId
    ensures Key(a) == Key(b) <==>
      a.id == b.id && (a.id != "" || (a.documentId == b.documentId && a.index == b.index))
  {
    var ka, kb := Key(a), Key(b);
    assert forall c :: c in a.id || c in a.documentId || c in b.id || c in b.documentId ==>
        c in a.id + a.documentId + b.id + b.documentId;
    assert a.id == "" ==> ka[|a.documentId|] == '\0';
    assert b.id == "" ==> kb[|b.documentId|] == '\0';
    assert forall i :: 0 <= i < |a.documentId| ==> a.documentId[i] in a.documentId;
    assert forall i :: 0 <= i < |b.documentId| ==> b.documentId[i] in b.documentId;
    if ka == kb && a.id == "" && b.id == "" {
      assert forall i :: 0 <= i < |a.documentId| ==> ka[i] == a.documentId[i];
      assert forall i :: 0 <= i < |b.documentId| ==> kb[i] == b.documentId[i];
      assert |a.documentId| == |b.documentId|;
      assert a.documentId == ka[..|a.documentId|] == b.documentId;
      assert Itoa(a.index) == ka[|a.documentId| + 1..] == Itoa(b.index);
      ItoaInjective(a.index, b.index);
    }
  }

  // ---- What fusion computes ----

  /** One result of one source: the chunk, and what its rank contributes. */
  datatype Occ = Occ(chunk: Chunk, contrib: real)

  function Contribution(rrfK: int, rank: nat): (r: real)
    requires rrfK > 0
    ensures r > 0.0 && r * (rrfK + rank + 1) as real == 1.0
  {
    1.0 / (rrfK + rank + 1) as real
  }

  /** What the first `n` ranks of one list give `key`. */
  function ListScore(list: seq<Chunk>, rrfK: int, n: nat, key: string): real
    requires n <= |list| && rrfK > 0
  {
    if n == 0 then 0.0
    else ListScore(list, rrfK, n - 1, key) + if Key(list[n - 1]) == key then Contribution(rrfK, n - 1) else 0.0
  }

  /** The fused score: 1 / (rrfK + rank + 1), summed over every occurrence in every list. */
  function FusedScore(lists: seq<seq<Chunk>>, rrfK: int, key: string): real
    requires rrfK > 0
  {
    if |lists| == 0 then 0.0
    else
      var last := lists[|lists| - 1];
      FusedScore(lists[..|lists| - 1], rrfK, key) + ListScore(last, rrfK, |last|, key)
  }

  /** All results in the order they are seen. */
  function Flat(lists: seq<seq<Chunk>>): seq<Chunk>
  {
    if |lists| == 0 then [] else Flat(lists[..|lists| - 1]) + lists[|lists| - 1]
  }

  /** Where `key` is first seen, or the length of `seen`. */
  function First(seen: seq<Chunk>, key: string): nat
  {
    if |seen| == 0 then 0
    else
      var n := |seen| - 1;
      var f := First(seen[..n], key);
      if f < n then f else if Key(seen[n]) == key then n else n + 1
  }

  lemma {:induction false} FirstIsFirst(seen: seq<Chunk>, key: string)
    ensures First(seen, key) <= |seen|
    ensures First(seen, key) < |seen| ==> Key(seen[First(seen, key)]) == key
    ensures forall i :: 0 <= i < First(seen, key) ==> Key(seen[i]) != key
  {
    if |seen| > 0 { FirstIsFirst(seen[..|seen| - 1], key); }
  }

  /** `x` outranks `y`: a higher fused score, or the same score and seen first. */
  predicate Outranks(seen: seq<Chunk>, x: Result, y: Result)
  {
    x.score > y.score || (x.score == y.score && First(seen, Key(x.chunk)) < First(seen, Key(y.chunk)))
  }

  /** A fused result: a chunk as first seen, with its fused score. */
  ghost predicate IsFused(lists: seq<seq<Chunk>>, rrfK: int, r: Result)
    requires rrfK > 0
  {
    var f := First(Flat(lists), Key(r.chunk));
    f < |Flat(lists)| && Flat(lists)[f] == r.chunk && r.score == FusedScore(lists, rrfK, Key(r.chunk))
  }

  /** All fused results, each once, the higher ranked first. */
  ghost predicate IsRanking(lists: seq<seq<Chunk>>, rrfK: int, all: seq<Result>)
    requires rrfK > 0
  {
    && (forall r :: r in all <==> IsFused(lists, rrfK, r))
    && (forall i, j :: 0 <= i < j < |all| ==> Outranks(Flat(lists), all[i], all[j]))
  }

  /** There is one ranking, whatever order a map is walked in. */
  lemma {:induction false} RankingIsUnique(lists: seq<seq<Chunk>>, rrfK: int, s: seq<Result>, t: seq<Result>)
    requires rrfK > 0 && IsRanking(lists, rrfK, s) && IsRanking(lists, rrfK, t)
    ensures s == t
  {
    hide IsFused, First;
    SortedIsUnique((x, y) => Outranks(Flat(lists), x, y), s, t);
  }

  // ---- Dominance ----

  predicate DistinctKeys(list: seq<Chunk>) { forall i, j :: 0 <= i < j < |list| ==> Key(list[i]) != Key(list[j]) }

  predicate Lists(list: seq<Chunk>, key: string) { exists i :: 0 <= i < |list| && Key(list[i]) == key }

  /** `x` is ranked above `y` in `list`. */
  predicate Above(list: seq<Chunk>, x: string, y: string)
  {
    exists i, j :: 0 <= i < j < |list| && Key(list[i]) == x && Key(list[j]) == y
  }

  lemma {:induction false} ListScoreOnce(list: seq<Chunk>, rrfK: int, n: nat, key: string)
    requires DistinctKeys(list) && n <= |list| && rrfK > 0
    ensures ListScore(list, rrfK, n, key) >= 0.0
    ensures forall i :: 0 <= i < n && Key(list[i]) == key ==> ListScore(list, rrfK, n, key) == Contribution(rrfK, i)
    ensures (forall i :: 0 <= i < n ==> Key(list[i]) != key) ==> ListScore(list, rrfK, n, key) == 0.0
  {
    if n > 0 { ListScoreOnce(list, rrfK, n - 1, key); }
  }

  lemma {:induction false} ContributionFalls(rrfK: int, i: nat, j: nat)
    requires rrfK > 0 && i < j
    ensures Contribution(rrfK, i) > Contribution(rrfK, j)
  {
    var x, y := (rrfK + i + 1) as real, (rrfK + j + 1) as real;
    assert 0.0 < x < y;
    ReciprocalFalls(x, y);
  }

  lemma {:induction false} ReciprocalFalls(x: real, y: real)
    requires 0.0 < x < y
    ensures 1.0 / x > 1.0 / y
  {
    assert 1.0 / x - 1.0 / y == (y - x) / (x * y);
    assert x * y > 0.0;
  }

  lemma {:induction false} AboveScoresMore(list: seq<Chunk>, rrfK: int, x: string, y: string)
    requires DistinctKeys(list) && rrfK > 0 && (Lists(list, y) ==> Above(list, x, y))
    ensures ListScore(list, rrfK, |list|, x) >= ListScore(list, rrfK, |list|, y)
    ensures Lists(list, y) ==> ListScore(list, rrfK, |list|, x) > ListScore(list, rrfK, |list|, y)
  {
    hide Contribution, ListScore;
    ListScoreOnce(list, rrfK, |list|, x);
    ListScoreOnce(list, rrfK, |list|, y);
    if Lists(list, y) {
      var i, j :| 0 <= i < j < |list| && Key(list[i]) == x && Key(list[j]) == y;
      ContributionFalls(rrfK, i, j);
    }
  }

  /** A chunk ranked above another in every list naming the other has the higher fused score. */
  lemma {:induction false} AboveEverywhere(lists: seq<seq<Chunk>>, rrfK: int, x: string, y: string)
    requires rrfK > 0 && forall l :: l in lists ==> DistinctKeys(l) && (Lists(l, y) ==> Above(l, x, y))
    ensures FusedScore(lists, rrfK, x) >= FusedScore(lists, rrfK, y)
    ensures (exists l :: l in lists && Lists(l, y)) ==> FusedScore(lists, rrfK, x) > FusedScore(lists, rrfK, y)
  {
    hide DistinctKeys, Lists, Above, ListScore;
    if |lists| > 0 {
      var n := |lists| - 1;
      AboveEverywhere(lists[..n], rrfK, x, y);
      assert lists == lists[..n] + [lists[n]];
      AboveScoresMore(lists[n], rrfK, x, y);
    }
  }

  lemma {:induction false} FlatHas(lists: seq<seq<Chunk>>, c: Chunk)
    requires c in Flat(lists)
    ensures exists l :: l in lists && c in l
  {
    var n := |lists| - 1;
    assert lists == lists[..n] + [lists[n]];
    if c in Flat(lists[..n]) { FlatHas(lists[..n], c); }
  }

  /** So it comes first in the ranking, wherever both are in it. */
  lemma {:induction false} AbovePrecedes(lists: seq<seq<Chunk>>, rrfK: int, all: seq<Result>, i: nat, j: nat)
    requires rrfK > 0 && IsRanking(lists, rrfK, all) && i < |all| && j < |all|
    requires
      var x, y := Key(all[i].chunk), Key(all[j].chunk);
      forall l :: l in lists ==> DistinctKeys(l) && (Lists(l, y) ==> Above(l, x, y))
    ensures i < j
  {
    var x, y := all[i], all[j];
    assert x in all && y in all;
    assert IsFused(lists, rrfK, x) && IsFused(lists, rrfK, y);
    assert y.chunk in Flat(lists);
    FlatHas(lists, y.chunk);
    var l :| l in lists && y.chunk in l;
    var k :| 0 <= k < |l| && l[k] == y.chunk;
    assert Lists(l, Key(y.chunk));
    AboveEverywhere(lists, rrfK, Key(x.chunk), Key(y.chunk));
    assert x.score > y.score;
    assert j < i ==> Outranks(Flat(lists), y, x);
  }

  // ---- The fusion loop ----

  datatype Acc = Acc(chunk: Chunk, score: real, order: nat)

  /** The accumulators after `seen`, with the scores `score` so far. */
  ghost predicate Accumulated(fused: map<string, Acc>, order: nat, seen: seq<Chunk>, score: string -> real)
  {
    && (forall key :: key in fused <==> First(seen, key) < |seen|)
    && (forall key :: score(key) == if key in fused then fused[key].score else 0.0)
    && (forall key :: key in fused ==> HasFirst(seen, key, fused[key]) && fused[key].order < order)
    && (forall a, b :: a in fused && b in fused ==>
          (fused[a].order < fused[b].order <==> First(seen, a) < First(seen, b)))
  }

  ghost predicate HasFirst(seen: seq<Chunk>, key: string, a: Acc)
  {
    First(seen, key) < |seen| && a.chunk == seen[First(seen, key)]
  }

  lemma {:induction false} FirstAppend(seen: seq<Chunk>, c: Chunk, key: string)
    ensures First(seen, key) < |seen| ==> First(seen + [c], key) == First(seen, key)
    ensures First(seen, key) == |seen| && Key(c) == key ==> First(seen + [c], key) == |seen|
    ensures First(seen, key) == |seen| && Key(c) != key ==> First(seen + [c], key) == |seen| + 1
    ensures First(seen, key) <= |seen|
  {
    assert (seen + [c])[..|seen|] == seen;
    FirstIsFirst(seen, key);
  }

  /** The accumulator map after one more result: a new entry for a new key, a higher score for a known one. */
  function Accumulate(fused: map<string, Acc>, order: nat, c: Chunk, contrib: real): map<string, Acc>
  {
    if Key(c) in fused then fused[Key(c) := fused[Key(c)].(score := fused[Key(c)].score + contrib)]
    else fused[Key(c) := Acc(c, contrib, order)]
  }

  lemma {:induction false} AccumulateStep(fused: map<string, Acc>, order: nat, seen: seq<Chunk>,
    score: string -> real, c: Chunk, contrib: real, score': string -> real)
    requires Accumulated(fused, order, seen, score)
    requires forall k :: score'(k) == score(k) + if Key(c) == k then contrib else 0.0
    ensures Accumulated(Accumulate(fused, order, c, contrib), if Key(c) in fused then order else order + 1, seen + [c],
      score')
  {
    var after := Accumulate(fused, order, c, contrib);
    var more := seen + [c];
    forall k
      ensures k in after <==> First(more, k) < |more|
      ensures score'(k) == if k in after then after[k].score else 0.0
      ensures k in after && k in fused ==>
        HasFirst(more, k, after[k]) && after[k].order == fused[k].order && First(more, k) == First(seen, k) < |seen|
      ensures k in after && k !in fused ==> after[k].order == order && First(more, k) == |seen| && after[k].chunk == c
    {
      FirstAppend(seen, c, k);
      assert k in fused <==> First(seen, k) < |seen|;
      hide First, Key;
    }
    hide First, Key;
    forall k | k in after ensures HasFirst(more, k, after[k]) {
    }
  }

  /** The scores after the first `l` lists and the first `n` ranks of the next. */
  ghost function ScoreSoFar(lists: seq<seq<Chunk>>, rrfK: int, list: seq<Chunk>, n: nat): string -> real
    requires rrfK > 0 && n <= |list|
  {
    k => FusedScore(lists, rrfK, k) + ListScore(list, rrfK, n, k)
  }

  method FuseList(before: map<string, Acc>, seen0: nat, rrfK: int, list: seq<Chunk>, ghost lists: seq<seq<Chunk>>)
    returns (fused: map<string, Acc>, order: nat)
    requires rrfK > 0 && Accumulated(before, seen0, Flat(lists), k => FusedScore(lists, rrfK, k))
    ensures Accumulated(fused, order, Flat(lists) + list, ScoreSoFar(lists, rrfK, list, |list|))
  {
    hide Accumulated, Key;
    fused, order := before, seen0;
    assert Flat(lists) + list[..0] == Flat(lists);
    NothingMore(fused, order, lists, rrfK, list);
    var rank := 0;
    while rank < |list|
      invariant 0 <= rank <= |list|
      invariant Accumulated(fused, order, Flat(lists) + list[..rank], ScoreSoFar(lists, rrfK, list, rank))
    {
      var c := list[rank];
      var contrib := 1.0 / (rrfK + rank + 1) as real;
      assert contrib == Contribution(rrfK, rank);
      AccumulateStep(fused, order, Flat(lists) + list[..rank], ScoreSoFar(lists, rrfK, list, rank), c, contrib,
        ScoreSoFar(lists, rrfK, list, rank + 1));
      assert Flat(lists) + list[..rank + 1] == Flat(lists) + list[..rank] + [c];
      var key := Key(c);
      if key in fused {
        fused := fused[key := fused[key].(score := fused[key].score + contrib)];
      } else {
        fused := fused[key := Acc(c, contrib, order)];
        order := order + 1;
      }
      rank := rank + 1;
    }
    assert list[..rank] == list;
  }

  lemma {:induction false} NothingMore(fused: map<string, Acc>, order: nat, lists: seq<seq<Chunk>>, rrfK: int,
    list: seq<Chunk>)
    requires rrfK > 0 && Accumulated(fused, order, Flat(lists), k => FusedScore(lists, rrfK, k))
    ensures Accumulated(fused, order, Flat(lists), ScoreSoFar(lists, rrfK, list, 0))
  {
  }

  lemma {:induction false} ListDone(fused: map<string, Acc>, order: nat, lists: seq<seq<Chunk>>, rrfK: int,
    list: seq<Chunk>)
    requires rrfK > 0
    requires Accumulated(fused, order, Flat(lists) + list, ScoreSoFar(lists, rrfK, list, |list|))
    ensures Accumulated(fused, order, Flat(lists + [list]), k => FusedScore(lists + [list], rrfK, k))
  {
    assert (lists + [list])[..|lists|] == lists;
    hide First;
  }

  // ---- The answers of the sources ----

  /** The rankings of the sources, or the first problem met in asking them in order. */
  datatype Asked = Answers(lists: seq<seq<Chunk>>) | Problem(response: Response)

  function Ask(sources: seq<Source>, pool: int): Asked
  {
    if |sources| == 0 then Answers([])
    else
      var n := |sources| - 1;
      match Ask(sources[..n], pool)
      case Problem(r) => Problem(r)
      case Answers(lists) =>
        if sources[n].None? then Problem(NilSource)
        else
          match sources[n].value(pool)
          case Failed(reason) => Problem(SourceFailed(reason))
          case Ranked(chunks) => Answers(lists + [chunks])
  }

  lemma {:induction false} AskMore(sources: seq<Source>, pool: int, n: nat)
    requires n <= |sources| && Ask(sources[..n], pool).Problem?
    ensures Ask(sources, pool) == Ask(sources[..n], pool)
  {
    if n < |sources| {
      assert sources[..|sources| - 1][..n] == sources[..n];
      AskMore(sources[..|sources| - 1], pool, n);
    } else {
      assert sources[..n] == sources;
    }
  }

  method FuseAll(sources: seq<Source>, pool: int, rrfK: int) returns (problem: Option<Response>,
    fused: map<string, Acc>, order: nat)
    requires rrfK > 0
    ensures match Ask(sources, pool)
      case Problem(r) => problem == Some(r)
      case Answers(lists) =>
        problem == None && Accumulated(fused, order, Flat(lists), k => FusedScore(lists, rrfK, k))
  {
    hide Accumulated, FusedScore, Flat;
    ghost var lists := [];
    fused := map[];
    var count := 0;
    NoListsYet(rrfK);
    var n := 0;
    while n < |sources|
      invariant 0 <= n <= |sources| && Ask(sources[..n], pool) == Answers(lists)
      invariant Accumulated(fused, count, Flat(lists), k => FusedScore(lists, rrfK, k))
    {
      assert sources[..n + 1][..n] == sources[..n];
      if sources[n].None? {
        AskMore(sources, pool, n + 1);
        return Some(NilSource), map[], 0;
      }
      var answer := sources[n].value(pool);
      if answer.Failed? {
        AskMore(sources, pool, n + 1);
        return Some(SourceFailed(answer.reason)), map[], 0;
      }
      fused, count := FuseList(fused, count, rrfK, answer.chunks, lists);
      ListDone(fused, count, lists, rrfK, answer.chunks);
      lists := lists + [answer.chunks];
      n := n + 1;
    }
    assert sources[..n] == sources;
    return None, fused, count;
  }

  lemma {:induction false} NoListsYet(rrfK: int)
    requires rrfK > 0
    ensures Accumulated(map[], 0, Flat([]), k => FusedScore([], rrfK, k))
  {
  }

  // ---- Sorting and cutting ----

  predicate Before(a: Acc, b: Acc) { a.score > b.score || (a.score == b.score && a.order < b.order) }

  method SortedAccs(fused: map<string, Acc>, ghost order: nat, ghost seen: seq<Chunk>, ghost score: string -> real)
    returns (accs: seq<Acc>)
    requires Accumulated(fused, order, seen, score)
    ensures SortedBy(Before, accs)
    ensures forall a :: a in accs <==> a in fused.Values
  {
    accs := [];
    var left := fused.Keys;
    while left != {}
      invariant left <= fused.Keys
      invariant forall a :: a in accs <==> exists k :: k in fused && k !in left && fused[k] == a
      invariant forall i, j :: 0 <= i < j < |accs| ==> accs[i] != accs[j]
      decreases left
    {
      var k :| k in left;
      DifferentAccs(fused, order, seen, score, k);
      assert fused[k] !in accs;
      left := left - {k};
      accs := accs + [fused[k]];
    }
    AccsAreOrdered(fused, order, seen, score, accs);
    SortSorts(Before, accs);
    accs := Sort(Before, accs);
  }

  lemma {:induction false} DifferentAccs(fused: map<string, Acc>, order: nat, seen: seq<Chunk>, score: string -> real,
    k: string)
    requires Accumulated(fused, order, seen, score) && k in fused
    ensures forall other :: other in fused && fused[other].order == fused[k].order ==> other == k
  {
    forall other | other in fused && fused[other].order == fused[k].order ensures other == k {
      assert First(seen, other) == First(seen, k);
      FirstIsFirst(seen, other);
      FirstIsFirst(seen, k);
    }
  }

  lemma {:induction false} AccsAreOrdered(fused: map<string, Acc>, order: nat, seen: seq<Chunk>, score: string -> real,
    accs: seq<Acc>)
    requires Accumulated(fused, order, seen, score) && forall a :: a in accs ==> a in fused.Values
    ensures StrictTotalOn(Before, accs)
  {
    forall x, y | x in accs && y in accs ensures x == y || Before(x, y) || Before(y, x) {
      var k :| k in fused && fused[k] == x;
      DifferentAccs(fused, order, seen, score, k);
    }
  }

  function ResultOf(a: Acc): Result { Result(a.chunk, a.score) }

  lemma {:induction false} AccsRank(fused: map<string, Acc>, order: nat, lists: seq<seq<Chunk>>, rrfK: int,
    accs: seq<Acc>, all: seq<Result>)
    requires rrfK > 0 && Accumulated(fused, order, Flat(lists), k => FusedScore(lists, rrfK, k))
    requires SortedBy(Before, accs) && forall a :: a in accs <==> a in fused.Values
    requires |all| == |accs| && forall i :: 0 <= i < |all| ==> all[i] == ResultOf(accs[i])
    ensures IsRanking(lists, rrfK, all)
  {
    var seen := Flat(lists);
    forall k | k in fused ensures Key(fused[k].chunk) == k && fused[k].score == FusedScore(lists, rrfK, k) {
      FirstIsFirst(seen, k);
    }
    hide First, Key, FusedScore, Flat;
    forall r ensures r in all <==> IsFused(lists, rrfK, r) {
      if r in all {
        var i :| 0 <= i < |all| && all[i] == r;
        assert accs[i] in accs;
      }
      if IsFused(lists, rrfK, r) {
        var a := fused[Key(r.chunk)];
        assert a in fused.Values;
        var i :| 0 <= i < |accs| && accs[i] == a;
        assert all[i] == r;
      }
    }
    forall i, j | 0 <= i < j < |all| ensures Outranks(seen, all[i], all[j]) {
      assert accs[i] in accs && accs[j] in accs;
      assert Before(accs[i], accs[j]);
    }
  }

  /** The K highest ranked fused results, or the first problem. */
  method Retrieve(h: Config, queryK: int) returns (r: Response, ghost all: seq<Result>)
    ensures |h.sources| == 0 ==> r == NoSources
    ensures |h.sources| > 0 ==>
      match Ask(h.sources, h.Pool(queryK))
      case Problem(p) => r == p
      case Answers(lists) =>
        && IsRanking(lists, h.RrfK(), all)
        && r == Results(if |all| > h.K(queryK) then all[..h.K(queryK)] else all)
  {
    all := [];
    if |h.sources| == 0 {
      return NoSources, [];
    }
    var rrfK, k := h.RrfK(), h.K(queryK);
    var problem, fused, order := FuseAll(h.sources, h.Pool(queryK), rrfK);
    if problem.Some? {
      return problem.value, [];
    }
    hide IsRanking, Accumulated, FusedScore, Flat, SortedBy;
    ghost var lists := Ask(h.sources, h.Pool(queryK)).lists;
    var accs := SortedAccs(fused, order, Flat(lists), k => FusedScore(lists, rrfK, k));
    all := seq(|accs|, i requires 0 <= i < |accs| => ResultOf(accs[i]));
    AccsRank(fused, order, lists, rrfK, accs, all);
    if |accs| > k {
      accs := accs[..k];
    }
    var out := [];
    var i := 0;
    while i < |accs|
      invariant 0 <= i <= |accs| <= |all| && out == all[..i]
    {
      out := out + [ResultOf(accs[i])];
      i := i + 1;
    }
    r := Results(out);
  }
}
