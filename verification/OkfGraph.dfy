/** The link graph of a knowledge bundle (memory/okf/graph.go): adjacency, and breadth-first neighbourhoods. */
module OkfGraph {
  import opened Common

  /** A concept and the concepts its text links to, in document order. */
  datatype Concept = Concept(id: string, outlinks: seq<string>)

  datatype Hop = Hop(id: string, hops: nat)

  // ---- Adjacency ----

  /** The outlinks of a concept; of several with one id, the last counts. */
  function OutOf(cs: seq<Concept>, id: string): seq<string>
  {
    if |cs| == 0 then []
    else if cs[|cs| - 1].id == id then cs[|cs| - 1].outlinks
    else OutOf(cs[..|cs| - 1], id)
  }

  /** `id`, as often as `target` is in `outs`. */
  function Mentions(id: string, outs: seq<string>, target: string): seq<string>
  {
    if |outs| == 0 then []
    else Mentions(id, outs[..|outs| - 1], target) + if outs[|outs| - 1] == target then [id] else []
  }

  /** The concepts linking to `target`, in bundle order. */
  function InOf(cs: seq<Concept>, target: string): seq<string>
  {
    if |cs| == 0 then []
    else InOf(cs[..|cs| - 1], target) + Mentions(cs[|cs| - 1].id, cs[|cs| - 1].outlinks, target)
  }

  function Get(adj: map<string, seq<string>>, id: string): seq<string> { if id in adj then adj[id] else [] }

  lemma {:induction false} MentionsStep(id: string, outs: seq<string>, k: nat, target: string)
    requires k < |outs|
    ensures Mentions(id, outs[..k + 1], target) ==
      if outs[k] == target then Mentions(id, outs[..k], target) + [id] else Mentions(id, outs[..k], target)
  {
    assert outs[..k + 1][..k] == outs[..k];
  }

  lemma {:induction false} MentionsTarget(id: string, outs: seq<string>, target: string, x: string)
    ensures x in Mentions(id, outs, target) <==> x == id && target in outs
  {
    if |outs| > 0 {
      var n := |outs| - 1;
      MentionsTarget(id, outs[..n], target, x);
      assert outs == outs[..n] + [outs[n]];
    }
  }

  /** An inlink is exactly a concept with that outlink. */
  lemma {:induction false} InlinksReverseOutlinks(cs: seq<Concept>, id: string, target: string)
    requires forall i, j :: 0 <= i < j < |cs| ==> cs[i].id != cs[j].id
    ensures id in InOf(cs, target) <==> target in OutOf(cs, id)
    ensures id in InOf(cs, target) ==> exists i :: 0 <= i < |cs| && cs[i].id == id
  {
    if |cs| > 0 {
      var n := |cs| - 1;
      InlinksReverseOutlinks(cs[..n], id, target);
      MentionsTarget(cs[n].id, cs[n].outlinks, target, id);
      if id in InOf(cs[..n], target) {
        var i :| 0 <= i < n && cs[..n][i].id == id;
        assert cs[i].id == id;
      }
    }
  }

  /** Every link from `id`, forward only or both ways. */
  function Links(cs: seq<Concept>, inlinks: bool, id: string): seq<string>
  {
    OutOf(cs, id) + if inlinks then InOf(cs, id) else []
  }

  // ---- Distance ----

  /** `v` is at most `k` links away from `seed`. */
  ghost predicate Within(adj: string -> seq<string>, seed: string, v: string, k: nat)
    decreases k
  {
    if k == 0 then v == seed
    else Within(adj, seed, v, k - 1) || exists u :: Within(adj, seed, u, k - 1) && v in adj(u)
  }

  /** The shortest way from `seed` to `v` has `k` links. */
  ghost predicate AtDistance(adj: string -> seq<string>, seed: string, v: string, k: nat)
  {
    Within(adj, seed, v, k) && forall m: nat :: m < k ==> !Within(adj, seed, v, m)
  }

  predicate Path(adj: string -> seq<string>, p: seq<string>, seed: string, v: string)
  {
    |p| > 0 && p[0] == seed && p[|p| - 1] == v && forall i :: 0 <= i < |p| - 1 ==> p[i + 1] in adj(p[i])
  }

  /** Being within `k` links is having a path of at most `k` links. */
  lemma {:induction false} WithinIsPath(adj: string -> seq<string>, seed: string, v: string, k: nat)
    ensures Within(adj, seed, v, k) <==> exists p :: Path(adj, p, seed, v) && |p| <= k + 1
  {
    if Within(adj, seed, v, k) {
      var p := PathOf(adj, seed, v, k);
    }
    forall p | Path(adj, p, seed, v) && |p| <= k + 1 ensures Within(adj, seed, v, k) {
      PathIsWithin(adj, seed, v, p);
      WithinGrows(adj, seed, v, |p| - 1, k);
    }
  }

  lemma {:induction false} PathOf(adj: string -> seq<string>, seed: string, v: string, k: nat) returns (p: seq<string>)
    requires Within(adj, seed, v, k)
    ensures Path(adj, p, seed, v) && |p| <= k + 1
    decreases k
  {
    if k == 0 {
      p := [seed];
    } else if Within(adj, seed, v, k - 1) {
      p := PathOf(adj, seed, v, k - 1);
    } else {
      var u :| Within(adj, seed, u, k - 1) && v in adj(u);
      var q := PathOf(adj, seed, u, k - 1);
      p := q + [v];
      forall i | 0 <= i < |p| - 1 ensures p[i + 1] in adj(p[i]) {
        assert i < |q| - 1 ==> q[i + 1] in adj(q[i]);
      }
    }
  }

  lemma {:induction false} PathIsWithin(adj: string -> seq<string>, seed: string, v: string, p: seq<string>)
    requires Path(adj, p, seed, v)
    ensures Within(adj, seed, v, |p| - 1)
    decreases |p|
  {
    if |p| > 1 {
      var q := p[..|p| - 1];
      assert p[|p| - 2 + 1] in adj(p[|p| - 2]);
      PathIsWithin(adj, seed, q[|q| - 1], q);
    }
  }

  lemma {:induction false} WithinGrows(adj: string -> seq<string>, seed: string, v: string, k: nat, m: nat)
    requires Within(adj, seed, v, k) && k <= m
    ensures Within(adj, seed, v, m)
    decreases m - k
  {
    if k < m { WithinGrows(adj, seed, v, k + 1, m); }
  }

  /** A node newly within `k` links is linked from one at distance `k - 1`. */
  lemma {:induction false} FrontierStep(adj: string -> seq<string>, seed: string, v: string, k: nat)
    requires k > 0
    ensures AtDistance(adj, seed, v, k) <==>
      !Within(adj, seed, v, k - 1) && exists u :: AtDistance(adj, seed, u, k - 1) && v in adj(u)
  {
    if !Within(adj, seed, v, k - 1) {
      forall m: nat | m < k ensures !Within(adj, seed, v, m) {
        if Within(adj, seed, v, m) { WithinGrows(adj, seed, v, m, k - 1); }
      }
      forall u | Within(adj, seed, u, k - 1) && v in adj(u) ensures AtDistance(adj, seed, u, k - 1) {
        forall m: nat | m < k - 1 ensures !Within(adj, seed, u, m) {
          if Within(adj, seed, u, m) {
            WithinGrows(adj, seed, u, m, k - 2);
          }
        }
      }
    }
  }

  /** With nothing at distance `k`, nothing is further away. */
  lemma {:induction false} EmptyFrontierEnds(adj: string -> seq<string>, seed: string, k: nat, v: string, m: nat)
    requires forall u :: !AtDistance(adj, seed, u, k)
    requires k <= m
    ensures !AtDistance(adj, seed, v, m)
    decreases m
  {
    if k < m {
      FrontierStep(adj, seed, v, m);
      if AtDistance(adj, seed, v, m) {
        var u :| AtDistance(adj, seed, u, m - 1) && v in adj(u);
        EmptyFrontierEnds(adj, seed, k, u, m - 1);
      }
    }
  }

  // ---- Breadth-first search ----

  /** The links not seen before, each where it first occurs. */
  function Discover(seen: set<string>, links: seq<string>): seq<string>
  {
    if |links| == 0 then []
    else
      var found := Discover(seen, links[..|links| - 1]);
      var last := links[|links| - 1];
      if last in seen || last in found then found else found + [last]
  }

  /** All links of a frontier, in order. */
  function Flat(adj: string -> seq<string>, frontier: seq<string>): seq<string>
  {
    if |frontier| == 0 then []
    else Flat(adj, frontier[..|frontier| - 1]) + adj(frontier[|frontier| - 1])
  }

  lemma {:induction false} DiscoverFinds(seen: set<string>, links: seq<string>)
    ensures forall v :: v in Discover(seen, links) <==> v in links && v !in seen
    ensures forall i, j :: 0 <= i < j < |Discover(seen, links)| ==> Discover(seen, links)[i] != Discover(seen, links)[j]
  {
    if |links| > 0 {
      var n := |links| - 1;
      DiscoverFinds(seen, links[..n]);
      assert links == links[..n] + [links[n]];
    }
  }

  lemma {:induction false} FlatLinks(adj: string -> seq<string>, frontier: seq<string>, v: string)
    ensures v in Flat(adj, frontier) <==> exists u :: u in frontier && v in adj(u)
  {
    if |frontier| > 0 {
      var n := |frontier| - 1;
      FlatLinks(adj, frontier[..n], v);
      assert frontier == frontier[..n] + [frontier[n]];
    }
  }

  function Hops(ids: seq<string>, d: nat): (r: seq<Hop>)
    ensures |r| == |ids| && forall i :: 0 <= i < |r| ==> r[i] == Hop(ids[i], d)
  {
    seq(|ids|, i requires 0 <= i < |ids| => Hop(ids[i], d))
  }

  /** Exactly the nodes at distance 1 to `depth`, each once, the nearer first, with their distance. */
  ghost predicate IsNeighborhood(adj: string -> seq<string>, seed: string, depth: int, hops: seq<Hop>)
  {
    && (forall v, k: nat :: Hop(v, k) in hops <==> 1 <= k <= depth && AtDistance(adj, seed, v, k))
    && (forall i, j :: 0 <= i < j < |hops| ==> hops[i].id != hops[j].id && hops[i].hops <= hops[j].hops)
  }

  /** After `d` rounds: the neighbourhood so far, what has been seen, and the nodes at distance `d`. */
  ghost predicate Searched(adj: string -> seq<string>, seed: string, d: nat, seen: set<string>, hops: seq<Hop>,
    frontier: seq<string>)
  {
    && IsNeighborhood(adj, seed, d, hops)
    && (forall v :: v in seen <==> Within(adj, seed, v, d))
    && (forall v :: v in frontier <==> AtDistance(adj, seed, v, d))
  }

  lemma {:induction false} NoDepthNoNeighbors(adj: string -> seq<string>, seed: string, depth: int)
    requires depth <= 0
    ensures IsNeighborhood(adj, seed, depth, [])
  {
  }

  lemma {:induction false} EmptyRound(adj: string -> seq<string>, seen: set<string>, frontier: seq<string>)
    ensures Discover(seen, Flat(adj, frontier[..0])) == []
  {
  }

  lemma {:induction false} SearchBegins(adj: string -> seq<string>, seed: string)
    ensures Searched(adj, seed, 0, {seed}, [], [seed])
  {
  }

  lemma {:induction false} AtDistanceIsNew(adj: string -> seq<string>, seed: string, v: string, d: nat)
    ensures AtDistance(adj, seed, v, d + 1) <==> Within(adj, seed, v, d + 1) && !Within(adj, seed, v, d)
  {
    if !Within(adj, seed, v, d) {
      forall m: nat | m < d + 1 ensures !Within(adj, seed, v, m) {
        if Within(adj, seed, v, m) { WithinGrows(adj, seed, v, m, d); }
      }
    }
  }

  lemma {:induction false} NewlyFound(adj: string -> seq<string>, seed: string, d: nat, seen: set<string>,
    hops: seq<Hop>, frontier: seq<string>, v: string)
    requires Searched(adj, seed, d, seen, hops, frontier)
    ensures v in Discover(seen, Flat(adj, frontier)) <==> AtDistance(adj, seed, v, d + 1)
  {
    hide Within, AtDistance;
    DiscoverFinds(seen, Flat(adj, frontier));
    FlatLinks(adj, frontier, v);
    FrontierStep(adj, seed, v, d + 1);
  }

  lemma {:induction false} SearchStep(adj: string -> seq<string>, seed: string, d: nat, seen: set<string>,
    hops: seq<Hop>, frontier: seq<string>, next: seq<string>, seen': set<string>)
    requires Searched(adj, seed, d, seen, hops, frontier)
    requires next == Discover(seen, Flat(adj, frontier)) && seen' == seen + set v | v in next
    ensures Searched(adj, seed, d + 1, seen', hops + Hops(next, d + 1), next)
  {
    forall v ensures v in next <==> AtDistance(adj, seed, v, d + 1) {
      NewlyFound(adj, seed, d, seen, hops, frontier, v);
    }
    forall v ensures v in seen' <==> Within(adj, seed, v, d + 1) {
      AtDistanceIsNew(adj, seed, v, d);
      if Within(adj, seed, v, d) { WithinGrows(adj, seed, v, d, d + 1); }
    }
    HopsExtend(adj, seed, d, seen, hops, frontier, next);
  }

  lemma {:induction false} HopsExtend(adj: string -> seq<string>, seed: string, d: nat, seen: set<string>,
    hops: seq<Hop>, frontier: seq<string>, next: seq<string>)
    requires Searched(adj, seed, d, seen, hops, frontier) && next == Discover(seen, Flat(adj, frontier))
    requires forall v :: v in next <==> AtDistance(adj, seed, v, d + 1)
    ensures IsNeighborhood(adj, seed, d + 1, hops + Hops(next, d + 1))
  {
    var added := Hops(next, d + 1);
    var all := hops + added;
    DiscoverFinds(seen, Flat(adj, frontier));
    forall i | 0 <= i < |hops| ensures hops[i].id !in next && hops[i].hops <= d {
      var h := hops[i];
      assert Hop(h.id, h.hops) in hops;
      assert AtDistance(adj, seed, h.id, h.hops);
      WithinGrows(adj, seed, h.id, h.hops, d);
    }
    hide Discover, AtDistance, Within;
    forall v, k: nat ensures Hop(v, k) in all <==> 1 <= k <= d + 1 && AtDistance(adj, seed, v, k) {
      HopsMembers(next, d + 1, v, k);
      assert Hop(v, k) in all <==> Hop(v, k) in hops || Hop(v, k) in added;
    }
    forall i, j | 0 <= i < j < |all| ensures all[i].id != all[j].id && all[i].hops <= all[j].hops {
      if i < |hops| <= j {
        assert all[j].id == next[j - |hops|];
      }
    }
  }

  lemma {:induction false} HopsMembers(ids: seq<string>, d: nat, v: string, k: nat)
    ensures Hop(v, k) in Hops(ids, d) <==> v in ids && k == d
  {
    if v in ids {
      var i :| 0 <= i < |ids| && ids[i] == v;
      assert Hops(ids, d)[i] == Hop(v, d);
    }
  }

  /** The search is over when the depth is reached or the frontier is empty. */
  lemma {:induction false} SearchEnds(adj: string -> seq<string>, seed: string, d: nat, depth: nat, seen: set<string>,
    hops: seq<Hop>, frontier: seq<string>)
    requires Searched(adj, seed, d, seen, hops, frontier) && d <= depth && (d == depth || frontier == [])
    ensures IsNeighborhood(adj, seed, depth, hops)
  {
    hide Within, AtDistance;
    if d < depth {
      forall v, k: nat | d <= k ensures !AtDistance(adj, seed, v, k) {
        EmptyFrontierEnds(adj, seed, d, v, k);
      }
    }
  }

  lemma {:induction false} DiscoverAppends(seen: set<string>, a: seq<string>, b: seq<string>)
    ensures Discover(seen, a + b) == Discover(seen, a) + Discover(seen + (set v | v in Discover(seen, a)), b)
  {
    if |b| == 0 {
      assert a + b == a;
    } else {
      var n := |b| - 1;
      DiscoverAppends(seen, a, b[..n]);
      assert (a + b)[..|a| + n] == a + b[..n];
    }
  }

  /** The new targets of some links, in order; all of them are seen afterwards. */
  method VisitLinks(seen: set<string>, links: seq<string>) returns (seen': set<string>, found: seq<string>)
    ensures found == Discover(seen, links) && seen' == seen + set v | v in found
  {
    seen', found := seen, [];
    var k := 0;
    while k < |links|
      invariant 0 <= k <= |links|
      invariant found == Discover(seen, links[..k]) && seen' == seen + set v | v in found
    {
      var nb := links[k];
      assert links[..k + 1][..k] == links[..k];
      if nb !in seen' {
        seen' := seen' + {nb};
        found := found + [nb];
      }
      k := k + 1;
    }
    assert links[..k] == links;
  }

  /** What one more frontier node adds to a round. */
  lemma {:induction false} RoundStep(adj: string -> seq<string>, seen: set<string>, frontier: seq<string>, i: nat)
    requires i < |frontier|
    ensures
      var next := Discover(seen, Flat(adj, frontier[..i]));
      Discover(seen, Flat(adj, frontier[..i + 1])) ==
        next + Discover(seen + (set v | v in next), adj(frontier[i]))
  {
    assert frontier[..i + 1][..i] == frontier[..i];
    DiscoverAppends(seen, Flat(adj, frontier[..i]), adj(frontier[i]));
  }

  ghost function Ids(hops: seq<Hop>): (r: seq<string>)
    ensures |r| == |hops| && forall i :: 0 <= i < |r| ==> r[i] == hops[i].id
  {
    seq(|hops|, i requires 0 <= i < |hops| => hops[i].id)
  }

  /** The adjacency function the links of a bundle define. */
  ghost function Adjacency(cs: seq<Concept>, inlinks: bool): string -> seq<string>
  {
    id => Links(cs, inlinks, id)
  }

  /** The first `k` links of `c` have been entered. */
  ghost predicate Entered(now: map<string, seq<string>>, before: map<string, seq<string>>, c: Concept, k: nat)
    requires k <= |c.outlinks|
  {
    forall t :: Get(now, t) == Get(before, t) + Mentions(c.id, c.outlinks[..k], t)
  }

  lemma {:induction false} EnterStep(now: map<string, seq<string>>, before: map<string, seq<string>>, c: Concept,
    k: nat)
    requires k < |c.outlinks| && Entered(now, before, c, k)
    ensures Entered(now[c.outlinks[k] := Get(now, c.outlinks[k]) + [c.id]], before, c, k + 1)
  {
    hide Mentions;
    var o := c.outlinks[k];
    var after := now[o := Get(now, o) + [c.id]];
    forall t ensures Get(after, t) == Get(before, t) + Mentions(c.id, c.outlinks[..k + 1], t) {
      MentionsStep(c.id, c.outlinks, k, t);
      assert Get(after, t) == if t == o then Get(now, o) + [c.id] else Get(now, t);
    }
  }

  lemma {:induction false} EnteredAll(now: map<string, seq<string>>, before: map<string, seq<string>>, c: Concept)
    requires Entered(now, before, c, |c.outlinks|)
    ensures forall t :: Get(now, t) == Get(before, t) + Mentions(c.id, c.outlinks, t)
  {
    assert c.outlinks[..|c.outlinks|] == c.outlinks;
  }

  class Bundle {
    const concepts: seq<Concept>
    var built: bool
    var outAdj: map<string, seq<string>>
    var inAdj: map<string, seq<string>>

    ghost predicate Valid()
      reads this
    {
      built ==> forall id :: Get(outAdj, id) == OutOf(concepts, id) && Get(inAdj, id) == InOf(concepts, id)
    }

    constructor (concepts: seq<Concept>)
      ensures Valid() && this.concepts == concepts && !built
    {
      this.concepts := concepts;
      built, outAdj, inAdj := false, map[], map[];
    }

    /** Enters `c` as a source under each of its targets. */
    method AddInlinks(c: Concept)
      modifies this`inAdj
      ensures forall t :: Get(inAdj, t) == Get(old(inAdj), t) + Mentions(c.id, c.outlinks, t)
    {
      var k := 0;
      assert Entered(inAdj, old(inAdj), c, 0);
      hide Entered, Get, Mentions;
      while k < |c.outlinks|
        invariant 0 <= k <= |c.outlinks|
        invariant Entered(inAdj, old(inAdj), c, k)
      {
        EnterStep(inAdj, old(inAdj), c, k);
        inAdj := inAdj[c.outlinks[k] := Get(inAdj, c.outlinks[k]) + [c.id]];
        k := k + 1;
      }
      EnteredAll(inAdj, old(inAdj), c);
    }

    method BuildGraph()
      requires Valid()
      modifies this
      ensures Valid() && built
    {
      hide Mentions;
      if built { return; }
      outAdj, inAdj := map[], map[];
      var n := 0;
      while n < |concepts|
        invariant 0 <= n <= |concepts|
        invariant forall id :: Get(outAdj, id) == OutOf(concepts[..n], id) && Get(inAdj, id) == InOf(concepts[..n], id)
      {
        assert concepts[..n + 1][..n] == concepts[..n];
        outAdj := outAdj[concepts[n].id := concepts[n].outlinks];
        AddInlinks(concepts[n]);
        n := n + 1;
      }
      assert concepts[..n] == concepts;
      built := true;
    }

    method Outlinks(id: string) returns (r: seq<string>)
      requires Valid()
      modifies this
      ensures Valid() && r == OutOf(concepts, id)
    {
      BuildGraph();
      r := Get(outAdj, id);
    }

    /** The concepts linking to `id`, in name order. */
    method Inlinks(id: string) returns (r: seq<string>)
      requires Valid()
      modifies this
      ensures Valid() && NonDescending(StringLess, r) && multiset(r) == multiset(InOf(concepts, id))
    {
      BuildGraph();
      StringOrderIsStrictTotal();
      SortPermutes(StringLess, InOf(concepts, id));
      r := Sort(StringLess, Get(inAdj, id));
    }

    /** The inner loops of both searches: everything a frontier newly leads to, in order. */
    method Round(inlinks: bool, seen: set<string>, frontier: seq<string>) returns (seen': set<string>, next: seq<string>)
      requires Valid() && built
      ensures next == Discover(seen, Flat(Adjacency(concepts, inlinks), frontier))
      ensures seen' == seen + set v | v in next
    {
      hide Discover, Flat, OutOf, InOf;
      ghost var adj := Adjacency(concepts, inlinks);
      EmptyRound(adj, seen, frontier);
      seen', next := seen, [];
      var i := 0;
      while i < |frontier|
        invariant 0 <= i <= |frontier|
        invariant next == Discover(seen, Flat(adj, frontier[..i]))
        invariant seen' == seen + set v | v in next
      {
        RoundStep(adj, seen, frontier, i);
        var links := Get(outAdj, frontier[i]);
        if inlinks {
          links := links + Get(inAdj, frontier[i]);
        }
        assert links == Links(concepts, inlinks, frontier[i]);
        var found;
        seen', found := VisitLinks(seen', links);
        next := next + found;
        i := i + 1;
      }
      assert frontier[..i] == frontier;
    }

    /** The concepts at distance 1 to `depth`, the nearer first. */
    method Neighborhood(id: string, depth: int) returns (out: seq<string>, ghost hops: seq<Hop>)
      requires Valid()
      modifies this
      ensures Valid()
      ensures out == Ids(hops) && IsNeighborhood(Adjacency(concepts, false), id, depth, hops)
    {
      hide IsNeighborhood, Searched, Discover, Flat, Adjacency;
      out, hops := [], [];
      ghost var adj := Adjacency(concepts, false);
      if depth <= 0 {
        NoDepthNoNeighbors(adj, id, depth);
        return;
      }
      BuildGraph();
      var seen, frontier := {id}, [id];
      SearchBegins(adj, id);
      var d := 0;
      while d < depth && |frontier| > 0
        invariant 0 <= d <= depth
        invariant Searched(adj, id, d, seen, hops, frontier) && out == Ids(hops)
        decreases depth - d
        modifies {}
      {
        ghost var before := seen;
        var next;
        seen, next := Round(false, seen, frontier);
        SearchStep(adj, id, d, before, hops, frontier, next, seen);
        out := out + next;
        hops := hops + Hops(next, d + 1);
        frontier := next;
        d := d + 1;
      }
      SearchEnds(adj, id, d, depth, seen, hops, frontier);
    }
  }
}
