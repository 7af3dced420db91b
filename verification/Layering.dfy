/** The graph layout of pkg/graph/spec.go: a clamped longest-path relaxation, then one column per depth. */
module Layering {
  import opened Common
  import opened GraphTypes
  import GraphBuilder

  datatype Edge = Edge(from: string, to: string)

  /** The part of a compiled graph's description the layout reads. */
  datatype Spec = Spec(nodes: seq<string>, staticEdges: seq<Edge>)

  function AllNodes(spec: Spec): seq<string> { [START, END] + spec.nodes }

  function MaxDepth(spec: Spec): nat { |spec.nodes| + 2 }

  // ---- Walks along static edges ----

  predicate Walk(spec: Spec, p: seq<string>)
  {
    |p| > 0 && forall i :: 0 <= i < |p| - 1 ==> Edge(p[i], p[i + 1]) in spec.staticEdges
  }

  predicate WalkTo(spec: Spec, p: seq<string>, v: string)
  {
    Walk(spec, p) && p[0] == START && p[|p| - 1] == v
  }

  ghost predicate Reachable(spec: Spec, v: string) { exists p :: WalkTo(spec, p, v) }

  /** `d` edges lead from START to `v`, and no walk there has more. */
  ghost predicate IsLongest(spec: Spec, v: string, d: nat)
  {
    && (exists p :: WalkTo(spec, p, v) && |p| == d + 1)
    && (forall p :: WalkTo(spec, p, v) ==> |p| <= d + 1)
  }

  /** No walk of at least one edge comes back to where it began. */
  ghost predicate Acyclic(spec: Spec)
  {
    forall p :: Walk(spec, p) && |p| > 1 ==> p[0] != p[|p| - 1]
  }

  /** Edges join START, END and listed nodes, and nothing leaves END: what an accepted graph's description satisfies. */
  predicate Joined(spec: Spec)
  {
    && (forall e :: e in spec.staticEdges ==> e.from in AllNodes(spec) && e.to in AllNodes(spec) && e.from != END)
  }

  /** What Inspect says of a compiled graph: every node once, and every static edge. */
  ghost predicate Describes<S>(spec: Spec, r: Runnable<S>)
  {
    && Distinct(spec.nodes) && (forall n :: n in spec.nodes <==> n in r.nodes)
    && (forall e :: e in spec.staticEdges <==> e.from in r.staticEdges && r.staticEdges[e.from] == e.to)
  }

  /** Descriptions of graphs Compile accepts are joined, and name no node twice. */
  lemma {:induction false} CompiledGraphsAreJoined<S>(spec: Spec, r: Runnable<S>)
    requires GraphBuilder.WellFormed(r) && Describes(spec, r) && START in r.staticEdges
    requires r.staticEdges[START] == r.entry
    ensures Joined(spec) && Distinct(AllNodes(spec))
  {
    var all := AllNodes(spec);
    assert all[0] == START && all[1] == END;
    forall n | n in spec.nodes ensures n in all {
      var i :| 0 <= i < |spec.nodes| && spec.nodes[i] == n;
      assert all[i + 2] == n;
    }
    assert forall i :: 2 <= i < |all| ==> all[i] == spec.nodes[i - 2] && all[i] in spec.nodes;
  }

  predicate Distinct(s: seq<string>) { forall i, j :: 0 <= i < j < |s| ==> s[i] != s[j] }

  lemma {:induction false} Pigeonhole(p: seq<string>, a: seq<string>)
    requires Distinct(p) && forall x :: x in p ==> x in a
    ensures |p| <= |a|
    decreases |p|
  {
    if |p| > 0 {
      assert p[0] in p;
      var i :| 0 <= i < |a| && a[i] == p[0];
      var rest := a[..i] + a[i + 1..];
      forall x | x in p[1..] ensures x in rest {
        assert x in p;
        var k :| 0 <= k < |a| && a[k] == x;
        assert k != i;
        assert if k < i then rest[k] == x else rest[k - 1] == x;
      }
      Pigeonhole(p[1..], rest);
    }
  }

  /** On an acyclic description no walk from START has as many edges as the clamp allows. */
  lemma {:induction false} WalksAreShort(spec: Spec, p: seq<string>)
    requires Joined(spec) && Acyclic(spec) && Walk(spec, p) && p[0] == START
    ensures |p| <= MaxDepth(spec)
  {
    forall i, j | 0 <= i < j < |p| ensures p[i] != p[j] {
      var loop := p[i..j + 1];
      forall k | 0 <= k < |loop| - 1 ensures Edge(loop[k], loop[k + 1]) in spec.staticEdges {
        assert Edge(p[i + k], p[i + k + 1]) in spec.staticEdges;
      }
      assert Walk(spec, loop);
    }
    forall x | x in p ensures x in AllNodes(spec) {
      var i :| 0 <= i < |p| && p[i] == x;
      assert i > 0 ==> Edge(p[i - 1], p[i]) in spec.staticEdges;
      assert AllNodes(spec)[0] == START;
    }
    Pigeonhole(p, AllNodes(spec));
  }

  lemma {:induction false} Extend(spec: Spec, p: seq<string>, u: string, v: string)
    requires WalkTo(spec, p, u) && Edge(u, v) in spec.staticEdges
    ensures WalkTo(spec, p + [v], v)
  {
    var q := p + [v];
    forall i | 0 <= i < |q| - 1 ensures Edge(q[i], q[i + 1]) in spec.staticEdges {
      assert i < |p| - 1 ==> q[i] == p[i] && q[i + 1] == p[i + 1];
    }
  }

  // ---- The relaxation ----

  function Targets(edges: seq<Edge>, from: string): seq<string>
  {
    if |edges| == 0 then []
    else
      var last := edges[|edges| - 1];
      Targets(edges[..|edges| - 1], from) + if last.from == from then [last.to] else []
  }

  lemma {:induction false} TargetsAreEdges(edges: seq<Edge>, from: string, v: string)
    ensures v in Targets(edges, from) <==> Edge(from, v) in edges
  {
    if |edges| > 0 {
      var n := |edges| - 1;
      TargetsAreEdges(edges[..n], from, v);
      assert edges == edges[..n] + [edges[n]];
    }
  }

  function Next(adj: map<string, seq<string>>, from: string): seq<string> { if from in adj then adj[from] else [] }

  ghost predicate IsAdjacency(spec: Spec, adj: map<string, seq<string>>)
  {
    forall e :: e in spec.staticEdges <==> e.to in Next(adj, e.from)
  }

  method BuildAdjacency(spec: Spec) returns (adj: map<string, seq<string>>)
    ensures IsAdjacency(spec, adj)
  {
    var edges := spec.staticEdges;
    adj := map[];
    var i := 0;
    while i < |edges|
      invariant 0 <= i <= |edges|
      invariant forall f :: Next(adj, f) == Targets(edges[..i], f)
    {
      var e := edges[i];
      assert edges[..i + 1][..i] == edges[..i];
      adj := adj[e.from := Next(adj, e.from) + [e.to]];
      i := i + 1;
    }
    assert edges[..i] == edges;
    forall e ensures e in edges <==> e.to in Next(adj, e.from) { TargetsAreEdges(edges, e.from, e.to); }
  }

  /** The depths still to be given: what every update shrinks, whatever cycles the description has. */
  ghost function Remaining(vs: set<string>, bound: nat, depth: map<string, nat>): set<(string, nat)>
  {
    set v, d: nat | v in vs && d <= bound && (v in depth ==> d > depth[v]) :: (v, d)
  }

  lemma {:induction false} DeeperLeavesLess(vs: set<string>, bound: nat, depth: map<string, nat>, v: string, d: nat)
    requires v in vs && d <= bound && (v in depth ==> d > depth[v])
    ensures Remaining(vs, bound, depth[v := d]) < Remaining(vs, bound, depth)
  {
    assert (v, d) in Remaining(vs, bound, depth) && (v, d) !in Remaining(vs, bound, depth[v := d]);
  }

  /** Every depth is the length of some walk from START, and within the clamp. */
  ghost predicate Witnessed(spec: Spec, depth: map<string, nat>)
  {
    && START in depth
    && forall v :: v in depth ==> depth[v] <= MaxDepth(spec) && exists p :: WalkTo(spec, p, v) && |p| == depth[v] + 1
  }

  /** The edge from `u` to `v` has been relaxed, or the clamp stopped it. */
  predicate Relaxed(spec: Spec, depth: map<string, nat>, u: string, v: string)
    requires u in depth
  {
    depth[u] + 1 <= MaxDepth(spec) ==> v in depth && depth[v] > depth[u]
  }

  ghost predicate Closed(spec: Spec, depth: map<string, nat>)
  {
    forall e :: e in spec.staticEdges && e.from in depth ==> Relaxed(spec, depth, e.from, e.to)
  }

  lemma {:induction false} Deeper(spec: Spec, depth: map<string, nat>, u: string, v: string)
    requires Witnessed(spec, depth) && u in depth && Edge(u, v) in spec.staticEdges && depth[u] + 1 <= MaxDepth(spec)
    ensures Witnessed(spec, depth[v := depth[u] + 1])
  {
    var p :| WalkTo(spec, p, u) && |p| == depth[u] + 1;
    Extend(spec, p, u, v);
    assert |p + [v]| == depth[u] + 2;
  }

  lemma {:induction false} TargetsOf(spec: Spec, adj: map<string, seq<string>>, u: string)
    requires IsAdjacency(spec, adj)
    ensures forall v :: Edge(u, v) in spec.staticEdges <==> v in Next(adj, u)
  {
    forall v ensures Edge(u, v) in spec.staticEdges <==> v in Next(adj, u) {
      assert Edge(u, v) in spec.staticEdges <==> Edge(u, v).to in Next(adj, Edge(u, v).from);
    }
  }

  method Relax(spec: Spec) returns (depth: map<string, nat>)
    ensures Witnessed(spec, depth) && Closed(spec, depth)
  {
    hide Witnessed, Remaining, Next, IsAdjacency, AllNodes;
    var adj := BuildAdjacency(spec);
    var maxDepth := |spec.nodes| + 2;
    ghost var vs := {START} + set e | e in spec.staticEdges :: e.to;
    depth := map[START := 0];
    StartIsWitnessed(spec);
    var queue := [START];
    while |queue| > 0
      invariant Witnessed(spec, depth)
      invariant forall v :: v in queue ==> v in depth
      invariant forall e :: e in spec.staticEdges && e.from in depth && e.from !in queue ==>
                              Relaxed(spec, depth, e.from, e.to)
      decreases Remaining(vs, maxDepth, depth), |queue|
    {
      var cur := queue[0];
      ghost var before := Remaining(vs, maxDepth, depth);
      assert queue == [cur] + queue[1..];
      queue := queue[1..];
      ghost var popped := queue;
      var targets := Next(adj, cur);
      TargetsOf(spec, adj, cur);
      var k := 0;
      while k < |targets|
        invariant 0 <= k <= |targets|
        invariant Witnessed(spec, depth) && cur in depth
        invariant forall v :: v in queue ==> v in depth
        invariant forall e :: e in spec.staticEdges && e.from in depth && e.from !in queue && e.from != cur ==>
                                Relaxed(spec, depth, e.from, e.to)
        invariant cur in queue || forall i :: 0 <= i < k ==> Relaxed(spec, depth, cur, targets[i])
        invariant
          || (queue == popped && Remaining(vs, maxDepth, depth) == before)
          || Remaining(vs, maxDepth, depth) < before
      {
        var next := targets[k];
        assert Edge(cur, next) in spec.staticEdges;
        var d := depth[cur] + 1;
        if d <= maxDepth {
          if next !in depth || d > depth[next] {
            Deeper(spec, depth, cur, next);
            DeeperLeavesLess(vs, maxDepth, depth, next, d);
            depth := depth[next := d];
            queue := queue + [next];
          }
        }
        k := k + 1;
      }
      forall e | e in spec.staticEdges && e.from == cur && cur !in queue ensures Relaxed(spec, depth, cur, e.to) {
        assert e.to in targets;
      }
    }
  }

  lemma {:induction false} StartIsWitnessed(spec: Spec)
    ensures Witnessed(spec, map[START := 0])
  {
    assert WalkTo(spec, [START], START);
  }

  // ---- What the relaxation computes on an acyclic description ----

  /** No edge was stopped by the clamp: every one of them leads strictly deeper. */
  ghost predicate Descends(spec: Spec, depth: map<string, nat>)
  {
    forall e :: e in spec.staticEdges && e.from in depth ==> e.to in depth && depth[e.to] > depth[e.from]
  }

  lemma {:induction false} ClampNeverFires(spec: Spec, depth: map<string, nat>)
    requires Joined(spec) && Acyclic(spec) && Witnessed(spec, depth) && Closed(spec, depth)
    ensures Descends(spec, depth)
  {
    hide Acyclic, Joined, Walk;
    forall e | e in spec.staticEdges && e.from in depth ensures e.to in depth && depth[e.to] > depth[e.from] {
      var p :| WalkTo(spec, p, e.from) && |p| == depth[e.from] + 1;
      WalksAreShort(spec, p);
      assert Relaxed(spec, depth, e.from, e.to);
    }
  }

  lemma {:induction false} WalksAreCovered(spec: Spec, depth: map<string, nat>, p: seq<string>, v: string)
    requires Witnessed(spec, depth) && Descends(spec, depth) && WalkTo(spec, p, v)
    ensures v in depth && |p| <= depth[v] + 1
    decreases |p|
  {
    if |p| > 1 {
      var q := p[..|p| - 1];
      var u := q[|q| - 1];
      assert Edge(u, v) in spec.staticEdges;
      WalksAreCovered(spec, depth, q, u);
    }
  }

  /** Exactly the nodes START leads to get a depth, and it is the length of their longest walk. */
  lemma {:induction false} DepthIsLongestWalk(spec: Spec, depth: map<string, nat>, v: string)
    requires Witnessed(spec, depth) && Descends(spec, depth)
    ensures v in depth <==> Reachable(spec, v)
    ensures v in depth ==> IsLongest(spec, v, depth[v])
  {
    hide WalkTo;
    forall p | WalkTo(spec, p, v) ensures v in depth && |p| <= depth[v] + 1 {
      WalksAreCovered(spec, depth, p, v);
    }
  }

  /** Along a longest walk the depths are 0, 1, 2 and so on. */
  lemma {:induction false} LongestWalkDepths(spec: Spec, depth: map<string, nat>, p: seq<string>, v: string, i: nat)
    requires Witnessed(spec, depth) && Descends(spec, depth) && WalkTo(spec, p, v)
    requires v in depth && |p| == depth[v] + 1 && i < |p|
    ensures p[i] in depth && depth[p[i]] == i
    decreases |p|
  {
    if i < |p| - 1 {
      var q := p[..|p| - 1];
      var u := q[|q| - 1];
      assert Edge(u, v) in spec.staticEdges;
      WalksAreCovered(spec, depth, q, u);
      LongestWalkDepths(spec, depth, q, u, i);
    }
  }

  // ---- Columns ----

  /** The nodes placed in column `l`, in the order of `nodes`. */
  function Column(nodes: seq<string>, place: map<string, nat>, l: nat): seq<string>
    requires forall n :: n in nodes ==> n in place
  {
    if |nodes| == 0 then []
    else
      var last := nodes[|nodes| - 1];
      Column(nodes[..|nodes| - 1], place, l) + if place[last] == l then [last] else []
  }

  lemma {:induction false} ColumnMembers(nodes: seq<string>, place: map<string, nat>, l: nat, n: string)
    requires forall n :: n in nodes ==> n in place
    ensures n in Column(nodes, place, l) <==> n in nodes && place[n] == l
  {
    if |nodes| > 0 {
      var k := |nodes| - 1;
      ColumnMembers(nodes[..k], place, l, n);
      assert nodes == nodes[..k] + [nodes[k]];
    }
  }

  lemma {:induction false} ColumnIsDistinct(nodes: seq<string>, place: map<string, nat>, l: nat)
    requires Distinct(nodes) && forall n :: n in nodes ==> n in place
    ensures Distinct(Column(nodes, place, l))
  {
    if |nodes| > 0 {
      var k := |nodes| - 1;
      ColumnIsDistinct(nodes[..k], place, l);
      ColumnMembers(nodes[..k], place, l, nodes[k]);
    }
  }

  /** `n` is in column `l` of the layout. */
  predicate At(layers: seq<seq<string>>, n: string, l: nat) { l < |layers| && n in layers[l] }

  /** Every node is in exactly one column, END alone in the last, and each column is in name order. */
  ghost predicate IsLayout(spec: Spec, layers: seq<seq<string>>)
  {
    && (forall n, l :: At(layers, n, l) ==> n in AllNodes(spec))
    && (forall n :: n in AllNodes(spec) ==> exists l :: At(layers, n, l))
    && (forall n, l, m :: At(layers, n, l) && At(layers, n, m) ==> l == m)
    && |layers| > 0
    && (forall n, l :: At(layers, n, l) ==> (n == END <==> l == |layers| - 1))
    && (Distinct(AllNodes(spec)) ==> forall l :: 0 <= l < |layers| ==> SortedBy(StringLess, layers[l]))
  }

  /** Columns are longest walks from START, edges lead to the right, nodes no walk reaches stand in column 1, and
      no column is empty. */
  ghost predicate IsLongestPathLayout(spec: Spec, layers: seq<seq<string>>)
  {
    && (forall n, l :: At(layers, n, l) && n != END && Reachable(spec, n) ==> IsLongest(spec, n, l))
    && (forall n, l :: At(layers, n, l) && n != END && !Reachable(spec, n) ==> l == 1)
    && (forall e, l, m ::
          e in spec.staticEdges && Reachable(spec, e.from) && At(layers, e.from, l) && At(layers, e.to, m) ==> l < m)
    && (forall l :: 0 <= l < |layers| ==> layers[l] != [])
  }

  /** The final depths: those of the walks, 1 for the rest, and END past all of them. */
  ghost predicate Placed(spec: Spec, depth: map<string, nat>, place: map<string, nat>, deepest: nat)
  {
    && (forall n :: n in place <==> n in depth || n in AllNodes(spec))
    && (forall n :: n in place && n != END ==> place[n] == (if n in depth then depth[n] else 1) && place[n] <= deepest)
    && (deepest == 0 || exists n :: n in place && n != END && place[n] == deepest)
    && END in place && place[END] > deepest
    && place[END] == if END in depth && depth[END] > deepest then depth[END] else deepest + 1
  }

  method Place(spec: Spec, reached: map<string, nat>) returns (depth: map<string, nat>, deepest: nat)
    ensures Placed(spec, reached, depth, deepest)
  {
    depth := reached;
    var all := [START, END] + spec.nodes;
    var i := 0;
    while i < |all|
      invariant 0 <= i <= |all|
      invariant forall n :: n in depth <==> n in reached || n in all[..i]
      invariant forall n :: n in depth ==> depth[n] == if n in reached then reached[n] else 1
    {
      assert all[..i + 1] == all[..i] + [all[i]];
      if all[i] !in depth {
        depth := depth[all[i] := 1];
      }
      i := i + 1;
    }
    assert all[..i] == all == AllNodes(spec);
    var maxD := 0;
    var left := depth.Keys;
    while left != {}
      invariant left <= depth.Keys
      invariant forall n :: n in depth && n !in left && n != END ==> depth[n] <= maxD
      invariant maxD == 0 || exists n :: n in depth && n != END && depth[n] == maxD
      decreases left
    {
      var n :| n in left;
      left := left - {n};
      if n != END && depth[n] > maxD {
        maxD := depth[n];
      }
    }
    deepest := maxD;
    assert AllNodes(spec)[1] == END;
    ghost var before := depth;
    if depth[END] <= maxD {
      depth := depth[END := maxD + 1];
    }
    assert forall n :: n in before && n != END ==> n in depth && depth[n] == before[n];
  }

  method FillColumns(all: seq<string>, place: map<string, nat>, cols: nat) returns (layers: array<seq<string>>)
    requires cols > 0 && forall n :: n in all ==> n in place && place[n] < cols
    ensures fresh(layers) && layers.Length == cols
    ensures forall l :: 0 <= l < cols ==> layers[l] == Sort(StringLess, Column(all, place, l))
  {
    hide Sort;
    layers := new seq<string>[cols](_ => []);
    var i := 0;
    while i < |all|
      invariant 0 <= i <= |all|
      invariant forall l :: 0 <= l < cols ==> layers[l] == Column(all[..i], place, l)
    {
      var n := all[i];
      assert all[..i + 1][..i] == all[..i];
      var d := place[n];
      layers[d] := layers[d] + [n];
      i := i + 1;
    }
    assert all[..i] == all;
    var k := 0;
    while k < layers.Length
      invariant 0 <= k <= layers.Length
      invariant forall l :: 0 <= l < k ==> layers[l] == Sort(StringLess, Column(all, place, l))
      invariant forall l :: k <= l < cols ==> layers[l] == Column(all, place, l)
    {
      layers[k] := Sort(StringLess, layers[k]);
      k := k + 1;
    }
  }

  predicate SortedColumns(spec: Spec, place: map<string, nat>, layers: seq<seq<string>>)
  {
    && END in place && |layers| == place[END] + 1
    && (forall n :: n in AllNodes(spec) ==> n in place)
    && (forall l :: 0 <= l < |layers| ==> layers[l] == Sort(StringLess, Column(AllNodes(spec), place, l)))
  }

  lemma {:induction false} AtIsPlace(spec: Spec, place: map<string, nat>, layers: seq<seq<string>>, n: string, l: nat)
    requires SortedColumns(spec, place, layers)
    ensures At(layers, n, l) <==> l < |layers| && n in AllNodes(spec) && place[n] == l
  {
    hide Sort, Column;
    if l < |layers| {
      ColumnMembers(AllNodes(spec), place, l, n);
    }
  }

  lemma {:induction false} ColumnCount(spec: Spec, place: map<string, nat>, layers: seq<seq<string>>)
    requires SortedColumns(spec, place, layers)
    ensures END in place && |layers| == place[END] + 1
  {
  }

  lemma {:induction false} ColumnHas(layers: seq<seq<string>>, n: string, l: nat)
    requires At(layers, n, l)
    ensures l < |layers| && layers[l] != []
  {
  }

  lemma {:induction false} ColumnsAreLayout(spec: Spec, depth: map<string, nat>, place: map<string, nat>, deepest: nat,
    layers: seq<seq<string>>)
    requires Placed(spec, depth, place, deepest) && SortedColumns(spec, place, layers)
    ensures IsLayout(spec, layers)
  {
    hide At, Sort, Column;
    var all := AllNodes(spec);
    assert all[1] == END;
    forall n, l: nat ensures At(layers, n, l) <==> l < |layers| && n in all && place[n] == l {
      AtIsPlace(spec, place, layers, n, l);
    }
    forall n | n in all ensures exists l :: At(layers, n, l) {
      assert At(layers, n, place[n]);
    }
    if Distinct(all) {
      StringOrderIsStrictTotal();
      forall l | 0 <= l < |layers| ensures SortedBy(StringLess, layers[l]) {
        ColumnIsDistinct(all, place, l);
        TotalOnAll(StringLess, Column(all, place, l));
        SortSorts(StringLess, Column(all, place, l));
      }
    }
  }

  lemma {:induction false} NoGaps(spec: Spec, depth: map<string, nat>, place: map<string, nat>, deepest: nat, l: nat)
    returns (n: string)
    requires Joined(spec) && Witnessed(spec, depth) && Descends(spec, depth)
    requires Placed(spec, depth, place, deepest) && l <= deepest
    ensures n in AllNodes(spec) && n != END && place[n] == l
  {
    assert AllNodes(spec)[0] == START;
    if deepest == 0 {
      n := START;
    } else {
      var far :| far in place && far != END && place[far] == deepest;
      if far in depth {
        hide Placed, Descends;
        var p :| WalkTo(spec, p, far) && |p| == depth[far] + 1;
        assert |p| == deepest + 1 by { assert Placed(spec, depth, place, deepest); }
        n := p[l];
        LongestWalkDepths(spec, depth, p, far, l);
        assert l > 0 ==> Edge(p[l - 1], n) in spec.staticEdges;
        assert l < |p| - 1 ==> Edge(n, p[l + 1]) in spec.staticEdges;
        PlaceOfReached(spec, depth, place, deepest, n);
      } else if l == 1 {
        n := far;
      } else {
        n := START;
        DepthOfStart(spec, depth);
      }
    }
  }

  lemma {:induction false} PlaceOf(spec: Spec, depth: map<string, nat>, place: map<string, nat>, deepest: nat,
    n: string)
    requires Placed(spec, depth, place, deepest) && n in AllNodes(spec) && n != END
    ensures n in place && place[n] == if n in depth then depth[n] else 1
  {
  }

  /** END stands one column after the deepest other node. */
  lemma {:induction false} LastColumn(spec: Spec, depth: map<string, nat>, place: map<string, nat>, deepest: nat)
    requires Witnessed(spec, depth) && Descends(spec, depth) && Joined(spec) && Placed(spec, depth, place, deepest)
    ensures END in place && place[END] == deepest + 1
  {
    if END in depth && depth[END] > deepest + 1 {
      hide Placed, Descends, Joined;
      var p :| WalkTo(spec, p, END) && |p| == depth[END] + 1;
      var k := |p| - 2;
      assert Edge(p[k], p[k + 1]) in spec.staticEdges;
      LongestWalkDepths(spec, depth, p, END, k);
      assert p[k] != END by { assert Joined(spec); }
      PlaceOfReached(spec, depth, place, deepest, p[k]);
    }
  }

  lemma {:induction false} EdgesGoRight(spec: Spec, depth: map<string, nat>, place: map<string, nat>, deepest: nat,
    e: Edge)
    requires Joined(spec) && Descends(spec, depth) && Placed(spec, depth, place, deepest)
    requires e in spec.staticEdges && e.from in depth
    ensures e.from in place && e.to in place && place[e.from] < place[e.to]
  {
  }

  lemma {:induction false} PlaceOfReached(spec: Spec, depth: map<string, nat>, place: map<string, nat>, deepest: nat,
    n: string)
    requires Placed(spec, depth, place, deepest) && n in depth && n != END
    ensures n in place && place[n] == depth[n] <= deepest
  {
  }

  lemma {:induction false} DepthOfStart(spec: Spec, depth: map<string, nat>)
    requires Joined(spec) && Witnessed(spec, depth) && Descends(spec, depth)
    ensures depth[START] == 0
  {
    var p :| WalkTo(spec, p, START) && |p| == depth[START] + 1;
    LongestWalkDepths(spec, depth, p, START, 0);
  }

  lemma {:induction false} AcyclicLayout(spec: Spec, depth: map<string, nat>, place: map<string, nat>, deepest: nat,
    layers: seq<seq<string>>)
    requires Joined(spec) && Acyclic(spec) && Witnessed(spec, depth) && Closed(spec, depth)
    requires Placed(spec, depth, place, deepest) && SortedColumns(spec, place, layers)
    ensures IsLongestPathLayout(spec, layers)
  {
    hide Acyclic, Joined, Witnessed, Closed, Placed, SortedColumns, At, Reachable, IsLongest, Descends;
    ClampNeverFires(spec, depth);
    forall n, l: nat | At(layers, n, l) && n != END
      ensures Reachable(spec, n) ==> IsLongest(spec, n, l)
      ensures !Reachable(spec, n) ==> l == 1
    {
      AtIsPlace(spec, place, layers, n, l);
      DepthIsLongestWalk(spec, depth, n);
      PlaceOf(spec, depth, place, deepest, n);
    }
    forall e, l: nat, m: nat
      | e in spec.staticEdges && Reachable(spec, e.from) && At(layers, e.from, l) && At(layers, e.to, m)
      ensures l < m
    {
      AtIsPlace(spec, place, layers, e.from, l);
      AtIsPlace(spec, place, layers, e.to, m);
      DepthIsLongestWalk(spec, depth, e.from);
      EdgesGoRight(spec, depth, place, deepest, e);
    }
    forall l | 0 <= l < |layers| ensures layers[l] != [] {
      LastColumn(spec, depth, place, deepest);
      ColumnCount(spec, place, layers);
      var n := END;
      if l <= deepest { n := NoGaps(spec, depth, place, deepest, l); }
      assert END in AllNodes(spec) by { assert AllNodes(spec)[1] == END; }
      AtIsPlace(spec, place, layers, n, l);
      ColumnHas(layers, n, l);
    }
  }

  /** The layout of any description, cyclic or not, and what it means when there is no cycle. */
  method LayeredPositions(spec: Spec) returns (layers: seq<seq<string>>)
    ensures IsLayout(spec, layers)
    ensures Joined(spec) && Acyclic(spec) ==> IsLongestPathLayout(spec, layers)
  {
    hide IsLayout, IsLongestPathLayout, Acyclic, Witnessed, Closed, Sort, Column;
    var reached := Relax(spec);
    var place, deepest := Place(spec, reached);
    var columns := FillColumns(AllNodes(spec), place, place[END] + 1);
    layers := columns[..];
    ColumnsAreLayout(spec, reached, place, deepest, layers);
    if Joined(spec) && Acyclic(spec) {
      AcyclicLayout(spec, reached, place, deepest, layers);
    }
  }
}
