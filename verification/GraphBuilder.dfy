/** The graph builder and Compile (pkg/graph/graph.go, runnable.go): what a compiled graph may be relied on for. */
module GraphBuilder {
  import opened Common
  import opened GraphTypes

  datatype Problem =
    | EmptyName | ReservedName(name: string) | NilFunc(name: string) | DuplicateNode(name: string)
    | EdgeOutOfEnd | EdgeIntoStart | AlreadyHasEdge(name: string) | EmptyBranchMap(name: string)
    | MissingEntry | ConditionalEntry
    | UnknownSource(name: string) | UnknownTarget(from: string, to: string)
    | BadBranch(from: string, branch: string) | EdgeCount(name: string)

  /** What Compile promises of the graph it returns. */
  ghost predicate WellFormed<S>(r: Runnable<S>)
  {
    && "" !in r.nodes && START !in r.nodes && END !in r.nodes
    && (r.entry == END || r.entry in r.nodes)
    && (forall n :: n in r.nodes ==> (n in r.staticEdges <==> n !in r.conditionalEdges))
    && (forall n :: n in r.staticEdges && n != START ==> StaticOk(r.nodes.Keys, n, r.staticEdges[n]))
    && (forall n :: n in r.conditionalEdges && n != START ==> n in r.nodes)
    && (forall n :: n in r.branchMaps ==> BranchesOk(r.nodes.Keys, r.branchMaps[n]))
    && r.interruptBefore <= r.nodes.Keys
  }

  ghost predicate StaticOk(nodes: set<string>, from: string, to: string)
  {
    from in nodes && (to == END || to in nodes)
  }

  ghost predicate BranchesOk(nodes: set<string>, branches: map<string, string>)
  {
    forall b :: b in branches ==> branches[b] != "" && (branches[b] == END || branches[b] in nodes)
  }

  class Builder<!S> {
    var nodes: map<string, NodeFunc<S>>
    var staticEdges: map<string, string>
    var conditionalEdges: map<string, Router<S>>
    var branchMaps: map<string, map<string, string>>
    var interruptBefore: set<string>
    var errs: seq<Problem>

    /** What the builder methods keep: Compile does not have to check it again. */
    ghost predicate Valid()
      reads this
    {
      && "" !in nodes && START !in nodes && END !in nodes
      && staticEdges.Keys !! conditionalEdges.Keys
      && branchMaps.Keys <= conditionalEdges.Keys
      && END !in staticEdges && END !in conditionalEdges
      && START !in staticEdges.Values
      && (forall n :: n in branchMaps ==> branchMaps[n] != map[])
    }

    constructor ()
      ensures Valid() && nodes == map[] && staticEdges == map[] && conditionalEdges == map[]
      ensures branchMaps == map[] && interruptBefore == {} && errs == []
    {
      nodes, staticEdges, conditionalEdges := map[], map[], map[];
      branchMaps, interruptBefore, errs := map[], {}, [];
    }

    method AddNode(name: string, fn: Option<NodeFunc<S>>)
      requires Valid()
      modifies this`nodes, this`errs
      ensures Valid()
      ensures
        if name != "" && name != START && name != END && fn.Some? && name !in old(nodes)
        then nodes == old(nodes)[name := fn.value] && errs == old(errs)
        else nodes == old(nodes) && old(errs) < errs
    {
      if name == "" {
        errs := errs + [EmptyName];
      } else if name == START || name == END {
        errs := errs + [ReservedName(name)];
      } else if fn.None? {
        errs := errs + [NilFunc(name)];
      } else if name in nodes {
        errs := errs + [DuplicateNode(name)];
      } else {
        nodes := nodes[name := fn.value];
      }
    }

    method AddEdge(from: string, to: string)
      requires Valid()
      modifies this`staticEdges, this`errs
      ensures Valid()
      ensures
        if from != "" && to != "" && from != END && to != START
           && from !in old(staticEdges) && from !in conditionalEdges
        then staticEdges == old(staticEdges)[from := to] && errs == old(errs)
        else staticEdges == old(staticEdges) && old(errs) < errs
    {
      if from == "" || to == "" {
        errs := errs + [EmptyName];
      } else if from == END {
        errs := errs + [EdgeOutOfEnd];
      } else if to == START {
        errs := errs + [EdgeIntoStart];
      } else if from in staticEdges || from in conditionalEdges {
        errs := errs + [AlreadyHasEdge(from)];
      } else {
        staticEdges := staticEdges[from := to];
      }
    }

    method AddConditionalEdge(from: string, router: Option<Router<S>>)
      requires Valid()
      modifies this`conditionalEdges, this`errs
      ensures Valid()
      ensures
        if from != "" && from != END && router.Some? && from !in staticEdges && from !in old(conditionalEdges)
        then conditionalEdges == old(conditionalEdges)[from := router.value] && errs == old(errs)
        else conditionalEdges == old(conditionalEdges) && old(errs) < errs
    {
      if from == "" {
        errs := errs + [EmptyName];
      } else if from == END {
        errs := errs + [EdgeOutOfEnd];
      } else if router.None? {
        errs := errs + [NilFunc(from)];
      } else if from in staticEdges || from in conditionalEdges {
        errs := errs + [AlreadyHasEdge(from)];
      } else {
        conditionalEdges := conditionalEdges[from := router.value];
      }
    }

    method AddConditionalEdges(from: string, router: Option<Router<S>>, branches: map<string, string>)
      requires Valid()
      modifies this`conditionalEdges, this`branchMaps, this`errs
      ensures Valid()
      ensures
        if from != "" && from != END && router.Some? && branches != map[]
           && from !in staticEdges && from !in old(conditionalEdges)
        then conditionalEdges == old(conditionalEdges)[from := router.value]
          && branchMaps == old(branchMaps)[from := branches] && errs == old(errs)
        else conditionalEdges == old(conditionalEdges) && branchMaps == old(branchMaps) && old(errs) < errs
    {
      if from == "" {
        errs := errs + [EmptyName];
      } else if from == END {
        errs := errs + [EdgeOutOfEnd];
      } else if router.None? {
        errs := errs + [NilFunc(from)];
      } else if |branches| == 0 {
        errs := errs + [EmptyBranchMap(from)];
      } else if from in staticEdges || from in conditionalEdges {
        errs := errs + [AlreadyHasEdge(from)];
      } else {
        conditionalEdges := conditionalEdges[from := router.value];
        branchMaps := branchMaps[from := branches];
      }
    }

    method InterruptBefore(name: string)
      requires Valid()
      modifies this`interruptBefore, this`errs
      ensures Valid()
      ensures
        if name != "" && name != START && name != END
        then interruptBefore == old(interruptBefore) + {name} && errs == old(errs)
        else interruptBefore == old(interruptBefore) && old(errs) < errs
    {
      if name == "" {
        errs := errs + [EmptyName];
      } else if name == START || name == END {
        errs := errs + [ReservedName(name)];
      } else {
        interruptBefore := interruptBefore + {name};
      }
    }

    method CheckEdges(problems: seq<Problem>) returns (r: seq<Problem>)
      ensures problems <= r
      ensures r == problems <==>
        && (forall n :: n in staticEdges && n != START ==> StaticOk(nodes.Keys, n, staticEdges[n]))
        && (forall n :: n in conditionalEdges && n != START ==> n in nodes)
    {
      r := problems;
      var todo := staticEdges.Keys;
      while todo != {}
        invariant todo <= staticEdges.Keys && problems <= r
        invariant r == problems <==>
          forall n :: n in staticEdges.Keys - todo && n != START ==> StaticOk(nodes.Keys, n, staticEdges[n])
        decreases todo
      {
        var from :| from in todo;
        todo := todo - {from};
        if from == START {
          continue;
        }
        if from !in nodes {
          r := r + [UnknownSource(from)];
        }
        var to := staticEdges[from];
        if to != END && to !in nodes {
          r := r + [UnknownTarget(from, to)];
        }
      }
      ghost var found := r;
      todo := conditionalEdges.Keys;
      while todo != {}
        invariant todo <= conditionalEdges.Keys && found <= r
        invariant r == found <==> forall n :: n in conditionalEdges.Keys - todo && n != START ==> n in nodes
        decreases todo
      {
        var from :| from in todo;
        todo := todo - {from};
        if from != START && from !in nodes {
          r := r + [UnknownSource(from)];
        }
      }
    }

    method CheckBranches(problems: seq<Problem>) returns (r: seq<Problem>)
      ensures problems <= r
      ensures r == problems <==> forall n :: n in branchMaps ==> BranchesOk(nodes.Keys, branchMaps[n])
    {
      r := problems;
      var todo := branchMaps.Keys;
      while todo != {}
        invariant todo <= branchMaps.Keys && problems <= r
        invariant r == problems <==> forall n :: n in branchMaps.Keys - todo ==> BranchesOk(nodes.Keys, branchMaps[n])
        decreases todo
      {
        var from :| from in todo;
        todo := todo - {from};
        ghost var found := r;
        var bm := branchMaps[from];
        var labels := bm.Keys;
        while labels != {}
          invariant labels <= bm.Keys && found <= r
          invariant r == found <==>
            forall b :: b in bm.Keys - labels ==> bm[b] != "" && (bm[b] == END || bm[b] in nodes)
          decreases labels
        {
          var b :| b in labels;
          labels := labels - {b};
          if bm[b] == "" || (bm[b] != END && bm[b] !in nodes) {
            r := r + [BadBranch(from, b)];
          }
        }
        assert r == found <==> BranchesOk(nodes.Keys, bm);
      }
    }

    method CheckNodes(problems: seq<Problem>) returns (r: seq<Problem>)
      ensures problems <= r
      ensures r == problems <==>
        && (forall n :: n in nodes ==> (n in staticEdges <==> n !in conditionalEdges))
        && interruptBefore <= nodes.Keys
    {
      r := problems;
      var todo := nodes.Keys;
      while todo != {}
        invariant todo <= nodes.Keys && problems <= r
        invariant r == problems <==>
          forall n :: n in nodes.Keys - todo ==> (n in staticEdges <==> n !in conditionalEdges)
        decreases todo
      {
        var name :| name in todo;
        todo := todo - {name};
        if (name in staticEdges) == (name in conditionalEdges) {
          r := r + [EdgeCount(name)];
        }
      }
      ghost var found := r;
      todo := interruptBefore;
      while todo != {}
        invariant todo <= interruptBefore && found <= r
        invariant r == found <==> interruptBefore - todo <= nodes.Keys
        decreases todo
      {
        var name :| name in todo;
        todo := todo - {name};
        if name !in nodes {
          r := r + [UnknownSource(name)];
        }
      }
    }

    /** Accepts exactly the graphs with an entry, no builder error and every edge in order. */
    method Compile() returns (r: Option<Runnable<S>>, problems: seq<Problem>)
      requires Valid()
      ensures r.Some? <==> problems == []
      ensures r.Some? <==>
        && errs == [] && START in staticEdges
        && WellFormed(Runnable(nodes, staticEdges, conditionalEdges, branchMaps, interruptBefore, staticEdges[START], 0))
      ensures r.Some? ==>
        && WellFormed(r.value) && r.value.maxSteps == 0 && r.value.entry == staticEdges[START]
        && r.value.nodes == nodes && r.value.staticEdges == staticEdges && r.value.conditionalEdges == conditionalEdges
        && r.value.branchMaps == branchMaps && r.value.interruptBefore == interruptBefore
    {
      problems := errs;
      if START !in staticEdges {
        problems := problems + [if START in conditionalEdges then ConditionalEntry else MissingEntry];
      }
      problems := CheckEdges(problems);
      problems := CheckBranches(problems);
      problems := CheckNodes(problems);
      if START in staticEdges {
        var entry := staticEdges[START];
        if entry != END && entry !in nodes {
          problems := problems + [UnknownTarget(START, entry)];
        }
      }
      if |problems| > 0 {
        return None, problems;
      }
      var g := Runnable(nodes, staticEdges, conditionalEdges, branchMaps, interruptBefore, staticEdges[START], 0);
      return Some(g), [];
    }
  }

  // ---- What a run of a compiled graph cannot do ----

  ghost predicate Target<S>(r: Runnable<S>, n: string)
  {
    n == END || n in r.nodes
  }

  /** A resolved edge of a compiled graph leads to a node or to END; it is stuck only through its router. */
  lemma {:induction false} EdgesResolve<S>(r: Runnable<S>, current: string, state: S)
    requires WellFormed(r) && current in r.nodes
    ensures ResolveNext(r, current, state).To? ==> Target(r, ResolveNext(r, current, state).node)
    ensures ResolveNext(r, current, state).Stuck? ==>
      && current !in r.staticEdges && current in r.conditionalEdges
      && !ResolveNext(r, current, state).err.NoOutgoingEdge? && !ResolveNext(r, current, state).err.UnknownNode?
      && (ResolveNext(r, current, state).err.RouterUnknownNode? ==>
            && current !in r.branchMaps
            && exists name :: r.conditionalEdges[current](state) == Label(name) && name != END && name !in r.nodes)
  {
  }

  /** The run stopped in `state` because the plain router of the last node executed named no node. */
  ghost predicate PlainRouterMissed<S>(r: Runnable<S>, visits: seq<Visit<S>>, state: S)
  {
    && |visits| > 0
    && var from := visits[|visits| - 1].node;
       && from in r.conditionalEdges && from !in r.branchMaps
       && exists name :: r.conditionalEdges[from](state) == Label(name) && name != END && name !in r.nodes
  }

  ghost predicate SoundStop<S>(r: Runnable<S>, visits: seq<Visit<S>>, state: S, err: Option<RunError>)
  {
    err.Some? ==>
      && !err.value.NoOutgoingEdge? && !err.value.UnknownNode?
      && (err.value.RouterUnknownNode? ==> PlainRouterMissed(r, visits, state))
  }

  lemma {:induction false} CompiledTurn<S>(r: Runnable<S>, env: Env<S>, state: S, next: string, step: int, bypass: bool)
    requires WellFormed(r) && Target(r, next)
    ensures
      var t := TurnAt(r, env, state, next, step, bypass);
      && (forall v :: v in t.visits ==> v.node in r.nodes)
      && (t.end.Go? ==> Target(r, t.end.node))
      && (t.end.Stop? ==> SoundStop(r, t.visits, t.end.state, t.end.err))
  {
    if next in r.nodes {
      match r.nodes[next](step + 1, state)
      case Fail(_) =>
      case Next(out) => EdgesResolve(r, next, out);
    }
  }

  /**
   A run of a compiled graph executes registered nodes only, never finds a node without an outgoing edge,
   and meets an unknown node only through a plain router.
   */
  lemma {:induction false} CompiledRunsAreSound<S>(
      r: Runnable<S>, env: Env<S>, state: S, next: string, step: int, bypass: bool)
    requires WellFormed(r) && Target(r, next)
    ensures
      var o := RunFrom(r, env, state, next, step, bypass);
      && (forall v :: v in o.visits ==> v.node in r.nodes)
      && SoundStop(r, o.visits, o.state, o.err)
    decreases Left(env.maxSteps, step)
  {
    CompiledTurn(r, env, state, next, step, bypass);
    var t := TurnAt(r, env, state, next, step, bypass);
    if t.end.Go? {
      CompiledRunsAreSound(r, env, t.end.state, t.end.node, step + 1, false);
    }
  }
}
