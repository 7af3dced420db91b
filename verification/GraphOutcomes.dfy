/** How runs end, what they save, and where gates stop them, for every graph (pkg/graph/runnable.go:342-456). */
module GraphOutcomes {
  import opened Common
  import opened GraphTypes
  import opened GraphRun
  import opened GraphResume

  /** Where the outgoing edges lead, case by case. */
  lemma {:induction false} EdgesExactly<S>(r: Runnable<S>, n: string, s: S, m: string)
    ensures ResolveNext(r, n, s) == To(m) <==>
      || (n in r.staticEdges && r.staticEdges[n] == m)
      || (n !in r.staticEdges && n in r.conditionalEdges && r.conditionalEdges[n](s).Label?
          && var answer := r.conditionalEdges[n](s).name;
             answer != ""
             && if n in r.branchMaps then answer in r.branchMaps[n] && r.branchMaps[n][answer] == m
                else m == answer && (m == END || m in r.nodes))
  {
  }

  /** And why they lead nowhere. */
  lemma {:induction false} StuckExactly<S>(r: Runnable<S>, n: string, s: S)
    requires ResolveNext(r, n, s).Stuck?
    ensures n !in r.staticEdges
    ensures
      var err := ResolveNext(r, n, s).err;
      if n !in r.conditionalEdges then err == NoOutgoingEdge(n)
      else
        var answer := r.conditionalEdges[n](s);
        && (answer.Panicked? ==> err == RouterPanic(n, answer.reason))
        && (answer.Label? && answer.name == "" ==> err == EmptyRouterResult(n))
        && (answer.Label? && answer.name != "" && n in r.branchMaps ==>
              answer.name !in r.branchMaps[n] && err == UnknownBranchLabel(n, answer.name))
        && (answer.Label? && answer.name != "" && n !in r.branchMaps ==>
              answer.name != END && answer.name !in r.nodes && err == RouterUnknownNode(n, answer.name))
  {
  }

  /** The control point behind the last node execution, or where the run began. */
  ghost predicate StopsAt<S>(r: Runnable<S>, visits: seq<Visit<S>>, next: string, state: S, n: string, s: S)
  {
    if |visits| == 0 then n == next && s == state
    else
      var v := visits[|visits| - 1];
      Advance(r, v.step - 1, v.node, v.state) == Hop(n, s)
  }

  /** The last node execution ended in this result. */
  ghost predicate LastYields<S>(r: Runnable<S>, visits: seq<Visit<S>>, result: NodeResult<S>)
  {
    |visits| > 0
    && var v := visits[|visits| - 1];
       v.node in r.nodes && r.nodes[v.node](v.step, v.state) == result
  }

  /** Why a run may end as it does: `next`, `state` and `step` are where it began. */
  ghost predicate EndIsRight<S>(r: Runnable<S>, env: Env<S>, state: S, next: string, step: int, o: Outcome<S>)
  {
    match o.err
    case None => StopsAt(r, o.visits, next, state, END, o.state) && CanSave(env, o.state)
    case Some(MaxSteps(limit)) =>
      && limit == env.maxSteps <= step + |o.visits|
      && exists n :: n != END && StopsAt(r, o.visits, next, state, n, o.state)
    case Some(Interrupted(n)) =>
      && n in r.interruptBefore && n != END && step + |o.visits| < env.maxSteps && CanSave(env, o.state)
      && StopsAt(r, o.visits, next, state, n, o.state)
    case Some(UnknownNode(n)) =>
      n !in r.nodes && n != END && step + |o.visits| < env.maxSteps && StopsAt(r, o.visits, next, state, n, o.state)
    case Some(SaveFailed) => !CanSave(env, o.state) && exists n :: StopsAt(r, o.visits, next, state, n, o.state)
    case Some(NodeFailed(n, reason)) =>
      && LastYields(r, o.visits, Fail(reason)) && o.visits[|o.visits| - 1].node == n
      && o.state == o.visits[|o.visits| - 1].state
    case Some(err) =>
      LastYields(r, o.visits, Next(o.state)) && ResolveNext(r, o.visits[|o.visits| - 1].node, o.state) == Stuck(err)
  }

  lemma {:induction false} EndAfter<S>(r: Runnable<S>, env: Env<S>, state: S, next: string, step: int, v: Visit<S>,
    saved: seq<Checkpoint<S>>, n: string, s: S, o: Outcome<S>)
    requires v == Visit(step + 1, next, state) && Advance(r, step, next, state) == Hop(n, s)
    requires EndIsRight(r, env, s, n, step + 1, o)
    ensures EndIsRight(r, env, state, next, step, Prepend(saved, [v], o))
  {
    var all := [v] + o.visits;
    assert |all| == |o.visits| + 1 && all[|all| - 1] == if o.visits == [] then v else o.visits[|o.visits| - 1];
    assert forall m, t :: StopsAt(r, o.visits, n, s, m, t) ==> StopsAt(r, all, next, state, m, t);
  }

  /** Every run ends for a reason: at END, out of steps, at a gate, at an unknown node, or with its last node's error. */
  lemma {:induction false} RunsEndRight<S>(r: Runnable<S>, env: Env<S>, state: S, next: string, step: int, bypass: bool)
    ensures EndIsRight(r, env, state, next, step, RunFrom(r, env, state, next, step, bypass))
    decreases Left(env.maxSteps, step)
  {
    var t := TurnAt(r, env, state, next, step, bypass);
    if t.end.Go? {
      RunsEndRight(r, env, t.end.state, t.end.node, step + 1, false);
      hide EndIsRight;
      var rest := RunFrom(r, env, t.end.state, t.end.node, step + 1, false);
      assert t.visits == [Visit(step + 1, next, state)];
      EndAfter(r, env, state, next, step, t.visits[0], t.saved, t.end.node, t.end.state, rest);
    } else {
      assert StopsAt(r, [], next, state, next, state);
      assert EndIsRight(r, env, state, next, step, Outcome(t.end.state, t.end.err, t.saved, t.visits));
    }
  }

  /** No run executes more nodes than the caller allows, and one that is stopped for it has executed that many. */
  lemma {:induction false} CallersCapHolds<S>(r: Runnable<S>, opts: Options<S>, cp: MemoryCheckpointer?<S>, state: S)
    ensures
      var o := RunFrom(r, EnvOf(r, opts, cp), state, r.entry, 0, false);
      var cap := if opts.maxSteps > 0 then opts.maxSteps else if r.maxSteps > 0 then r.maxSteps else 100;
      |o.visits| <= cap && (o.err.Some? && o.err.value.MaxSteps? ==> |o.visits| == cap && o.err.value.limit == cap)
  {
    var env := EnvOf(r, opts, cp);
    VisitsAreBounded(r, env, state, r.entry, 0, false);
    RunsEndRight(r, env, state, r.entry, 0, false);
    hide RunFrom, StopsAt;
  }

  // ---- What is saved ----

  /** A run's saves: one in front of each node execution, and one where it ended or was paused. */
  ghost predicate SavesTell<S>(env: Env<S>, step: int, o: Outcome<S>)
  {
    var n := |o.visits|;
    if !env.saving then o.saved == []
    else
      && |o.saved| == n + (if o.err.None? || o.err.value.Interrupted? then 1 else 0)
      && (forall i :: 0 <= i < n ==>
            && o.visits[i].step == step + 1 + i
            && o.saved[i] == Checkpoint(env.runId, step + 1 + i, o.visits[i].node, o.visits[i].state, StepReason))
      && (o.err.None? ==> o.saved[n] == Checkpoint(env.runId, step + n, END, o.state, EndReason))
      && (o.err.Some? && o.err.value.Interrupted? ==>
            o.saved[n] == Checkpoint(env.runId, step + n + 1, o.err.value.node, o.state, InterruptReason))
  }

  lemma {:induction false} SavesAfter<S>(env: Env<S>, step: int, v: Visit<S>, saved: seq<Checkpoint<S>>, o: Outcome<S>)
    requires SavesTell(env, step + 1, o) && v.step == step + 1
    requires saved == if env.saving then [Checkpoint(env.runId, step + 1, v.node, v.state, StepReason)] else []
    ensures SavesTell(env, step, Prepend(saved, [v], o))
  {
    var p := Prepend(saved, [v], o);
    if env.saving {
      forall i | 0 <= i < |p.visits|
        ensures p.visits[i].step == step + 1 + i
        ensures p.saved[i] == Checkpoint(env.runId, step + 1 + i, p.visits[i].node, p.visits[i].state, StepReason)
      {
        if i > 0 { assert p.visits[i] == o.visits[i - 1] && p.saved[i] == o.saved[i - 1]; }
      }
    }
  }

  lemma {:induction false} SavesTellTheRun<S>(r: Runnable<S>, env: Env<S>, state: S, next: string, step: int, bypass: bool)
    ensures SavesTell(env, step, RunFrom(r, env, state, next, step, bypass))
    decreases Left(env.maxSteps, step)
  {
    var t := TurnAt(r, env, state, next, step, bypass);
    if t.end.Go? {
      SavesTellTheRun(r, env, t.end.state, t.end.node, step + 1, false);
      assert t.visits == [Visit(step + 1, next, state)];
      SavesAfter(env, step, t.visits[0], t.saved, RunFrom(r, env, t.end.state, t.end.node, step + 1, false));
    }
  }

  // ---- Gates ----

  /** The executions behind a gate: none, or the first one, where it is told to pass. */
  ghost predicate GatesKept<S>(r: Runnable<S>, visits: seq<Visit<S>>, bypass: bool)
  {
    forall i :: 0 <= i < |visits| && visits[i].node in r.interruptBefore ==> i == 0 && bypass
  }

  lemma {:induction false} GatesKeptAfter<S>(r: Runnable<S>, v: Visit<S>, rest: seq<Visit<S>>, bypass: bool)
    requires GatesKept(r, rest, false) && (v.node in r.interruptBefore ==> bypass)
    ensures GatesKept(r, [v] + rest, bypass)
  {
    forall i | 0 < i < |[v] + rest| ensures ([v] + rest)[i].node !in r.interruptBefore {
      assert ([v] + rest)[i] == rest[i - 1];
    }
  }

  /** No node behind a gate is executed, but for the first one of a run that is told to pass its gate. */
  lemma {:induction false} GatesHold<S>(r: Runnable<S>, env: Env<S>, state: S, next: string, step: int, bypass: bool)
    ensures GatesKept(r, RunFrom(r, env, state, next, step, bypass).visits, bypass)
    decreases Left(env.maxSteps, step)
  {
    var t := TurnAt(r, env, state, next, step, bypass);
    if t.end.Go? {
      GatesHold(r, env, t.end.state, t.end.node, step + 1, false);
      assert t.visits == [Visit(step + 1, next, state)];
      GatesKeptAfter(r, t.visits[0], RunFrom(r, env, t.end.state, t.end.node, step + 1, false).visits, bypass);
    }
  }

  /** A run that is to begin behind a gate pauses in front of it. */
  lemma {:induction false} GatePauses<S>(r: Runnable<S>, env: Env<S>, state: S, next: string, step: int)
    requires next in r.interruptBefore && next != END && step < env.maxSteps && CanSave(env, state)
    ensures
      var o := RunFrom(r, env, state, next, step, false);
      o.err == Some(Interrupted(next)) && o.state == state && o.visits == []
  {
  }

  /** Execution `i` is the first behind a gate that is not passed. */
  ghost predicate FirstGate<S>(r: Runnable<S>, visits: seq<Visit<S>>, i: nat, bypass: bool)
  {
    && i < |visits| && visits[i].node in r.interruptBefore && !(i == 0 && bypass)
    && forall j :: 0 <= j < i ==> visits[j].node !in r.interruptBefore || (j == 0 && bypass)
  }

  /** A turn that is not stopped by its gate is the turn of the graph without gates. */
  lemma {:induction false} OpenTurn<S>(r: Runnable<S>, env: Env<S>, state: S, next: string, step: int, bypass: bool)
    requires next !in r.interruptBefore || bypass
    ensures TurnAt(r, env, state, next, step, bypass) == TurnAt(Ungated(r), env, state, next, step, false)
  {
    if next in r.nodes && r.nodes[next](step + 1, state).Next? {
      assert ResolveNext(Ungated(r), next, r.nodes[next](step + 1, state).state) ==
        ResolveNext(r, next, r.nodes[next](step + 1, state).state);
    }
  }

  lemma {:induction false} FirstGateLater<S>(r: Runnable<S>, v: Visit<S>, rest: seq<Visit<S>>, i: nat, bypass: bool)
    requires FirstGate(r, [v] + rest, i, bypass) && (v.node !in r.interruptBefore || bypass)
    ensures i > 0 && FirstGate(r, rest, i - 1, false) && ([v] + rest)[i] == rest[i - 1]
    ensures ([v] + rest)[..i] == [v] + rest[..i - 1]
  {
    forall j | 0 <= j < i - 1 ensures rest[j].node !in r.interruptBefore {
      assert ([v] + rest)[j + 1] == rest[j];
    }
  }

  /**
   Exactly where the run without gates would first pass one, the gated run has paused: in front of that node, with its
   state, and having executed what comes before.
   */
  lemma {:induction false} GateStopsTheRun<S>(
      r: Runnable<S>, env: Env<S>, state: S, next: string, step: int, bypass: bool, i: nat)
    requires FirstGate(r, RunFrom(Ungated(r), env, state, next, step, false).visits, i, bypass)
    ensures
      var o, u := RunFrom(r, env, state, next, step, bypass), RunFrom(Ungated(r), env, state, next, step, false);
      o.err == Some(Interrupted(u.visits[i].node)) && o.state == u.visits[i].state && o.visits == u.visits[..i]
    decreases Left(env.maxSteps, step)
  {
    VisitsFollowEdges(Ungated(r), env, state, next, step, false);
    if next in r.interruptBefore && !bypass {
      assert RunFrom(Ungated(r), env, state, next, step, false).visits[0].node == next;
    } else {
      OpenTurn(r, env, state, next, step, bypass);
      var t := TurnAt(r, env, state, next, step, bypass);
      if t.end.Go? {
        var rest := RunFrom(Ungated(r), env, t.end.state, t.end.node, step + 1, false).visits;
        assert t.visits == [Visit(step + 1, next, state)];
        FirstGateLater(r, t.visits[0], rest, i, bypass);
        GateStopsTheRun(r, env, t.end.state, t.end.node, step + 1, false, i - 1);
      }
    }
  }

  /** A pause is in front of such a node: where every gate is a node of the graph, nothing else is called a pause. */
  lemma {:induction false} PauseIsAtAGate<S>(r: Runnable<S>, env: Env<S>, state: S, next: string, step: int, bypass: bool)
    returns (i: nat)
    requires r.interruptBefore <= r.nodes.Keys && Paused(RunFrom(r, env, state, next, step, bypass))
    ensures FirstGate(r, RunFrom(Ungated(r), env, state, next, step, false).visits, i, bypass)
    decreases Left(env.maxSteps, step)
  {
    if next in r.interruptBefore && !bypass {
      i := 0;
      assert TurnAt(Ungated(r), env, state, next, step, false).visits == [Visit(step + 1, next, state)];
      VisitsFollowEdges(Ungated(r), env, state, next, step, false);
    } else {
      OpenTurn(r, env, state, next, step, bypass);
      RunsEndRight(r, env, state, next, step, bypass);
      var t := TurnAt(r, env, state, next, step, bypass);
      var j := PauseIsAtAGate(r, env, t.end.state, t.end.node, step + 1, false);
      i := j + 1;
      var rest := RunFrom(Ungated(r), env, t.end.state, t.end.node, step + 1, false).visits;
      assert t.visits == [Visit(step + 1, next, state)];
      FirstGateEarlier(r, t.visits[0], rest, j, bypass);
    }
  }

  lemma {:induction false} FirstGateEarlier<S>(r: Runnable<S>, v: Visit<S>, rest: seq<Visit<S>>, i: nat, bypass: bool)
    requires FirstGate(r, rest, i, false) && (v.node !in r.interruptBefore || bypass)
    ensures FirstGate(r, [v] + rest, i + 1, bypass)
  {
    forall j | 0 <= j < i + 1 ensures ([v] + rest)[j].node !in r.interruptBefore || (j == 0 && bypass) {
      if j > 0 { assert ([v] + rest)[j] == rest[j - 1]; }
    }
  }
}
