/** The compiled graph, its checkpoints, and the meaning of a run (pkg/graph). */
module GraphTypes {
  import opened Common

  const START := "__start__"
  const END := "__end__"
  const DEFAULT_MAX_STEPS := 100

  datatype NodeResult<S> = Next(state: S) | Fail(reason: string)

  /** A node body. The first argument is the step ordinal: it stands for whatever the body reads besides the state. */
  type NodeFunc<!S> = (int, S) -> NodeResult<S>

  /** A router's answer, or the panic recovered from it. */
  datatype Routed = Label(name: string) | Panicked(reason: string)

  type Router<!S> = S -> Routed

  datatype Runnable<!S> = Runnable(
    nodes: map<string, NodeFunc<S>>,
    staticEdges: map<string, string>,
    conditionalEdges: map<string, Router<S>>,
    branchMaps: map<string, map<string, string>>,
    interruptBefore: set<string>,
    entry: string,
    maxSteps: int)

  datatype RunError =
    | MaxSteps(limit: int)
    | UnknownNode(name: string)
    | RouterUnknownNode(from: string, name: string)
    | NoOutgoingEdge(node: string)
    | EmptyRouterResult(from: string)
    | UnknownBranchLabel(from: string, branch: string)
    | RouterPanic(from: string, reason: string)
    | Interrupted(node: string)
    | NodeFailed(node: string, reason: string)
    | SaveFailed
    | CheckpointerMissingRunID
    | ResumeMissingCheckpointer
    | ResumeMissingRunID
    | CheckpointNotFound(runId: string)

  datatype Reason = StepReason | InterruptReason | EndReason

  datatype Checkpoint<S> = Checkpoint(runId: string, step: int, node: string, state: S, reason: Reason)

  datatype Resolved = To(node: string) | Stuck(err: RunError)

  function ResolveNext<S>(r: Runnable<S>, current: string, state: S): Resolved
  {
    if current in r.staticEdges then
      To(r.staticEdges[current])
    else if current in r.conditionalEdges then
      match r.conditionalEdges[current](state)
      case Panicked(reason) => Stuck(RouterPanic(current, reason))
      case Label(out) =>
        if out == "" then Stuck(EmptyRouterResult(current))
        else if current in r.branchMaps then
          if out in r.branchMaps[current] then To(r.branchMaps[current][out])
          else Stuck(UnknownBranchLabel(current, out))
        else if out != END && out !in r.nodes then Stuck(RouterUnknownNode(current, out))
        else To(out)
    else
      Stuck(NoOutgoingEdge(current))
  }

  // ---- The meaning of a run ----

  /** What a run is given besides the graph: the step cap, and where checkpoints go, if anywhere. */
  datatype Env<!S> = Env(maxSteps: int, saving: bool, runId: string, copies: S -> bool)

  /** One execution of a node: with which state, as which step. */
  datatype Visit<S> = Visit(step: int, node: string, state: S)

  datatype Outcome<S> = Outcome(state: S, err: Option<RunError>, saved: seq<Checkpoint<S>>, visits: seq<Visit<S>>)

  /** A save succeeds when there is no checkpointer, or when the state can be copied faithfully. */
  ghost predicate CanSave<S>(env: Env<S>, state: S)
  {
    env.saving ==> env.copies(state)
  }

  ghost function Saves<S>(env: Env<S>, step: int, node: string, state: S, reason: Reason): seq<Checkpoint<S>>
  {
    if env.saving then [Checkpoint(env.runId, step, node, state, reason)] else []
  }

  ghost function Prepend<S>(saved: seq<Checkpoint<S>>, visits: seq<Visit<S>>, o: Outcome<S>): Outcome<S>
  {
    o.(saved := saved + o.saved, visits := visits + o.visits)
  }

  function Left(limit: int, step: int): nat
  {
    if step < limit then limit - step else 0
  }

  /** How one turn of the executor ends: the run stops, or it goes on at another node. */
  datatype End<S> = Stop(state: S, err: Option<RunError>) | Go(node: string, state: S)

  /** One turn: what it saved, which node it executed, and how it ended. */
  datatype Turn<S> = Turn(saved: seq<Checkpoint<S>>, visits: seq<Visit<S>>, end: End<S>)

  ghost function TurnAt<S>(r: Runnable<S>, env: Env<S>, state: S, next: string, step: int, bypass: bool): Turn<S>
  {
    if next == END then
      if CanSave(env, state) then Turn(Saves(env, step, END, state, EndReason), [], Stop(state, None))
      else Turn([], [], Stop(state, Some(SaveFailed)))
    else if step >= env.maxSteps then
      Turn([], [], Stop(state, Some(MaxSteps(env.maxSteps))))
    else if next in r.interruptBefore && !bypass then
      if CanSave(env, state) then
        Turn(Saves(env, step + 1, next, state, InterruptReason), [], Stop(state, Some(Interrupted(next))))
      else Turn([], [], Stop(state, Some(SaveFailed)))
    else if next !in r.nodes then
      Turn([], [], Stop(state, Some(UnknownNode(next))))
    else if !CanSave(env, state) then
      Turn([], [], Stop(state, Some(SaveFailed)))
    else
      var end :=
        match r.nodes[next](step + 1, state)
        case Fail(reason) => Stop(state, Some(NodeFailed(next, reason)))
        case Next(out) =>
          (match ResolveNext(r, next, out)
           case Stuck(err) => Stop(out, Some(err))
           case To(node) => Go(node, out));
      Turn(Saves(env, step + 1, next, state, StepReason), [Visit(step + 1, next, state)], end)
  }

  /** The run from node `next` on: final state, error, every save and every node execution, in order. */
  ghost function RunFrom<S>(r: Runnable<S>, env: Env<S>, state: S, next: string, step: int, bypass: bool): Outcome<S>
    decreases Left(env.maxSteps, step)
  {
    var t := TurnAt(r, env, state, next, step, bypass);
    match t.end
    case Stop(final, err) => Outcome(final, err, t.saved, t.visits)
    case Go(node, out) => Prepend(t.saved, t.visits, RunFrom(r, env, out, node, step + 1, false))
  }

  /** Every run stops: at most one node execution per step left, whatever the graph. */
  lemma {:induction false} VisitsAreBounded<S>(
      r: Runnable<S>, env: Env<S>, state: S, next: string, step: int, bypass: bool)
    ensures |RunFrom(r, env, state, next, step, bypass).visits| <= Left(env.maxSteps, step)
    decreases Left(env.maxSteps, step)
  {
    var t := TurnAt(r, env, state, next, step, bypass);
    if t.end.Go? {
      VisitsAreBounded(r, env, t.end.state, t.end.node, step + 1, false);
    }
  }

  // ---- Invariants along a run ----

  /** `inv` of a control point (steps done, next node, state) survives every hop the graph can make. */
  ghost predicate Inductive<S(!new)>(r: Runnable<S>, inv: (int, string, S) -> bool)
  {
    forall k, n, s :: inv(k, n, s) && n != END && Advance(r, k, n, s).Hop? ==>
      inv(k + 1, Advance(r, k, n, s).node, Advance(r, k, n, s).state)
  }

  /** Where one successful node execution and its outgoing edge lead, if anywhere. */
  datatype Hop<S> = Halt | Hop(node: string, state: S)

  function Advance<S>(r: Runnable<S>, step: int, node: string, state: S): Hop<S>
  {
    if node !in r.nodes then Halt else
    match r.nodes[node](step + 1, state)
    case Fail(_) => Halt
    case Next(out) =>
      match ResolveNext(r, node, out)
      case Stuck(_) => Halt
      case To(next) => Hop(next, out)
  }

  /** An inductive property of control points holds at every node execution and where the run stops. */
  lemma {:induction false} InvariantHolds<S(!new)>(
      r: Runnable<S>, env: Env<S>, state: S, next: string, step: int, bypass: bool, inv: (int, string, S) -> bool)
    requires Inductive(r, inv) && inv(step, next, state)
    ensures
      var o := RunFrom(r, env, state, next, step, bypass);
      && (forall v :: v in o.visits ==> v.node in r.nodes && v.node != END && inv(v.step - 1, v.node, v.state))
      && (o.err.None? ==> exists k :: inv(k, END, o.state))
      && (o.err.Some? && o.err.value.MaxSteps? ==> exists k, n :: k >= env.maxSteps && n != END && inv(k, n, o.state))
    decreases Left(env.maxSteps, step)
  {
    assert inv(step, next, state);
    var t := TurnAt(r, env, state, next, step, bypass);
    if t.end.Go? {
      assert Advance(r, step, next, state) == Hop(t.end.node, t.end.state);
      InvariantHolds(r, env, t.end.state, t.end.node, step + 1, false, inv);
    }
  }

  /** A property of states that every successful node keeps. */
  ghost predicate KeptByNodes<S(!new)>(r: Runnable<S>, prop: S -> bool)
  {
    forall n, k, s :: n in r.nodes && prop(s) && r.nodes[n](k, s).Next? ==> prop(r.nodes[n](k, s).state)
  }

  /** Such a property holds of every state a node is given, and of the state returned, error or not. */
  lemma {:induction false} StatePropertyHolds<S(!new)>(
      r: Runnable<S>, env: Env<S>, state: S, next: string, step: int, bypass: bool, prop: S -> bool)
    requires KeptByNodes(r, prop) && prop(state)
    ensures
      var o := RunFrom(r, env, state, next, step, bypass);
      prop(o.state) && forall v :: v in o.visits ==> prop(v.state)
    decreases Left(env.maxSteps, step)
  {
    var t := TurnAt(r, env, state, next, step, bypass);
    assert prop(t.end.state) by {
      if next in r.nodes && r.nodes[next](step + 1, state).Next? {
        assert prop(r.nodes[next](step + 1, state).state);
      }
    }
    if t.end.Go? {
      StatePropertyHolds(r, env, t.end.state, t.end.node, step + 1, false, prop);
    }
  }

  /** Node execution `b` is where the outgoing edge of node execution `a` led. */
  ghost predicate Follows<S>(r: Runnable<S>, a: Visit<S>, b: Visit<S>)
  {
    Advance(r, a.step - 1, a.node, a.state) == Hop(b.node, b.state)
  }

  lemma {:induction false} VisitsFollowEdges<S>(
      r: Runnable<S>, env: Env<S>, state: S, next: string, step: int, bypass: bool)
    ensures
      var vs := RunFrom(r, env, state, next, step, bypass).visits;
      && (|vs| > 0 ==> vs[0] == Visit(step + 1, next, state) && next in r.nodes && next != END)
      && forall i :: 0 < i < |vs| ==> Follows(r, vs[i - 1], vs[i])
    decreases Left(env.maxSteps, step)
  {
    var t := TurnAt(r, env, state, next, step, bypass);
    if t.end.Go? {
      var rest := RunFrom(r, env, t.end.state, t.end.node, step + 1, false).visits;
      VisitsFollowEdges(r, env, t.end.state, t.end.node, step + 1, false);
      assert Advance(r, step, next, state) == Hop(t.end.node, t.end.state);
      var v := Visit(step + 1, next, state);
      assert t.visits == [v];
      FollowsChain(r, v, rest);
    }
  }

  lemma {:induction false} FollowsChain<S>(r: Runnable<S>, v: Visit<S>, rest: seq<Visit<S>>)
    requires |rest| > 0 ==> Follows(r, v, rest[0])
    requires forall i :: 0 < i < |rest| ==> Follows(r, rest[i - 1], rest[i])
    ensures forall i :: 0 < i < |[v] + rest| ==> Follows(r, ([v] + rest)[i - 1], ([v] + rest)[i])
  {
    var vs := [v] + rest;
    forall i | 0 < i < |vs| ensures Follows(r, vs[i - 1], vs[i]) {
      if i > 1 { assert vs[i] == rest[i - 1] && vs[i - 1] == rest[i - 2]; }
    }
  }

  /** Two graphs whose routers answer alike, and whose nodes do in every state that satisfies `prop`. */
  ghost predicate AlikeWhere<S(!new)>(r: Runnable<S>, r2: Runnable<S>, prop: S -> bool)
  {
    && r2 == r.(nodes := r2.nodes, conditionalEdges := r2.conditionalEdges) && r2.nodes.Keys == r.nodes.Keys
    && r2.conditionalEdges.Keys == r.conditionalEdges.Keys
    && (forall n, s :: n in r.conditionalEdges ==> r2.conditionalEdges[n](s) == r.conditionalEdges[n](s))
    && forall n, k, s :: n in r.nodes && prop(s) ==> r2.nodes[n](k, s) == r.nodes[n](k, s)
  }

  /** Such graphs do the same, as long as the nodes keep to those states. */
  lemma {:induction false} AlikeRunsAreOne<S(!new)>(
      r: Runnable<S>, r2: Runnable<S>, env: Env<S>, state: S, next: string, step: int, bypass: bool, prop: S -> bool)
    requires AlikeWhere(r, r2, prop) && KeptByNodes(r, prop) && prop(state)
    ensures RunFrom(r2, env, state, next, step, bypass) == RunFrom(r, env, state, next, step, bypass)
    decreases Left(env.maxSteps, step)
  {
    var t := TurnAt(r, env, state, next, step, bypass);
    AlikeTurn(r, r2, env, state, next, step, bypass, prop);
    if t.end.Go? {
      assert prop(t.end.state) by { assert r.nodes[next](step + 1, state).Next?; }
      AlikeRunsAreOne(r, r2, env, t.end.state, t.end.node, step + 1, false, prop);
    }
  }

  lemma {:induction false} AlikeTurn<S(!new)>(
      r: Runnable<S>, r2: Runnable<S>, env: Env<S>, state: S, next: string, step: int, bypass: bool, prop: S -> bool)
    requires AlikeWhere(r, r2, prop) && prop(state)
    ensures TurnAt(r2, env, state, next, step, bypass) == TurnAt(r, env, state, next, step, bypass)
  {
    if next in r.nodes && r.nodes[next](step + 1, state).Next? {
      var out := r.nodes[next](step + 1, state).state;
      assert ResolveNext(r2, next, out) == ResolveNext(r, next, out);
    }
  }
}
