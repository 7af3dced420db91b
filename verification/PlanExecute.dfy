/** The Plan-and-Execute agent as a graph (pkg/agent/planexecute.go). Planner, executor and replanner are arbitrary. */
module PlanExecute {
  import opened Common
  import opened GraphTypes
  import opened GraphBuilder
  import opened GraphOutcomes

  datatype StepRecord = StepRecord(step: string, result: string)

  datatype State = State(input: string, plan: seq<string>, past: seq<StepRecord>, final: string, iter: int)

  datatype Planned = Plan(steps: seq<string>) | NoPlan(reason: string)
  datatype Executed = Output(text: string) | Broken(reason: string)
  datatype Replanned = Revision(plan: seq<string>, final: string) | NoRevision(reason: string)

  datatype Config = Config(
    inputOk: string -> bool,
    outputOk: string -> bool,
    plan: (int, string) -> Planned,
    execute: (int, State, string) -> Executed,
    replan: (int, State) -> Replanned,
    maxIterations: int)

  function MaxIter(cfg: Config): int
  {
    if cfg.maxIterations <= 0 then 8 else cfg.maxIterations
  }

  function PlanNode(cfg: Config, step: int, s: State): NodeResult<State>
  {
    if s.input == "" then Fail("Input is empty")
    else if !cfg.inputOk(s.input) then Fail("guardrail")
    else
      match cfg.plan(step, s.input)
      case NoPlan(reason) => Fail(reason)
      case Plan(steps) => Next(s.(plan := steps))
  }

  function ExecuteNode(cfg: Config, step: int, s: State): NodeResult<State>
  {
    if |s.plan| == 0 then Fail(EMPTY_PLAN)
    else
      var job := s.plan[0];
      var s := s.(plan := s.plan[1..]);
      match cfg.execute(step, s, job)
      case Broken(reason) => Fail(reason)
      case Output(text) => Next(s.(past := s.past + [StepRecord(job, text)]))
  }

  function ReplanNode(cfg: Config, step: int, s: State): NodeResult<State>
  {
    var s := s.(iter := s.iter + 1);
    match cfg.replan(step, s)
    case NoRevision(reason) => Fail(reason)
    case Revision(plan, final) =>
      if final == "" then Next(s.(plan := plan))
      else if !cfg.outputOk(final) then Fail("guardrail")
      else Next(s.(final := final, plan := []))
  }

  function Route(cfg: Config, s: State): string
  {
    if s.final != "" || s.iter >= MaxIter(cfg) || |s.plan| == 0 then END else "execute"
  }

  function PlanGraph(cfg: Config): Runnable<State>
  {
    Runnable(map["plan" := ((step, s) => PlanNode(cfg, step, s)),
                 "execute" := ((step, s) => ExecuteNode(cfg, step, s)),
                 "replan" := ((step, s) => ReplanNode(cfg, step, s))],
             map[START := "plan", "plan" := "execute", "execute" := "replan"],
             map["replan" := (s => Label(Route(cfg, s)))], map[], {}, "plan", MaxIter(cfg) * 4 + 6)
  }

  lemma {:induction false} PlanCompiles(cfg: Config)
    ensures WellFormed(PlanGraph(cfg))
  {
  }

  /** One step for the plan, then two for every cycle counted in `iter`. */
  ghost predicate OnSchedule(cfg: Config, k: int, n: string, s: State)
  {
    && 0 <= s.iter
    && (n == "plan" ==> k == 0)
    && (n == "execute" ==> k <= 2 * s.iter + 1 && (k == 1 || s.iter < MaxIter(cfg)))
    && (n == "replan" ==> k <= 2 * s.iter + 2 && (k == 2 || s.iter < MaxIter(cfg)))
    && (n == END || n == "plan" || n == "execute" || n == "replan")
  }

  lemma {:induction false} PlanSoftCapStrikesFirst(cfg: Config, env: Env<State>, s: State)
    requires env.maxSteps == MaxIter(cfg) * 4 + 6 && 0 <= s.iter
    ensures
      var o := RunFrom(PlanGraph(cfg), env, s, "plan", 0, false);
      o.err.Some? ==> !o.err.value.MaxSteps?
  {
    hide RunFrom;
    var r := PlanGraph(cfg);
    var inv := (k: int, n: string, s: State) => OnSchedule(cfg, k, n, s);
    forall k, n, s | inv(k, n, s) && n != END && Advance(r, k, n, s).Hop?
      ensures inv(k + 1, Advance(r, k, n, s).node, Advance(r, k, n, s).state)
    {
    }
    InvariantHolds(r, env, s, "plan", 0, false, inv);
  }

  const EMPTY_PLAN := "execute node reached with empty Plan"

  /** The planner is asked, and answers with a plan of no steps. */
  predicate FirstPlanIsEmpty(cfg: Config, s: State)
  {
    s.input != "" && cfg.inputOk(s.input) && cfg.plan(1, s.input) == Plan([])
  }

  /**
   The execute node is entered with an empty plan exactly when the first plan is empty and the run gets that far;
   the run does not end quietly then, but in that node's error.
   */
  lemma {:induction false} EmptyPlanFails(cfg: Config, env: Env<State>, s: State)
    ensures
      var o := RunFrom(PlanGraph(cfg), env, s, "plan", 0, false);
      var reached := env.maxSteps >= 2 && CanSave(env, s) && CanSave(env, s.(plan := []));
      && (FirstPlanIsEmpty(cfg, s) && reached <==>
            exists v :: v in o.visits && v.node == "execute" && v.state.plan == [])
      && (FirstPlanIsEmpty(cfg, s) && reached ==>
            |o.visits| == 2 && o.err == Some(NodeFailed("execute", EMPTY_PLAN)))
  {
    var r := PlanGraph(cfg);
    var s1 := s.(plan := []);
    var o := RunFrom(r, env, s, "plan", 0, false);
    if FirstPlanIsEmpty(cfg, s) {
      if env.maxSteps >= 2 && CanSave(env, s) && CanSave(env, s1) {
        EmptyPlanRun(cfg, env, s);
        assert o.visits[1] in o.visits;
      } else {
        EarlyEnd(cfg, env, s);
      }
    } else {
      hide RunFrom;
      var inv := (k: int, n: string, t: State) => (n == "plan" ==> k == 0 && t == s) && (n == "execute" ==> t.plan != []);
      forall k, n, t | inv(k, n, t) && n != END && Advance(r, k, n, t).Hop?
        ensures inv(k + 1, Advance(r, k, n, t).node, Advance(r, k, n, t).state)
      {
      }
      InvariantHolds(r, env, s, "plan", 0, false, inv);
    }
  }

  lemma {:induction false} EmptyPlanRun(cfg: Config, env: Env<State>, s: State)
    requires FirstPlanIsEmpty(cfg, s) && env.maxSteps >= 2 && CanSave(env, s) && CanSave(env, s.(plan := []))
    ensures
      var o := RunFrom(PlanGraph(cfg), env, s, "plan", 0, false);
      && o.visits == [Visit(1, "plan", s), Visit(2, "execute", s.(plan := []))]
      && o.err == Some(NodeFailed("execute", EMPTY_PLAN))
  {
    var r := PlanGraph(cfg);
    var s1 := s.(plan := []);
    var first, second := TurnAt(r, env, s, "plan", 0, false), TurnAt(r, env, s1, "execute", 1, false);
    assert first.end == Go("execute", s1) && first.visits == [Visit(1, "plan", s)];
    assert second.visits == [Visit(2, "execute", s1)];
    assert second.end == Stop(s1, Some(NodeFailed("execute", EMPTY_PLAN)));
    hide TurnAt, PlanGraph;
    var rest := RunFrom(r, env, s1, "execute", 1, false);
    assert rest.visits == second.visits;
    assert RunFrom(r, env, s, "plan", 0, false) == Prepend(first.saved, first.visits, rest);
  }

  /** Without the steps or the saves for it, the execute node is not entered. */
  lemma {:induction false} EarlyEnd(cfg: Config, env: Env<State>, s: State)
    requires FirstPlanIsEmpty(cfg, s)
    requires !(env.maxSteps >= 2 && CanSave(env, s) && CanSave(env, s.(plan := [])))
    ensures forall v :: v in RunFrom(PlanGraph(cfg), env, s, "plan", 0, false).visits ==> v.node == "plan"
  {
    var r := PlanGraph(cfg);
    var s1 := s.(plan := []);
    if env.maxSteps >= 1 && CanSave(env, s) {
      assert TurnAt(r, env, s, "plan", 0, false).end == Go("execute", s1);
      assert RunFrom(r, env, s1, "execute", 1, false).visits == [];
    }
  }

  // ---- A run is a record of steps ----

  /** One hop: the planner's plan of the vetted input, the first step done and recorded, or the replanner's answer. */
  predicate IsHop(cfg: Config, step: int, n: string, s: State, m: string, t: State)
  {
    if n == "plan" then
      && s.input != "" && cfg.inputOk(s.input) && cfg.plan(step, s.input) == Plan(t.plan)
      && t == s.(plan := t.plan) && m == "execute"
    else if n == "execute" then
      && s.plan != [] && cfg.execute(step, s.(plan := s.plan[1..]), s.plan[0]).Output?
      && t == State(s.input, s.plan[1..],
                    s.past + [StepRecord(s.plan[0], cfg.execute(step, s.(plan := s.plan[1..]), s.plan[0]).text)],
                    s.final, s.iter)
      && m == "replan"
    else
      && n == "replan" && cfg.replan(step, s.(iter := s.iter + 1)).Revision?
      && var r := cfg.replan(step, s.(iter := s.iter + 1));
         && (r.final != "" ==> cfg.outputOk(r.final))
         && t == State(s.input, if r.final != "" then [] else r.plan, s.past, if r.final != "" then r.final else s.final,
                       s.iter + 1)
         && m == if t.final != "" || t.iter >= (if cfg.maxIterations <= 0 then 8 else cfg.maxIterations) || t.plan == []
                 then "__end__" else "execute"
  }

  lemma {:induction false} HopsAreTurns(cfg: Config, k: int, n: string, s: State)
    requires Advance(PlanGraph(cfg), k, n, s).Hop?
    ensures
      var h := Advance(PlanGraph(cfg), k, n, s);
      IsHop(cfg, k + 1, n, s, h.node, h.state)
  {
  }

  /** From node to node, and to the end when there is no error, a run is made of such hops. */
  lemma {:induction false} RunIsARecord(cfg: Config, env: Env<State>, s: State)
    ensures
      var o := RunFrom(PlanGraph(cfg), env, s, "plan", 0, false);
      && (|o.visits| > 0 ==> o.visits[0] == Visit(1, "plan", s))
      && (forall i :: 0 < i < |o.visits| ==>
            var v, w := o.visits[i - 1], o.visits[i];
            IsHop(cfg, v.step, v.node, v.state, w.node, w.state))
      && (o.err.None? ==>
            && |o.visits| > 0
            && var v := o.visits[|o.visits| - 1];
               IsHop(cfg, v.step, v.node, v.state, END, o.state))
  {
    var r := PlanGraph(cfg);
    var o := RunFrom(r, env, s, "plan", 0, false);
    hide RunFrom, IsHop, PlanGraph;
    VisitsFollowEdges(r, env, s, "plan", 0, false);
    RunsEndRight(r, env, s, "plan", 0, false);
    forall i | 0 < i < |o.visits|
      ensures IsHop(cfg, o.visits[i - 1].step, o.visits[i - 1].node, o.visits[i - 1].state, o.visits[i].node, o.visits[i].state)
    {
      assert Follows(r, o.visits[i - 1], o.visits[i]);
      HopsAreTurns(cfg, o.visits[i - 1].step - 1, o.visits[i - 1].node, o.visits[i - 1].state);
    }
    if o.err.None? {
      var v := o.visits[|o.visits| - 1];
      HopsAreTurns(cfg, v.step - 1, v.node, v.state);
    }
  }

  function StepsOf(past: seq<StepRecord>): seq<string>
  {
    seq(|past|, i requires 0 <= i < |past| => past[i].step)
  }

  /** The replanner never finishes and never changes its mind. */
  ghost predicate AlwaysContinues(cfg: Config)
  {
    forall step: int, s: State :: cfg.replan(step, s) == Revision(s.plan, "")
  }

  /** Under such a replanner the plan is done in order: what is done and what is left are always the first plan. */
  lemma {:induction false} PlanIsDoneInOrder(cfg: Config, env: Env<State>, s: State, first: seq<string>)
    requires AlwaysContinues(cfg) && cfg.plan(1, s.input) == Plan(first)
    ensures
      var o := RunFrom(PlanGraph(cfg), env, s, "plan", 0, false);
      && (forall v :: v in o.visits && v.node != "plan" ==>
            StepsOf(v.state.past) + v.state.plan == StepsOf(s.past) + first)
      && (o.err.None? ==> StepsOf(o.state.past) + o.state.plan == StepsOf(s.past) + first)
  {
    hide RunFrom;
    var r := PlanGraph(cfg);
    var inv := (k: int, n: string, t: State) =>
      if n == "plan" then k == 0 && t == s else StepsOf(t.past) + t.plan == StepsOf(s.past) + first;
    forall k, n, t | inv(k, n, t) && n != END && Advance(r, k, n, t).Hop?
      ensures inv(k + 1, Advance(r, k, n, t).node, Advance(r, k, n, t).state)
    {
      var t' := Advance(r, k, n, t).state;
      HopsAreTurns(cfg, k, n, t);
      if n == "execute" {
        assert StepsOf(t'.past) == StepsOf(t.past) + [t.plan[0]];
        assert StepsOf(t'.past) + t'.plan == StepsOf(t.past) + t.plan;
      }
    }
    InvariantHolds(r, env, s, "plan", 0, false, inv);
  }

  /** A node fails exactly when what it relies on does: no input or plan, a guard, or the model behind it. */
  lemma {:induction false} NodesFailExactly(cfg: Config, step: int, s: State)
    ensures PlanGraph(cfg).nodes["plan"](step, s).Fail? <==>
      s.input == "" || !cfg.inputOk(s.input) || cfg.plan(step, s.input).NoPlan?
    ensures PlanGraph(cfg).nodes["execute"](step, s).Fail? <==>
      s.plan == [] || cfg.execute(step, s.(plan := s.plan[1..]), s.plan[0]).Broken?
    ensures PlanGraph(cfg).nodes["replan"](step, s).Fail? <==>
      var r := cfg.replan(step, s.(iter := s.iter + 1));
      r.NoRevision? || (r.final != "" && !cfg.outputOk(r.final))
  {
  }
}
