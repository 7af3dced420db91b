/** The supervisor of workers as a graph (pkg/council/supervisor.go). The router model and the workers are arbitrary. */
module Supervisor {
  import opened GraphTypes
  import opened GraphOutcomes
  import opened GraphBuilder

  const TRAP := "__supervisor_trap__"

  datatype Invocation = Invocation(worker: string, job: string, output: string)

  datatype State = State(input: string, history: seq<Invocation>, final: string, hops: int, next: string, nextTask: string)

  /** What the routing model's reply parses to. */
  datatype Reply = Unparsed(reason: string) | Decision(worker: string, job: string, final: string)

  datatype Work = Done(output: string) | Broken(reason: string)

  datatype Config = Config(
    decide: (int, State) -> Reply,
    work: (int, string, string) -> Work,
    workers: set<string>,
    maxHops: int)

  /** The names NewSupervisor accepts. */
  predicate ValidConfig(cfg: Config)
  {
    cfg.workers != {} && "" !in cfg.workers && START !in cfg.workers && END !in cfg.workers
    && "supervisor" !in cfg.workers && TRAP !in cfg.workers
  }

  function MaxHops(cfg: Config): int
  {
    if cfg.maxHops <= 0 then 8 else cfg.maxHops
  }

  function SupervisorNode(cfg: Config, step: int, s: State): NodeResult<State>
  {
    var s := s.(hops := s.hops + 1);
    match cfg.decide(step, s)
    case Unparsed(reason) => Fail(reason)
    case Decision(worker, job, final) =>
      if final == "" && worker == "" then Fail("neither a delegation nor a final answer")
      else if final != "" then Next(s.(final := final, next := "", nextTask := ""))
      else if worker !in cfg.workers then Fail("supervisor chose unknown worker")
      else Next(s.(next := worker, nextTask := job))
  }

  function WorkerNode(cfg: Config, name: string, step: int, s: State): NodeResult<State>
  {
    match cfg.work(step, name, s.nextTask)
    case Broken(reason) => Fail(reason)
    case Done(output) =>
      Next(s.(history := s.history + [Invocation(name, s.nextTask, output)], next := "", nextTask := ""))
  }

  function Route(cfg: Config, s: State): string
  {
    if s.final != "" then END
    else if s.hops >= MaxHops(cfg) then TRAP
    else if s.next == "" then END
    else s.next
  }

  function NodeNamed(cfg: Config, name: string): NodeFunc<State>
  {
    if name == "supervisor" then (step, s) => SupervisorNode(cfg, step, s)
    else if name == TRAP then (step, s) => Fail("max hops exceeded")
    else (step, s) => WorkerNode(cfg, name, step, s)
  }

  function SupervisorGraph(cfg: Config): Runnable<State>
  {
    Runnable(map n | n in cfg.workers + {"supervisor", TRAP} :: NodeNamed(cfg, n),
             map n | n in cfg.workers + {START, TRAP} :: if n == TRAP then END else "supervisor",
             map["supervisor" := (s => Label(Route(cfg, s)))], map[], {}, "supervisor", MaxHops(cfg) * 3 + 4)
  }

  lemma {:induction false} SupervisorCompiles(cfg: Config)
    requires ValidConfig(cfg)
    ensures WellFormed(SupervisorGraph(cfg))
  {
  }

  /** Two steps per consultation, END only with an answer, and the trap with the hops used up. */
  ghost predicate OnSchedule(cfg: Config, base: int, k: int, n: string, s: State)
  {
    && (n == "supervisor" ==> k == 2 * (s.hops - base) && (k == 0 || s.hops < MaxHops(cfg)))
    && (n == TRAP ==>
          s.hops >= MaxHops(cfg) && s.final == "" && k + 1 == 2 * (s.hops - base) && (k == 1 || s.hops == MaxHops(cfg)))
    && (n in cfg.workers ==> k + 1 == 2 * (s.hops - base) && s.hops < MaxHops(cfg))
    && (n == END ==> s.final != "")
    && (n == END || n == "supervisor" || n == TRAP || n in cfg.workers)
  }

  lemma {:induction false} SupervisorSchedule(cfg: Config, base: int)
    requires ValidConfig(cfg)
    ensures Inductive(SupervisorGraph(cfg), (k, n, s) => OnSchedule(cfg, base, k, n, s))
  {
    var r := SupervisorGraph(cfg);
    forall k, n, s | OnSchedule(cfg, base, k, n, s) && n != END && Advance(r, k, n, s).Hop?
      ensures OnSchedule(cfg, base, k + 1, Advance(r, k, n, s).node, Advance(r, k, n, s).state)
    {
    }
  }

  /**
   The step cap is never what ends a run, and a run without an error has a non-empty answer. Each consultation counts one
   hop, and none but the first begins with the hops used up; the trap does.
   */
  lemma {:induction false} SupervisorRunsEndWell(cfg: Config, env: Env<State>, s: State)
    requires ValidConfig(cfg) && env.maxSteps == MaxHops(cfg) * 3 + 4 && s.hops >= 0
    ensures
      var o := RunFrom(SupervisorGraph(cfg), env, s, "supervisor", 0, false);
      && (o.err.Some? ==> !o.err.value.MaxSteps?) && (o.err.None? ==> o.state.final != "")
      && (forall v :: v in o.visits && v.node == "supervisor" ==>
            v.state.hops == s.hops + (v.step - 1) / 2 && (v.step == 1 || v.state.hops < MaxHops(cfg)))
      && (forall v :: v in o.visits && v.node == TRAP ==> v.state.hops >= MaxHops(cfg) && v.state.final == "")
  {
    hide RunFrom;
    var base := s.hops;
    SupervisorSchedule(cfg, base);
    InvariantHolds(SupervisorGraph(cfg), env, s, "supervisor", 0, false, (k, n, s) => OnSchedule(cfg, base, k, n, s));
  }

  // ---- A run is a record of delegations ----

  /** A consultation: the supervisor names a worker and its task, or the answer. */
  predicate IsConsultation(cfg: Config, step: int, s: State, m: string, t: State)
  {
    var asked := s.(hops := s.hops + 1);
    match cfg.decide(step, asked)
    case Unparsed(_) => false
    case Decision(worker, job, final) =>
      if final != "" then m == "__end__" && t == asked.(final := final, next := "", nextTask := "")
      else
        && worker in cfg.workers && t == asked.(next := worker, nextTask := job)
        && m == if s.final != "" then "__end__"
                else if s.hops + 1 >= (if cfg.maxHops <= 0 then 8 else cfg.maxHops) then "__supervisor_trap__"
                else worker
  }

  /** A delegation: the worker gets the task it was named for, and its output is recorded under its name. */
  predicate IsDelegation(cfg: Config, step: int, n: string, s: State, m: string, t: State)
  {
    match cfg.work(step, n, s.nextTask)
    case Broken(_) => false
    case Done(output) =>
      m == "supervisor"
      && t == State(s.input, s.history + [Invocation(n, s.nextTask, output)], s.final, s.hops, "", "")
  }

  predicate IsHop(cfg: Config, step: int, n: string, s: State, m: string, t: State)
  {
    if n == "supervisor" then IsConsultation(cfg, step, s, m, t)
    else n in cfg.workers && IsDelegation(cfg, step, n, s, m, t)
  }

  lemma {:induction false} HopsAreTurns(cfg: Config, k: int, n: string, s: State)
    requires ValidConfig(cfg) && Advance(SupervisorGraph(cfg), k, n, s).Hop?
    ensures
      var h := Advance(SupervisorGraph(cfg), k, n, s);
      IsHop(cfg, k + 1, n, s, h.node, h.state)
  {
  }

  /** From node to node, and to the end when there is no error, a run is made of consultations and delegations. */
  lemma {:induction false} RunIsARecord(cfg: Config, env: Env<State>, s: State)
    requires ValidConfig(cfg)
    ensures
      var o := RunFrom(SupervisorGraph(cfg), env, s, "supervisor", 0, false);
      && (|o.visits| > 0 ==> o.visits[0] == Visit(1, "supervisor", s))
      && (forall i :: 0 < i < |o.visits| ==>
            var v, w := o.visits[i - 1], o.visits[i];
            IsHop(cfg, v.step, v.node, v.state, w.node, w.state))
      && (o.err.None? ==>
            && |o.visits| > 0
            && var v := o.visits[|o.visits| - 1];
               IsHop(cfg, v.step, v.node, v.state, END, o.state))
  {
    var r := SupervisorGraph(cfg);
    var o := RunFrom(r, env, s, "supervisor", 0, false);
    hide RunFrom, IsHop, SupervisorGraph, ValidConfig;
    VisitsFollowEdges(r, env, s, "supervisor", 0, false);
    RunsEndRight(r, env, s, "supervisor", 0, false);
    forall i | 0 < i < |o.visits|
      ensures IsHop(cfg, o.visits[i - 1].step, o.visits[i - 1].node, o.visits[i - 1].state, o.visits[i].node, o.visits[i].state)
    {
      assert Follows(r, o.visits[i - 1], o.visits[i]);
      HopsAreTurns(cfg, o.visits[i - 1].step - 1, o.visits[i - 1].node, o.visits[i - 1].state);
    }
    if o.err.None? {
      var v := o.visits[|o.visits| - 1];
      HopsAreTurns(cfg, v.step - 1, v.node, v.state);
    }
  }

  /** What the supervisor delegates is done by that worker, and comes back to it as its output. */
  lemma {:induction false} DelegationsComeBack(cfg: Config, env: Env<State>, s: State, i: nat)
    requires ValidConfig(cfg)
    ensures
      var vs := RunFrom(SupervisorGraph(cfg), env, s, "supervisor", 0, false).visits;
      i + 2 < |vs| && vs[i].node == "supervisor" ==>
        && cfg.decide(vs[i].step, vs[i].state.(hops := vs[i].state.hops + 1)).Decision?
        && var d := cfg.decide(vs[i].step, vs[i].state.(hops := vs[i].state.hops + 1));
           && d.final == "" && vs[i + 1].node == d.worker && vs[i + 2].node == "supervisor"
           && cfg.work(vs[i + 1].step, d.worker, d.job).Done?
           && vs[i + 2].state.history == vs[i].state.history +
                [Invocation(d.worker, d.job, cfg.work(vs[i + 1].step, d.worker, d.job).output)]
  {
    hide RunFrom;
    var vs := RunFrom(SupervisorGraph(cfg), env, s, "supervisor", 0, false).visits;
    RunIsARecord(cfg, env, s);
    VisitsFollowEdges(SupervisorGraph(cfg), env, s, "supervisor", 0, false);
    if i + 2 < |vs| && vs[i].node == "supervisor" {
      var v, w, x := vs[i], vs[i + 1], vs[i + 2];
      assert vs[i + 2 - 1] == w && vs[i + 1 - 1] == v;
      assert IsHop(cfg, v.step, v.node, v.state, w.node, w.state);
      assert IsHop(cfg, w.step, w.node, w.state, x.node, x.state);
      assert Follows(SupervisorGraph(cfg), v, w) && w.node in SupervisorGraph(cfg).nodes;
    }
  }

  /** The supervisor fails exactly when its reply is neither an answer nor names a worker; a worker, when its run does. */
  lemma {:induction false} NodesFailExactly(cfg: Config, step: int, s: State, w: string)
    requires ValidConfig(cfg) && w in cfg.workers
    ensures SupervisorGraph(cfg).nodes["supervisor"](step, s).Fail? <==>
      var d := cfg.decide(step, s.(hops := s.hops + 1));
      d.Unparsed? || (d.final == "" && d.worker !in cfg.workers)
    ensures SupervisorGraph(cfg).nodes[w](step, s).Fail? <==> cfg.work(step, w, s.nextTask).Broken?
  {
  }
}
