/** The swarm of peer agents as a graph (pkg/council/swarm.go). Models and tools are arbitrary. */
module Swarm {
  import opened Common
  import opened GraphTypes
  import GraphBuilder
  import opened Schema

  const HANDOFF_PREFIX := "handoff_to_"
  const TRAP := "__swarm_trap__"
  const ERR_UNKNOWN_TARGET := "council: handoff to unknown agent"
  const ERR_MAX_HOPS := "council: max hops exceeded without a final answer"

  datatype State = State(messages: seq<Message>, active: string, hops: int, final: string)

  /** `generate` and `execute` are also told the step and the round, so that they may answer differently each time. */
  datatype Agent = Agent(
    name: string,
    prompt: string,
    generate: (int, int, seq<Message>) -> Generated,
    tools: Option<seq<string>>,
    execute: (int, int, ToolCall) -> string,
    handoffs: seq<string>,
    maxIterations: int)

  datatype Config = Config(agents: seq<Agent>, start: string, maxHops: int)

  // ---- Validation ----

  predicate SafeName(s: string)
  {
    s != "" && forall c :: c in s ==> 'a' <= c <= 'z' || 'A' <= c <= 'Z' || '0' <= c <= '9' || c == '_' || c == '-'
  }

  predicate Named(agents: seq<Agent>, name: string)
  {
    exists i :: 0 <= i < |agents| && agents[i].name == name
  }

  predicate AgentOk(a: Agent)
  {
    && SafeName(a.name) && a.name != START && a.name != END && a.name != TRAP
    && (a.tools.Some? ==> forall t :: t in a.tools.value ==> !(HANDOFF_PREFIX <= t))
  }

  predicate HandoffsOk(agents: seq<Agent>, a: Agent)
  {
    forall t :: t in a.handoffs ==> Named(agents, t) && t != a.name
  }

  predicate ValidSwarm(cfg: Config)
  {
    && (forall i :: 0 <= i < |cfg.agents| ==> AgentOk(cfg.agents[i]) && HandoffsOk(cfg.agents, cfg.agents[i]))
    && (forall i, j :: 0 <= i < j < |cfg.agents| ==> cfg.agents[i].name != cfg.agents[j].name)
    && Named(cfg.agents, cfg.start)
  }

  function MaxHops(cfg: Config): int
  {
    if cfg.maxHops <= 0 then 8 else cfg.maxHops
  }

  function MaxRounds(a: Agent): int
  {
    if a.maxIterations <= 0 then 6 else a.maxIterations
  }

  // ---- Handoff calls ----

  function HandoffTarget(name: string): Option<string>
  {
    if |name| > |HANDOFF_PREFIX| && HANDOFF_PREFIX <= name then Some(name[|HANDOFF_PREFIX|..]) else None
  }

  /** The first call to a handoff the agent declared. */
  function DetectHandoff(calls: seq<ToolCall>, allowed: seq<string>): (r: Option<string>)
    ensures r.Some? ==> r.value in allowed && r.value != ""
  {
    if |calls| == 0 then None
    else
      var t := HandoffTarget(calls[0].name);
      if t.Some? && t.value in allowed then t else DetectHandoff(calls[1..], allowed)
  }

  function Acknowledgement(c: ToolCall, target: string): Message
  {
    ToolResultMessage(c.id, if c.name == HANDOFF_PREFIX + target then "Control handed off" else "Tool skipped")
  }

  function Acknowledge(calls: seq<ToolCall>, target: string): seq<Message>
  {
    if |calls| == 0 then [] else [Acknowledgement(calls[0], target)] + Acknowledge(calls[1..], target)
  }

  function RealCalls(calls: seq<ToolCall>): seq<ToolCall>
  {
    if |calls| == 0 then []
    else if HandoffTarget(calls[0].name).Some? then RealCalls(calls[1..])
    else [calls[0]] + RealCalls(calls[1..])
  }

  function Rejections(calls: seq<ToolCall>): seq<Message>
  {
    if |calls| == 0 then []
    else if HandoffTarget(calls[0].name).Some? then
      [ToolResultMessage(calls[0].id, "Error: you are not permitted to hand off")] + Rejections(calls[1..])
    else Rejections(calls[1..])
  }

  method PartitionHandoffCalls(calls: seq<ToolCall>) returns (realCalls: seq<ToolCall>, rejected: seq<Message>)
    ensures realCalls == RealCalls(calls) && rejected == Rejections(calls)
  {
    realCalls, rejected := [], [];
    for i := 0 to |calls|
      invariant RealCalls(calls) == realCalls + RealCalls(calls[i..])
      invariant Rejections(calls) == rejected + Rejections(calls[i..])
    {
      assert calls[i..][0] == calls[i] && calls[i..][1..] == calls[i + 1..];
      if HandoffTarget(calls[i].name).Some? {
        rejected := rejected + [ToolResultMessage(calls[i].id, "Error: you are not permitted to hand off")];
      } else {
        realCalls := realCalls + [calls[i]];
      }
    }
  }

  lemma {:induction false} AcknowledgeStep(out: seq<Message>, calls: seq<ToolCall>, i: nat, target: string)
    requires i < |calls|
    ensures out + Acknowledge(calls[i..], target) ==
      (out + [Acknowledgement(calls[i], target)]) + Acknowledge(calls[i + 1..], target)
  {
    hide Acknowledgement;
    assert calls[i..][0] == calls[i] && calls[i..][1..] == calls[i + 1..];
  }

  method AcknowledgeHandoff(calls: seq<ToolCall>, target: string) returns (out: seq<Message>)
    ensures out == Acknowledge(calls, target)
  {
    out := [];
    for i := 0 to |calls|
      invariant Acknowledge(calls, target) == out + Acknowledge(calls[i..], target)
    {
      hide Acknowledge;
      AcknowledgeStep(out, calls, i, target);
      var body := if calls[i].name == HANDOFF_PREFIX + target then "Control handed off" else "Tool skipped";
      out := out + [ToolResultMessage(calls[i].id, body)];
    }
  }

  // ---- The agent node ----

  function NonSystem(ms: seq<Message>): seq<Message>
  {
    if |ms| == 0 then []
    else if ms[0].role.System? then NonSystem(ms[1..])
    else [ms[0]] + NonSystem(ms[1..])
  }

  /** The results of a turn without a permitted handoff: the tools' answers, then the refusals. */
  function TurnResults(a: Agent, step: int, round: int, calls: seq<ToolCall>): seq<Message>
  {
    ToolResults(c => a.execute(step, round, c), RealCalls(calls)) + Rejections(calls)
  }

  /** One activation from round `round` on; `msgs` is what the model is shown, `s.messages` the shared log. */
  function Rounds(a: Agent, step: int, round: int, s: State, msgs: seq<Message>): NodeResult<State>
    decreases MaxRounds(a) - round
  {
    if round >= MaxRounds(a) then Fail("exhausted MaxIterations") else
    match a.generate(step, round, msgs)
    case Failed(reason) => Fail(reason)
    case Reply(m) =>
      var s1 := s.(messages := s.messages + [m]);
      if |m.toolCalls| == 0 then Next(s1.(final := m.text, active := "")) else
      var target := DetectHandoff(m.toolCalls, a.handoffs);
      if target.Some? then
        Next(s1.(messages := s1.messages + Acknowledge(m.toolCalls, target.value), active := target.value))
      else if |RealCalls(m.toolCalls)| > 0 && a.tools.None? then Fail("produced tool calls but has nil Tools")
      else
        var results := TurnResults(a, step, round, m.toolCalls);
        Rounds(a, step, round + 1, s1.(messages := s1.messages + results), msgs + [m] + results)
  }

  function AgentNode(a: Agent, step: int, s: State): NodeResult<State>
  {
    Rounds(a, step, 0, s.(hops := s.hops + 1), [SystemMessage(a.prompt)] + NonSystem(s.messages))
  }

  /** The activation as the loop it is. */
  method Activate(a: Agent, step: int, initial: State) returns (r: NodeResult<State>)
    ensures r == AgentNode(a, step, initial)
  {
    var s := initial.(hops := initial.hops + 1);
    var msgs := [SystemMessage(a.prompt)] + NonSystem(initial.messages);
    for round := 0 to MaxRounds(a)
      invariant AgentNode(a, step, initial) == Rounds(a, step, round, s, msgs)
    {
      match a.generate(step, round, msgs) {
        case Failed(reason) =>
          return Fail(reason);
        case Reply(m) =>
          s := s.(messages := s.messages + [m]);
          if |m.toolCalls| == 0 {
            return Next(s.(final := m.text, active := ""));
          }
          var target := DetectHandoff(m.toolCalls, a.handoffs);
          if target.Some? {
            var acks := AcknowledgeHandoff(m.toolCalls, target.value);
            return Next(s.(messages := s.messages + acks, active := target.value));
          }
          var realCalls, rejected := PartitionHandoffCalls(m.toolCalls);
          if |realCalls| > 0 && a.tools.None? {
            return Fail("produced tool calls but has nil Tools");
          }
          var results := ToolResults(c => a.execute(step, round, c), realCalls) + rejected;
          s := s.(messages := s.messages + results);
          msgs := msgs + [m] + results;
      }
    }
    return Fail("exhausted MaxIterations");
  }

  function TrapNode(agents: seq<Agent>, s: State): NodeResult<State>
  {
    if s.active != "" && !Named(agents, s.active) then Fail(ERR_UNKNOWN_TARGET) else Fail(ERR_MAX_HOPS)
  }

  function Route(cfg: Config, s: State): string
  {
    if s.final != "" || s.active == "" then END
    else if !Named(cfg.agents, s.active) || s.hops >= MaxHops(cfg) then TRAP
    else s.active
  }

  function AgentFunc(a: Agent): NodeFunc<State> { (step, s) => AgentNode(a, step, s) }

  function TrapFunc(cfg: Config): NodeFunc<State> { (step, s) => TrapNode(cfg.agents, s) }

  function RouteFunc(cfg: Config): Router<State> { s => Label(Route(cfg, s)) }

  function AgentNodes(agents: seq<Agent>): (m: map<string, NodeFunc<State>>)
    ensures forall n :: n in m <==> Named(agents, n)
  {
    if |agents| == 0 then map[]
    else
      assert forall n :: Named(agents, n) <==> Named(agents[..|agents| - 1], n) || n == agents[|agents| - 1].name;
      AgentNodes(agents[..|agents| - 1])[agents[|agents| - 1].name := AgentFunc(agents[|agents| - 1])]
  }

  function AgentRoutes(cfg: Config, agents: seq<Agent>): (m: map<string, Router<State>>)
    ensures forall n :: n in m <==> Named(agents, n)
    ensures forall n :: n in m ==> m[n] == RouteFunc(cfg)
  {
    if |agents| == 0 then map[]
    else
      assert forall n :: Named(agents, n) <==> Named(agents[..|agents| - 1], n) || n == agents[|agents| - 1].name;
      AgentRoutes(cfg, agents[..|agents| - 1])[agents[|agents| - 1].name := RouteFunc(cfg)]
  }

  function SwarmGraph(cfg: Config): Runnable<State>
  {
    Runnable(AgentNodes(cfg.agents)[TRAP := TrapFunc(cfg)], map[TRAP := END, START := cfg.start],
             AgentRoutes(cfg, cfg.agents), map[], {}, cfg.start, MaxHops(cfg) * 4 + 4)
  }

  lemma {:induction false} NamedOneMore(agents: seq<Agent>, a: Agent)
    ensures forall n :: Named(agents + [a], n) <==> Named(agents, n) || n == a.name
  {
    forall n | Named(agents, n) || n == a.name ensures Named(agents + [a], n) {
      if n == a.name {
        assert (agents + [a])[|agents|] == a;
      } else {
        var j :| 0 <= j < |agents| && agents[j].name == n;
        assert (agents + [a])[j] == agents[j];
      }
    }
    forall n | Named(agents + [a], n) ensures Named(agents, n) || n == a.name {
      var j :| 0 <= j <= |agents| && (agents + [a])[j].name == n;
      assert j < |agents| ==> agents[j].name == n;
    }
  }

  method Validate(cfg: Config) returns (ok: bool)
    ensures ok <==> ValidSwarm(cfg)
  {
    hide AgentOk;
    var names: set<string> := {};
    for i := 0 to |cfg.agents|
      invariant forall n :: n in names <==> Named(cfg.agents[..i], n)
      invariant forall j :: 0 <= j < i ==> AgentOk(cfg.agents[j])
      invariant forall j, k :: 0 <= j < k < i ==> cfg.agents[j].name != cfg.agents[k].name
    {
      var a := cfg.agents[i];
      if !AgentOk(a) {
        return false;
      }
      if a.name in names {
        assert Named(cfg.agents[..i], a.name);
        return false;
      }
      assert forall j :: 0 <= j < i ==> cfg.agents[..i][j].name in names;
      names := names + {a.name};
      assert cfg.agents[..i + 1] == cfg.agents[..i] + [a];
      NamedOneMore(cfg.agents[..i], a);
    }
    assert cfg.agents[..|cfg.agents|] == cfg.agents;
    if cfg.start !in names {
      return false;
    }
    for i := 0 to |cfg.agents|
      invariant forall j :: 0 <= j < i ==> HandoffsOk(cfg.agents, cfg.agents[j])
    {
      var a := cfg.agents[i];
      for h := 0 to |a.handoffs|
        invariant forall g :: 0 <= g < h ==> Named(cfg.agents, a.handoffs[g]) && a.handoffs[g] != a.name
      {
        if a.handoffs[h] !in names || a.handoffs[h] == a.name {
          assert !HandoffsOk(cfg.agents, a);
          return false;
        }
      }
    }
    return true;
  }

  method AddAgents(cfg: Config) returns (g: GraphBuilder.Builder<State>)
    requires ValidSwarm(cfg)
    ensures fresh(g) && g.Valid() && g.errs == []
    ensures g.nodes == AgentNodes(cfg.agents) && g.conditionalEdges == AgentRoutes(cfg, cfg.agents)
    ensures g.staticEdges == map[] && g.branchMaps == map[] && g.interruptBefore == {}
  {
    hide AgentFunc, RouteFunc, TrapFunc, AgentOk, HandoffsOk;
    NamesAreFree(cfg);
    g := new GraphBuilder.Builder<State>();
    for i := 0 to |cfg.agents|
      invariant g.Valid() && g.errs == [] && fresh(g)
      invariant g.nodes == AgentNodes(cfg.agents[..i]) && g.conditionalEdges == AgentRoutes(cfg, cfg.agents[..i])
      invariant g.staticEdges == map[] && g.branchMaps == map[] && g.interruptBefore == {}
    {
      var a := cfg.agents[i];
      assert cfg.agents[..i + 1][..i] == cfg.agents[..i];
      assert !Named(cfg.agents[..i], a.name);
      assert Named(cfg.agents, a.name);
      g.AddNode(a.name, Some(AgentFunc(a)));
      g.AddConditionalEdge(a.name, Some(RouteFunc(cfg)));
    }
    assert cfg.agents[..|cfg.agents|] == cfg.agents;
  }

  /** The rest of the wiring: the trap node, and the edges out of it and into the start agent. */
  method AddTrap(cfg: Config, g: GraphBuilder.Builder<State>)
    requires ValidSwarm(cfg) && g.Valid() && g.errs == []
    requires g.nodes == AgentNodes(cfg.agents) && g.conditionalEdges == AgentRoutes(cfg, cfg.agents)
    requires g.staticEdges == map[]
    modifies g
    ensures g.Valid() && g.errs == []
    ensures g.nodes == SwarmGraph(cfg).nodes && g.conditionalEdges == SwarmGraph(cfg).conditionalEdges
    ensures g.staticEdges == SwarmGraph(cfg).staticEdges
    ensures g.branchMaps == old(g.branchMaps) && g.interruptBefore == old(g.interruptBefore)
  {
    hide AgentFunc, RouteFunc, TrapFunc, AgentOk, HandoffsOk, AgentNodes, AgentRoutes;
    NamesAreFree(cfg);
    hide Named;
    g.AddNode(TRAP, Some(TrapFunc(cfg)));
    g.AddEdge(TRAP, END);
    g.AddEdge(START, cfg.start);
  }

  /** Validation, then the builder: what it accepts compiles to the graph above. */
  method NewSwarm(cfg: Config) returns (r: Option<Runnable<State>>)
    ensures r.Some? <==> ValidSwarm(cfg)
    ensures r.Some? ==> r.value == SwarmGraph(cfg) && GraphBuilder.WellFormed(r.value)
  {
    var ok := Validate(cfg);
    if !ok {
      return None;
    }
    SwarmIsWellFormed(cfg);
    hide AgentFunc, RouteFunc, TrapFunc, AgentOk, HandoffsOk, AgentNodes, AgentRoutes, ValidSwarm;
    hide GraphBuilder.WellFormed, Named;
    var g := AddAgents(cfg);
    AddTrap(cfg, g);
    var compiled, _ := g.Compile();
    return Some(compiled.value.(maxSteps := MaxHops(cfg) * 4 + 4));
  }

  lemma {:induction false} SwarmIsWellFormed(cfg: Config)
    requires ValidSwarm(cfg)
    ensures GraphBuilder.WellFormed(SwarmGraph(cfg)) && GraphBuilder.WellFormed(SwarmGraph(cfg).(maxSteps := 0))
  {
    NamesAreFree(cfg);
  }

  lemma {:induction false} NamesAreFree(cfg: Config)
    requires ValidSwarm(cfg)
    ensures forall n :: Named(cfg.agents, n) ==> n != "" && n != START && n != END && n != TRAP
  {
    forall n | Named(cfg.agents, n) ensures n != "" && n != START && n != END && n != TRAP {
      var i :| 0 <= i < |cfg.agents| && cfg.agents[i].name == n;
      assert AgentOk(cfg.agents[i]);
    }
  }
}
