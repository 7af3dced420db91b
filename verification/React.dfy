/** The ReAct agent as a graph (pkg/agent/react.go). The model and the tools are arbitrary. */
module React {
  import opened Common
  import opened GraphTypes
  import opened GraphBuilder
  import opened GraphRun
  import opened GraphOutcomes
  import opened Schema

  datatype State = State(
    messages: seq<Message>,
    finalText: string,
    iterations: int,
    inputGuarded: int,
    digest: string,
    stoppedAtCap: bool)

  /** Generate, the tools and the guards may answer anything; the step stands for when they are asked. */
  datatype Config = Config(
    generate: (int, seq<Message>) -> Generated,
    tools: Option<(int, ToolCall) -> string>,
    maxIterations: int,
    inputGuards: seq<Message -> bool>,
    outputOk: Message -> bool,
    digest: seq<Message> -> string)

  function MaxIter(cfg: Config): int
  {
    if cfg.maxIterations <= 0 then 10 else cfg.maxIterations
  }

  predicate Passes(guards: seq<Message -> bool>, m: Message)
  {
    forall i :: 0 <= i < |guards| ==> guards[i](m)
  }

  /** Every user message from `from` on passes every guard. */
  predicate AllPass(guards: seq<Message -> bool>, ms: seq<Message>, from: nat)
  {
    forall i :: from <= i < |ms| && ms[i].role.User? ==> Passes(guards, ms[i])
  }

  /** Where vetting starts: at the watermark, unless the messages below it are not the ones vetted before. */
  function VetFrom(cfg: Config, s: State): int
  {
    var from := if s.inputGuarded < |s.messages| then s.inputGuarded else |s.messages|;
    if from >= 0 && s.digest != "" && s.digest != cfg.digest(s.messages[..from]) then 0 else from
  }

  /** The model node's outcome up to the provider call: the messages sent, or why none were. */
  datatype Vetting = Blocked(reason: string) | Vetted(s: State)

  function VetInput(cfg: Config, s: State): Vetting
  {
    if |cfg.inputGuards| == 0 then
      Vetted(s.(inputGuarded := |s.messages|))
    else if VetFrom(cfg, s) < 0 then
      Blocked("panic: slice bounds out of range")
    else if !AllPass(cfg.inputGuards, s.messages, VetFrom(cfg, s)) then
      Blocked("guardrail")
    else
      Vetted(s.(digest := cfg.digest(s.messages), inputGuarded := |s.messages|))
  }

  function Record(cfg: Config, s: State, reply: Message): State
  {
    var s := s.(messages := s.messages + [reply], iterations := s.iterations + 1);
    if |reply.toolCalls| == 0 then s.(finalText := reply.text)
    else if s.iterations >= MaxIter(cfg) then s.(stoppedAtCap := true, finalText := reply.text)
    else s
  }

  function ModelNode(cfg: Config, step: int, s: State): NodeResult<State>
  {
    match VetInput(cfg, s)
    case Blocked(reason) => Fail(reason)
    case Vetted(s) =>
      match cfg.generate(step, s.messages)
      case Failed(reason) => Fail(reason)
      case Reply(m) => if !cfg.outputOk(m) then Fail("guardrail") else Next(Record(cfg, s, m))
  }

  function ToolsNode(cfg: Config, step: int, s: State): NodeResult<State>
  {
    if cfg.tools.None? then Fail("Config.Tools is nil")
    else if |s.messages| == 0 then Fail("empty Messages")
    else if Last(s.messages).role != Assistant || |Last(s.messages).toolCalls| == 0 then Fail("no pending tool calls")
    else
      var execute := cfg.tools.value;
      Next(s.(messages := s.messages + ToolResults(c => execute(step, c), Last(s.messages).toolCalls)))
  }

  function Route(cfg: Config, s: State): string
  {
    if s.iterations >= MaxIter(cfg) || |s.messages| == 0 then END
    else if Last(s.messages).role == Assistant && |Last(s.messages).toolCalls| > 0 then "tools"
    else END
  }

  function ModelFunc(cfg: Config): NodeFunc<State> { (step, s) => ModelNode(cfg, step, s) }

  function ToolsFunc(cfg: Config): NodeFunc<State> { (step, s) => ToolsNode(cfg, step, s) }

  function RouteFunc(cfg: Config): Router<State> { s => Label(Route(cfg, s)) }

  /** The compiled graph. */
  function ReactGraph(cfg: Config): Runnable<State>
  {
    var nodes := map["model" := ModelFunc(cfg)];
    var edges := map[START := "model"];
    Runnable(if cfg.tools.Some? then nodes["tools" := ToolsFunc(cfg)] else nodes,
             if cfg.tools.Some? then edges["tools" := "model"] else edges,
             map["model" := RouteFunc(cfg)], map[], {}, "model", MaxIter(cfg) * 3 + 4)
  }

  /** The vetting loop of the model node. */
  method Vet(cfg: Config, s: State) returns (v: Vetting)
    ensures v == VetInput(cfg, s)
  {
    if |cfg.inputGuards| == 0 {
      return Vetted(s.(inputGuarded := |s.messages|));
    }
    var from := if s.inputGuarded < |s.messages| then s.inputGuarded else |s.messages|;
    if from < 0 {
      return Blocked("panic: slice bounds out of range");
    }
    if s.digest != "" && s.digest != cfg.digest(s.messages[..from]) {
      from := 0;
    }
    for i := from to |s.messages|
      invariant forall j :: from <= j < i && s.messages[j].role.User? ==> Passes(cfg.inputGuards, s.messages[j])
    {
      if s.messages[i].role.User? {
        for g := 0 to |cfg.inputGuards|
          invariant forall h :: 0 <= h < g ==> cfg.inputGuards[h](s.messages[i])
        {
          if !cfg.inputGuards[g](s.messages[i]) {
            assert !Passes(cfg.inputGuards, s.messages[i]);
            return Blocked("guardrail");
          }
        }
      }
    }
    return Vetted(s.(digest := cfg.digest(s.messages), inputGuarded := |s.messages|));
  }

  /** Built with the graph builder, the agent compiles, to the graph above. */
  method NewReAct(cfg: Config) returns (r: Option<Runnable<State>>)
    ensures r.None? <==> cfg.maxIterations < 0
    ensures r.Some? ==> r.value == ReactGraph(cfg) && WellFormed(r.value)
  {
    hide ModelFunc, ToolsFunc, RouteFunc;
    if cfg.maxIterations < 0 {
      return None;
    }
    var g := new Builder<State>();
    g.AddNode("model", Some(ModelFunc(cfg)));
    g.AddEdge(START, "model");
    g.AddConditionalEdge("model", Some(RouteFunc(cfg)));
    if cfg.tools.Some? {
      g.AddNode("tools", Some(ToolsFunc(cfg)));
      g.AddEdge("tools", "model");
    }
    assert WellFormed(Runnable(g.nodes, g.staticEdges, g.conditionalEdges, g.branchMaps, g.interruptBefore, "model", 0));
    var compiled, _ := g.Compile();
    r := Some(compiled.value.(maxSteps := MaxIter(cfg) * 3 + 4));
    assert r.value.nodes == ReactGraph(cfg).nodes;
    assert r.value.staticEdges == ReactGraph(cfg).staticEdges;
  }

  // ---- The soft cap strikes first ----

  /** How far a run can have got: each model turn took at most two steps and is counted in `iterations`. */
  ghost predicate OnSchedule(cfg: Config, k: int, n: string, s: State)
  {
    && 0 <= s.iterations
    && (n == "model" ==> k <= 2 * s.iterations && (k == 0 || s.iterations < MaxIter(cfg)))
    && (n == "tools" ==> k + 1 <= 2 * s.iterations && s.iterations < MaxIter(cfg))
    && (n == END || n == "model" || n == "tools")
  }

  ghost predicate FreshSteps(env: Env<State>, cfg: Config)
  {
    env.maxSteps == MaxIter(cfg) * 3 + 4
  }

  lemma {:induction false} SoftCapStrikesFirst(cfg: Config, env: Env<State>, s: State)
    requires FreshSteps(env, cfg) && 0 <= s.iterations
    ensures
      var o := RunFrom(ReactGraph(cfg), env, s, "model", 0, false);
      o.err.Some? ==> !o.err.value.MaxSteps?
  {
    var r := ReactGraph(cfg);
    var inv := (k: int, n: string, s: State) => OnSchedule(cfg, k, n, s);
    forall k, n, s | inv(k, n, s) && n != END && Advance(r, k, n, s).Hop?
      ensures inv(k + 1, Advance(r, k, n, s).node, Advance(r, k, n, s).state)
    {
    }
    InvariantHolds(r, env, s, "model", 0, false, inv);
  }

  // ---- A run that ends without an error was not truncated ----

  /** At END: either flagged as truncated, or the last turn asks for no tool. */
  ghost predicate Complete(s: State)
  {
    s.stoppedAtCap || (|s.messages| > 0 && (Last(s.messages).role == Assistant ==>
                         Last(s.messages).toolCalls == [] && s.finalText == Last(s.messages).text))
  }

  lemma {:induction false} EndIsComplete(cfg: Config, env: Env<State>, s: State)
    requires !s.stoppedAtCap
    ensures
      var o := RunFrom(ReactGraph(cfg), env, s, "model", 0, false);
      o.err.None? ==> Complete(o.state)
  {
    var r := ReactGraph(cfg);
    var inv := (k: int, n: string, s: State) => n == END ==> Complete(s);
    forall k, n, s | inv(k, n, s) && n != END && Advance(r, k, n, s).Hop?
      ensures inv(k + 1, Advance(r, k, n, s).node, Advance(r, k, n, s).state)
    {
    }
    InvariantHolds(r, env, s, "model", 0, false, inv);
  }

  // ---- A run is a transcript ----

  /** The messages of `t` are those of `s` and then one answer of the provider to them, which the output guards passed. */
  predicate IsModelTurn(cfg: Config, step: int, s: State, t: State)
  {
    && |t.messages| == |s.messages| + 1 && t.messages[..|s.messages|] == s.messages
    && var m := Last(t.messages);
       && cfg.generate(step, s.messages) == Reply(m) && cfg.outputOk(m) && t.iterations == s.iterations + 1
       && (m.toolCalls == [] ==> t.finalText == m.text && t.stoppedAtCap == s.stoppedAtCap)
       && (m.toolCalls != [] && t.iterations < MaxIter(cfg) ==>
             t.finalText == s.finalText && t.stoppedAtCap == s.stoppedAtCap)
       && (m.toolCalls != [] && t.iterations >= MaxIter(cfg) ==> t.finalText == m.text && t.stoppedAtCap)
  }

  /** The messages of `t` are those of `s` and then one tool result for each call of the last of them, in order. */
  predicate IsToolsTurn(cfg: Config, step: int, s: State, t: State)
  {
    && cfg.tools.Some? && |s.messages| > 0 && t == s.(messages := t.messages)
    && var calls := Last(s.messages).toolCalls;
       && calls != [] && |t.messages| == |s.messages| + |calls| && t.messages[..|s.messages|] == s.messages
       && forall i :: 0 <= i < |calls| ==>
            t.messages[|s.messages| + i] == Message(Tool, cfg.tools.value(step, calls[i]), [], calls[i].id)
  }

  /** One hop of the agent: a model turn with pending calls leads to the tools, any other ends the run. */
  predicate IsHop(cfg: Config, step: int, n: string, s: State, m: string, t: State)
  {
    if n == "model" then
      && IsModelTurn(cfg, step, s, t)
      && var pending := Last(t.messages).role == Assistant && Last(t.messages).toolCalls != [];
         m == if pending && t.iterations < MaxIter(cfg) then "tools" else END
    else n == "tools" && m == "model" && IsToolsTurn(cfg, step, s, t)
  }

  lemma {:induction false} ModelTurns(cfg: Config, step: int, s: State)
    requires ModelNode(cfg, step, s).Next?
    ensures IsModelTurn(cfg, step, s, ModelNode(cfg, step, s).state)
  {
    hide AllPass, VetFrom;
    var v := VetInput(cfg, s).s;
    var m := cfg.generate(step, s.messages).message;
    var t := ModelNode(cfg, step, s).state;
    assert t.messages == s.messages + [m];
  }

  lemma {:induction false} ToolsTurns(cfg: Config, step: int, s: State)
    requires ToolsNode(cfg, step, s).Next?
    ensures IsToolsTurn(cfg, step, s, ToolsNode(cfg, step, s).state)
  {
    var execute, calls := cfg.tools.value, Last(s.messages).toolCalls;
    var results := ToolResults(c => execute(step, c), calls);
    var t := ToolsNode(cfg, step, s).state;
    assert t.messages == s.messages + results;
    forall i | 0 <= i < |calls|
      ensures t.messages[|s.messages| + i] == Message(Tool, execute(step, calls[i]), [], calls[i].id)
    {
      assert t.messages[|s.messages| + i] == results[i];
    }
  }

  lemma {:induction false} HopsAreTurns(cfg: Config, k: int, n: string, s: State)
    requires Advance(ReactGraph(cfg), k, n, s).Hop?
    ensures IsHop(cfg, k + 1, n, s, Advance(ReactGraph(cfg), k, n, s).node, Advance(ReactGraph(cfg), k, n, s).state)
  {
    hide IsModelTurn, IsToolsTurn, ModelNode, ToolsNode;
    if n == "model" {
      ModelTurns(cfg, k + 1, s);
      assert IsModelTurn(cfg, k + 1, s, Advance(ReactGraph(cfg), k, n, s).state);
      assert |Advance(ReactGraph(cfg), k, n, s).state.messages| > 0 by { ModelAnswers(cfg, k + 1, s); }
    } else {
      ToolsTurns(cfg, k + 1, s);
    }
  }

  lemma {:induction false} ModelAnswers(cfg: Config, step: int, s: State)
    requires ModelNode(cfg, step, s).Next?
    ensures |ModelNode(cfg, step, s).state.messages| > 0
  {
  }

  /** From node to node, and to the end when there is no error, a run is made of such turns. */
  lemma {:induction false} RunIsATranscript(cfg: Config, env: Env<State>, s: State)
    ensures
      var o := RunFrom(ReactGraph(cfg), env, s, "model", 0, false);
      && (|o.visits| > 0 ==> o.visits[0] == Visit(1, "model", s))
      && (forall i :: 0 < i < |o.visits| ==>
            var v, w := o.visits[i - 1], o.visits[i];
            IsHop(cfg, v.step, v.node, v.state, w.node, w.state))
      && (o.err.None? ==>
            && |o.visits| > 0
            && var v := o.visits[|o.visits| - 1];
               IsHop(cfg, v.step, v.node, v.state, END, o.state))
  {
    var r := ReactGraph(cfg);
    var o := RunFrom(r, env, s, "model", 0, false);
    hide RunFrom, IsHop, ReactGraph;
    VisitsFollowEdges(r, env, s, "model", 0, false);
    RunsEndRight(r, env, s, "model", 0, false);
    forall i | 0 < i < |o.visits|
      ensures IsHop(cfg, o.visits[i - 1].step, o.visits[i - 1].node, o.visits[i - 1].state, o.visits[i].node, o.visits[i].state)
    {
      assert Follows(r, o.visits[i - 1], o.visits[i]);
      HopsAreTurns(cfg, o.visits[i - 1].step - 1, o.visits[i - 1].node, o.visits[i - 1].state);
    }
    if o.err.None? {
      var v := o.visits[|o.visits| - 1];
      HopsAreTurns(cfg, v.step - 1, v.node, v.state);
    }
  }

  /** A model turn fails only for a negative watermark, a rejected user message, or the provider's answer. */
  lemma {:induction false} ModelFailsOnlyFor(cfg: Config, step: int, s: State)
    requires ModelNode(cfg, step, s).Fail?
    ensures
      || (|cfg.inputGuards| > 0 && s.inputGuarded < 0)
      || (exists i :: 0 <= i < |s.messages| && s.messages[i].role == User && !Passes(cfg.inputGuards, s.messages[i]))
      || cfg.generate(step, s.messages).Failed?
      || (cfg.generate(step, s.messages).Reply? && !cfg.outputOk(cfg.generate(step, s.messages).message))
  {
    hide Passes;
  }

  lemma {:induction false} ToolsFailOnlyFor(cfg: Config, step: int, s: State)
    requires ToolsNode(cfg, step, s).Fail?
    ensures cfg.tools.None? || |s.messages| == 0 || Last(s.messages).role != Assistant || Last(s.messages).toolCalls == []
  {
  }

  datatype RunErr = ConfigError | GraphError(err: RunError) | MaxIterationsReached

  /** The system prompts that are not empty. */
  function Prompts(system: seq<string>): seq<Message>
  {
    if |system| == 0 then []
    else
      var last := system[|system| - 1];
      Prompts(system[..|system| - 1]) + if last != "" then [SystemMessage(last)] else []
  }

  /** The run of a fresh agent on the prompts and the input. */
  ghost function OneShot(cfg: Config, input: string, system: seq<string>): Outcome<State>
  {
    RunFrom(ReactGraph(cfg), EnvOf(ReactGraph(cfg), Options("", 0, None), null),
            State(Prompts(system) + [UserMessage(input)], "", 0, 0, "", false), "model", 0, false)
  }

  /**
   The one-shot wrapper returns the text that run ends with. No error means an untruncated last turn, which is that
   text when the model answered as the assistant; the step cap is never the error.
   */
  method Run(cfg: Config, input: string, system: seq<string>) returns (text: string, err: Option<RunErr>)
    ensures err == Some(ConfigError) <==> cfg.maxIterations < 0
    ensures
      var o := OneShot(cfg, input, system);
      cfg.maxIterations >= 0 ==>
        && text == o.state.finalText
        && err == (if o.err.Some? then Some(GraphError(o.err.value))
                   else if o.state.stoppedAtCap then Some(MaxIterationsReached) else None)
    ensures
      var final := OneShot(cfg, input, system).state;
      err.None? ==> !final.stoppedAtCap && Complete(final) && text == final.finalText
    ensures err.Some? && err.value.GraphError? ==> !err.value.err.MaxSteps?
  {
    var r := NewReAct(cfg);
    if r.None? {
      return "", Some(ConfigError);
    }
    var msgs := [];
    for i := 0 to |system|
      invariant msgs == Prompts(system[..i])
    {
      assert system[..i + 1][..i] == system[..i];
      if system[i] != "" {
        msgs := msgs + [SystemMessage(system[i])];
      }
    }
    assert system[..|system|] == system;
    var seed := State(msgs + [UserMessage(input)], "", 0, 0, "", false);
    hide RunFrom, ReactGraph;
    var out, e := InvokeWith(r.value, seed, Options("", 0, None), null);
    ghost var env := EnvOf(r.value, Options("", 0, None), null);
    assert FreshSteps(env, cfg) && r.value.entry == "model" by { CapOf(cfg); }
    SoftCapStrikesFirst(cfg, env, seed);
    EndIsComplete(cfg, env, seed);
    if e.Some? {
      return out.finalText, Some(GraphError(e.value));
    }
    if out.stoppedAtCap {
      return out.finalText, Some(MaxIterationsReached);
    }
    return out.finalText, None;
  }

  lemma {:induction false} CapOf(cfg: Config)
    ensures StepCap(ReactGraph(cfg), Options("", 0, None)) == MaxIter(cfg) * 3 + 4 && ReactGraph(cfg).entry == "model"
  {
  }
}
