/** What one activation of a swarm agent is: its rounds with the model, one by one (pkg/council/swarm.go:283-375). */
module SwarmActivation {
  import opened Common
  import opened GraphTypes
  import opened GraphOutcomes
  import opened Schema
  import opened Swarm
  import opened SwarmRuns

  /** One round: what the model answered, and the results of its calls. */
  datatype Round = Round(reply: Message, results: seq<Message>)

  function Spoken(rounds: seq<Round>): seq<Message>
  {
    if |rounds| == 0 then []
    else
      var last := rounds[|rounds| - 1];
      Spoken(rounds[..|rounds| - 1]) + [last.reply] + last.results
  }

  /** The shared log without the system messages of others, behind the agent's own. */
  function Shown(a: Agent, log: seq<Message>, rounds: seq<Round>): seq<Message>
  {
    [SystemMessage(a.prompt)] + NonSystem(log) + Spoken(rounds)
  }

  /** Dropping system messages goes message by message. */
  lemma {:induction false} NonSystemFilters(ms: seq<Message>, m: Message)
    ensures NonSystem(ms + [m]) == NonSystem(ms) + if m.role == System then [] else [m]
    ensures NonSystem([]) == []
  {
    if |ms| > 0 {
      assert (ms + [m])[1..] == ms[1..] + [m];
      NonSystemFilters(ms[1..], m);
    } else {
      assert ([] + [m])[1..] == [];
    }
  }

  predicate IsHandoffName(name: string) { |name| > 11 && name[..11] == "handoff_to_" }

  /** A call that hands control to an agent this one declared. */
  predicate HandsOff(a: Agent, c: ToolCall) { IsHandoffName(c.name) && c.name[11..] in a.handoffs }

  /** What a call gets in a turn that hands nothing off: its tool's answer, or a refusal. */
  function Expected(a: Agent, step: int, round: int, c: ToolCall): Message
  {
    Message(Tool, if IsHandoffName(c.name) then "Error: you are not permitted to hand off" else a.execute(step, round, c),
            [], c.id)
  }

  function ExpectedAll(a: Agent, step: int, round: int, calls: seq<ToolCall>): seq<Message>
  {
    if |calls| == 0 then [] else [Expected(a, step, round, calls[0])] + ExpectedAll(a, step, round, calls[1..])
  }

  lemma {:induction false} PrefixIsPrefix(name: string)
    ensures HandoffTarget(name) == if IsHandoffName(name) then Some(name[11..]) else None
  {
    assert |HANDOFF_PREFIX| == 11;
    if IsHandoffName(name) { assert HANDOFF_PREFIX <= name; }
    if HANDOFF_PREFIX <= name { assert name[..11] == HANDOFF_PREFIX; }
  }

  lemma {:induction false} PartitionStep(calls: seq<ToolCall>)
    requires |calls| > 0
    ensures
      var rest, refusal := calls[1..], ToolResultMessage(calls[0].id, "Error: you are not permitted to hand off");
      if IsHandoffName(calls[0].name)
      then RealCalls(calls) == RealCalls(rest) && Rejections(calls) == [refusal] + Rejections(rest)
      else RealCalls(calls) == [calls[0]] + RealCalls(rest) && Rejections(calls) == Rejections(rest)
  {
    hide HandoffTarget, IsHandoffName;
    PrefixIsPrefix(calls[0].name);
  }

  lemma {:induction false} ToolResultsStep(execute: ToolCall -> string, c: ToolCall, rest: seq<ToolCall>)
    ensures ToolResults(execute, [c] + rest) == [Message(Tool, execute(c), [], c.id)] + ToolResults(execute, rest)
  {
  }

  lemma {:induction false} InFront(a: seq<Message>, e: Message, b: seq<Message>)
    ensures multiset(a + ([e] + b)) == multiset{e} + multiset(a + b)
    ensures multiset(([e] + a) + b) == multiset{e} + multiset(a + b)
  {
  }

  lemma {:induction false} OneCallMore(a: Agent, step: int, round: int, calls: seq<ToolCall>)
    requires |calls| > 0
    ensures
      multiset(TurnResults(a, step, round, calls)) ==
        multiset{Expected(a, step, round, calls[0])} + multiset(TurnResults(a, step, round, calls[1..]))
  {
    var execute := (c: ToolCall) => a.execute(step, round, c);
    PartitionStep(calls);
    ToolResultsStep(execute, calls[0], RealCalls(calls[1..]));
    hide IsHandoffName, RealCalls, Rejections, ToolResults;
    InFront(ToolResults(execute, RealCalls(calls[1..])), Expected(a, step, round, calls[0]), Rejections(calls[1..]));
  }

  /** A refused handoff is answered after the tools are, but nothing else is added and nothing is left out. */
  lemma {:induction false} ResultsAreExpected(a: Agent, step: int, round: int, calls: seq<ToolCall>)
    ensures |TurnResults(a, step, round, calls)| == |calls|
    ensures multiset(TurnResults(a, step, round, calls)) == multiset(ExpectedAll(a, step, round, calls))
  {
    hide Expected, ToolResults;
    TurnResultsAnswer(a, step, round, calls);
    if |calls| > 0 {
      OneCallMore(a, step, round, calls);
      ResultsAreExpected(a, step, round, calls[1..]);
      assert ExpectedAll(a, step, round, calls) ==
        [Expected(a, step, round, calls[0])] + ExpectedAll(a, step, round, calls[1..]);
    }
  }

  /** The first declared handoff among the calls decides, and there is none only when none is declared. */
  lemma {:induction false} FirstHandoffDecides(a: Agent, calls: seq<ToolCall>)
    ensures
      match DetectHandoff(calls, a.handoffs)
      case None => forall i :: 0 <= i < |calls| ==> !HandsOff(a, calls[i])
      case Some(target) =>
        exists i :: 0 <= i < |calls| && HandsOff(a, calls[i]) && target == calls[i].name[11..]
          && forall j :: 0 <= j < i ==> !HandsOff(a, calls[j])
  {
    hide HandoffTarget;
    if |calls| > 0 {
      PrefixIsPrefix(calls[0].name);
      FirstHandoffDecides(a, calls[1..]);
      if HandsOff(a, calls[0]) {
        assert DetectHandoff(calls, a.handoffs) == Some(calls[0].name[11..]);
      } else if DetectHandoff(calls[1..], a.handoffs).Some? {
        var i :| 0 <= i < |calls[1..]| && HandsOff(a, calls[1..][i])
          && DetectHandoff(calls[1..], a.handoffs).value == calls[1..][i].name[11..]
          && forall j :: 0 <= j < i ==> !HandsOff(a, calls[1..][j]);
        assert calls[i + 1] == calls[1..][i];
        forall j | 0 <= j < i + 1 ensures !HandsOff(a, calls[j]) {
          if j > 0 { assert calls[j] == calls[1..][j - 1]; }
        }
      } else {
        forall j | 0 <= j < |calls| ensures !HandsOff(a, calls[j]) {
          if j > 0 { assert calls[j] == calls[1..][j - 1]; }
        }
      }
    }
  }

  lemma {:induction false} AcknowledgedAll(calls: seq<ToolCall>, target: string)
    ensures |Acknowledge(calls, target)| == |calls|
  {
    if |calls| > 0 { AcknowledgedAll(calls[1..], target); }
  }

  /** Each call of a turn that hands off is acknowledged, in order: the handoff as such, the others as skipped. */
  lemma {:induction false} AcknowledgedInOrder(calls: seq<ToolCall>, target: string, i: nat)
    requires i < |calls|
    ensures |Acknowledge(calls, target)| == |calls|
    ensures Acknowledge(calls, target)[i] ==
      Message(Tool, if calls[i].name == "handoff_to_" + target then "Control handed off" else "Tool skipped", [], calls[i].id)
  {
    AcknowledgedAll(calls, target);
    var rest := Acknowledge(calls[1..], target);
    assert Acknowledge(calls, target) == [Acknowledgement(calls[0], target)] + rest;
    if i > 0 {
      AcknowledgedInOrder(calls[1..], target, i - 1);
      hide Acknowledge, Acknowledgement;
      assert calls[1..][i - 1] == calls[i] && ([Acknowledgement(calls[0], target)] + rest)[i] == rest[i - 1];
    }
  }

  // ---- Activations ----

  /** A round that keeps control: the model called something, nothing it called hands off, and each call has its result. */
  predicate KeepsControl(a: Agent, step: int, i: int, shown: seq<Message>, r: Round)
  {
    && a.generate(step, i, shown) == Reply(r.reply) && r.reply.toolCalls != []
    && (forall k :: 0 <= k < |r.reply.toolCalls| ==> !HandsOff(a, r.reply.toolCalls[k]))
    && (a.tools.None? ==> forall k :: 0 <= k < |r.reply.toolCalls| ==> IsHandoffName(r.reply.toolCalls[k].name))
    && |r.results| == |r.reply.toolCalls|
    && multiset(r.results) == multiset(ExpectedAll(a, step, i, r.reply.toolCalls))
  }

  /** Rounds that keep control, each shown what was said before. */
  ghost predicate AreRounds(a: Agent, step: int, log: seq<Message>, rounds: seq<Round>)
  {
    && |rounds| <= MaxRounds(a)
    && forall i :: 0 <= i < |rounds| ==> KeepsControl(a, step, i, Shown(a, log, rounds[..i]), rounds[i])
  }

  /** Control goes to the first agent the answer hands off to, and the log is complete. */
  ghost predicate HandedOff(a: Agent, s: State, log: seq<Message>, m: Message, t: State)
  {
    && t == State(t.messages, t.active, s.hops + 1, s.final)
    && |t.messages| == |log| + 1 + |m.toolCalls| && t.messages[..|log| + 1] == log + [m]
    && (exists i :: 0 <= i < |m.toolCalls| && HandsOff(a, m.toolCalls[i]) && t.active == m.toolCalls[i].name[11..]
          && forall j :: 0 <= j < i ==> !HandsOff(a, m.toolCalls[j]))
    && forall i :: 0 <= i < |m.toolCalls| ==>
         t.messages[|log| + 1 + i] ==
           Message(Tool, if m.toolCalls[i].name == "handoff_to_" + t.active then "Control handed off" else "Tool skipped",
                   [], m.toolCalls[i].id)
  }

  /** How an activation ends after its rounds: with the model's next answer, or because there are no rounds left. */
  ghost predicate EndsAs(a: Agent, step: int, s: State, rounds: seq<Round>, result: NodeResult<State>)
  {
    var log := s.messages + Spoken(rounds);
    if |rounds| >= MaxRounds(a) then result == Fail("exhausted MaxIterations")
    else
      match a.generate(step, |rounds|, Shown(a, s.messages, rounds))
      case Failed(reason) => result == Fail(reason)
      case Reply(m) =>
        if m.toolCalls == [] then result == Next(State(log + [m], "", s.hops + 1, m.text))
        else if exists i :: 0 <= i < |m.toolCalls| && HandsOff(a, m.toolCalls[i]) then
          result.Next? && HandedOff(a, s, log, m, result.state)
        else
          && a.tools.None? && (exists i :: 0 <= i < |m.toolCalls| && !IsHandoffName(m.toolCalls[i].name))
          && result == Fail("produced tool calls but has nil Tools")
  }

  lemma {:induction false} RealCallsExactly(calls: seq<ToolCall>)
    ensures |RealCalls(calls)| > 0 <==> exists i :: 0 <= i < |calls| && !IsHandoffName(calls[i].name)
  {
    hide IsHandoffName, HandoffTarget;
    if |calls| > 0 {
      RealCallsExactly(calls[1..]);
      PrefixIsPrefix(calls[0].name);
      if |RealCalls(calls[1..])| > 0 {
        var i :| 0 <= i < |calls[1..]| && !IsHandoffName(calls[1..][i].name);
        assert calls[i + 1] == calls[1..][i];
      } else {
        forall i | 0 < i < |calls| ensures IsHandoffName(calls[i].name) { assert calls[i] == calls[1..][i - 1]; }
      }
    }
  }

  lemma {:induction false} HandoffEnds(a: Agent, s: State, log: seq<Message>, m: Message, target: string)
    requires DetectHandoff(m.toolCalls, a.handoffs) == Some(target)
    ensures HandedOff(a, s, log, m, State(log + [m] + Acknowledge(m.toolCalls, target), target, s.hops + 1, s.final))
    ensures exists i :: 0 <= i < |m.toolCalls| && HandsOff(a, m.toolCalls[i])
  {
    FirstHandoffDecides(a, m.toolCalls);
    AcknowledgeAnswers(m.toolCalls, target);
    hide Acknowledge, DetectHandoff, HandsOff, ResultIds, CallIds;
    var acks := Acknowledge(m.toolCalls, target);
    var all := log + [m] + acks;
    assert all[..|log| + 1] == log + [m];
    forall i | 0 <= i < |m.toolCalls|
      ensures all[|log| + 1 + i] ==
        Message(Tool, if m.toolCalls[i].name == "handoff_to_" + target then "Control handed off" else "Tool skipped", [],
                m.toolCalls[i].id)
    {
      AcknowledgedInOrder(m.toolCalls, target, i);
      assert all[|log| + 1 + i] == acks[i];
    }
  }

  lemma {:induction false} SpokenOneMore(rounds: seq<Round>, r: Round)
    ensures Spoken(rounds + [r]) == Spoken(rounds) + [r.reply] + r.results
  {
    assert (rounds + [r])[..|rounds|] == rounds;
  }

  lemma {:induction false} JoinsOn(a: seq<Message>, b: seq<Message>, c: seq<Message>, d: seq<Message>)
    ensures a + (b + c + d) == a + b + c + d
  {
  }

  lemma {:induction false} OneRoundMore(a: Agent, step: int, log: seq<Message>, rounds: seq<Round>, r: Round)
    requires AreRounds(a, step, log, rounds) && |rounds| < MaxRounds(a)
    requires KeepsControl(a, step, |rounds|, Shown(a, log, rounds), r)
    ensures AreRounds(a, step, log, rounds + [r])
    ensures Spoken(rounds + [r]) == Spoken(rounds) + [r.reply] + r.results
    ensures Shown(a, log, rounds + [r]) == Shown(a, log, rounds) + [r.reply] + r.results
  {
    hide KeepsControl, NonSystem;
    var all := rounds + [r];
    assert all[..|rounds|] == rounds;
    SpokenOneMore(rounds, r);
    assert Shown(a, log, all) == Shown(a, log, rounds) + [r.reply] + r.results by {
      JoinsOn([SystemMessage(a.prompt)] + NonSystem(log), Spoken(rounds), [r.reply], r.results);
    }
    hide Spoken, Shown;
    forall i | 0 <= i < |all| ensures KeepsControl(a, step, i, Shown(a, log, all[..i]), all[i]) {
      if i < |rounds| { assert all[..i] == rounds[..i] && all[i] == rounds[i]; }
    }
  }

  /** From any round on, what is still to come completes the rounds so far to an activation. */
  lemma {:induction false} RoundsTell(a: Agent, step: int, initial: State, done: seq<Round>) returns (rounds: seq<Round>)
    requires AreRounds(a, step, initial.messages, done)
    ensures AreRounds(a, step, initial.messages, rounds)
    ensures
      var s := initial.(hops := initial.hops + 1, messages := initial.messages + Spoken(done));
      EndsAs(a, step, initial, rounds, Rounds(a, step, |done|, s, Shown(a, initial.messages, done)))
    decreases MaxRounds(a) - |done|
  {
    var log := initial.messages;
    var shown := Shown(a, log, done);
    var s := initial.(hops := initial.hops + 1, messages := log + Spoken(done));
    rounds := done;
    hide Shown, Spoken, KeepsControl, HandedOff, TurnResults, NonSystem, Acknowledge, IsHandoffName, HandsOff, RealCalls, AreRounds;
    if |done| < MaxRounds(a) && a.generate(step, |done|, shown).Reply? {
      var m := a.generate(step, |done|, shown).message;
      var target := DetectHandoff(m.toolCalls, a.handoffs);
      FirstHandoffDecides(a, m.toolCalls);
      RealCallsExactly(m.toolCalls);
      if |m.toolCalls| > 0 && target.Some? {
        HandoffEnds(a, initial, log + Spoken(done), m, target.value);
      } else if |m.toolCalls| > 0 && !(|RealCalls(m.toolCalls)| > 0 && a.tools.None?) {
        var results := TurnResults(a, step, |done|, m.toolCalls);
        var r := Round(m, results);
        ResultsAreExpected(a, step, |done|, m.toolCalls);
        assert KeepsControl(a, step, |done|, shown, r) by { Kept(a, step, |done|, shown, r); }
        OneRoundMore(a, step, log, done, r);
        rounds := RoundsTell(a, step, initial, done + [r]);
        assert s.messages + [m] + results == log + Spoken(done + [r]);
      }
    }
  }

  lemma {:induction false} Kept(a: Agent, step: int, i: int, shown: seq<Message>, r: Round)
    requires a.generate(step, i, shown) == Reply(r.reply) && r.reply.toolCalls != []
    requires forall k :: 0 <= k < |r.reply.toolCalls| ==> !HandsOff(a, r.reply.toolCalls[k])
    requires a.tools.None? ==> forall k :: 0 <= k < |r.reply.toolCalls| ==> IsHandoffName(r.reply.toolCalls[k].name)
    requires |r.results| == |r.reply.toolCalls|
    requires multiset(r.results) == multiset(ExpectedAll(a, step, i, r.reply.toolCalls))
    ensures KeepsControl(a, step, i, shown, r)
  {
  }

  /**
   Every activation is such a sequence of rounds: the model is shown its own prompt, the shared log without others'
   prompts and all that was said since, and all of it ends up in the log.
   */
  lemma {:induction false} ActivationTells(a: Agent, step: int, s: State) returns (rounds: seq<Round>)
    ensures AreRounds(a, step, s.messages, rounds) && EndsAs(a, step, s, rounds, AgentNode(a, step, s))
  {
    rounds := RoundsTell(a, step, s, []);
    assert s.messages + Spoken([]) == s.messages;
    assert Shown(a, s.messages, []) == [SystemMessage(a.prompt)] + NonSystem(s.messages);
  }

  /** Control ends with an answer or without anyone active, goes to the trap with the hops used up, or moves on. */
  predicate LeadsTo(cfg: Config, t: State, m: string)
  {
    if t.final != "" || t.active == "" then m == "__end__"
    else if t.hops >= (if cfg.maxHops <= 0 then 8 else cfg.maxHops) || !Named(cfg.agents, t.active)
    then m == "__swarm_trap__"
    else m == t.active
  }

  /** A hop from an agent node is an activation of that agent. */
  lemma {:induction false} HopIsActivation(cfg: Config, k: int, n: string, s: State) returns (a: Agent)
    requires ValidSwarm(cfg) && Named(cfg.agents, n)
    ensures a in cfg.agents && a.name == n
    ensures Advance(SwarmGraph(cfg), k, n, s).Hop? ==>
      var h := Advance(SwarmGraph(cfg), k, n, s);
      AgentNode(a, k + 1, s) == Next(h.state) && LeadsTo(cfg, h.state, h.node)
  {
    hide AgentNodes, AgentNode, AgentOk;
    NamesAreFree(cfg);
    a := AgentOf(cfg.agents, n);
    assert n != TRAP && SwarmGraph(cfg).nodes[n] == AgentFunc(a) && n !in SwarmGraph(cfg).staticEdges;
  }

  /** Each state of a run is what the agent activated before made of the state before it. */
  lemma {:induction false} VisitsAreActivations(cfg: Config, env: Env<State>, s: State, i: nat) returns (a: Agent)
    requires ValidSwarm(cfg)
    requires i < |RunFrom(SwarmGraph(cfg), env, s, cfg.start, 0, false).visits|
    requires RunFrom(SwarmGraph(cfg), env, s, cfg.start, 0, false).visits[i].node != TRAP
    ensures
      var vs := RunFrom(SwarmGraph(cfg), env, s, cfg.start, 0, false).visits;
      && a in cfg.agents && a.name == vs[i].node
      && (i + 1 < |vs| ==>
            AgentNode(a, vs[i].step, vs[i].state) == Next(vs[i + 1].state)
            && LeadsTo(cfg, vs[i + 1].state, vs[i + 1].node))
  {
    var r := SwarmGraph(cfg);
    var vs := RunFrom(r, env, s, cfg.start, 0, false).visits;
    VisitsFollowEdges(r, env, s, cfg.start, 0, false);
    assert vs[i].node in r.nodes by {
      InvariantHolds(r, env, s, cfg.start, 0, false, (k, n, s) => true);
      assert vs[i] in vs;
    }
    assert Named(cfg.agents, vs[i].node);
    hide RunFrom, AgentNode, LeadsTo, ValidSwarm, SwarmGraph, Named;
    a := HopIsActivation(cfg, vs[i].step - 1, vs[i].node, vs[i].state);
    if i + 1 < |vs| {
      assert Follows(r, vs[i], vs[i + 1]);
    }
  }

  /** So is the state a run ends in without an error: the last activation came to an answer. */
  lemma {:induction false} AnswerIsAnActivation(cfg: Config, env: Env<State>, s: State) returns (a: Agent)
    requires ValidSwarm(cfg) && RunFrom(SwarmGraph(cfg), env, s, cfg.start, 0, false).err.None?
    ensures
      var o := RunFrom(SwarmGraph(cfg), env, s, cfg.start, 0, false);
      && |o.visits| > 0
      && var v := o.visits[|o.visits| - 1];
         && a in cfg.agents && a.name == v.node && v.node != TRAP
         && AgentNode(a, v.step, v.state) == Next(o.state) && LeadsTo(cfg, o.state, END)
  {
    var r := SwarmGraph(cfg);
    var o := RunFrom(r, env, s, cfg.start, 0, false);
    NamesAreFree(cfg);
    RunsEndRight(r, env, s, cfg.start, 0, false);
    assert cfg.start != END;
    var v := o.visits[|o.visits| - 1];
    assert v.node in r.nodes;
    assert v.node != TRAP;
    assert Named(cfg.agents, v.node);
    hide RunFrom, AgentNode, LeadsTo, ValidSwarm, SwarmGraph, Named;
    a := HopIsActivation(cfg, v.step - 1, v.node, v.state);
  }
}
