/** What every run of a swarm keeps: answered tool calls, declared handoffs only, and the soft cap. */
module SwarmRuns {
  import opened GraphTypes
  import opened Schema
  import opened Swarm

  // ---- Tool calls are answered ----

  function CallIds(calls: seq<ToolCall>): multiset<string>
  {
    if |calls| == 0 then multiset{} else multiset{calls[0].id} + CallIds(calls[1..])
  }

  function ResultIds(ms: seq<Message>): multiset<string>
  {
    if |ms| == 0 then multiset{} else multiset{ms[0].toolCallId} + ResultIds(ms[1..])
  }

  predicate AllResults(ms: seq<Message>)
  {
    forall i :: 0 <= i < |ms| ==> ms[i].role.Tool? && ms[i].toolCalls == []
  }

  /** The turn at `i` is directly followed by one result for each of its calls. */
  predicate AnsweredAt(ms: seq<Message>, i: nat)
    requires i < |ms|
  {
    var n := |ms[i].toolCalls|;
    && i + n < |ms|
    && AllResults(ms[i + 1..i + 1 + n])
    && ResultIds(ms[i + 1..i + 1 + n]) == CallIds(ms[i].toolCalls)
  }

  predicate WellFormedLog(ms: seq<Message>)
  {
    forall i :: 0 <= i < |ms| && ms[i].toolCalls != [] ==> AnsweredAt(ms, i)
  }

  lemma {:induction false} ResultIdsAppend(a: seq<Message>, b: seq<Message>)
    ensures ResultIds(a + b) == ResultIds(a) + ResultIds(b)
  {
    if |a| == 0 {
      assert a + b == b;
    } else {
      assert (a + b)[1..] == a[1..] + b;
      ResultIdsAppend(a[1..], b);
    }
  }

  lemma {:induction false} AcknowledgeAnswers(calls: seq<ToolCall>, target: string)
    ensures
      var rs := Acknowledge(calls, target);
      |rs| == |calls| && AllResults(rs) && ResultIds(rs) == CallIds(calls)
  {
    if |calls| > 0 {
      AcknowledgeAnswers(calls[1..], target);
      var rs := Acknowledge(calls, target);
      assert rs[1..] == Acknowledge(calls[1..], target);
    }
  }

  lemma {:induction false} ToolResultsAnswer(execute: ToolCall -> string, calls: seq<ToolCall>)
    ensures ResultIds(ToolResults(execute, calls)) == CallIds(calls)
  {
    if |calls| > 0 {
      ToolResultsAnswer(execute, calls[1..]);
      assert ToolResults(execute, calls)[1..] == ToolResults(execute, calls[1..]);
    }
  }

  lemma {:induction false} PartitionShape(calls: seq<ToolCall>)
    ensures |RealCalls(calls)| + |Rejections(calls)| == |calls| && AllResults(Rejections(calls))
  {
    hide HandoffTarget;
    if |calls| > 0 {
      PartitionShape(calls[1..]);
    }
  }

  lemma {:induction false} PartitionIds(calls: seq<ToolCall>)
    ensures CallIds(RealCalls(calls)) + ResultIds(Rejections(calls)) == CallIds(calls)
  {
    hide HandoffTarget;
    if |calls| > 0 {
      var rest := calls[1..];
      PartitionIds(rest);
      PartitionHead(calls);
      hide CallIds, ResultIds, RealCalls, Rejections;
      assert CallIds(calls) == multiset{calls[0].id} + CallIds(rest);
    }
  }

  lemma {:induction false} PartitionHead(calls: seq<ToolCall>)
    requires |calls| > 0
    ensures CallIds(calls) == multiset{calls[0].id} + CallIds(calls[1..])
    ensures HandoffTarget(calls[0].name).Some? ==>
      && CallIds(RealCalls(calls)) == CallIds(RealCalls(calls[1..]))
      && ResultIds(Rejections(calls)) == multiset{calls[0].id} + ResultIds(Rejections(calls[1..]))
    ensures HandoffTarget(calls[0].name).None? ==>
      && CallIds(RealCalls(calls)) == multiset{calls[0].id} + CallIds(RealCalls(calls[1..]))
      && ResultIds(Rejections(calls)) == ResultIds(Rejections(calls[1..]))
  {
    hide HandoffTarget;
    if HandoffTarget(calls[0].name).Some? {
      assert Rejections(calls)[1..] == Rejections(calls[1..]);
    } else {
      assert RealCalls(calls)[1..] == RealCalls(calls[1..]);
    }
  }

  /** Refused handoffs and domain tools together: still one result per call. */
  lemma {:induction false} TurnResultsAnswer(a: Agent, step: int, round: int, calls: seq<ToolCall>)
    ensures
      var rs := TurnResults(a, step, round, calls);
      |rs| == |calls| && AllResults(rs) && ResultIds(rs) == CallIds(calls)
  {
    var execute := (c: ToolCall) => a.execute(step, round, c);
    hide CallIds, ResultIds, RealCalls, Rejections;
    PartitionShape(calls);
    PartitionIds(calls);
    ToolResultsAnswer(execute, RealCalls(calls));
    ResultIdsAppend(ToolResults(execute, RealCalls(calls)), Rejections(calls));
  }

  /** A turn and the results of its calls can be appended to a well-formed log. */
  lemma {:induction false} AppendTurn(ms: seq<Message>, m: Message, results: seq<Message>)
    requires WellFormedLog(ms)
    requires |results| == |m.toolCalls| && AllResults(results) && ResultIds(results) == CallIds(m.toolCalls)
    ensures WellFormedLog(ms + [m] + results)
  {
    hide ResultIds, CallIds;
    var out := ms + [m] + results;
    assert forall i :: |ms| < i < |out| ==> out[i] == results[i - |ms| - 1] && out[i].toolCalls == [];
    forall i | 0 <= i < |out| && out[i].toolCalls != [] ensures AnsweredAt(out, i) {
      if i < |ms| {
        assert AnsweredAt(ms, i);
        var n := |ms[i].toolCalls|;
        assert out[i + 1..i + 1 + n] == ms[i + 1..i + 1 + n];
      } else {
        assert out[i + 1..i + 1 + |results|] == results;
      }
    }
  }

  lemma {:induction false} RoundsKeepLog(a: Agent, step: int, round: int, s: State, msgs: seq<Message>)
    requires WellFormedLog(s.messages) && Rounds(a, step, round, s, msgs).Next?
    ensures WellFormedLog(Rounds(a, step, round, s, msgs).state.messages)
    decreases MaxRounds(a) - round
  {
    var m := a.generate(step, round, msgs).message;
    var s1 := s.(messages := s.messages + [m]);
    var target := DetectHandoff(m.toolCalls, a.handoffs);
    if |m.toolCalls| == 0 {
      AppendTurn(s.messages, m, []);
      assert s1.messages + [] == s1.messages;
    } else if target.Some? {
      AcknowledgeAnswers(m.toolCalls, target.value);
      AppendTurn(s.messages, m, Acknowledge(m.toolCalls, target.value));
    } else {
      var results := TurnResults(a, step, round, m.toolCalls);
      TurnResultsAnswer(a, step, round, m.toolCalls);
      AppendTurn(s.messages, m, results);
      RoundsKeepLog(a, step, round + 1, s1.(messages := s1.messages + results), msgs + [m] + results);
    }
  }

  lemma {:induction false} AgentOf(agents: seq<Agent>, n: string) returns (a: Agent)
    requires Named(agents, n)
    requires forall i, j :: 0 <= i < j < |agents| ==> agents[i].name != agents[j].name
    ensures a in agents && a.name == n && AgentNodes(agents)[n] == AgentFunc(a)
    decreases |agents|
  {
    var last := agents[|agents| - 1];
    if last.name == n {
      a := last;
    } else {
      var front := agents[..|agents| - 1];
      var i :| 0 <= i < |agents| && agents[i].name == n;
      assert front[i].name == n;
      a := AgentOf(front, n);
    }
  }

  /** Every state the swarm commits keeps its log well formed, handed off, refused or neither. */
  lemma {:induction false} CommittedLogsAreWellFormed(cfg: Config, env: Env<State>, s: State)
    requires ValidSwarm(cfg) && WellFormedLog(s.messages)
    ensures
      var o := RunFrom(SwarmGraph(cfg), env, s, cfg.start, 0, false);
      WellFormedLog(o.state.messages) && forall v :: v in o.visits ==> WellFormedLog(v.state.messages)
  {
    hide RunFrom, Rounds, AgentNodes, WellFormedLog, NonSystem;
    var r := SwarmGraph(cfg);
    var prop := (s: State) => WellFormedLog(s.messages);
    forall n, k, s | n in r.nodes && prop(s) && r.nodes[n](k, s).Next? ensures prop(r.nodes[n](k, s).state) {
      if n != TRAP {
        var a := AgentOf(cfg.agents, n);
        var s1 := s.(hops := s.hops + 1);
        RoundsKeepLog(a, k, 0, s1, [SystemMessage(a.prompt)] + NonSystem(s.messages));
      }
    }
    StatePropertyHolds(r, env, s, cfg.start, 0, false, prop);
  }

  // ---- Control moves along declared handoffs, and within the soft cap ----

  /** How an activation of `a` that does not fail can leave the state. */
  ghost predicate Activated(a: Agent, before: State, after: State)
  {
    && after.hops == before.hops
    && |after.messages| > |before.messages|
    && (if after.active == "" then Last(after.messages).toolCalls == [] && after.final == Last(after.messages).text
        else after.active in a.handoffs && after.final == before.final)
  }

  lemma {:induction false} RoundsActivate(a: Agent, step: int, round: int, s: State, msgs: seq<Message>)
    requires Rounds(a, step, round, s, msgs).Next?
    ensures Activated(a, s, Rounds(a, step, round, s, msgs).state)
    decreases MaxRounds(a) - round
  {
    var m := a.generate(step, round, msgs).message;
    var s1 := s.(messages := s.messages + [m]);
    var target := DetectHandoff(m.toolCalls, a.handoffs);
    if |m.toolCalls| > 0 && target.None? {
      var results := TurnResults(a, step, round, m.toolCalls);
      RoundsActivate(a, step, round + 1, s1.(messages := s1.messages + results), msgs + [m] + results);
    }
  }

  /** One hop from an agent node of a valid swarm. */
  lemma {:induction false} AgentHop(cfg: Config, k: int, n: string, s: State) returns (a: Agent)
    requires ValidSwarm(cfg) && Named(cfg.agents, n) && Advance(SwarmGraph(cfg), k, n, s).Hop?
    ensures a in cfg.agents && a.name == n && HandoffsOk(cfg.agents, a)
    ensures
      var h := Advance(SwarmGraph(cfg), k, n, s);
      && Activated(a, s.(hops := s.hops + 1), h.state) && h.node == Route(cfg, h.state)
      && (h.state.active != "" ==> Named(cfg.agents, h.state.active))
  {
    hide AgentNodes, Rounds, AgentOk;
    NamesAreFree(cfg);
    a := AgentOf(cfg.agents, n);
    var s1 := s.(hops := s.hops + 1);
    assert n != TRAP && SwarmGraph(cfg).nodes[n] == AgentFunc(a) && n !in SwarmGraph(cfg).staticEdges;
    RoundsActivate(a, k + 1, 0, s1, [SystemMessage(a.prompt)] + NonSystem(s.messages));
    assert HandoffsOk(cfg.agents, a);
  }

  /** The sequence of activated agents is a path in the declared handoff graph. */
  lemma {:induction false} ActivationsFollowHandoffs(cfg: Config, env: Env<State>, s: State, i: nat)
    requires ValidSwarm(cfg)
    ensures
      var vs := RunFrom(SwarmGraph(cfg), env, s, cfg.start, 0, false).visits;
      && (|vs| > 0 ==> vs[0].node == cfg.start)
      && (0 < i < |vs| && vs[i].node != TRAP ==>
            exists a :: a in cfg.agents && a.name == vs[i - 1].node && vs[i].node in a.handoffs)
  {
    hide RunFrom;
    var r := SwarmGraph(cfg);
    VisitsFollowEdges(r, env, s, cfg.start, 0, false);
    var vs := RunFrom(r, env, s, cfg.start, 0, false).visits;
    if 0 < i < |vs| && vs[i].node != TRAP {
      var v, w := vs[i - 1], vs[i];
      assert Follows(r, v, w);
      InvariantHolds(r, env, s, cfg.start, 0, false, (k, n, s) => true);
      assert v in vs && w in vs;
      var a := AgentHop(cfg, v.step - 1, v.node, v.state);
    }
  }

  /** The control points of a swarm run that began with `base` hops; `blank` when it began without an answer. */
  ghost predicate OnSchedule(cfg: Config, base: int, blank: bool, k: int, n: string, s: State)
  {
    && (Named(cfg.agents, n) ==>
          s.hops == base + k && (k == 0 || s.hops < MaxHops(cfg)) && (blank ==> s.final == ""))
    && (n == TRAP ==>
          && s.hops >= MaxHops(cfg) && s.final == "" && Named(cfg.agents, s.active)
          && s.hops == base + k && (k <= 1 || s.hops == MaxHops(cfg)))
    && (n == END && blank ==>
          |s.messages| > 0 && Last(s.messages).toolCalls == [] && s.final == Last(s.messages).text)
    && (n == END || n == TRAP || Named(cfg.agents, n))
  }

  lemma {:induction false} SwarmSchedule(cfg: Config, base: int, blank: bool)
    requires ValidSwarm(cfg)
    ensures Inductive(SwarmGraph(cfg), (k, n, s) => OnSchedule(cfg, base, blank, k, n, s))
  {
    var r := SwarmGraph(cfg);
    NamesAreFree(cfg);
    forall k, n, s | OnSchedule(cfg, base, blank, k, n, s) && n != END && Advance(r, k, n, s).Hop?
      ensures OnSchedule(cfg, base, blank, k + 1, Advance(r, k, n, s).node, Advance(r, k, n, s).state)
    {
      if n != TRAP {
        var a := AgentHop(cfg, k, n, s);
        hide AgentNode;
      }
    }
  }

  /**
   From a non-negative hop count: the step cap is never what ends the run. Each activation counts one hop, and none but
   the first begins with the hops used up; the trap does, and never meets an unknown target. If there was no answer yet, a run without an error ends in a turn without tool calls, whose text is
   the answer.
   */
  lemma {:induction false} SwarmRunsEndWell(cfg: Config, env: Env<State>, s: State)
    requires ValidSwarm(cfg) && env.maxSteps == MaxHops(cfg) * 4 + 4 && s.hops >= 0
    ensures
      var o := RunFrom(SwarmGraph(cfg), env, s, cfg.start, 0, false);
      && (o.err.Some? ==> !o.err.value.MaxSteps?)
      && (forall v :: v in o.visits && v.node != TRAP ==>
            v.state.hops == s.hops + v.step - 1 && (v.step == 1 || v.state.hops < MaxHops(cfg)))
      && (forall v :: v in o.visits && v.node == TRAP ==>
            && v.state.hops >= MaxHops(cfg) && v.state.final == "" && Named(cfg.agents, v.state.active)
            && TrapNode(cfg.agents, v.state) == Fail("council: max hops exceeded without a final answer"))
      && (s.final == "" && o.err.None? ==>
            |o.state.messages| > 0 && Last(o.state.messages).toolCalls == [] && o.state.final == Last(o.state.messages).text)
  {
    hide RunFrom;
    var blank := s.final == "";
    SwarmSchedule(cfg, s.hops, blank);
    var base := s.hops;
    NamesAreFree(cfg);
    InvariantHolds(SwarmGraph(cfg), env, s, cfg.start, 0, false, (k, n, s) => OnSchedule(cfg, base, blank, k, n, s));
  }
}
