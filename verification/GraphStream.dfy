/** The streaming executor of pkg/graph/runnable.go, with a consumer that drains it and no cancellation. */
module GraphStream {
  import opened Common
  import opened GraphTypes
  import opened GraphRun

  datatype Event<S> =
    | RunStart(node: string, state: S)
    | NodeStart(node: string, state: S, step: int)
    | NodeEnd(node: string, state: S, step: int)
    | EdgeTraversed(node: string, state: S, step: int)
    | RunEnd(node: string, state: S, step: int)
    | Error(err: RunError)

  /** What is announced while one node executes: its start, and as much of its end as it got to. */
  ghost function NodeEvents<S>(r: Runnable<S>, v: Visit<S>): seq<Event<S>>
  {
    var start := [NodeStart(v.node, v.state, v.step)];
    if v.node !in r.nodes then start else
    match r.nodes[v.node](v.step, v.state)
    case Fail(_) => start
    case Next(out) =>
      match ResolveNext(r, v.node, out)
      case Stuck(_) => start + [NodeEnd(v.node, out, v.step)]
      case To(node) => start + [NodeEnd(v.node, out, v.step), EdgeTraversed(node, out, v.step)]
  }

  ghost function VisitEvents<S>(r: Runnable<S>, visits: seq<Visit<S>>): seq<Event<S>>
  {
    if |visits| == 0 then [] else NodeEvents(r, visits[0]) + VisitEvents(r, visits[1..])
  }

  ghost function LastEvent<S>(o: Outcome<S>): Event<S>
  {
    if o.err.Some? then Error(o.err.value) else RunEnd(END, o.state, |o.visits|)
  }

  /** The whole event list of a run. */
  ghost function EventsOf<S>(r: Runnable<S>, initial: S, o: Outcome<S>): seq<Event<S>>
  {
    [RunStart(r.entry, initial)] + VisitEvents(r, o.visits) + [LastEvent(o)]
  }

  lemma {:induction false} VisitEventsAppend<S>(r: Runnable<S>, a: seq<Visit<S>>, b: seq<Visit<S>>)
    ensures VisitEvents(r, a + b) == VisitEvents(r, a) + VisitEvents(r, b)
  {
    if |a| == 0 {
      assert a + b == b;
    } else {
      assert (a + b)[1..] == a[1..] + b;
      VisitEventsAppend(r, a[1..], b);
    }
  }

  /** One round of runStream's loop. The step counter is bumped before the node, not after the turn. */
  method StreamTurn<S>(r: Runnable<S>, state: S, next: string, step: int, maxSteps: int, runId: string,
                       cp: MemoryCheckpointer?<S>, ghost env: Env<S>, ghost before: History<S>,
                       ghost saved: seq<Checkpoint<S>>)
    returns (end: End<S>, step': int, events: seq<Event<S>>)
    requires env.saving == (cp != null) && (cp != null ==> env.copies == cp.copies)
    requires env.runId == runId && env.maxSteps == maxSteps
    requires HistoryIs(cp, before, saved)
    modifies cp
    ensures
      var t := TurnAt(r, env, state, next, step, false);
      && end == t.end && HistoryIs(cp, before, saved + t.saved)
      && (end.Go? ==> step' == step + 1 && events == VisitEvents(r, t.visits))
      && (end.Stop? ==>
            var last := if end.err.Some? then Error(end.err.value) else RunEnd(END, end.state, step);
            events == VisitEvents(r, t.visits) + [last])
  {
    assert saved + [] == saved;
    step', events := step, [];
    if next == END {
      var ok := SaveCheckpoint(cp, runId, step, END, state, EndReason, env, before, saved);
      if !ok {
        return Stop(state, Some(SaveFailed)), step', [Error(SaveFailed)];
      }
      return Stop(state, None), step', [RunEnd(END, state, step)];
    }
    if step >= maxSteps {
      return Stop(state, Some(MaxSteps(maxSteps))), step', [Error(MaxSteps(maxSteps))];
    }
    if next in r.interruptBefore {
      var ok := SaveCheckpoint(cp, runId, step + 1, next, state, InterruptReason, env, before, saved);
      var err := if ok then Interrupted(next) else SaveFailed;
      return Stop(state, Some(err)), step', [Error(err)];
    }
    step' := step + 1;
    if next !in r.nodes {
      return Stop(state, Some(UnknownNode(next))), step', [Error(UnknownNode(next))];
    }
    var ok := SaveCheckpoint(cp, runId, step', next, state, StepReason, env, before, saved);
    if !ok {
      return Stop(state, Some(SaveFailed)), step', [Error(SaveFailed)];
    }
    events := events + [NodeStart(next, state, step')];
    ghost var visit := Visit(step + 1, next, state);
    assert VisitEvents(r, [visit]) == NodeEvents(r, visit);
    match r.nodes[next](step', state) {
      case Fail(reason) =>
        return Stop(state, Some(NodeFailed(next, reason))), step', events + [Error(NodeFailed(next, reason))];
      case Next(out) =>
        events := events + [NodeEnd(next, out, step')];
        match ResolveNext(r, next, out) {
          case Stuck(err) =>
            return Stop(out, Some(err)), step', events + [Error(err)];
          case To(node) =>
            return Go(node, out), step', events + [EdgeTraversed(node, out, step')];
        }
    }
  }

  lemma {:induction false} StopEvents<S>(r: Runnable<S>, initial: S, before: seq<Visit<S>>, last: seq<Visit<S>>, o: Outcome<S>, event: Event<S>)
    requires o.visits == before + last && event == LastEvent(o)
    ensures [RunStart(r.entry, initial)] + VisitEvents(r, before) + (VisitEvents(r, last) + [event]) == EventsOf(r, initial, o)
  {
    VisitEventsAppend(r, before, last);
  }

  /** StreamWith: the same saves as InvokeWith, and an event list that tells the same run. */
  method RunStream<S>(r: Runnable<S>, initial: S, opts: Options<S>, cp: MemoryCheckpointer?<S>)
    returns (events: seq<Event<S>>)
    modifies cp
    ensures cp != null && opts.runId == "" ==>
      events == [Error(CheckpointerMissingRunID)] && cp.history == old(cp.history)
    ensures !(cp != null && opts.runId == "") ==>
      var o := RunFrom(r, EnvOf(r, opts, cp), initial, r.entry, 0, false);
      events == EventsOf(r, initial, o) && HistoryIs(cp, old(HistoryOf(cp)), o.saved)
  {
    hide VisitEvents, NodeEvents, EventsOf, TurnAt, SaveAll;
    if cp != null && opts.runId == "" {
      return [Error(CheckpointerMissingRunID)];
    }
    events := [RunStart(r.entry, initial)];
    var state, next, step := initial, r.entry, 0;
    var maxSteps := StepCap(r, opts);
    ghost var env := EnvOf(r, opts, cp);
    ghost var before := HistoryOf(cp);
    ghost var saved: seq<Checkpoint<S>>, visits: seq<Visit<S>> := [], [];
    NothingYet(r, before, if cp == null then 0 else cp.limit, RunFrom(r, env, initial, r.entry, 0, false));
    while true
      invariant RunFrom(r, env, initial, r.entry, 0, false) ==
                Prepend(saved, visits, RunFrom(r, env, state, next, step, false))
      invariant HistoryIs(cp, before, saved)
      invariant events == [RunStart(r.entry, initial)] + VisitEvents(r, visits) && step == |visits|
      decreases Left(maxSteps, step)
    {
      ghost var t := TurnAt(r, env, state, next, step, false);
      TurnShape(r, env, state, next, step);
      var end, step', more := StreamTurn(r, state, next, step, maxSteps, opts.runId, cp, env, before, saved);
      VisitEventsAppend(r, visits, t.visits);
      if end.Stop? {
        ghost var o := Outcome(end.state, end.err, saved + t.saved, visits + t.visits);
        StopEvents(r, initial, visits, t.visits, o, if end.err.Some? then Error(end.err.value) else RunEnd(END, end.state, step));
        events := events + more;
        return;
      }
      events := events + more;
      PrependTwice(saved, visits, t.saved, t.visits, RunFrom(r, env, end.state, end.node, step + 1, false));
      saved, visits := saved + t.saved, visits + t.visits;
      state, next, step := end.state, end.node, step';
    }
  }

  lemma {:induction false} NothingYet<S>(r: Runnable<S>, h: History<S>, limit: nat, o: Outcome<S>)
    ensures SaveAll(h, limit, []) == h && VisitEvents(r, []) == [] && Prepend([], [], o) == o
  {
  }

  /** A turn executes one node if it goes on, and none if it ends the run without an error. */
  lemma {:induction false} TurnShape<S>(r: Runnable<S>, env: Env<S>, state: S, next: string, step: int)
    ensures
      var t := TurnAt(r, env, state, next, step, false);
      && (t.end.Go? ==> |t.visits| == 1 && step < env.maxSteps)
      && (t.end.Stop? && t.end.err.None? ==> t.visits == [])
  {
  }

  // ---- The shape of every event list ----

  /**
   Where a reader of the stream is: before RunStart, between nodes, inside one, past one, or done. It knows the graph,
   and so what each event must say.
   */
  datatype Phase<S> =
    | Fresh
    | AtHop(node: string, state: S, step: int)
    | InNode(node: string, state: S, step: int)
    | PastNode(node: string, state: S, step: int)
    | Closed
    | Broken

  /** An error that can end a run between nodes. */
  predicate StopsAtHop(err: RunError, node: string)
  {
    err.MaxSteps? || err.SaveFailed? || err == Interrupted(node) || err == UnknownNode(node)
  }

  /**
   RunStart (NodeStart NodeEnd EdgeTraversed)* RunEnd, or a prefix of that and one Error: a node starts with the state
   and number of the hop to it and ends with its own result, an edge leads where it resolves to, and an error is the one
   to be expected where it stands.
   */
  ghost function Read<S>(r: Runnable<S>, p: Phase<S>, e: Event<S>): Phase<S>
  {
    match p
    case Fresh => if e.RunStart? then AtHop(e.node, e.state, 0) else Broken
    case AtHop(n, s, k) =>
      if e == NodeStart(n, s, k + 1) then InNode(n, s, k + 1)
      else if (n == END && e == RunEnd(END, s, k)) || (e.Error? && StopsAtHop(e.err, n)) then Closed
      else Broken
    case InNode(n, s, k) =>
      if n !in r.nodes then Broken
      else if e.NodeEnd? && e.node == n && e.step == k && r.nodes[n](k, s) == Next(e.state) then PastNode(n, e.state, k)
      else if e.Error? && e.err.NodeFailed? && e.err.node == n && r.nodes[n](k, s) == Fail(e.err.reason) then Closed
      else Broken
    case PastNode(n, s, k) =>
      if e.EdgeTraversed? && e.state == s && e.step == k && ResolveNext(r, n, s) == To(e.node) then AtHop(e.node, s, k)
      else if e.Error? && ResolveNext(r, n, s) == Stuck(e.err) then Closed
      else Broken
    case _ => Broken
  }

  ghost function ReadAll<S>(r: Runnable<S>, p: Phase<S>, es: seq<Event<S>>): Phase<S>
    decreases |es|
  {
    if |es| == 0 then p else ReadAll(r, Read(r, p, es[0]), es[1..])
  }

  lemma {:induction false} ReadAllAppends<S>(r: Runnable<S>, p: Phase<S>, a: seq<Event<S>>, b: seq<Event<S>>)
    ensures ReadAll(r, p, a + b) == ReadAll(r, ReadAll(r, p, a), b)
    decreases |a|
  {
    if |a| == 0 {
      assert a + b == b;
    } else {
      assert (a + b)[1..] == a[1..] + b;
      ReadAllAppends(r, Read(r, p, a[0]), a[1..], b);
    }
  }

  lemma {:induction false} ReadNode<S>(r: Runnable<S>, v: Visit<S>)
    requires v.node in r.nodes
    ensures
      var p := ReadAll(r, AtHop(v.node, v.state, v.step - 1), NodeEvents(r, v));
      match r.nodes[v.node](v.step, v.state)
      case Fail(_) => p == InNode(v.node, v.state, v.step)
      case Next(out) => (match ResolveNext(r, v.node, out)
                         case Stuck(_) => p == PastNode(v.node, out, v.step)
                         case To(node) => p == AtHop(node, out, v.step))
  {
    var e := NodeEvents(r, v);
    var p := AtHop(v.node, v.state, v.step - 1);
    if |e| == 1 {
      assert e == e[..1] + [] + [];
      ReadAllOfThree(r, p, e[..1], [], []);
    } else if |e| == 2 {
      assert e == e[..1] + e[1..] + [];
      ReadAllOfThree(r, p, e[..1], e[1..], []);
    } else {
      assert e == e[..1] + e[1..2] + e[2..];
      ReadAllOfThree(r, p, e[..1], e[1..2], e[2..]);
    }
  }

  lemma {:induction false} ReadAllOfThree<S>(
      r: Runnable<S>, p: Phase<S>, a: seq<Event<S>>, b: seq<Event<S>>, c: seq<Event<S>>)
    requires |a| == 1 && |b| <= 1 && |c| <= 1
    ensures
      var p1 := Read(r, p, a[0]);
      var p2 := if |b| == 1 then Read(r, p1, b[0]) else p1;
      ReadAll(r, p, a + b + c) == if |c| == 1 then Read(r, p2, c[0]) else p2
  {
    ReadAllAppends(r, p, a + b, c);
    ReadAllAppends(r, p, a, b);
  }

  /** The last event of a run that began at step `step`. */
  ghost function Closing<S>(o: Outcome<S>, step: int): Event<S>
  {
    if o.err.Some? then Error(o.err.value) else RunEnd(END, o.state, step + |o.visits|)
  }

  lemma {:induction false} ReadTurn<S>(r: Runnable<S>, env: Env<S>, state: S, next: string, step: int)
    ensures
      var t := TurnAt(r, env, state, next, step, false);
      var p := ReadAll(r, AtHop(next, state, step), VisitEvents(r, t.visits));
      match t.end
      case Go(node, out) => p == AtHop(node, out, step + 1)
      case Stop(final, err) =>
        Read(r, p, Closing(Outcome(final, err, t.saved, t.visits), step)) == Closed
  {
    var t := TurnAt(r, env, state, next, step, false);
    if t.visits != [] {
      var v := t.visits[0];
      assert t.visits[1..] == [];
      assert VisitEvents(r, t.visits) == NodeEvents(r, v);
      ReadNode(r, v);
    }
  }

  /** Reading the events of a run from its first hop on, its last event closes the stream. */
  lemma {:induction false} TailIsWellFormed<S>(r: Runnable<S>, env: Env<S>, state: S, next: string, step: int)
    ensures
      var o := RunFrom(r, env, state, next, step, false);
      Read(r, ReadAll(r, AtHop(next, state, step), VisitEvents(r, o.visits)), Closing(o, step)) == Closed
    decreases Left(env.maxSteps, step)
  {
    hide VisitEvents, NodeEvents, ReadAll, Read, TurnAt;
    TurnShape(r, env, state, next, step);
    ReadTurn(r, env, state, next, step);
    var t := TurnAt(r, env, state, next, step, false);
    if t.end.Go? {
      var rest := RunFrom(r, env, t.end.state, t.end.node, step + 1, false);
      TailIsWellFormed(r, env, t.end.state, t.end.node, step + 1);
      VisitEventsAppend(r, t.visits, rest.visits);
      ReadAllAppends(r, AtHop(next, state, step), VisitEvents(r, t.visits), VisitEvents(r, rest.visits));
    }
  }

  /**
   Every run's event list has the documented shape, ends with its only RunEnd or Error, and says of every node and edge
   what the graph does there.
   */
  lemma {:induction false} StreamIsWellFormed<S>(r: Runnable<S>, env: Env<S>, initial: S)
    ensures
      var events := EventsOf(r, initial, RunFrom(r, env, initial, r.entry, 0, false));
      events[0] == RunStart(r.entry, initial) && ReadAll(r, Fresh, events) == Closed
  {
    var o := RunFrom(r, env, initial, r.entry, 0, false);
    var start: seq<Event<S>>, middle, last := [RunStart(r.entry, initial)], VisitEvents(r, o.visits), [LastEvent(o)];
    TailIsWellFormed(r, env, initial, r.entry, 0);
    ReadAllAppends(r, Fresh, start + middle, last);
    ReadAllAppends(r, Fresh, start, middle);
    assert start[1..] == [] && last[1..] == [];
  }
}
