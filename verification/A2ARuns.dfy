/** What holds in every run of the A2A server, for every interleaving of sends, gets and evictions. */
module A2ARuns {
  import opened Common
  import opened A2ATask
  import opened A2AProtocol

  /** A send whose handler is running: its entry is stored under its id, in state Working, and is its own. */
  lemma {:induction false} RunningTaskIsStored(maxTasks: nat, states: seq<Sys>, events: seq<Event>, i: nat, tid: nat)
    requires IsRun(maxTasks, states, events) && i < |states|
    requires tid in states[i].requests && states[i].requests[tid].Running?
    ensures
      var s := states[i];
      var r := s.requests[tid];
      && r.e < |s.entries| && s.entries[r.e].task.state == Working && s.entries[r.e].holder == Some(tid)
      && s.entries[r.e].key in s.tasks && s.tasks[s.entries[r.e].key] == r.e
      && (r.p.id != "" ==> s.entries[r.e].key == r.p.id)
  {
    RunKeepsInv(maxTasks, states, events, i);
    assert RequestOk(states[i], tid);
    assert EntryOk(states[i], states[i].requests[tid].e);
  }

  /** At most one handler per task id, even when ids are evicted and created again. */
  lemma {:induction false} OneHandlerPerId(maxTasks: nat, states: seq<Sys>, events: seq<Event>, i: nat, t1: nat, t2: nat)
    requires IsRun(maxTasks, states, events) && i < |states|
    requires t1 in states[i].requests && states[i].requests[t1].Running?
    requires t2 in states[i].requests && states[i].requests[t2].Running?
    ensures
      var s := states[i];
      var e1, e2 := s.requests[t1].e, s.requests[t2].e;
      e1 < |s.entries| && e2 < |s.entries| && (s.entries[e1].key == s.entries[e2].key ==> t1 == t2)
  {
    RunningTaskIsStored(maxTasks, states, events, i, t1);
    RunningTaskIsStored(maxTasks, states, events, i, t2);
  }

  lemma {:induction false} StoreIsBounded(maxTasks: nat, states: seq<Sys>, events: seq<Event>, i: nat)
    requires IsRun(maxTasks, states, events) && i < |states|
    ensures |states[i].tasks| <= maxTasks
  {
    RunKeepsInv(maxTasks, states, events, i);
  }

  /** A step that takes an id away from an entry finds that entry terminal. */
  lemma {:induction false} EvictionDropsOnlyTerminal(s: Sys, ev: Event, k: string)
    requires Inv(s) && Enabled(s, ev) && k in s.tasks
    requires k !in Apply(s, ev).tasks || Apply(s, ev).tasks[k] != s.tasks[k]
    ensures s.tasks[k] < |s.entries| && IsTerminal(s.entries[s.tasks[k]].task.state)
  {
    assert RequestOk(s, ev.tid);
  }

  /** The id an eviction takes away belongs to the oldest of the tasks it found terminal. */
  lemma {:induction false} EvictionTakesTheOldest(s: Sys, ev: Event, k: string)
    requires Inv(s) && Enabled(s, ev) && k in s.tasks && k !in Apply(s, ev).tasks
    ensures ev.EvictAndCreate?
    ensures
      var seen := s.requests[ev.tid].seen;
      k in seen && forall id :: id in seen ==>
        && id in s.tasks && IsTerminal(s.entries[s.tasks[id]].task.state)
        && s.entries[s.tasks[k]].updated <= s.entries[s.tasks[id]].updated
  {
    assert RequestOk(s, ev.tid);
  }

  /** One step changes a task only along the life cycle; a terminal one not at all. */
  lemma {:induction false} StepFollowsLifeCycle(s: Sys, ev: Event, e: nat)
    requires Inv(s) && Enabled(s, ev) && e < |s.entries|
    ensures e < |Apply(s, ev).entries|
    ensures Apply(s, ev).entries[e].key == s.entries[e].key
    ensures Apply(s, ev).entries[e].task == s.entries[e].task
         || LegalMove(s.entries[e].task.state, Apply(s, ev).entries[e].task.state)
    ensures IsTerminal(s.entries[e].task.state) ==>
              Apply(s, ev).entries[e].task == s.entries[e].task && Apply(s, ev).entries[e].updated == s.entries[e].updated
  {
    assert EntryOk(s, e);
    if ev.tid in s.requests { assert RequestOk(s, ev.tid); }
  }

  lemma {:induction false} TerminalIsForever(
      maxTasks: nat, states: seq<Sys>, events: seq<Event>, i: nat, j: nat, e: nat)
    requires IsRun(maxTasks, states, events) && i <= j < |states|
    requires e < |states[i].entries| && IsTerminal(states[i].entries[e].task.state)
    ensures e < |states[j].entries| && states[j].entries[e].task == states[i].entries[e].task
    ensures states[j].entries[e].updated == states[i].entries[e].updated
    decreases j - i
  {
    if i < j {
      TerminalIsForever(maxTasks, states, events, i, j - 1, e);
      RunKeepsInv(maxTasks, states, events, j - 1);
      StepFollowsLifeCycle(states[j - 1], events[j - 1], e);
    }
  }

  // ---- Histories, when handlers only append ----

  /** A handler that keeps every turn it was given. */
  predicate AppendOnly(s: Sys, ev: Event)
    requires Enabled(s, ev)
  {
    ev.CommitTask? ==> s.requests[ev.tid].work.history <= ev.outcome.task.history
  }

  ghost predicate AppendOnlyRun(maxTasks: nat, states: seq<Sys>, events: seq<Event>)
  {
    IsRun(maxTasks, states, events) && forall i :: 0 <= i < |events| ==> AppendOnly(states[i], events[i])
  }

  lemma {:induction false} StepExtendsHistory(s: Sys, ev: Event, e: nat)
    requires Inv(s) && Enabled(s, ev) && AppendOnly(s, ev) && e < |s.entries|
    ensures e < |Apply(s, ev).entries|
    ensures s.entries[e].task.history <= Apply(s, ev).entries[e].task.history
    ensures s.entries[e].accepted <= Apply(s, ev).entries[e].accepted
  {
    if ev.tid in s.requests { assert RequestOk(s, ev.tid); }
  }

  lemma {:induction false} HistoryOnlyGrows(
      maxTasks: nat, states: seq<Sys>, events: seq<Event>, i: nat, j: nat, e: nat)
    requires AppendOnlyRun(maxTasks, states, events) && i <= j < |states| && e < |states[i].entries|
    ensures e < |states[j].entries|
    ensures states[i].entries[e].task.history <= states[j].entries[e].task.history
    ensures states[i].entries[e].accepted <= states[j].entries[e].accepted
    decreases j - i
  {
    if i < j {
      HistoryOnlyGrows(maxTasks, states, events, i, j - 1, e);
      RunKeepsInv(maxTasks, states, events, j - 1);
      StepExtendsHistory(states[j - 1], events[j - 1], e);
    }
  }

  /** Of two full-history reads of one entry, the later reply extends the earlier one. */
  lemma {:induction false} GetsSeeGrowingHistories(
      maxTasks: nat, states: seq<Sys>, events: seq<Event>, i: nat, j: nat, t1: nat, t2: nat)
    requires AppendOnlyRun(maxTasks, states, events) && i < j < |events|
    requires events[i] == GetRead(t1) && events[j] == GetRead(t2)
    requires states[i].requests[t1].limit <= 0 && states[j].requests[t2].limit <= 0
    requires states[i].requests[t1].e == states[j].requests[t2].e
    ensures states[i + 1].requests[t1].Got? && states[j + 1].requests[t2].Got?
    ensures states[i + 1].requests[t1].reply.history <= states[j + 1].requests[t2].reply.history
  {
    HistoryOnlyGrows(maxTasks, states, events, i, j, states[i].requests[t1].e);
  }

  // ---- Each accepted message is in the history exactly once, in the order of the procMu sections ----

  predicate Taken(s: Sys, tid: nat)
  {
    tid in s.requests && (s.requests[tid].Running? || s.requests[tid].Answered?)
  }

  /** The records of one entry: in place, in order, and one per request that was taken. */
  predicate LogOk(s: Sys, e: nat)
    requires e < |s.entries|
  {
    var log, history := s.entries[e].accepted, s.entries[e].task.history;
    && (forall n :: 0 <= n < |log| ==>
          log[n].at < |history| && history[log[n].at] == log[n].message
          && Taken(s, log[n].tid) && s.requests[log[n].tid].e == e && s.requests[log[n].tid].p.message == log[n].message)
    && (forall m, n :: 0 <= m < n < |log| ==> log[m].at < log[n].at && log[m].tid != log[n].tid)
  }

  ghost predicate Logged(s: Sys, tid: nat)
    requires Taken(s, tid) && s.requests[tid].e < |s.entries|
  {
    var log := s.entries[s.requests[tid].e].accepted;
    exists n :: 0 <= n < |log| && log[n].tid == tid
  }

  lemma {:induction false} TakenStays(s: Sys, ev: Event, t: nat)
    requires Enabled(s, ev) && Taken(s, t)
    ensures Taken(Apply(s, ev), t)
    ensures Apply(s, ev).requests[t].e == s.requests[t].e && Apply(s, ev).requests[t].p == s.requests[t].p
  {
  }

  /** The log of an entry grows by one record, of a request not taken before, at the end of the history. */
  lemma {:induction false} LogStep(s: Sys, ev: Event, e: nat)
    requires Inv(s) && Enabled(s, ev) && e < |Apply(s, ev).entries|
    requires e >= |s.entries| || Apply(s, ev).entries[e].accepted != s.entries[e].accepted
    ensures e >= |s.entries| ==> Apply(s, ev).entries[e].accepted == []
    ensures e < |s.entries| ==>
      var s' := Apply(s, ev);
      && !Taken(s, ev.tid) && Taken(s', ev.tid) && s'.requests[ev.tid].e == e
      && var p := s'.requests[ev.tid].p;
         && s'.entries[e].task.history == s.entries[e].task.history + [p.message]
         && s'.entries[e].accepted ==
              s.entries[e].accepted + [Accepted(ev.tid, p.message, |s.entries[e].task.history|)]
  {
  }

  lemma {:induction false} LogStays(s: Sys, ev: Event, e: nat)
    requires Inv(s) && Enabled(s, ev) && AppendOnly(s, ev) && e < |Apply(s, ev).entries|
    requires e < |s.entries| ==> LogOk(s, e)
    ensures LogOk(Apply(s, ev), e)
  {
    var s' := Apply(s, ev);
    if e >= |s.entries| || s'.entries[e].accepted != s.entries[e].accepted { LogStep(s, ev, e); }
    if e < |s.entries| {
      StepExtendsHistory(s, ev, e);
      LogExtends(s, s', e, ev);
    }
  }

  lemma {:induction false} LogExtends(s: Sys, s': Sys, e: nat, ev: Event)
    requires e < |s.entries| && e < |s'.entries| && LogOk(s, e)
    requires Enabled(s, ev) && s' == Apply(s, ev)
    requires s.entries[e].task.history <= s'.entries[e].task.history
    requires var log := s.entries[e].accepted;
      || s'.entries[e].accepted == log
      || (&& !Taken(s, ev.tid) && Taken(s', ev.tid) && s'.requests[ev.tid].e == e
          && s'.entries[e].task.history == s.entries[e].task.history + [s'.requests[ev.tid].p.message]
          && s'.entries[e].accepted ==
               log + [Accepted(ev.tid, s'.requests[ev.tid].p.message, |s.entries[e].task.history|)])
    ensures LogOk(s', e)
  {
    var log, log' := s.entries[e].accepted, s'.entries[e].accepted;
    forall n | 0 <= n < |log'|
      ensures log'[n].at < |s'.entries[e].task.history|
      ensures s'.entries[e].task.history[log'[n].at] == log'[n].message
      ensures Taken(s', log'[n].tid) && s'.requests[log'[n].tid].e == e
      ensures s'.requests[log'[n].tid].p.message == log'[n].message
    {
      if n < |log| {
        assert log'[n] == log[n];
        TakenStays(s, ev, log[n].tid);
      }
    }
  }

  lemma {:induction false} LoggedStays(s: Sys, ev: Event, tid: nat)
    requires Inv(s) && Enabled(s, ev) && AppendOnly(s, ev) && Taken(s, tid)
    requires s.requests[tid].e < |s.entries| && Logged(s, tid)
    ensures Taken(Apply(s, ev), tid)
    ensures Apply(s, ev).requests[tid].e < |Apply(s, ev).entries| && Logged(Apply(s, ev), tid)
  {
    var e := s.requests[tid].e;
    TakenStays(s, ev, tid);
    StepExtendsHistory(s, ev, e);
    var n :| 0 <= n < |s.entries[e].accepted| && s.entries[e].accepted[n].tid == tid;
    assert Apply(s, ev).entries[e].accepted[n].tid == tid;
  }

  lemma {:induction false} TakenIsLogged(s: Sys, ev: Event, tid: nat)
    requires Inv(s) && Enabled(s, ev) && !Taken(s, tid) && Taken(Apply(s, ev), tid)
    ensures Apply(s, ev).requests[tid].e < |Apply(s, ev).entries| && Logged(Apply(s, ev), tid)
  {
    var s' := Apply(s, ev);
    assert ev.tid == tid && ev.BeginTask?;
    assert RequestOk(s, tid);
    var log := s'.entries[s'.requests[tid].e].accepted;
    assert log[|log| - 1].tid == tid;
  }

  lemma {:induction false} LogsHold(maxTasks: nat, states: seq<Sys>, events: seq<Event>, i: nat)
    requires AppendOnlyRun(maxTasks, states, events) && i < |states|
    ensures forall e :: 0 <= e < |states[i].entries| ==> LogOk(states[i], e)
    ensures forall t :: Taken(states[i], t) ==> states[i].requests[t].e < |states[i].entries| && Logged(states[i], t)
  {
    if i > 0 {
      var s, ev := states[i - 1], events[i - 1];
      LogsHold(maxTasks, states, events, i - 1);
      RunKeepsInv(maxTasks, states, events, i - 1);
      forall e | 0 <= e < |states[i].entries| ensures LogOk(states[i], e) { LogStays(s, ev, e); }
      forall t | Taken(states[i], t)
        ensures states[i].requests[t].e < |states[i].entries| && Logged(states[i], t)
      {
        if Taken(s, t) { LoggedStays(s, ev, t); } else { TakenIsLogged(s, ev, t); }
      }
    }
  }

  /** A send that was not refused left its message in its entry's history, recorded there exactly once. */
  lemma {:induction false} AcceptedExactlyOnce(maxTasks: nat, states: seq<Sys>, events: seq<Event>, i: nat, tid: nat)
    requires AppendOnlyRun(maxTasks, states, events) && i < |states| && Taken(states[i], tid)
    ensures
      var s := states[i];
      var r := s.requests[tid];
      && r.e < |s.entries|
      && exists n ::
        && 0 <= n < |s.entries[r.e].accepted| && s.entries[r.e].accepted[n].tid == tid
        && s.entries[r.e].accepted[n].at < |s.entries[r.e].task.history|
        && s.entries[r.e].task.history[s.entries[r.e].accepted[n].at] == r.p.message
        && forall e, m ::
             0 <= e < |s.entries| && 0 <= m < |s.entries[e].accepted| && s.entries[e].accepted[m].tid == tid
             ==> e == r.e && m == n
  {
    LogsHold(maxTasks, states, events, i);
    var s := states[i];
    var log := s.entries[s.requests[tid].e].accepted;
    assert Logged(s, tid);
    var n :| 0 <= n < |log| && log[n].tid == tid;
    assert LogOk(s, s.requests[tid].e);
    forall e, m | 0 <= e < |s.entries| && 0 <= m < |s.entries[e].accepted| && s.entries[e].accepted[m].tid == tid
      ensures e == s.requests[tid].e && m == n
    {
      assert LogOk(s, e);
      assert !(m < n) && !(n < m);
    }
  }

  /** Request `tid` holds the processing lock of entry `e`, or is done with it. */
  predicate EnteredProc(s: Sys, tid: nat, e: nat)
  {
    tid in s.requests &&
    match s.requests[tid]
    case Holding(_, e') => e' == e
    case Running(_, e', _) => e' == e
    case Answered(_, e', _) => e' == e
    case Refused(_, _) => true
    case _ => false
  }

  lemma {:induction false} EnteredStays(s: Sys, ev: Event, tid: nat, e: nat)
    requires Enabled(s, ev) && EnteredProc(s, tid, e)
    ensures EnteredProc(Apply(s, ev), tid, e)
    ensures s.requests[tid].Refused? ==> Apply(s, ev).requests[tid].Refused?
  {
  }

  lemma {:induction false} EnteredLasts(
      maxTasks: nat, states: seq<Sys>, events: seq<Event>, i: nat, j: nat, tid: nat, e: nat)
    requires IsRun(maxTasks, states, events) && i <= j < |states| && EnteredProc(states[i], tid, e)
    ensures EnteredProc(states[j], tid, e)
    ensures states[i].requests[tid].Refused? ==> states[j].requests[tid].Refused?
    decreases j - i
  {
    hide EnteredProc, Enabled, Apply;
    if i < j {
      EnteredLasts(maxTasks, states, events, i, j - 1, tid, e);
      EnteredStays(states[j - 1], events[j - 1], tid, e);
    }
  }

  /** Whoever finds the processing lock free finds the one who had it before done. */
  lemma {:induction false} LockIsExclusive(s: Sys, t1: nat, t2: nat, e: nat)
    requires Inv(s) && Enabled(s, TakeProc(t2)) && s.requests[t2].e == e && EnteredProc(s, t1, e)
    ensures s.requests[t1].Answered? || s.requests[t1].Refused?
  {
    assert RequestOk(s, t1);
  }

  /**
   Of two sends accepted into one entry, the one that entered its processing section first stands earlier in the
   history, in whatever order they arrived.
   */
  lemma {:induction false} AcceptedInProcOrder(
      maxTasks: nat, states: seq<Sys>, events: seq<Event>, i: nat, j: nat, k: nat, t1: nat, t2: nat)
    requires AppendOnlyRun(maxTasks, states, events) && i < j < k < |states|
    requires events[i] == TakeProc(t1) && events[j] == TakeProc(t2)
    requires states[i].requests[t1].e == states[j].requests[t2].e
    requires Taken(states[k], t1) && Taken(states[k], t2)
    ensures
      var e := states[i].requests[t1].e;
      var after := states[k];
      && e < |after.entries|
      && exists m, n ::
        && 0 <= m < n < |after.entries[e].accepted|
        && after.entries[e].accepted[m].tid == t1 && after.entries[e].accepted[n].tid == t2
        && after.entries[e].accepted[m].at < after.entries[e].accepted[n].at < |after.entries[e].task.history|
  {
    var e := states[i].requests[t1].e;
    EnteredLasts(maxTasks, states, events, i + 1, j, t1, e);
    RunKeepsInv(maxTasks, states, events, j);
    LockIsExclusive(states[j], t1, t2, e);
    EnteredLasts(maxTasks, states, events, j, k, t1, e);
    EnteredLasts(maxTasks, states, events, j + 1, k, t2, e);
    assert Taken(states[j], t1) && !Taken(states[j], t2);
    LogsHold(maxTasks, states, events, j);
    LogsHold(maxTasks, states, events, k);
    HistoryOnlyGrows(maxTasks, states, events, j, k, e);
    LoggedBefore(states[j], states[k], t1, t2, e);
  }

  /** A request already logged stands before one that is logged only later. */
  lemma {:induction false} LoggedBefore(s: Sys, later: Sys, t1: nat, t2: nat, e: nat)
    requires e < |s.entries| && e < |later.entries| && LogOk(s, e) && LogOk(later, e)
    requires s.entries[e].accepted <= later.entries[e].accepted
    requires Taken(s, t1) && s.requests[t1].e == e && Logged(s, t1) && !Taken(s, t2)
    requires Taken(later, t2) && later.requests[t2].e == e && Logged(later, t2)
    ensures
      var log := later.entries[e].accepted;
      exists m, n ::
        && 0 <= m < n < |log| && log[m].tid == t1 && log[n].tid == t2
        && log[m].at < log[n].at < |later.entries[e].task.history|
  {
    var before, log := s.entries[e].accepted, later.entries[e].accepted;
    var m :| 0 <= m < |before| && before[m].tid == t1;
    var n :| 0 <= n < |log| && log[n].tid == t2;
    assert log[m] == before[m];
    assert log[..|before|] == before && forall x :: 0 <= x < |before| ==> log[x] == before[x];
  }
}
