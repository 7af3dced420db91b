/** What every request of an A2A run is answered, and what each of its locked sections does to the store. */
module A2AAnswers {
  import opened Common
  import opened A2ATask
  import opened A2AProtocol
  import opened A2ARuns

  /** Entries change only in the sections of a request inside their processing lock. */
  lemma {:induction false} OthersAreLeftAlone(s: Sys, ev: Event, e: nat)
    requires Enabled(s, ev) && e < |s.entries|
    ensures e < |Apply(s, ev).entries|
    ensures Apply(s, ev).entries[e] != s.entries[e] ==>
      (ev.TakeProc? || ev.BeginTask? || ev.CommitTask?) && s.requests[ev.tid].e == e
    ensures Apply(s, ev).entries[e].task != s.entries[e].task ==> ev.BeginTask? || ev.CommitTask?
    ensures forall t :: t in s.requests && t != ev.tid ==>
      t in Apply(s, ev).requests && Apply(s, ev).requests[t] == s.requests[t]
  {
  }

  /**
   When a handler is done, what is stored and what is answered are one task, in the store under its id, and it is what
   a client is promised of that outcome.
   */
  lemma {:induction false} SendAnswersForItsHandler(maxTasks: nat, states: seq<Sys>, events: seq<Event>, i: nat)
    requires IsRun(maxTasks, states, events) && i < |events| && events[i].CommitTask?
    ensures
      var ev, t := events[i], states[i + 1];
      var r := states[i].requests[ev.tid];
      && r.e < |t.entries| && t.requests[ev.tid] == Answered(r.p, r.e, t.entries[r.e].task)
      && AnswersFor(ev.outcome, t.entries[r.e].task) && t.entries[r.e].updated == ev.now
      && t.entries[r.e].key in t.tasks && t.tasks[t.entries[r.e].key] == r.e
      && (r.p.id != "" ==> t.entries[r.e].key == r.p.id)
  {
    RunningTaskIsStored(maxTasks, states, events, i, events[i].tid);
  }

  predicate IsDone(r: Request) { r.Answered? || r.Refused? || r.Got? || r.NotGot? }

  lemma {:induction false} AnswerStays(s: Sys, ev: Event, tid: nat)
    requires Enabled(s, ev) && tid in s.requests && IsDone(s.requests[tid])
    ensures tid in Apply(s, ev).requests && Apply(s, ev).requests[tid] == s.requests[tid]
  {
  }

  /** A reply given is never taken back, and stays what was stored when it was given. */
  lemma {:induction false} AnswersStay(maxTasks: nat, states: seq<Sys>, events: seq<Event>, i: nat, j: nat, tid: nat)
    requires IsRun(maxTasks, states, events) && i <= j < |states| && tid in states[i].requests
    requires IsDone(states[i].requests[tid])
    ensures tid in states[j].requests && states[j].requests[tid] == states[i].requests[tid]
    decreases j - i
  {
    hide Enabled, Apply, IsDone;
    if i < j {
      AnswersStay(maxTasks, states, events, i, j - 1, tid);
      AnswerStays(states[j - 1], events[j - 1], tid);
    }
  }

  /** A handler starts on the stored task with the message taken in, unless that task is over: then nothing changes. */
  lemma {:induction false} SendStartsOnTheStoredTask(maxTasks: nat, states: seq<Sys>, events: seq<Event>, i: nat)
    requires IsRun(maxTasks, states, events) && i < |events| && events[i].BeginTask?
    ensures
      var s, t := states[i], states[i + 1];
      var r := s.requests[events[i].tid];
      && r.e < |s.entries| && r.e < |t.entries|
      && var before, after := s.entries[r.e], t.entries[r.e];
         if before.task.state in {Completed, Failed, Canceled} then
           && t.requests[events[i].tid] == Refused(r.p, -32002)
           && after.task == before.task && after.updated == before.updated
         else
           && t.requests[events[i].tid] == Running(r.p, r.e, after.task)
           && TakesIn(before.task, r.p, after.task) && after.updated == events[i].now
  {
  }

  /** A get hands out the stored task with the last turns it asked for. */
  lemma {:induction false} GetReadsTheStore(maxTasks: nat, states: seq<Sys>, events: seq<Event>, i: nat)
    requires IsRun(maxTasks, states, events) && i < |events| && events[i].GetRead?
    ensures
      var s, r := states[i], states[i].requests[events[i].tid];
      && r.e < |s.entries| && states[i + 1].requests[events[i].tid].Got?
      && var reply := states[i + 1].requests[events[i].tid].reply;
         && reply == s.entries[r.e].task.(history := reply.history)
         && IsTail(s.entries[r.e].task.history, r.limit, reply.history)
  {
  }

  /** A get reads the entry stored under its id, and is told when there is none. */
  lemma {:induction false} GetFindsItsId(maxTasks: nat, states: seq<Sys>, events: seq<Event>, i: nat)
    requires IsRun(maxTasks, states, events) && i < |events| && events[i].GetLookup?
    ensures
      var s, r := states[i], states[i].requests[events[i].tid];
      var t := states[i + 1];
      if r.id in s.tasks then
        && t.requests[events[i].tid] == Reading(s.tasks[r.id], r.limit)
        && s.tasks[r.id] < |t.entries| && t.entries[s.tasks[r.id]].key == r.id
      else t.requests[events[i].tid] == NotGot(-32001)
  {
    RunKeepsInv(maxTasks, states, events, i);
  }

  /** A send goes to the entry stored under its id, or to a fresh submitted task of that id or a fresh one. */
  lemma {:induction false} SendFindsItsEntry(maxTasks: nat, states: seq<Sys>, events: seq<Event>, i: nat)
    requires IsRun(maxTasks, states, events) && i < |events|
    requires events[i].tid in states[i + 1].requests && states[i + 1].requests[events[i].tid].Waiting?
    ensures
      var s, ev, t := states[i], events[i], states[i + 1];
      var p, e := t.requests[ev.tid].p, t.requests[ev.tid].e;
      && e < |t.entries| && t.entries[e].key in t.tasks && t.tasks[t.entries[e].key] == e
      && (ev.Lookup? || ev.EvictAndCreate?)
      && if ev.Lookup? && p.id in s.tasks then t.entries == s.entries && t.entries[e].key == p.id
         else
           var id := if p.id == "" then ev.freshId else p.id;
           && id !in s.tasks
           && t.entries == s.entries + [Entry(id, Task(id, p.sessionId, Submitted, None, [], [], p.metadata), ev.now, None, [])]
           && e == |s.entries|
  {
    RunKeepsInv(maxTasks, states, events, i);
    assert events[i].tid in states[i].requests ==> RequestOk(states[i], events[i].tid);
  }

  /** While a request scans, the store keeps its keys and their entries. */
  lemma {:induction false} ScannedStoreStands(s: Sys, ev: Event, tid: nat)
    requires Inv(s) && Enabled(s, ev) && tid in s.requests && s.requests[tid].Scanning?
    requires !(ev.EvictAndCreate? && ev.tid == tid)
    ensures Apply(s, ev).tasks == s.tasks && tid in Apply(s, ev).requests && Apply(s, ev).requests[tid].Scanning?
  {
    assert RequestOk(s, tid);
    if ev.tid in s.requests { assert RequestOk(s, ev.tid); }
  }

  /** A task that is over and was not yet read is seen when it is read. */
  lemma {:induction false} ReadingSees(s: Sys, ev: Event, tid: nat, k: string)
    requires Inv(s) && Enabled(s, ev) && tid in s.requests && s.requests[tid].Scanning?
    requires !(ev.EvictAndCreate? && ev.tid == tid)
    requires k in s.tasks && IsTerminal(s.entries[s.tasks[k]].task.state)
    requires k in s.requests[tid].todo + s.requests[tid].seen
    ensures tid in Apply(s, ev).requests && Apply(s, ev).requests[tid].Scanning?
    ensures k in Apply(s, ev).requests[tid].todo + Apply(s, ev).requests[tid].seen
  {
    assert RequestOk(s, tid);
    if ev.tid in s.requests { assert RequestOk(s, ev.tid); }
  }

  lemma {:induction false} ScanBegins(s: Sys, ev: Event)
    requires Enabled(s, ev) && ev.Lookup? && Apply(s, ev).requests[ev.tid].Scanning?
    ensures Apply(s, ev).tasks == s.tasks && ev.tid in Apply(s, ev).requests
    ensures Apply(s, ev).requests[ev.tid].todo == s.tasks.Keys
  {
  }

  /** Of the tasks that were over when a scan began, those already read have been seen. */
  lemma {:induction false} ScanSeesTheOver(maxTasks: nat, states: seq<Sys>, events: seq<Event>, i: nat, j: nat, tid: nat,
    k: string)
    requires IsRun(maxTasks, states, events) && i < j < |states| && events[i].Lookup? && events[i].tid == tid
    requires states[i + 1].requests[tid].Scanning?
    requires forall m :: i < m < j ==> !(events[m].EvictAndCreate? && events[m].tid == tid)
    requires k in states[i].tasks && states[i].tasks[k] < |states[i].entries|
    requires IsTerminal(states[i].entries[states[i].tasks[k]].task.state)
    ensures states[j].tasks == states[i].tasks && tid in states[j].requests && states[j].requests[tid].Scanning?
    ensures k in states[j].requests[tid].todo + states[j].requests[tid].seen
  {
    hide Enabled, Apply, Inv;
    if j == i + 1 {
      ScanBegins(states[i], events[i]);
    } else {
      ScanSeesTheOver(maxTasks, states, events, i, j - 1, tid, k);
      RunKeepsInv(maxTasks, states, events, j - 1);
      ScannedStoreStands(states[j - 1], events[j - 1], tid);
      TerminalIsForever(maxTasks, states, events, i, j - 1, states[i].tasks[k]);
      ReadingSees(states[j - 1], events[j - 1], tid, k);
    }
  }

  /** A send is told that the store is full only when no stored task was over when it looked. */
  lemma {:induction false} FullMeansAllActive(maxTasks: nat, states: seq<Sys>, events: seq<Event>, i: nat, j: nat, tid: nat)
    requires IsRun(maxTasks, states, events) && i < j < |events| && events[i].Lookup? && events[i].tid == tid
    requires events[j].EvictAndCreate? && events[j].tid == tid
    requires states[i + 1].requests[tid].Scanning?
    requires forall m :: i < m < j ==> !(events[m].EvictAndCreate? && events[m].tid == tid)
    ensures |states[i].tasks| >= maxTasks && states[i].requests[tid].p.id !in states[i].tasks
    ensures states[j + 1].requests[tid].Refused? ==>
      && states[j + 1].requests[tid].code == -32603 && states[j + 1].tasks == states[i].tasks
      && forall k :: k in states[i].tasks ==>
           states[i].tasks[k] < |states[i].entries| && !IsTerminal(states[i].entries[states[i].tasks[k]].task.state)
  {
    RunKeepsInv(maxTasks, states, events, i);
    RunKeepsInv(maxTasks, states, events, j);
    StoreStandsWhileScanning(maxTasks, states, events, i, j, tid);
    assert RequestOk(states[j], tid);
    if states[j + 1].requests[tid].Refused? {
      forall k | k in states[i].tasks
        ensures states[i].tasks[k] < |states[i].entries| && !IsTerminal(states[i].entries[states[i].tasks[k]].task.state)
      {
        if IsTerminal(states[i].entries[states[i].tasks[k]].task.state) {
          ScanSeesTheOver(maxTasks, states, events, i, j, tid, k);
          assert false;
        }
      }
    }
  }

  lemma {:induction false} StoreStandsWhileScanning(maxTasks: nat, states: seq<Sys>, events: seq<Event>, i: nat, j: nat,
    tid: nat)
    requires IsRun(maxTasks, states, events) && i < j < |states| && events[i].Lookup? && events[i].tid == tid
    requires states[i + 1].requests[tid].Scanning?
    requires forall m :: i < m < j ==> !(events[m].EvictAndCreate? && events[m].tid == tid)
    ensures states[j].tasks == states[i].tasks && tid in states[j].requests && states[j].requests[tid].Scanning?
  {
    if j > i + 1 {
      StoreStandsWhileScanning(maxTasks, states, events, i, j - 1, tid);
      RunKeepsInv(maxTasks, states, events, j - 1);
      ScannedStoreStands(states[j - 1], events[j - 1], tid);
    }
  }

  /** The refusals of a request that arrives: a message without parts, an id too long, a get without id. */
  lemma {:induction false} ArrivalsAreChecked(maxTasks: nat, states: seq<Sys>, events: seq<Event>, i: nat)
    requires IsRun(maxTasks, states, events) && i < |events| && (events[i].SendArrives? || events[i].GetArrives?)
    ensures
      var ev, r := events[i], states[i + 1].requests[events[i].tid];
      if ev.SendArrives? then
        r == if |ev.p.message.parts| == 0 || |ev.p.id| > 512 then Refused(ev.p, -32602) else Arrived(ev.p)
      else r == if ev.id == "" then NotGot(-32602) else Asking(ev.id, ev.limit)
  {
  }
}
