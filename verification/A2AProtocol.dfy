/**
 The A2A server as a transition system. One event is one lock-protected section of one request
 (pkg/a2a/server.go); requests interleave arbitrarily. An eviction is not one event: it reads the
 entries one at a time and deletes at the end, while other requests keep working on the entries.
 */
module A2AProtocol {
  import opened Common
  import opened A2ATask

  const INVALID_PARAMS := -32602
  const INTERNAL_ERROR := -32603
  const TASK_NOT_FOUND := -32001
  const INVALID_TASK_STATE := -32002
  const MAX_TASK_ID_LEN := 512

  datatype Reply = Result(task: Task) | Error(code: int)

  /** `at` is where in the history the accepted message of request `tid` was put. */
  datatype Accepted = Accepted(tid: nat, message: Message, at: nat)

  /** A stored task. `key` is the id it was stored under, `holder` the request inside procMu. */
  datatype Entry = Entry(key: string, task: Task, updated: int, holder: Option<nat>, accepted: seq<Accepted>)

  /** Where a request stands. `seen` remembers which entries a scan found terminal when it read them. */
  datatype Request =
    | Arrived(p: SendParams)
    | Scanning(p: SendParams, todo: set<string>, oldestId: string, oldest: int, seen: set<string>)
    | Waiting(p: SendParams, e: nat)
    | Holding(p: SendParams, e: nat)
    | Running(p: SendParams, e: nat, work: Task)
    | Refused(p: SendParams, code: int)
    | Answered(p: SendParams, e: nat, reply: Task)
    | Asking(id: string, limit: int)
    | Reading(e: nat, limit: int)
    | Got(e: nat, limit: int, reply: Task)
    | NotGot(code: int)

  datatype Sys = Sys(
    maxTasks: nat,
    tasks: map<string, nat>,
    entries: seq<Entry>,
    locked: Option<nat>,
    requests: map<nat, Request>)

  datatype Event =
    | SendArrives(tid: nat, p: SendParams)
    | GetArrives(tid: nat, id: string, limit: int)
    | Lookup(tid: nat, now: int, freshId: string)
    | ScanEntry(tid: nat, id: string)
    | EvictAndCreate(tid: nat, now: int, freshId: string)
    | TakeProc(tid: nat)
    | BeginTask(tid: nat, now: int)
    | CommitTask(tid: nat, outcome: Outcome, now: int)
    | GetLookup(tid: nat)
    | GetRead(tid: nat)

  function Init(maxTasks: nat): Sys
  {
    Sys(maxTasks, map[], [], None, map[])
  }

  /** Validation of tasks/send before any lock is taken. */
  function Admit(p: SendParams): Request
  {
    if |p.message.parts| == 0 || |p.id| > MAX_TASK_ID_LEN then Refused(p, INVALID_PARAMS) else Arrived(p)
  }

  predicate Enabled(s: Sys, ev: Event)
  {
    match ev
    case SendArrives(tid, _) => tid !in s.requests
    case GetArrives(tid, _, _) => tid !in s.requests
    case Lookup(tid, _, freshId) =>
      tid in s.requests && s.requests[tid].Arrived? && s.locked.None? && freshId != "" && freshId !in s.tasks
    case ScanEntry(tid, id) =>
      && tid in s.requests && s.requests[tid].Scanning? && id in s.requests[tid].todo
      && id in s.tasks && s.tasks[id] < |s.entries|
    case EvictAndCreate(tid, _, freshId) =>
      && tid in s.requests && s.requests[tid].Scanning? && s.requests[tid].todo == {}
      && freshId != "" && freshId !in s.tasks
    case TakeProc(tid) =>
      && tid in s.requests && s.requests[tid].Waiting?
      && s.requests[tid].e < |s.entries| && s.entries[s.requests[tid].e].holder.None?
    case BeginTask(tid, _) =>
      tid in s.requests && s.requests[tid].Holding? && s.requests[tid].e < |s.entries|
    case CommitTask(tid, _, _) =>
      tid in s.requests && s.requests[tid].Running? && s.requests[tid].e < |s.entries|
    case GetLookup(tid) =>
      tid in s.requests && s.requests[tid].Asking? && s.locked.None?
    case GetRead(tid) =>
      tid in s.requests && s.requests[tid].Reading? && s.requests[tid].e < |s.entries|
  }

  function Move(s: Sys, tid: nat, r: Request): Sys
  {
    s.(requests := s.requests[tid := r])
  }

  function Store(s: Sys, e: nat, entry: Entry): Sys
    requires e < |s.entries|
  {
    s.(entries := s.entries[e := entry])
  }

  function Create(s: Sys, tid: nat, p: SendParams, now: int, freshId: string): Sys
  {
    var id := if p.id == "" then freshId else p.id;
    Move(s, tid, Waiting(p, |s.entries|))
    .(tasks := s.tasks[id := |s.entries|],
      entries := s.entries + [Entry(id, NewTask(id, p), now, None, [])])
  }

  function Apply(s: Sys, ev: Event): Sys
    requires Enabled(s, ev)
  {
    match ev
    case SendArrives(tid, p) => Move(s, tid, Admit(p))
    case GetArrives(tid, id, limit) => Move(s, tid, if id == "" then NotGot(INVALID_PARAMS) else Asking(id, limit))
    case Lookup(tid, now, freshId) =>
      var p := s.requests[tid].p;
      if p.id in s.tasks then Move(s, tid, Waiting(p, s.tasks[p.id]))
      else if |s.tasks| < s.maxTasks then Create(s, tid, p, now, freshId)
      else Move(s, tid, Scanning(p, s.tasks.Keys, "", 0, {})).(locked := Some(tid))
    case ScanEntry(tid, id) =>
      var r := s.requests[tid];
      var entry := s.entries[s.tasks[id]];
      var r' := r.(todo := r.todo - {id}, seen := if IsTerminal(entry.task.state) then r.seen + {id} else r.seen);
      if IsTerminal(entry.task.state) && (r.oldestId == "" || entry.updated < r.oldest)
      then Move(s, tid, r'.(oldestId := id, oldest := entry.updated))
      else Move(s, tid, r')
    case EvictAndCreate(tid, now, freshId) =>
      var r := s.requests[tid];
      var unlocked := s.(locked := None);
      if r.oldestId == "" then Move(unlocked, tid, Refused(r.p, INTERNAL_ERROR))
      else Create(unlocked.(tasks := s.tasks - {r.oldestId}), tid, r.p, now, freshId)
    case TakeProc(tid) =>
      var r := s.requests[tid];
      Move(Store(s, r.e, s.entries[r.e].(holder := Some(tid))), tid, Holding(r.p, r.e))
    case BeginTask(tid, now) =>
      var r := s.requests[tid];
      var entry := s.entries[r.e];
      if IsTerminal(entry.task.state) then
        Move(Store(s, r.e, entry.(holder := None)), tid, Refused(r.p, INVALID_TASK_STATE))
      else
        var task := Accept(entry.task, r.p);
        var log := entry.accepted + [Accepted(tid, r.p.message, |entry.task.history|)];
        Move(Store(s, r.e, entry.(task := task, updated := now, accepted := log)), tid, Running(r.p, r.e, task))
    case CommitTask(tid, outcome, now) =>
      var r := s.requests[tid];
      var task := Settle(outcome);
      Move(Store(s, r.e, s.entries[r.e].(task := task, updated := now, holder := None)), tid, Answered(r.p, r.e, task))
    case GetLookup(tid) =>
      var r := s.requests[tid];
      Move(s, tid, if r.id in s.tasks then Reading(s.tasks[r.id], r.limit) else NotGot(TASK_NOT_FOUND))
    case GetRead(tid) =>
      var r := s.requests[tid];
      Move(s, tid, Got(r.e, r.limit, Snapshot(s.entries[r.e].task, r.limit)))
  }

  /** A run: the states passed through and the events between them. */
  ghost predicate IsRun(maxTasks: nat, states: seq<Sys>, events: seq<Event>)
  {
    && |states| == |events| + 1
    && states[0] == Init(maxTasks)
    && forall i :: 0 <= i < |events| ==> Enabled(states[i], events[i]) && states[i + 1] == Apply(states[i], events[i])
  }

  // ---- What every step keeps ----

  predicate StoreOk(s: Sys)
  {
    && "" !in s.tasks
    && |s.tasks| <= s.maxTasks
    && (forall k :: k in s.tasks ==> s.tasks[k] < |s.entries| && s.entries[s.tasks[k]].key == k)
    && (s.locked.Some? ==> s.locked.value in s.requests && s.requests[s.locked.value].Scanning?)
  }

  /** An entry that is not terminal is still in the store, and Working means a handler is on it. */
  predicate EntryOk(s: Sys, e: nat)
    requires e < |s.entries|
  {
    var entry := s.entries[e];
    && !entry.task.state.Unlisted?
    && (!IsTerminal(entry.task.state) ==> entry.key in s.tasks && s.tasks[entry.key] == e)
    && (entry.holder.Some? ==>
          && entry.holder.value in s.requests
          && (s.requests[entry.holder.value].Holding? || s.requests[entry.holder.value].Running?)
          && s.requests[entry.holder.value].e == e)
    && (entry.task.state.Working? <==> entry.holder.Some? && s.requests[entry.holder.value].Running?)
  }

  /** `id` was last updated at `oldest`, and no task in `ids` earlier; all of them are terminal. */
  predicate IsOldest(s: Sys, id: string, oldest: int, ids: set<string>)
  {
    && (id in ids ==> id in s.tasks && s.tasks[id] < |s.entries| && s.entries[s.tasks[id]].updated == oldest)
    && forall k :: k in ids ==>
         && k in s.tasks && s.tasks[k] < |s.entries| && IsTerminal(s.entries[s.tasks[k]].task.state)
         && oldest <= s.entries[s.tasks[k]].updated
  }

  predicate RequestOk(s: Sys, tid: nat)
    requires tid in s.requests
  {
    match s.requests[tid]
    case Scanning(p, todo, oldestId, oldest, seen) =>
      && s.locked == Some(tid) && p.id !in s.tasks && todo <= s.tasks.Keys
      && (if oldestId == "" then seen == {} else oldestId in seen && IsOldest(s, oldestId, oldest, seen))
    case Waiting(p, e) => e < |s.entries| && (p.id != "" ==> s.entries[e].key == p.id)
    case Holding(p, e) => e < |s.entries| && (p.id != "" ==> s.entries[e].key == p.id) && s.entries[e].holder == Some(tid)
    case Running(p, e, work) =>
      && e < |s.entries| && (p.id != "" ==> s.entries[e].key == p.id)
      && s.entries[e].holder == Some(tid) && s.entries[e].task == work
    case Answered(p, e, _) => e < |s.entries| && (p.id != "" ==> s.entries[e].key == p.id)
    case Reading(e, _) => e < |s.entries|
    case Got(e, _, _) => e < |s.entries|
    case _ => true
  }

  predicate Inv(s: Sys)
  {
    && StoreOk(s)
    && (forall e :: 0 <= e < |s.entries| ==> EntryOk(s, e))
    && (forall tid :: tid in s.requests ==> RequestOk(s, tid))
  }

  /** The entry an event works on, when it works on one through its request. */
  function Target(s: Sys, ev: Event): Option<nat>
    requires Enabled(s, ev)
  {
    if ev.TakeProc? || ev.BeginTask? || ev.CommitTask? then Some(s.requests[ev.tid].e) else None
  }

  predicate Acting(s: Sys, ev: Event)
    requires Enabled(s, ev)
  {
    && (ev.tid in s.requests ==> RequestOk(s, ev.tid))
    && (Target(s, ev).Some? ==> Target(s, ev).value < |s.entries| && EntryOk(s, Target(s, ev).value))
  }

  lemma {:induction false} MapSizes<K, V>(m: map<K, V>, k: K, v: V)
    ensures |m[k := v]| == if k in m then |m| else |m| + 1
    ensures k in m ==> |m - {k}| == |m| - 1
  {
    assert k in m ==> m[k := v].Keys == m.Keys;
    assert m[k := v].Keys == m.Keys + {k};
    assert k in m ==> m.Keys == (m - {k}).Keys + {k};
    assert |m[k := v]| == |m[k := v].Keys| && |m| == |m.Keys| && |m - {k}| == |(m - {k}).Keys|;
  }

  lemma {:induction false} EntryStaysCreating(s: Sys, ev: Event, e: nat)
    requires Enabled(s, ev) && (ev.Lookup? || ev.EvictAndCreate?)
    requires StoreOk(s) && Acting(s, ev) && e < |Apply(s, ev).entries|
    requires e < |s.entries| ==> EntryOk(s, e)
    ensures EntryOk(Apply(s, ev), e)
  {
  }

  lemma {:induction false} EntryStaysWorking(s: Sys, ev: Event, e: nat)
    requires Enabled(s, ev) && (ev.TakeProc? || ev.CommitTask?)
    requires StoreOk(s) && Acting(s, ev) && e < |Apply(s, ev).entries|
    requires e < |s.entries| ==> EntryOk(s, e)
    ensures EntryOk(Apply(s, ev), e)
  {
  }

  lemma {:induction false} EntryStaysBeginning(s: Sys, ev: Event, e: nat)
    requires Enabled(s, ev) && ev.BeginTask?
    requires StoreOk(s) && Acting(s, ev) && e < |Apply(s, ev).entries|
    requires e < |s.entries| ==> EntryOk(s, e)
    ensures EntryOk(Apply(s, ev), e)
  {
  }

  lemma {:induction false} EntryStaysReading(s: Sys, ev: Event, e: nat)
    requires Enabled(s, ev) && !ev.Lookup? && !ev.EvictAndCreate? && !ev.TakeProc? && !ev.BeginTask? && !ev.CommitTask?
    requires StoreOk(s) && Acting(s, ev) && e < |Apply(s, ev).entries|
    requires e < |s.entries| ==> EntryOk(s, e)
    ensures EntryOk(Apply(s, ev), e)
  {
  }

  lemma {:induction false} RequestStaysCreating(s: Sys, ev: Event, t: nat)
    requires Enabled(s, ev) && (ev.Lookup? || ev.EvictAndCreate?)
    requires StoreOk(s) && Acting(s, ev) && t in Apply(s, ev).requests
    requires t in s.requests ==> RequestOk(s, t)
    ensures RequestOk(Apply(s, ev), t)
  {
  }

  lemma {:induction false} RequestStaysWorking(s: Sys, ev: Event, t: nat)
    requires Enabled(s, ev) && (ev.TakeProc? || ev.CommitTask?)
    requires StoreOk(s) && Acting(s, ev) && t in Apply(s, ev).requests
    requires t in s.requests ==> RequestOk(s, t)
    ensures RequestOk(Apply(s, ev), t)
  {
  }

  lemma {:induction false} RequestStaysBeginning(s: Sys, ev: Event, t: nat)
    requires Enabled(s, ev) && ev.BeginTask?
    requires StoreOk(s) && Acting(s, ev) && t in Apply(s, ev).requests
    requires t in s.requests ==> RequestOk(s, t)
    ensures RequestOk(Apply(s, ev), t)
  {
  }

  lemma {:induction false} RequestStaysReading(s: Sys, ev: Event, t: nat)
    requires Enabled(s, ev) && !ev.Lookup? && !ev.EvictAndCreate? && !ev.TakeProc? && !ev.BeginTask? && !ev.CommitTask?
    requires StoreOk(s) && Acting(s, ev) && t in Apply(s, ev).requests
    requires t in s.requests ==> RequestOk(s, t)
    ensures RequestOk(Apply(s, ev), t)
  {
  }

  lemma {:induction false} StoreStaysLookup(s: Sys, ev: Event)
    requires Enabled(s, ev) && ev.Lookup?
    requires StoreOk(s) && Acting(s, ev)
    ensures StoreOk(Apply(s, ev))
  {
    var p := s.requests[ev.tid].p;
    MapSizes(s.tasks, if p.id == "" then ev.freshId else p.id, |s.entries|);
  }

  lemma {:induction false} StoreStaysEvicting(s: Sys, ev: Event)
    requires Enabled(s, ev) && ev.EvictAndCreate?
    requires StoreOk(s) && Acting(s, ev)
    ensures StoreOk(Apply(s, ev))
  {
    var r := s.requests[ev.tid];
    if r.oldestId != "" {
      MapSizes(s.tasks, r.oldestId, 0);
      MapSizes(s.tasks - {r.oldestId}, if r.p.id == "" then ev.freshId else r.p.id, |s.entries|);
    }
  }

  lemma {:induction false} StoreStaysWorking(s: Sys, ev: Event)
    requires Enabled(s, ev) && (ev.TakeProc? || ev.BeginTask? || ev.CommitTask?)
    requires StoreOk(s) && Acting(s, ev)
    ensures StoreOk(Apply(s, ev))
  {
  }

  lemma {:induction false} StoreStaysReading(s: Sys, ev: Event)
    requires Enabled(s, ev)
    requires !ev.Lookup? && !ev.EvictAndCreate? && !ev.TakeProc? && !ev.BeginTask? && !ev.CommitTask?
    requires StoreOk(s) && Acting(s, ev)
    ensures StoreOk(Apply(s, ev))
  {
  }

  /** Every event of every request keeps the invariant, whatever the others are doing. */
  lemma {:induction false} StepKeepsInv(s: Sys, ev: Event)
    requires Inv(s) && Enabled(s, ev)
    ensures Inv(Apply(s, ev))
  {
    assert Acting(s, ev);
    if ev.Lookup? { StoreStaysLookup(s, ev); }
    else if ev.EvictAndCreate? { StoreStaysEvicting(s, ev); }
    else if ev.TakeProc? || ev.BeginTask? || ev.CommitTask? { StoreStaysWorking(s, ev); }
    else { StoreStaysReading(s, ev); }
    forall e | 0 <= e < |Apply(s, ev).entries| ensures EntryOk(Apply(s, ev), e) {
      if ev.Lookup? || ev.EvictAndCreate? { EntryStaysCreating(s, ev, e); }
      else if ev.TakeProc? || ev.CommitTask? { EntryStaysWorking(s, ev, e); }
      else if ev.BeginTask? { EntryStaysBeginning(s, ev, e); }
      else { EntryStaysReading(s, ev, e); }
    }
    forall t | t in Apply(s, ev).requests ensures RequestOk(Apply(s, ev), t) {
      if ev.Lookup? || ev.EvictAndCreate? { RequestStaysCreating(s, ev, t); }
      else if ev.TakeProc? || ev.CommitTask? { RequestStaysWorking(s, ev, t); }
      else if ev.BeginTask? { RequestStaysBeginning(s, ev, t); }
      else { RequestStaysReading(s, ev, t); }
    }
  }

  lemma {:induction false} RunKeepsInv(maxTasks: nat, states: seq<Sys>, events: seq<Event>, i: nat)
    requires IsRun(maxTasks, states, events) && i < |states|
    ensures Inv(states[i]) && states[i].maxTasks == maxTasks
  {
    if i > 0 {
      RunKeepsInv(maxTasks, states, events, i - 1);
      StepKeepsInv(states[i - 1], events[i - 1]);
    }
  }
}
