/** The executors of pkg/graph/runnable.go as loops, and the in-memory checkpointer they save to. */
module GraphRun {
  import opened Common
  import opened GraphTypes

  // ---- pkg/graph/checkpoint.go ----

  type History<S> = map<string, seq<Checkpoint<S>>>

  function RunHistory<S>(h: History<S>, runId: string): seq<Checkpoint<S>>
  {
    if runId in h then h[runId] else []
  }

  /** The most recent `limit` checkpoints; 0 keeps all of them. */
  function Trim<S>(cks: seq<Checkpoint<S>>, limit: nat): seq<Checkpoint<S>>
  {
    if 0 < limit < |cks| then cks[|cks| - limit..] else cks
  }

  function SaveOne<S>(h: History<S>, limit: nat, ck: Checkpoint<S>): History<S>
  {
    h[ck.runId := Trim(RunHistory(h, ck.runId) + [ck], limit)]
  }

  function SaveAll<S>(h: History<S>, limit: nat, cks: seq<Checkpoint<S>>): History<S>
  {
    if |cks| == 0 then h else SaveOne(SaveAll(h, limit, cks[..|cks| - 1]), limit, cks[|cks| - 1])
  }

  class MemoryCheckpointer<!S> {
    var history: History<S>
    const limit: nat
    const copies: S -> bool

    constructor (bound: int, faithful: S -> bool)
      ensures history == map[] && limit == (if bound < 0 then 0 else bound) && copies == faithful
    {
      history := map[];
      limit := if bound < 0 then 0 else bound;
      copies := faithful;
    }

    method Save(ck: Checkpoint<S>) returns (ok: bool)
      modifies this
      ensures ok == copies(ck.state)
      ensures history == if ok then SaveOne(old(history), limit, ck) else old(history)
    {
      if !copies(ck.state) {
        return false;
      }
      var h := (if ck.runId in history then history[ck.runId] else []) + [ck];
      history := history[ck.runId := h];
      if limit > 0 && |h| > limit {
        history := history[ck.runId := h[|h| - limit..]];
      }
      return true;
    }

    method Load(runId: string) returns (ck: Option<Checkpoint<S>>)
      ensures
        var h := RunHistory(history, runId);
        ck == if |h| == 0 then None else Some(h[|h| - 1])
    {
      if runId in history && |history[runId]| > 0 {
        return Some(history[runId][|history[runId]| - 1]);
      }
      return None;
    }
  }

  /** A save just made is what the next Load returns, whatever the retention limit. */
  lemma {:induction false} LoadAfterSave<S>(h: History<S>, limit: nat, ck: Checkpoint<S>)
    ensures
      var kept := RunHistory(SaveOne(h, limit, ck), ck.runId);
      |kept| > 0 && kept[|kept| - 1] == ck && (limit > 0 && |RunHistory(h, ck.runId)| <= limit ==> |kept| <= limit)
  {
  }

  lemma {:induction false} SaveAllLast<S>(h: History<S>, limit: nat, a: seq<Checkpoint<S>>, ck: Checkpoint<S>)
    ensures SaveAll(h, limit, a + [ck]) == SaveOne(SaveAll(h, limit, a), limit, ck)
  {
    assert (a + [ck])[..|a + [ck]| - 1] == a;
  }

  lemma {:induction false} TrimTwice<S>(cks: seq<Checkpoint<S>>, limit: nat, ck: Checkpoint<S>)
    ensures Trim(Trim(cks, limit) + [ck], limit) == Trim(cks + [ck], limit)
  {
  }

  lemma {:induction false} KeptIsTrimmed<S>(h: History<S>, limit: nat, cks: seq<Checkpoint<S>>, runId: string)
    requires runId !in h && forall i :: 0 <= i < |cks| ==> cks[i].runId == runId
    ensures RunHistory(SaveAll(h, limit, cks), runId) == Trim(cks, limit)
  {
    if |cks| > 0 {
      var front, last := cks[..|cks| - 1], cks[|cks| - 1];
      KeptIsTrimmed(h, limit, front, runId);
      TrimTwice(front, limit, last);
      assert front + [last] == cks;
      hide Trim;
    }
  }

  /** What a checkpointer keeps of a run: its latest checkpoints, as many as the limit says, in order. */
  lemma {:induction false} LatestAreKept<S>(h: History<S>, limit: nat, cks: seq<Checkpoint<S>>, runId: string)
    requires runId !in h && forall i :: 0 <= i < |cks| ==> cks[i].runId == runId
    ensures RunHistory(SaveAll(h, limit, cks), runId) == if 0 < limit < |cks| then cks[|cks| - limit..] else cks
  {
    KeptIsTrimmed(h, limit, cks, runId);
  }

  /** Checkpoints of other runs are left alone. */
  lemma {:induction false} OtherRunsAreKept<S>(h: History<S>, limit: nat, cks: seq<Checkpoint<S>>, runId: string)
    requires forall i :: 0 <= i < |cks| ==> cks[i].runId != runId
    ensures RunHistory(SaveAll(h, limit, cks), runId) == RunHistory(h, runId)
  {
    if |cks| > 0 { OtherRunsAreKept(h, limit, cks[..|cks| - 1], runId); }
  }

  // ---- Options ----

  datatype Options<S> = Options(runId: string, maxSteps: int, override: Option<S>)

  function StepCap<S>(r: Runnable<S>, opts: Options<S>): int
  {
    if opts.maxSteps > 0 then opts.maxSteps
    else if r.maxSteps > 0 then r.maxSteps
    else DEFAULT_MAX_STEPS
  }

  ghost function EnvOf<S>(r: Runnable<S>, opts: Options<S>, cp: MemoryCheckpointer?<S>): Env<S>
  {
    if cp == null then Env(StepCap(r, opts), false, opts.runId, _ => true)
    else Env(StepCap(r, opts), true, opts.runId, cp.copies)
  }

  /** What the checkpointer holds after a run that made these saves. */
  ghost predicate HistoryIs<S>(cp: MemoryCheckpointer?<S>, before: History<S>, saved: seq<Checkpoint<S>>)
    reads cp
  {
    cp != null ==> cp.history == SaveAll(before, cp.limit, saved)
  }

  ghost function HistoryOf<S>(cp: MemoryCheckpointer?<S>): History<S>
    reads cp
  {
    if cp == null then map[] else cp.history
  }

  /** saveCheckpoint: `saved` is what the run saved so far, in an environment where `cp` is the checkpointer. */
  method SaveCheckpoint<S>(cp: MemoryCheckpointer?<S>, runId: string, step: int, node: string, state: S, reason: Reason,
                           ghost env: Env<S>, ghost before: History<S>, ghost saved: seq<Checkpoint<S>>)
    returns (ok: bool)
    requires env.saving == (cp != null) && (cp != null ==> env.copies == cp.copies) && env.runId == runId
    requires HistoryIs(cp, before, saved)
    modifies cp
    ensures ok <==> CanSave(env, state)
    ensures HistoryIs(cp, before, if ok then saved + Saves(env, step, node, state, reason) else saved)
  {
    if cp == null {
      return true;
    }
    SaveAllLast(before, cp.limit, saved, Checkpoint(runId, step, node, state, reason));
    ok := cp.Save(Checkpoint(runId, step, node, state, reason));
  }

  // ---- runLoop, InvokeWith, Resume ----

  lemma {:induction false} PrependTwice<S>(saved: seq<Checkpoint<S>>, visits: seq<Visit<S>>, made: seq<Checkpoint<S>>,
                        done: seq<Visit<S>>, o: Outcome<S>)
    ensures Prepend(saved, visits, Prepend(made, done, o)) == Prepend(saved + made, visits + done, o)
  {
    assert saved + (made + o.saved) == (saved + made) + o.saved;
    assert visits + (done + o.visits) == (visits + done) + o.visits;
  }

  /** The body of runLoop's loop. */
  method RunTurn<S>(r: Runnable<S>, state: S, next: string, step: int, maxSteps: int, bypass: bool, runId: string,
                    cp: MemoryCheckpointer?<S>, ghost env: Env<S>, ghost before: History<S>,
                    ghost saved: seq<Checkpoint<S>>)
    returns (end: End<S>)
    requires env.saving == (cp != null) && (cp != null ==> env.copies == cp.copies)
    requires env.runId == runId && env.maxSteps == maxSteps
    requires HistoryIs(cp, before, saved)
    modifies cp
    ensures
      var t := TurnAt(r, env, state, next, step, bypass);
      end == t.end && HistoryIs(cp, before, saved + t.saved)
  {
    assert saved + [] == saved;
    if next == END {
      var ok := SaveCheckpoint(cp, runId, step, END, state, EndReason, env, before, saved);
      return Stop(state, if ok then None else Some(SaveFailed));
    }
    if step >= maxSteps {
      return Stop(state, Some(MaxSteps(maxSteps)));
    }
    if next in r.interruptBefore && !bypass {
      var ok := SaveCheckpoint(cp, runId, step + 1, next, state, InterruptReason, env, before, saved);
      return Stop(state, if ok then Some(Interrupted(next)) else Some(SaveFailed));
    }
    if next !in r.nodes {
      return Stop(state, Some(UnknownNode(next)));
    }
    var ok := SaveCheckpoint(cp, runId, step + 1, next, state, StepReason, env, before, saved);
    if !ok {
      return Stop(state, Some(SaveFailed));
    }
    match r.nodes[next](step + 1, state) {
      case Fail(reason) =>
        return Stop(state, Some(NodeFailed(next, reason)));
      case Next(out) =>
        var resolved := ResolveNext(r, next, out);
        return match resolved case Stuck(err) => Stop(out, Some(err)) case To(node) => Go(node, out);
    }
  }

  method RunLoop<S>(r: Runnable<S>, initial: S, startNode: string, startStep: int, opts: Options<S>,
                    cp: MemoryCheckpointer?<S>, bypassFirst: bool)
    returns (final: S, err: Option<RunError>)
    modifies cp
    ensures
      var o := RunFrom(r, EnvOf(r, opts, cp), initial, startNode, startStep, bypassFirst);
      final == o.state && err == o.err && HistoryIs(cp, old(HistoryOf(cp)), o.saved)
  {
    var state, next, step, bypass := initial, startNode, startStep, bypassFirst;
    var maxSteps := StepCap(r, opts);
    ghost var env := EnvOf(r, opts, cp);
    ghost var before := HistoryOf(cp);
    ghost var saved: seq<Checkpoint<S>>, visits: seq<Visit<S>> := [], [];
    assert before == SaveAll(before, if cp == null then 0 else cp.limit, saved);
    while true
      invariant RunFrom(r, env, initial, startNode, startStep, bypassFirst) ==
                Prepend(saved, visits, RunFrom(r, env, state, next, step, bypass))
      invariant HistoryIs(cp, before, saved)
      decreases Left(maxSteps, step)
    {
      ghost var t := TurnAt(r, env, state, next, step, bypass);
      var end := RunTurn(r, state, next, step, maxSteps, bypass, opts.runId, cp, env, before, saved);
      if end.Stop? {
        return end.state, end.err;
      }
      PrependTwice(saved, visits, t.saved, t.visits, RunFrom(r, env, end.state, end.node, step + 1, false));
      saved, visits := saved + t.saved, visits + t.visits;
      state, next, step, bypass := end.state, end.node, step + 1, false;
    }
  }

  method InvokeWith<S>(r: Runnable<S>, initial: S, opts: Options<S>, cp: MemoryCheckpointer?<S>)
    returns (final: S, err: Option<RunError>)
    modifies cp
    ensures cp != null && opts.runId == "" ==>
      final == initial && err == Some(CheckpointerMissingRunID) && cp.history == old(cp.history)
    ensures !(cp != null && opts.runId == "") ==>
      var o := RunFrom(r, EnvOf(r, opts, cp), initial, r.entry, 0, false);
      final == o.state && err == o.err && HistoryIs(cp, old(HistoryOf(cp)), o.saved)
  {
    if cp != null && opts.runId == "" {
      return initial, Some(CheckpointerMissingRunID);
    }
    final, err := RunLoop(r, initial, r.entry, 0, opts, cp, false);
  }

  /** None as the final state is the zero value returned before anything was loaded. */
  method Resume<S>(r: Runnable<S>, opts: Options<S>, cp: MemoryCheckpointer?<S>)
    returns (final: Option<S>, err: Option<RunError>)
    modifies cp
    ensures cp == null ==> final == None && err == Some(ResumeMissingCheckpointer)
    ensures cp != null && opts.runId == "" ==>
      final == None && err == Some(ResumeMissingRunID) && cp.history == old(cp.history)
    ensures cp != null && opts.runId != "" && old(RunHistory(cp.history, opts.runId)) == [] ==>
      final == None && err == Some(CheckpointNotFound(opts.runId)) && cp.history == old(cp.history)
    ensures cp != null && opts.runId != "" && old(RunHistory(cp.history, opts.runId)) != [] ==>
      var h := old(RunHistory(cp.history, opts.runId));
      var ck := h[|h| - 1];
      var state := if opts.override.Some? then opts.override.value else ck.state;
      var o := RunFrom(r, EnvOf(r, opts, cp), state, ck.node, ck.step - 1, true);
      final == Some(o.state) && err == o.err && HistoryIs(cp, old(cp.history), o.saved)
  {
    hide RunFrom, SaveAll;
    if cp == null {
      return None, Some(ResumeMissingCheckpointer);
    }
    if opts.runId == "" {
      return None, Some(ResumeMissingRunID);
    }
    var found := cp.Load(opts.runId);
    if found.None? {
      return None, Some(CheckpointNotFound(opts.runId));
    }
    var ck := found.value;
    var state := ck.state;
    if opts.override.Some? {
      state := opts.override.value;
    }
    var out;
    out, err := RunLoop(r, state, ck.node, ck.step - 1, opts, cp, true);
    final := Some(out);
  }
}
