/** Interrupt gates: pausing and resuming a run changes nothing about what the run does (pkg/graph/runnable.go). */
module GraphResume {
  import opened Common
  import opened GraphTypes
  import opened GraphRun

  function Ungated<S>(r: Runnable<S>): Runnable<S>
  {
    r.(interruptBefore := {})
  }

  /** The saves other than those that precede a pause. */
  ghost function Unpaused<S>(cks: seq<Checkpoint<S>>): seq<Checkpoint<S>>
  {
    if |cks| == 0 then []
    else if cks[0].reason.InterruptReason? then Unpaused(cks[1..])
    else [cks[0]] + Unpaused(cks[1..])
  }

  lemma {:induction false} UnpausedAppends<S>(a: seq<Checkpoint<S>>, b: seq<Checkpoint<S>>)
    ensures Unpaused(a + b) == Unpaused(a) + Unpaused(b)
  {
    if |a| == 0 {
      assert a + b == b;
    } else {
      assert (a + b)[1..] == a[1..] + b;
      UnpausedAppends(a[1..], b);
    }
  }

  ghost predicate Paused<S>(o: Outcome<S>)
  {
    o.err.Some? && o.err.value.Interrupted?
  }

  /** A pause leaves, as its last save, the point where it stopped; a resumed run gets past its first node. */
  lemma {:induction false} PauseIsSaved<S>(
      r: Runnable<S>, env: Env<S>, state: S, next: string, step: int, bypass: bool)
    requires env.saving && Paused(RunFrom(r, env, state, next, step, bypass))
    ensures
      var o := RunFrom(r, env, state, next, step, bypass);
      && |o.saved| > 0
      && var ck := o.saved[|o.saved| - 1];
         && ck.runId == env.runId && ck.node == o.err.value.node && ck.state == o.state
         && step <= ck.step - 1 < env.maxSteps && (bypass ==> step < ck.step - 1)
    decreases Left(env.maxSteps, step)
  {
    var t := TurnAt(r, env, state, next, step, bypass);
    if t.end.Go? {
      PauseIsSaved(r, env, t.end.state, t.end.node, step + 1, false);
    }
  }

  /** What Load returns after these saves: the last of them. */
  lemma {:induction false} LastSaveIsLoaded<S>(h: History<S>, limit: nat, cks: seq<Checkpoint<S>>)
    requires |cks| > 0
    ensures
      var ck := cks[|cks| - 1];
      var kept := RunHistory(SaveAll(h, limit, cks), ck.runId);
      |kept| > 0 && kept[|kept| - 1] == ck
  {
    LoadAfterSave(SaveAll(h, limit, cks[..|cks| - 1]), limit, cks[|cks| - 1]);
  }

  /** A run and then, as often as it pauses, Resume from what the checkpointer holds (no override). */
  ghost function Chain<S>(
      r: Runnable<S>, env: Env<S>, limit: nat, h: History<S>, state: S, next: string, step: int, bypass: bool): Outcome<S>
    requires env.saving
    decreases Left(env.maxSteps, step), !bypass
  {
    var o := RunFrom(r, env, state, next, step, bypass);
    if Paused(o) then
      PauseIsSaved(r, env, state, next, step, bypass);
      LastSaveIsLoaded(h, limit, o.saved);
      var held := SaveAll(h, limit, o.saved);
      var ck := RunHistory(held, env.runId)[|RunHistory(held, env.runId)| - 1];
      Prepend(o.saved, o.visits, Chain(r, env, limit, held, ck.state, ck.node, ck.step - 1, true))
    else
      o
  }

  /** Without its gate a turn either is the same turn, or goes past the point where it would have paused. */
  lemma {:induction false} UngatedTurn<S>(r: Runnable<S>, env: Env<S>, state: S, next: string, step: int, bypass: bool)
    requires r.interruptBefore <= r.nodes.Keys
    ensures
      var t := TurnAt(r, env, state, next, step, bypass);
      var u := TurnAt(Ungated(r), env, state, next, step, false);
      if t.end.Stop? && t.end.err.Some? && t.end.err.value.Interrupted?
      then t.visits == [] && Unpaused(t.saved) == [] && t.end.state == state && next == t.end.err.value.node
      else u.end == t.end && u.visits == t.visits && u.saved == Unpaused(t.saved)
  {
    if next in r.nodes {
      match r.nodes[next](step + 1, state)
      case Fail(_) =>
      case Next(out) => assert ResolveNext(Ungated(r), next, out) == ResolveNext(r, next, out);
    }
  }

  /** What the ungated graph does from the point where `o` paused. */
  ghost function AfterPause<S>(r: Runnable<S>, env: Env<S>, o: Outcome<S>): Outcome<S>
    requires |o.saved| > 0
  {
    var ck := o.saved[|o.saved| - 1];
    RunFrom(Ungated(r), env, ck.state, ck.node, ck.step - 1, false)
  }

  /** `u` is `o` with the pause, if there is one, replaced by what the ungated graph does from there. */
  ghost predicate ContinuesAs<S>(r: Runnable<S>, env: Env<S>, o: Outcome<S>, u: Outcome<S>)
  {
    if Paused(o) then |o.saved| > 0 && u == Prepend(Unpaused(o.saved), o.visits, AfterPause(r, env, o))
    else u == o.(saved := Unpaused(o.saved))
  }

  lemma {:induction false} UnpausedPrepend<S>(saved: seq<Checkpoint<S>>, visits: seq<Visit<S>>, o: Outcome<S>, rest: Outcome<S>)
    ensures Prepend(Unpaused(saved), visits, Prepend(Unpaused(o.saved), o.visits, rest)) ==
            Prepend(Unpaused(saved + o.saved), visits + o.visits, rest)
  {
    UnpausedAppends(saved, o.saved);
    PrependTwice(Unpaused(saved), visits, Unpaused(o.saved), o.visits, rest);
  }

  lemma {:induction false} ContinuesAfter<S>(r: Runnable<S>, env: Env<S>, saved: seq<Checkpoint<S>>, visits: seq<Visit<S>>,
                          o: Outcome<S>, u: Outcome<S>)
    requires ContinuesAs(r, env, o, u)
    ensures ContinuesAs(r, env, Prepend(saved, visits, o), Prepend(Unpaused(saved), visits, u))
  {
    hide RunFrom, Unpaused;
    if Paused(o) {
      UnpausedPrepend(saved, visits, o, AfterPause(r, env, o));
      assert (saved + o.saved)[|saved + o.saved| - 1] == o.saved[|o.saved| - 1];
      assert AfterPause(r, env, Prepend(saved, visits, o)) == AfterPause(r, env, o);
    } else {
      UnpausedAppends(saved, o.saved);
    }
  }

  lemma {:induction false} PrependNothing<S>(o: Outcome<S>)
    ensures Prepend([], [], o) == o
  {
  }

  lemma {:induction false} PauseContinues<S>(r: Runnable<S>, env: Env<S>, state: S, next: string, step: int, bypass: bool)
    requires env.saving
    requires TurnAt(r, env, state, next, step, bypass).end == Stop(state, Some(Interrupted(next)))
    requires next != END && step < env.maxSteps && next in r.interruptBefore && !bypass && CanSave(env, state)
    ensures ContinuesAs(r, env, RunFrom(r, env, state, next, step, bypass), RunFrom(Ungated(r), env, state, next, step, false))
  {
    var ck := Checkpoint(env.runId, step + 1, next, state, InterruptReason);
    assert RunFrom(r, env, state, next, step, bypass) == Outcome(state, Some(Interrupted(next)), [ck], []);
    PrependNothing(RunFrom(Ungated(r), env, state, next, step, false));
    assert Unpaused([ck]) == [];
  }

  /** A gated run is the ungated one up to its pause, and the ungated one goes on from there. */
  lemma {:induction false} GatedIsPrefix<S>(
      r: Runnable<S>, env: Env<S>, state: S, next: string, step: int, bypass: bool)
    requires env.saving && r.interruptBefore <= r.nodes.Keys
    ensures ContinuesAs(r, env, RunFrom(r, env, state, next, step, bypass), RunFrom(Ungated(r), env, state, next, step, false))
    decreases Left(env.maxSteps, step)
  {
    UngatedTurn(r, env, state, next, step, bypass);
    var t := TurnAt(r, env, state, next, step, bypass);
    if t.end.Go? {
      GatedIsPrefix(r, env, t.end.state, t.end.node, step + 1, false);
      ContinuesAfter(r, env, t.saved, t.visits,
                     RunFrom(r, env, t.end.state, t.end.node, step + 1, false),
                     RunFrom(Ungated(r), env, t.end.state, t.end.node, step + 1, false));
    } else if t.end.err.Some? && t.end.err.value.Interrupted? {
      PauseContinues(r, env, state, next, step, bypass);
    }
  }

  /** The same nodes with the same states, the same end, and the same saves besides those of the pauses. */
  ghost predicate SameRun<S>(c: Outcome<S>, u: Outcome<S>)
  {
    c.state == u.state && c.err == u.err && c.visits == u.visits && Unpaused(c.saved) == u.saved
  }

  lemma {:induction false} SameRunAfter<S>(saved: seq<Checkpoint<S>>, visits: seq<Visit<S>>, c: Outcome<S>, u: Outcome<S>)
    requires SameRun(c, u)
    ensures SameRun(Prepend(saved, visits, c), Prepend(Unpaused(saved), visits, u))
  {
    UnpausedAppends(saved, c.saved);
  }

  /** A chain goes on from the last save of the run that paused. */
  lemma {:induction false} ChainGoesOn<S>(
      r: Runnable<S>, env: Env<S>, limit: nat, h: History<S>, state: S, next: string, step: int, bypass: bool,
      o: Outcome<S>)
    requires env.saving && o == RunFrom(r, env, state, next, step, bypass)
    ensures !Paused(o) ==> Chain(r, env, limit, h, state, next, step, bypass) == o
    ensures Paused(o) ==>
      && |o.saved| > 0
      && var ck := o.saved[|o.saved| - 1];
         && step <= ck.step - 1 < env.maxSteps && (bypass ==> step < ck.step - 1)
         && Chain(r, env, limit, h, state, next, step, bypass) ==
              Prepend(o.saved, o.visits, Chain(r, env, limit, SaveAll(h, limit, o.saved), ck.state, ck.node, ck.step - 1, true))
  {
    hide RunFrom;
    if Paused(o) {
      PauseIsSaved(r, env, state, next, step, bypass);
      LastSaveIsLoaded(h, limit, o.saved);
    }
  }

  /**
   Resumed as often as it pauses, a gated run is the run of the ungated graph, whatever the retention limit of
   the checkpointer and whatever it held before.
   */
  lemma {:induction false} ResumedRunIsUngatedRun<S>(
      r: Runnable<S>, env: Env<S>, limit: nat, h: History<S>, state: S, next: string, step: int, bypass: bool)
    requires env.saving && r.interruptBefore <= r.nodes.Keys
    ensures SameRun(Chain(r, env, limit, h, state, next, step, bypass), RunFrom(Ungated(r), env, state, next, step, false))
    decreases Left(env.maxSteps, step), !bypass
  {
    hide RunFrom, Chain, Unpaused, Prepend, SaveAll;
    var o := RunFrom(r, env, state, next, step, bypass);
    GatedIsPrefix(r, env, state, next, step, bypass);
    ChainGoesOn(r, env, limit, h, state, next, step, bypass, o);
    if Paused(o) {
      var ck := o.saved[|o.saved| - 1];
      var held := SaveAll(h, limit, o.saved);
      ResumedRunIsUngatedRun(r, env, limit, held, ck.state, ck.node, ck.step - 1, true);
      SameRunAfter(o.saved, o.visits, Chain(r, env, limit, held, ck.state, ck.node, ck.step - 1, true), AfterPause(r, env, o));
    }
  }

  /** Over the whole chain of resumes no more nodes are executed than the step cap allows one run. */
  lemma {:induction false} ResumedRunIsBounded<S>(r: Runnable<S>, env: Env<S>, limit: nat, h: History<S>, state: S)
    requires env.saving && r.interruptBefore <= r.nodes.Keys
    ensures |Chain(r, env, limit, h, state, r.entry, 0, false).visits| <= Left(env.maxSteps, 0)
    ensures !Paused(Chain(r, env, limit, h, state, r.entry, 0, false))
  {
    ResumedRunIsUngatedRun(r, env, limit, h, state, r.entry, 0, false);
    VisitsAreBounded(Ungated(r), env, state, r.entry, 0, false);
    if Paused(RunFrom(Ungated(r), env, state, r.entry, 0, false)) {
      UngatedNeverPauses(r, env, state, r.entry, 0);
    }
  }

  lemma {:induction false} UngatedNeverPauses<S>(r: Runnable<S>, env: Env<S>, state: S, next: string, step: int)
    ensures !Paused(RunFrom(Ungated(r), env, state, next, step, false))
    decreases Left(env.maxSteps, step)
  {
    var t := TurnAt(Ungated(r), env, state, next, step, false);
    if t.end.Go? {
      UngatedNeverPauses(r, env, t.end.state, t.end.node, step + 1);
    } else if next in r.nodes {
      match r.nodes[next](step + 1, state)
      case Fail(_) =>
      case Next(out) => assert !ResolveNext(Ungated(r), next, out).Stuck? || !ResolveNext(Ungated(r), next, out).err.Interrupted?;
    }
  }
}
