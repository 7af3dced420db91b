/** Input guards over sessions of ReAct invocations: nothing unvetted is sent, nothing is vetted twice needlessly. */
module ReactGuards {
  import opened Common
  import opened GraphTypes
  import opened Schema
  import opened React

  /** A digest that tells apart the histories it encodes; it may fail to encode one, and is empty then. */
  ghost predicate CollisionFree(digest: seq<Message> -> string)
  {
    forall a, b :: digest(a) != "" && digest(a) == digest(b) ==> a == b
  }

  lemma {:induction false} SameDigestSameHistory(digest: seq<Message> -> string, a: seq<Message>, b: seq<Message>)
    requires CollisionFree(digest) && digest(a) != "" && digest(a) == digest(b)
    ensures a == b
  {
  }

  /** One invocation: its configuration, its environment, and the messages the caller put in the state. */
  datatype Invocation = Invocation(cfg: Config, env: Env<State>, messages: seq<Message>)

  /** The caller carries the state over and may have changed its messages in any way. */
  function Seed(inv: Invocation, carried: State): State
  {
    carried.(messages := inv.messages)
  }

  ghost function Invoke(inv: Invocation, carried: State): Outcome<State>
  {
    RunFrom(ReactGraph(inv.cfg), inv.env, Seed(inv, carried), "model", 0, false)
  }

  /** The state carried into invocation `n` of a session. */
  ghost function Carried(invs: seq<Invocation>, first: State, n: nat): State
    requires n <= |invs|
  {
    if n == 0 then first else Invoke(invs[n - 1], Carried(invs, first, n - 1)).state
  }

  ghost predicate SameGuards(invs: seq<Invocation>, guards: seq<Message -> bool>, digest: seq<Message> -> string)
  {
    forall i :: 0 <= i < |invs| ==> invs[i].cfg.inputGuards == guards && invs[i].cfg.digest == digest
  }

  predicate FreshState(s: State)
  {
    s.inputGuarded == 0 && s.digest == "" && s.iterations == 0 && !s.stoppedAtCap
  }

  // ---- Every message sent has passed ----

  /** The history the digest stands for, if there is one, was vetted to its end, which is where the watermark is. */
  ghost predicate IsDigested(guards: seq<Message -> bool>, digest: seq<Message> -> string, s: State)
  {
    && s.inputGuarded >= 0
    && (s.digest != "" ==> forall p :: digest(p) == s.digest ==> |p| == s.inputGuarded && AllPass(guards, p, 0))
  }

  /** The watermark is good: without a digest, what is below it was vetted and could not be encoded. */
  ghost predicate WatermarkOk(guards: seq<Message -> bool>, digest: seq<Message> -> string, s: State)
  {
    && IsDigested(guards, digest, s)
    && (s.digest == "" && s.inputGuarded > 0 ==>
          && s.inputGuarded <= |s.messages|
          && AllPass(guards, s.messages[..s.inputGuarded], 0) && digest(s.messages[..s.inputGuarded]) == "")
  }

  /**
   What a caller can see of a carried state: there is a digest to compare with, or nothing was vetted yet, or the new
   messages begin with those that were vetted.
   */
  predicate KeepsVetted(carried: State, messages: seq<Message>)
  {
    || carried.digest != "" || carried.inputGuarded == 0
    || (0 <= carried.inputGuarded <= |carried.messages| && carried.messages[..carried.inputGuarded] <= messages)
  }

  lemma {:induction false} PassingPrefix(guards: seq<Message -> bool>, ms: seq<Message>, from: nat)
    requires from <= |ms| && AllPass(guards, ms[..from], 0) && AllPass(guards, ms, from)
    ensures AllPass(guards, ms, 0)
  {
    hide Passes;
    forall i | 0 <= i < |ms| && ms[i].role.User? ensures Passes(guards, ms[i]) {
      if i < from { assert ms[..from][i] == ms[i]; }
    }
  }

  /** Vetting from the watermark on is as good as vetting everything. */
  lemma {:induction false} WatermarkCoversHistory(cfg: Config, s: State)
    requires WatermarkOk(cfg.inputGuards, cfg.digest, s) && VetInput(cfg, s).Vetted? && |cfg.inputGuards| > 0
    ensures AllPass(cfg.inputGuards, s.messages, 0)
  {
    hide AllPass;
    var from := VetFrom(cfg, s);
    if from > 0 {
      assert AllPass(cfg.inputGuards, s.messages[..from], 0);
      PassingPrefix(cfg.inputGuards, s.messages, from);
    }
  }

  /** A history that was vetted from end to end leaves a good watermark, however it goes on. */
  lemma {:induction false} VettedWatermark(guards: seq<Message -> bool>, digest: seq<Message> -> string,
    ms: seq<Message>, s: State)
    requires CollisionFree(digest) && AllPass(guards, ms, 0)
    requires s.inputGuarded == |ms| && s.digest == digest(ms) && ms <= s.messages
    ensures WatermarkOk(guards, digest, s)
  {
    hide CollisionFree, AllPass;
    assert s.messages[..|ms|] == ms;
    if s.digest != "" {
      forall p | digest(p) == s.digest ensures |p| == s.inputGuarded && AllPass(guards, p, 0) {
        SameDigestSameHistory(digest, p, ms);
      }
    }
  }

  /** New messages that keep what was vetted leave the watermark good. */
  lemma {:induction false} KeptWatermark(guards: seq<Message -> bool>, digest: seq<Message> -> string, s: State,
    t: State)
    requires WatermarkOk(guards, digest, s) && KeepsVetted(s, t.messages)
    requires t.inputGuarded == s.inputGuarded && t.digest == s.digest
    ensures WatermarkOk(guards, digest, t)
  {
    hide AllPass;
    if s.digest == "" && s.inputGuarded > 0 {
      assert t.messages[..s.inputGuarded] == s.messages[..s.inputGuarded];
    }
  }

  lemma {:induction false} NodesKeepWatermark(cfg: Config)
    requires CollisionFree(cfg.digest) && |cfg.inputGuards| > 0
    ensures KeptByNodes(ReactGraph(cfg), s => WatermarkOk(cfg.inputGuards, cfg.digest, s))
  {
    hide CollisionFree, AllPass, WatermarkOk;
    var r := ReactGraph(cfg);
    forall n, k, s | n in r.nodes && WatermarkOk(cfg.inputGuards, cfg.digest, s) && r.nodes[n](k, s).Next?
      ensures WatermarkOk(cfg.inputGuards, cfg.digest, r.nodes[n](k, s).state)
    {
      if n == "model" {
        WatermarkCoversHistory(cfg, s);
        VettedWatermark(cfg.inputGuards, cfg.digest, s.messages, ModelNode(cfg, k, s).state);
      } else {
        AppendingKeepsVetted(cfg.inputGuards, cfg.digest, s, ToolsNode(cfg, k, s).state);
      }
    }
  }

  lemma {:induction false} AppendingKeepsVetted(guards: seq<Message -> bool>, digest: seq<Message> -> string, s: State,
    t: State)
    requires WatermarkOk(guards, digest, s) && s.messages <= t.messages
    requires t.inputGuarded == s.inputGuarded && t.digest == s.digest
    ensures WatermarkOk(guards, digest, t)
  {
    KeptWatermark(guards, digest, s, t);
  }

  /** Before each of the first `n` invocations, the new messages keep what was vetted. */
  ghost predicate KeepVetted(invs: seq<Invocation>, first: State, n: nat)
    requires n <= |invs|
  {
    forall j :: 0 <= j < n ==> KeepsVetted(Carried(invs, first, j), invs[j].messages)
  }

  /** In such a session the carried state always has a good watermark. */
  lemma {:induction false} CarriedWatermark(
      invs: seq<Invocation>, first: State, n: nat, guards: seq<Message -> bool>, digest: seq<Message> -> string)
    requires n <= |invs| && SameGuards(invs, guards, digest) && FreshState(first) && |guards| > 0
    requires CollisionFree(digest) && KeepVetted(invs, first, n)
    ensures WatermarkOk(guards, digest, Carried(invs, first, n))
  {
    hide CollisionFree, Invoke, WatermarkOk, KeepsVetted;
    if n > 0 {
      CarriedWatermark(invs, first, n - 1, guards, digest);
      InvocationKeepsWatermark(invs[n - 1], Carried(invs, first, n - 1));
    } else {
      FreshWatermark(guards, digest, first);
    }
  }

  lemma {:induction false} FreshWatermark(guards: seq<Message -> bool>, digest: seq<Message> -> string, s: State)
    requires FreshState(s)
    ensures WatermarkOk(guards, digest, s)
  {
  }

  lemma {:induction false} InvocationKeepsWatermark(inv: Invocation, carried: State)
    requires CollisionFree(inv.cfg.digest) && |inv.cfg.inputGuards| > 0
    requires WatermarkOk(inv.cfg.inputGuards, inv.cfg.digest, carried) && KeepsVetted(carried, inv.messages)
    ensures
      var o := Invoke(inv, carried);
      && WatermarkOk(inv.cfg.inputGuards, inv.cfg.digest, o.state)
      && forall v :: v in o.visits ==> WatermarkOk(inv.cfg.inputGuards, inv.cfg.digest, v.state)
  {
    hide CollisionFree, RunFrom, WatermarkOk, KeepsVetted;
    var prop := (s: State) => WatermarkOk(inv.cfg.inputGuards, inv.cfg.digest, s);
    NodesKeepWatermark(inv.cfg);
    KeptWatermark(inv.cfg.inputGuards, inv.cfg.digest, carried, Seed(inv, carried));
    StatePropertyHolds(ReactGraph(inv.cfg), inv.env, Seed(inv, carried), "model", 0, false, prop);
  }

  /** The messages a model turn passes to the provider: none when a guard blocks it. */
  function Sent(cfg: Config, s: State): seq<Message>
  {
    if VetInput(cfg, s).Vetted? then s.messages else []
  }

  /** What an invocation passes to the provider has passed all input guards. */
  ghost predicate SendsOnlyVetted(inv: Invocation, carried: State)
  {
    forall v :: v in Invoke(inv, carried).visits && v.node == "model" ==>
      AllPass(inv.cfg.inputGuards, Sent(inv.cfg, v.state), 0)
  }

  ghost predicate OnlyVettedIsSent(invs: seq<Invocation>, first: State, i: nat)
    requires i < |invs|
  {
    SendsOnlyVetted(invs[i], Carried(invs, first, i))
  }

  lemma {:induction false} GoodWatermarkIsSafe(inv: Invocation, carried: State)
    requires CollisionFree(inv.cfg.digest) && KeepsVetted(carried, inv.messages)
    requires |inv.cfg.inputGuards| > 0 ==> WatermarkOk(inv.cfg.inputGuards, inv.cfg.digest, carried)
    ensures SendsOnlyVetted(inv, carried)
  {
    hide CollisionFree, KeepsVetted, Invoke, WatermarkOk;
    if |inv.cfg.inputGuards| > 0 {
      InvocationKeepsWatermark(inv, carried);
      forall v | v in Invoke(inv, carried).visits && v.node == "model"
        ensures AllPass(inv.cfg.inputGuards, Sent(inv.cfg, v.state), 0)
      {
        if VetInput(inv.cfg, v.state).Vetted? {
          WatermarkCoversHistory(inv.cfg, v.state);
        }
      }
    }
  }

  /**
   In any session from a fresh state, whatever the caller does to the messages between invocations and however the
   turns end: as long as what was vetted is kept when there is no digest to tell, every user message passed to the
   provider has passed all input guards.
   */
  lemma {:induction false} NothingUnvettedIsSent(
      invs: seq<Invocation>, first: State, guards: seq<Message -> bool>, digest: seq<Message> -> string, i: nat)
    requires i < |invs| && SameGuards(invs, guards, digest) && FreshState(first)
    requires CollisionFree(digest) && KeepVetted(invs, first, i + 1)
    ensures OnlyVettedIsSent(invs, first, i)
  {
    hide CollisionFree, KeepsVetted, SendsOnlyVetted, WatermarkOk;
    if |guards| > 0 { CarriedWatermark(invs, first, i, guards, digest); }
    GoodWatermarkIsSafe(invs[i], Carried(invs, first, i));
  }

  // ---- What the provider is given decides: nothing else reaches it ----

  /** The same agent, but for the provider. */
  function WithProvider(cfg: Config, generate: (int, seq<Message>) -> Generated): Config { cfg.(generate := generate) }

  /** A model turn asks the provider once, with exactly the messages of the state, and not at all when it is blocked. */
  lemma {:induction false} ProviderSeesTheMessages(cfg: Config, generate: (int, seq<Message>) -> Generated, step: int,
    s: State)
    requires VetInput(cfg, s).Vetted? ==> generate(step, s.messages) == cfg.generate(step, s.messages)
    ensures ModelNode(WithProvider(cfg, generate), step, s) == ModelNode(cfg, step, s)
  {
  }

  /** A provider that answers like the agent's own wherever every user message has passed the guards. */
  ghost predicate AgreesOnVetted(cfg: Config, generate: (int, seq<Message>) -> Generated)
  {
    forall step: int, ms :: AllPass(cfg.inputGuards, ms, 0) ==> generate(step, ms) == cfg.generate(step, ms)
  }

  lemma {:induction false} AgreeingNodes(cfg: Config, generate: (int, seq<Message>) -> Generated)
    requires AgreesOnVetted(cfg, generate)
    ensures AlikeWhere(ReactGraph(cfg), ReactGraph(WithProvider(cfg, generate)), (s: State) =>
      |cfg.inputGuards| > 0 ==> WatermarkOk(cfg.inputGuards, cfg.digest, s))
  {
    var cfg2 := WithProvider(cfg, generate);
    var r, r2 := ReactGraph(cfg), ReactGraph(cfg2);
    forall n, k, s | n in r.nodes && (|cfg.inputGuards| > 0 ==> WatermarkOk(cfg.inputGuards, cfg.digest, s))
      ensures r2.nodes[n](k, s) == r.nodes[n](k, s)
    {
      hide WatermarkOk;
      if n == "model" {
        if VetInput(cfg, s).Vetted? {
          if |cfg.inputGuards| > 0 { WatermarkCoversHistory(cfg, s); }
          assert AllPass(cfg.inputGuards, s.messages, 0);
        }
        ProviderSeesTheMessages(cfg, generate, k, s);
      }
    }
  }

  lemma {:induction false} SameOutcome(inv: Invocation, generate: (int, seq<Message>) -> Generated, carried: State)
    requires CollisionFree(inv.cfg.digest) && AgreesOnVetted(inv.cfg, generate) && KeepsVetted(carried, inv.messages)
    requires |inv.cfg.inputGuards| > 0 ==> WatermarkOk(inv.cfg.inputGuards, inv.cfg.digest, carried)
    ensures Invoke(inv.(cfg := WithProvider(inv.cfg, generate)), carried) == Invoke(inv, carried)
  {
    var cfg := inv.cfg;
    hide CollisionFree, RunFrom, WatermarkOk, KeepsVetted, ReactGraph, AgreesOnVetted;
    var prop := (s: State) => |cfg.inputGuards| > 0 ==> WatermarkOk(cfg.inputGuards, cfg.digest, s);
    if |cfg.inputGuards| > 0 {
      NodesKeepWatermark(cfg);
      KeptWatermark(cfg.inputGuards, cfg.digest, carried, Seed(inv, carried));
    }
    AgreeingNodes(cfg, generate);
    AlikeRunsAreOne(ReactGraph(cfg), ReactGraph(WithProvider(cfg, generate)), inv.env, Seed(inv, carried), "model", 0,
                    false, prop);
  }

  /** The same session with other providers, each like the one in its place on vetted histories. */
  ghost predicate AgreeingSession(invs: seq<Invocation>, others: seq<Invocation>)
  {
    && |others| == |invs|
    && forall j :: 0 <= j < |invs| ==>
         && others[j] == invs[j].(cfg := WithProvider(invs[j].cfg, others[j].cfg.generate))
         && AgreesOnVetted(invs[j].cfg, others[j].cfg.generate)
  }

  /**
   In a session that keeps what was vetted, exchanging providers for ones that differ only on histories with an unvetted
   user message changes nothing: no such history is ever given to them.
   */
  lemma {:induction false} ProviderNeverSeesUnvetted(
      invs: seq<Invocation>, others: seq<Invocation>, first: State, guards: seq<Message -> bool>,
      digest: seq<Message> -> string, n: nat)
    requires n <= |invs| && SameGuards(invs, guards, digest) && FreshState(first) && AgreeingSession(invs, others)
    requires CollisionFree(digest) && KeepVetted(invs, first, n)
    ensures Carried(others, first, n) == Carried(invs, first, n)
    ensures forall j :: 0 <= j < n ==>
      Invoke(others[j], Carried(others, first, j)) == Invoke(invs[j], Carried(invs, first, j))
  {
    hide CollisionFree, KeepsVetted, Invoke, WatermarkOk, AgreesOnVetted;
    if n > 0 {
      ProviderNeverSeesUnvetted(invs, others, first, guards, digest, n - 1);
      if |guards| > 0 { CarriedWatermark(invs, first, n - 1, guards, digest); }
      SameOutcome(invs[n - 1], others[n - 1].cfg.generate, Carried(invs, first, n - 1));
    }
  }

  const FRESH := State([], "", 0, 0, "", false)

  /** A model that answers without tools, under the given guards and digest. */
  function PlainConfig(guards: seq<Message -> bool>, digest: seq<Message> -> string): Config
  {
    Config((step, ms) => Reply(Message(Assistant, "", [], "")), None, 0, guards, m => true, digest)
  }

  const PLAIN_ENV: Env<State> := Env(34, false, "", s => true)

  /** One plain invocation: the guards pass, the model answers, the run is over. */
  lemma {:induction false} PlainInvocation(guards: seq<Message -> bool>, digest: seq<Message> -> string,
    ms: seq<Message>, carried: State)
    requires VetInput(PlainConfig(guards, digest), carried.(messages := ms)).Vetted?
    ensures
      var o := Invoke(Invocation(PlainConfig(guards, digest), PLAIN_ENV, ms), carried);
      && o.visits == [Visit(1, "model", carried.(messages := ms))]
      && (|guards| > 0 ==> o.state.inputGuarded == |ms| && o.state.digest == digest(ms))
  {
    var cfg := PlainConfig(guards, digest);
    var r, seed := ReactGraph(cfg), carried.(messages := ms);
    var t := TurnAt(r, PLAIN_ENV, seed, "model", 0, false);
    var s' := ModelNode(cfg, 1, seed).state;
    assert r.nodes["model"](1, seed) == Next(s');
    assert Last(s'.messages) == Message(Assistant, "", [], "");
    assert ResolveNext(r, "model", s') == To(END);
    assert t.end == Go(END, s') && t.visits == [Visit(1, "model", seed)];
    assert RunFrom(r, PLAIN_ENV, s', END, 1, false).visits == [];
  }

  ghost predicate RejectsNothing(guards: seq<Message -> bool>) { forall m: Message :: m.role.User? ==> Passes(guards, m) }

  lemma {:induction false} RejectingNothingIsSafe(inv: Invocation, carried: State)
    requires RejectsNothing(inv.cfg.inputGuards)
    ensures SendsOnlyVetted(inv, carried)
  {
    hide Invoke, Passes;
  }

  /** Whatever invocation comes next sends only vetted messages. */
  ghost predicate NextIsSafe(guards: seq<Message -> bool>, digest: seq<Message> -> string, carried: State)
  {
    forall inv: Invocation :: inv.cfg.inputGuards == guards && inv.cfg.digest == digest ==> SendsOnlyVetted(inv, carried)
  }

  /** A rejected message put in place of messages that were vetted and not encoded is sent. */
  lemma {:induction false} UndigestedLetsMessagesThrough(guards: seq<Message -> bool>, digest: seq<Message> -> string,
    carried: State, m: Message)
    requires carried.digest == "" && carried.inputGuarded > 0 && m.role.User? && !Passes(guards, m)
    ensures !SendsOnlyVetted(Invocation(PlainConfig(guards, digest), PLAIN_ENV, [m]), carried)
  {
    var cfg, seed := PlainConfig(guards, digest), carried.(messages := [m]);
    hide Invoke;
    assert VetFrom(cfg, seed) == 1;
    PlainInvocation(guards, digest, [m], carried);
    assert Sent(cfg, seed)[0] == m;
  }

  /**
   A carried state is safe to go on from, whatever the caller does, exactly when it has a digest, or nothing was
   vetted yet, or the guards reject nothing.
   */
  lemma {:induction false} NextIsSafeExactly(guards: seq<Message -> bool>, digest: seq<Message> -> string, carried: State)
    requires CollisionFree(digest) && (|guards| > 0 ==> IsDigested(guards, digest, carried))
    ensures NextIsSafe(guards, digest, carried) <==>
      carried.digest != "" || carried.inputGuarded == 0 || RejectsNothing(guards)
  {
    assert |guards| == 0 ==> RejectsNothing(guards);
    hide CollisionFree, SendsOnlyVetted, Passes;
    if carried.digest != "" || carried.inputGuarded == 0 || RejectsNothing(guards) {
      forall inv: Invocation | inv.cfg.inputGuards == guards && inv.cfg.digest == digest
        ensures SendsOnlyVetted(inv, carried)
      {
        if RejectsNothing(guards) {
          RejectingNothingIsSafe(inv, carried);
        } else {
          GoodWatermarkIsSafe(inv, carried);
        }
      }
    } else {
      var m: Message :| m.role.User? && !Passes(guards, m);
      UndigestedLetsMessagesThrough(guards, digest, carried, m);
    }
  }

  /** So it is after any session that kept what was vetted. */
  lemma {:induction false} SessionGoesOnSafelyExactly(
      invs: seq<Invocation>, first: State, guards: seq<Message -> bool>, digest: seq<Message> -> string)
    requires SameGuards(invs, guards, digest) && FreshState(first)
    requires CollisionFree(digest) && KeepVetted(invs, first, |invs|)
    ensures
      var carried := Carried(invs, first, |invs|);
      NextIsSafe(guards, digest, carried) <==>
        carried.digest != "" || carried.inputGuarded == 0 || RejectsNothing(guards)
  {
    hide CollisionFree, KeepVetted, NextIsSafe, RejectsNothing, Invoke, IsDigested;
    if |guards| > 0 { CarriedWatermark(invs, first, |invs|, guards, digest); }
    NextIsSafeExactly(guards, digest, Carried(invs, first, |invs|));
  }

  // ---- When no session can go wrong ----

  /** Every history the guards let through is encoded. */
  ghost predicate Encodes(guards: seq<Message -> bool>, digest: seq<Message> -> string)
  {
    forall a :: |a| > 0 && AllPass(guards, a, 0) ==> digest(a) != ""
  }

  lemma {:induction false} PassedIsEncoded(guards: seq<Message -> bool>, digest: seq<Message> -> string,
    a: seq<Message>)
    requires Encodes(guards, digest) && |a| > 0 && AllPass(guards, a, 0)
    ensures digest(a) != ""
  {
  }

  lemma {:induction false} EncodedHasDigest(guards: seq<Message -> bool>, digest: seq<Message> -> string, s: State,
    messages: seq<Message>)
    requires WatermarkOk(guards, digest, s) && Encodes(guards, digest)
    ensures KeepsVetted(s, messages)
  {
    hide AllPass, Encodes;
    if s.digest == "" && s.inputGuarded > 0 {
      PassedIsEncoded(guards, digest, s.messages[..s.inputGuarded]);
    }
  }

  /** With every history encoded there is always a digest to tell. */
  lemma {:induction false} EncodedIsKept(
      invs: seq<Invocation>, first: State, n: nat, guards: seq<Message -> bool>, digest: seq<Message> -> string)
    requires n <= |invs| && SameGuards(invs, guards, digest) && FreshState(first) && |guards| > 0
    requires CollisionFree(digest) && Encodes(guards, digest)
    ensures KeepVetted(invs, first, n)
  {
    hide CollisionFree, Encodes, Invoke, WatermarkOk, KeepsVetted, SameGuards, FreshState;
    if n > 0 {
      EncodedIsKept(invs, first, n - 1, guards, digest);
      CarriedWatermark(invs, first, n - 1, guards, digest);
      EncodedHasDigest(guards, digest, Carried(invs, first, n - 1), invs[n - 1].messages);
    }
  }

  /**
   A history the guards let through but the digest does not encode: once it has been vetted, the watermark is
   trusted as it is, and a rejected message the caller puts in its place is sent.
   */
  lemma {:induction false} UnencodedLetsMessagesThrough(guards: seq<Message -> bool>, digest: seq<Message> -> string,
    a: seq<Message>, m: Message) returns (invs: seq<Invocation>)
    requires |a| > 0 && AllPass(guards, a, 0) && digest(a) == ""
    requires m.role.User? && !Passes(guards, m)
    ensures |invs| == 2 && SameGuards(invs, guards, digest) && FreshState(FRESH)
    ensures invs[0].messages == a && invs[1].messages == [m] && !OnlyVettedIsSent(invs, FRESH, 1)
  {
    var cfg := PlainConfig(guards, digest);
    invs := [Invocation(cfg, PLAIN_ENV, a), Invocation(cfg, PLAIN_ENV, [m])];
    hide Invoke, SendsOnlyVetted;
    PlainInvocation(guards, digest, a, FRESH);
    var carried := Carried(invs, FRESH, 1);
    assert carried == Invoke(invs[0], Carried(invs, FRESH, 0)).state;
    UndigestedLetsMessagesThrough(guards, digest, carried, m);
  }

  /** No session from a fresh state, however the caller rewrites the messages, sends an unvetted message. */
  ghost predicate IsSafe(guards: seq<Message -> bool>, digest: seq<Message> -> string)
  {
    forall invs, first, i ::
      0 <= i < |invs| && SameGuards(invs, guards, digest) && FreshState(first) ==> OnlyVettedIsSent(invs, first, i)
  }

  /** Callers may do anything exactly when the digest encodes every history the guards let through. */
  lemma {:induction false} SafeExactlyWhenEncoded(guards: seq<Message -> bool>, digest: seq<Message> -> string)
    requires CollisionFree(digest)
    ensures IsSafe(guards, digest) <==> Encodes(guards, digest) || RejectsNothing(guards)
  {
    assert |guards| == 0 ==> RejectsNothing(guards);
    hide CollisionFree, SameGuards, SendsOnlyVetted, Passes, FreshState, KeepVetted;
    if RejectsNothing(guards) {
      forall invs: seq<Invocation>, first, i | 0 <= i < |invs| && SameGuards(invs, guards, digest) && FreshState(first)
        ensures OnlyVettedIsSent(invs, first, i)
      {
        assert invs[i].cfg.inputGuards == guards by { GuardsOf(invs, guards, digest, i); }
        RejectingNothingIsSafe(invs[i], Carried(invs, first, i));
      }
    } else if Encodes(guards, digest) {
      forall invs: seq<Invocation>, first, i | 0 <= i < |invs| && SameGuards(invs, guards, digest) && FreshState(first)
        ensures OnlyVettedIsSent(invs, first, i)
      {
        EncodedIsKept(invs, first, i + 1, guards, digest);
        NothingUnvettedIsSent(invs, first, guards, digest, i);
      }
    } else {
      var a :| |a| > 0 && AllPass(guards, a, 0) && digest(a) == "";
      var m: Message :| m.role.User? && !Passes(guards, m);
      var invs := UnencodedLetsMessagesThrough(guards, digest, a, m);
    }
  }

  lemma {:induction false} GuardsOf(invs: seq<Invocation>, guards: seq<Message -> bool>, digest: seq<Message> -> string,
    i: nat)
    requires i < |invs| && SameGuards(invs, guards, digest)
    ensures invs[i].cfg.inputGuards == guards
  {
  }

  // ---- Each message is checked exactly once, when nothing is rewritten and no turn fails ----

  /** The positions of the user messages in `ms[from..to]`. */
  function UserPositions(ms: seq<Message>, from: nat, to: nat): seq<nat>
    requires from <= to <= |ms|
  {
    if from == to then []
    else if ms[to - 1].role.User? then UserPositions(ms, from, to - 1) + [to - 1]
    else UserPositions(ms, from, to - 1)
  }

  /** The positions a model turn has its guards check, when none of them blocks. */
  function Checked(cfg: Config, s: State): seq<nat>
  {
    if |cfg.inputGuards| == 0 || VetFrom(cfg, s) < 0 then []
    else UserPositions(s.messages, VetFrom(cfg, s), |s.messages|)
  }

  function CheckedIn(cfg: Config, visits: seq<Visit<State>>): seq<nat>
  {
    if |visits| == 0 then []
    else (if visits[0].node == "model" then Checked(cfg, visits[0].state) else []) + CheckedIn(cfg, visits[1..])
  }

  /** The watermark is where it was left, and the history below it is as it was. */
  predicate Untouched(cfg: Config, s: State)
  {
    && 0 <= s.inputGuarded <= |s.messages|
    && (s.digest == "" || s.digest == cfg.digest(s.messages[..s.inputGuarded]))
  }

  lemma {:induction false} UserPositionsSplit(ms: seq<Message>, a: nat, b: nat, c: nat)
    requires a <= b <= c <= |ms|
    ensures UserPositions(ms, a, c) == UserPositions(ms, a, b) + UserPositions(ms, b, c)
  {
    if b < c {
      UserPositionsSplit(ms, a, b, c - 1);
    }
  }

  lemma {:induction false} UserPositionsPrefix(ms: seq<Message>, more: seq<Message>, a: nat, b: nat)
    requires a <= b <= |ms| && ms <= more
    ensures UserPositions(more, a, b) == UserPositions(ms, a, b)
  {
    if a < b {
      UserPositionsPrefix(ms, more, a, b - 1);
    }
  }

  lemma {:induction false} CheckedInAppends(cfg: Config, a: seq<Visit<State>>, b: seq<Visit<State>>)
    ensures CheckedIn(cfg, a + b) == CheckedIn(cfg, a) + CheckedIn(cfg, b)
  {
    if |a| == 0 {
      assert a + b == b;
    } else {
      assert (a + b)[1..] == a[1..] + b;
      CheckedInAppends(cfg, a[1..], b);
    }
  }

  /** One node that does not fail: it only appends, and checks exactly the user messages it moves the watermark over. */
  lemma {:induction false} TurnChecks(cfg: Config, step: int, n: string, s: State)
    requires |cfg.inputGuards| > 0 && Untouched(cfg, s) && n in ReactGraph(cfg).nodes
    requires ReactGraph(cfg).nodes[n](step, s).Next?
    ensures
      var s' := ReactGraph(cfg).nodes[n](step, s).state;
      && Untouched(cfg, s') && s.messages <= s'.messages && s.inputGuarded <= s'.inputGuarded
      && (if n == "model" then Checked(cfg, s) else []) == UserPositions(s'.messages, s.inputGuarded, s'.inputGuarded)
      && (n == "model" ==> s'.inputGuarded == |s.messages|)
  {
    var s' := ReactGraph(cfg).nodes[n](step, s).state;
    if n == "model" {
      assert s'.messages[..s'.inputGuarded] == s.messages;
      UserPositionsPrefix(s.messages, s'.messages, s.inputGuarded, s'.inputGuarded);
    } else {
      assert s'.messages[..s'.inputGuarded] == s.messages[..s.inputGuarded];
    }
  }

  /** The same over a whole run. */
  lemma {:induction false} RunChecks(cfg: Config, env: Env<State>, s: State, n: string, step: int)
    requires |cfg.inputGuards| > 0 && Untouched(cfg, s)
    requires RunFrom(ReactGraph(cfg), env, s, n, step, false).err.None?
    ensures
      var o := RunFrom(ReactGraph(cfg), env, s, n, step, false);
      && Untouched(cfg, o.state) && s.messages <= o.state.messages && s.inputGuarded <= o.state.inputGuarded
      && CheckedIn(cfg, o.visits) == UserPositions(o.state.messages, s.inputGuarded, o.state.inputGuarded)
      && (n == "model" ==> |s.messages| <= o.state.inputGuarded)
    decreases Left(env.maxSteps, step)
  {
    var r := ReactGraph(cfg);
    var t := TurnAt(r, env, s, n, step, false);
    if t.end.Go? {
      var s' := t.end.state;
      var o := RunFrom(r, env, s', t.end.node, step + 1, false);
      hide RunFrom;
      TurnChecks(cfg, step + 1, n, s);
      assert t.visits == [Visit(step + 1, n, s)];
      assert CheckedIn(cfg, t.visits) == (if n == "model" then Checked(cfg, s) else []) by {
        assert t.visits[1..] == [];
      }
      RunChecks(cfg, env, s', t.end.node, step + 1);
      CheckedInAppends(cfg, t.visits, o.visits);
      UserPositionsPrefix(s'.messages, o.state.messages, s.inputGuarded, s'.inputGuarded);
      UserPositionsSplit(o.state.messages, s.inputGuarded, s'.inputGuarded, o.state.inputGuarded);
    }
  }

  /** Between invocations the caller only appended, and no invocation ended in an error. */
  ghost predicate AppendOnlySession(invs: seq<Invocation>, first: State)
  {
    forall i :: 0 <= i < |invs| ==>
      Carried(invs, first, i).messages <= invs[i].messages && Invoke(invs[i], Carried(invs, first, i)).err.None?
  }

  /** Every position the guards were asked about, over the first `n` invocations, in order. */
  ghost function AllChecked(invs: seq<Invocation>, first: State, n: nat): seq<nat>
    requires n <= |invs|
  {
    if n == 0 then [] else
    AllChecked(invs, first, n - 1) + CheckedIn(invs[n - 1].cfg, Invoke(invs[n - 1], Carried(invs, first, n - 1)).visits)
  }

  /** One invocation of such a session checks the user messages it moves the watermark over. */
  lemma {:induction false} InvocationChecks(inv: Invocation, before: State)
    requires |inv.cfg.inputGuards| > 0 && Untouched(inv.cfg, before)
    requires before.messages <= inv.messages && Invoke(inv, before).err.None?
    ensures
      var o := Invoke(inv, before);
      && Untouched(inv.cfg, o.state) && inv.messages <= o.state.messages && before.inputGuarded <= o.state.inputGuarded
      && CheckedIn(inv.cfg, o.visits) == UserPositions(o.state.messages, before.inputGuarded, o.state.inputGuarded)
      && |inv.messages| <= o.state.inputGuarded
  {
    hide RunFrom;
    var seed := Seed(inv, before);
    assert seed.messages[..seed.inputGuarded] == before.messages[..before.inputGuarded];
    RunChecks(inv.cfg, inv.env, seed, "model", 0);
  }

  /**
   Each user message the caller has passed was checked exactly once: the checks are the positions of the user
   messages up to the watermark, in order, and every message passed is below it.
   */
  lemma {:induction false} CheckedExactlyOnce(
      invs: seq<Invocation>, first: State, n: nat, guards: seq<Message -> bool>, digest: seq<Message> -> string)
    requires n <= |invs| && SameGuards(invs, guards, digest) && |guards| > 0
    requires FreshState(first) && AppendOnlySession(invs, first)
    ensures
      var s := Carried(invs, first, n);
      && 0 <= s.inputGuarded <= |s.messages|
      && (s.digest == "" || s.digest == digest(s.messages[..s.inputGuarded]))
      && (n > 0 ==> |invs[n - 1].messages| <= s.inputGuarded && invs[n - 1].messages <= s.messages)
      && AllChecked(invs, first, n) == UserPositions(s.messages, 0, s.inputGuarded)
  {
    hide Invoke, UserPositions, CheckedIn;
    if n > 0 {
      var inv, before := invs[n - 1], Carried(invs, first, n - 1);
      CheckedExactlyOnce(invs, first, n - 1, guards, digest);
      InvocationChecks(inv, before);
      var after := Invoke(inv, before).state;
      UserPositionsPrefix(before.messages, after.messages, 0, before.inputGuarded);
      UserPositionsSplit(after.messages, 0, before.inputGuarded, after.inputGuarded);
    } else {
      UserPositionsEmpty(first.messages);
    }
  }

  lemma {:induction false} UserPositionsEmpty(ms: seq<Message>)
    ensures UserPositions(ms, 0, 0) == []
  {
  }
}
