/**
 * Request and reply correlation in the MCP client (pkg/mcp/client.go): the sections of call and dispatchLoop, under
 * any interleaving. A reply carries the id of the request it answers and no method (JSON-RPC 2.0, section 5).
 */
module McpClient {
  import opened Common

  /** The id field of a frame: absent, a number, or something no request of ours could have carried. */
  datatype FrameId = NoId | Number(value: int) | OtherId

  datatype Frame = Malformed | Frame(methodName: string, id: FrameId, payload: string)

  /** What dispatchLoop does with a frame: the pending request it may answer. */
  function Answers(f: Frame): Option<int>
  {
    if f.Malformed? || f.methodName != "" || !f.id.Number? then None else Some(f.id.value)
  }

  /** `f` may complete the request numbered `id`: it is a reply, and carries that id. */
  predicate IsReplyTo(f: Frame, id: int) { f.Frame? && f.methodName == "" && f.id == Number(id) }

  // ---- The shared fields ----

  /** A reply channel with room for one message. */
  class Channel {
    var buffer: seq<Frame>

    constructor ()
      ensures buffer == []
    {
      buffer := [];
    }
  }

  class Client {
    var clientId: int
    var pending: map<int, Channel>
    var closed: bool
    var recvErr: Option<string>

    constructor ()
      ensures clientId == 0 && pending == map[] && !closed && recvErr == None
    {
      clientId, pending, closed, recvErr := 0, map[], false, None;
    }

    /** The first part of call: a new id, and a channel stored under it. */
    method Register() returns (id: int, ch: Channel)
      modifies this
      ensures id == old(clientId) + 1 == clientId && fresh(ch) && ch.buffer == []
      ensures pending == old(pending)[id := ch] && closed == old(closed) && recvErr == old(recvErr)
    {
      clientId := clientId + 1;
      id := clientId;
      ch := new Channel();
      pending := pending[id := ch];
    }

    /** The deferred part of call. */
    method Forget(id: int)
      modifies this`pending
      ensures pending == old(pending) - {id}
    {
      pending := pending - {id};
    }

    /** One turn of dispatchLoop up to the hand-over: whose channel the frame goes to, if anyone's. */
    method Route(f: Frame) returns (ch: Channel?)
      modifies this`pending
      ensures Answers(f).Some? && Answers(f).value in old(pending) ==>
        ch == old(pending)[Answers(f).value] && pending == old(pending) - {Answers(f).value}
      ensures !(Answers(f).Some? && Answers(f).value in old(pending)) ==> ch == null && pending == old(pending)
    {
      ch := null;
      if f.Malformed? { return; }
      if f.methodName != "" { return; }
      if f.id == NoId { return; }
      if f.id.Number? {
        var id := f.id.value;
        if id in pending {
          ch := pending[id];
          pending := pending - {id};
        }
      }
    }

    /** The hand-over: a send that blocks on a full channel, so there had better be room. */
    method Deliver(ch: Channel, f: Frame)
      requires |ch.buffer| == 0
      modifies ch
      ensures ch.buffer == [f]
    {
      ch.buffer := [f];
    }

    /** The connection is gone; only the first reason counts as the closing one. */
    method Fail(reason: string)
      modifies this`closed, this`recvErr
      ensures closed && recvErr == Some(reason)
    {
      recvErr := Some(reason);
      if !closed { closed := true; }
    }

    method Close()
      modifies this`closed
      ensures closed
    {
      if !closed { closed := true; }
    }
  }

  // ---- The transition system ----

  datatype Outcome = SendFailed | Cancelled | ConnectionClosed | Answered(reply: Frame)

  /** Where a call stands: its id drawn, its channel registered, its request sent, its result fixed, or returned. */
  datatype Stage = Numbered | Registered | Waiting | Returning(outcome: Outcome) | Returned(outcome: Outcome)

  /** `delivered` counts the messages ever put in the channel. */
  datatype Call = Call(id: int, stage: Stage, buffer: seq<Frame>, delivered: nat)

  datatype Dispatcher = Receiving | Holding(frame: Frame, call: nat) | Stopped

  /** `pending` maps an id to the index of the call whose channel is stored under it. */
  datatype State = State(counter: int, pending: map<int, nat>, calls: seq<Call>, dispatcher: Dispatcher, closed: bool)

  datatype Event =
    | NewCall
    | Register(call: nat)
    | SendRequest(call: nat, sent: bool)
    | Cancel(call: nat)
    | SeeClosed(call: nat)
    | TakeReply(call: nat)
    | Forget(call: nat)
    | Receive(frame: Frame)
    | Deliver
    | ReceiveFails
    | Close

  const INITIAL := State(0, map[], [], Receiving, false)

  function StageOf(s: State, c: nat): Option<Stage> { if c < |s.calls| then Some(s.calls[c].stage) else None }

  predicate Enabled(s: State, ev: Event)
  {
    match ev
    case NewCall => true
    case Register(c) => StageOf(s, c) == Some(Numbered)
    case SendRequest(c, _) => StageOf(s, c) == Some(Registered)
    case Cancel(c) => StageOf(s, c) == Some(Waiting)
    case SeeClosed(c) => StageOf(s, c) == Some(Waiting) && s.closed
    case TakeReply(c) => StageOf(s, c) == Some(Waiting) && |s.calls[c].buffer| > 0
    case Forget(c) => StageOf(s, c).Some? && StageOf(s, c).value.Returning?
    case Receive(_) => s.dispatcher == Receiving
    case Deliver => s.dispatcher.Holding? && s.dispatcher.call < |s.calls| && |s.calls[s.dispatcher.call].buffer| == 0
    case ReceiveFails => s.dispatcher == Receiving
    case Close => true
  }

  function SetStage(s: State, c: nat, stage: Stage): State
    requires c < |s.calls|
  {
    s.(calls := s.calls[c := s.calls[c].(stage := stage)])
  }

  function Apply(s: State, ev: Event): State
    requires Enabled(s, ev)
  {
    match ev
    case NewCall => s.(counter := s.counter + 1, calls := s.calls + [Call(s.counter + 1, Numbered, [], 0)])
    case Register(c) => SetStage(s, c, Registered).(pending := s.pending[s.calls[c].id := c])
    case SendRequest(c, sent) => SetStage(s, c, if sent then Waiting else Returning(SendFailed))
    case Cancel(c) => SetStage(s, c, Returning(Cancelled))
    case SeeClosed(c) => SetStage(s, c, Returning(ConnectionClosed))
    case TakeReply(c) =>
      var call := s.calls[c];
      s.(calls := s.calls[c := call.(stage := Returning(Answered(call.buffer[0])), buffer := call.buffer[1..])])
    case Forget(c) => SetStage(s, c, Returned(s.calls[c].stage.outcome)).(pending := s.pending - {s.calls[c].id})
    case Receive(f) =>
      if Answers(f).Some? && Answers(f).value in s.pending then
        var id := Answers(f).value;
        s.(pending := s.pending - {id}, dispatcher := Holding(f, s.pending[id]))
      else s
    case Deliver =>
      var c := s.dispatcher.call;
      var call := s.calls[c];
      s.(calls := s.calls[c := call.(buffer := call.buffer + [s.dispatcher.frame], delivered := call.delivered + 1)],
         dispatcher := Receiving)
    case ReceiveFails => s.(closed := true, dispatcher := Stopped)
    case Close => s.(closed := true)
  }

  ghost predicate IsRun(states: seq<State>, events: seq<Event>)
  {
    && |states| == |events| + 1 && states[0] == INITIAL
    && (forall i :: 0 <= i < |events| ==> Enabled(states[i], events[i]) && states[i + 1] == Apply(states[i], events[i]))
  }

  // ---- The invariant ----

  predicate OutcomeIsOwn(call: Call)
  {
    && (call.stage.Returning? && call.stage.outcome.Answered? ==> IsReplyTo(call.stage.outcome.reply, call.id))
    && (call.stage.Returned? && call.stage.outcome.Answered? ==> IsReplyTo(call.stage.outcome.reply, call.id))
  }

  /** What holds of one call: a single message at most, and that one its own. */
  predicate CallInv(call: Call)
  {
    && |call.buffer| <= call.delivered <= 1
    && (forall i :: 0 <= i < |call.buffer| ==> IsReplyTo(call.buffer[i], call.id))
    && (call.stage.Numbered? ==> call.delivered == 0)
    && OutcomeIsOwn(call)
  }

  predicate Inv(s: State)
  {
    && s.counter == |s.calls|
    && (forall c :: 0 <= c < |s.calls| ==> s.calls[c].id == c + 1 && CallInv(s.calls[c]))
    && (forall id :: id in s.pending ==> Untouched(s, id))
    && (s.dispatcher.Holding? ==> HeldWell(s, s.dispatcher.frame, s.dispatcher.call))
  }

  /** A pending id belongs to the call that drew it, and nothing has been sent on its channel. */
  predicate Untouched(s: State, id: int)
    requires id in s.pending
  {
    1 <= id <= |s.calls| && s.pending[id] == id - 1 && s.calls[id - 1].delivered == 0 && !s.calls[id - 1].stage.Numbered?
  }

  /** The frame being handed over is the first for its channel, and a reply to that call. */
  predicate HeldWell(s: State, f: Frame, c: nat)
  {
    && c < |s.calls| && IsReplyTo(f, s.calls[c].id) && s.calls[c].delivered == 0 && s.calls[c].id !in s.pending
    && !s.calls[c].stage.Numbered?
  }

  /** Moving a call on, without an answer, changes nothing the others rely on. */
  lemma {:induction false} StageKeepsInv(s: State, c: nat, stage: Stage)
    requires Inv(s) && c < |s.calls| && stage != Numbered && !s.calls[c].stage.Numbered?
    requires OutcomeIsOwn(s.calls[c].(stage := stage))
    ensures Inv(SetStage(s, c, stage))
  {
    var t := SetStage(s, c, stage);
    assert CallInv(s.calls[c]);
    assert forall id :: id in s.pending ==> Untouched(s, id);
    forall id | id in t.pending ensures Untouched(t, id) {
      assert Untouched(s, id);
    }
  }

  lemma {:induction false} RegisterKeepsInv(s: State, c: nat)
    requires Inv(s) && Enabled(s, Register(c))
    ensures Inv(Apply(s, Register(c)))
  {
    var t := Apply(s, Register(c));
    assert CallInv(s.calls[c]);
    forall id | id in t.pending ensures Untouched(t, id) {
      if id != c + 1 { assert Untouched(s, id); }
    }
  }

  lemma {:induction false} ForgetKeepsInv(s: State, c: nat)
    requires Inv(s) && Enabled(s, Forget(c))
    ensures Inv(Apply(s, Forget(c)))
  {
    assert CallInv(s.calls[c]);
    var t := SetStage(s, c, Returned(s.calls[c].stage.outcome));
    StageKeepsInv(s, c, Returned(s.calls[c].stage.outcome));
    var u := t.(pending := t.pending - {s.calls[c].id});
    forall id | id in u.pending ensures Untouched(u, id) {
      assert Untouched(t, id);
    }
  }

  lemma {:induction false} NewCallKeepsInv(s: State)
    requires Inv(s)
    ensures Inv(Apply(s, NewCall))
  {
    var t := Apply(s, NewCall);
    forall id | id in t.pending ensures Untouched(t, id) {
      assert Untouched(s, id);
    }
  }

  lemma {:induction false} ReceiveKeepsInv(s: State, f: Frame)
    requires Inv(s) && Enabled(s, Receive(f))
    ensures Inv(Apply(s, Receive(f)))
  {
    var t := Apply(s, Receive(f));
    if Answers(f).Some? && Answers(f).value in s.pending {
      assert Untouched(s, Answers(f).value);
    }
    forall id | id in t.pending ensures Untouched(t, id) {
      assert Untouched(s, id);
    }
  }

  /** Filling or emptying a channel that is no longer pending. */
  lemma {:induction false} ChannelKeepsInv(s: State, c: nat, call: Call, d: Dispatcher)
    requires Inv(s) && c < |s.calls| && call.id == s.calls[c].id && CallInv(call) && call.id !in s.pending
    requires d == Receiving || (d == s.dispatcher && (d.Holding? ==> d.call != c))
    ensures Inv(s.(calls := s.calls[c := call], dispatcher := d))
  {
    var t := s.(calls := s.calls[c := call], dispatcher := d);
    forall id | id in t.pending ensures Untouched(t, id) {
      assert Untouched(s, id);
    }
  }

  lemma {:induction false} TakeReplyKeepsInv(s: State, c: nat)
    requires Inv(s) && Enabled(s, TakeReply(c))
    ensures Inv(Apply(s, TakeReply(c)))
  {
    var call := s.calls[c];
    assert CallInv(call);
    var after := call.(stage := Returning(Answered(call.buffer[0])), buffer := call.buffer[1..]);
    assert forall id :: id in s.pending ==> Untouched(s, id);
    ChannelKeepsInv(s, c, after, s.dispatcher);
  }

  lemma {:induction false} DeliverKeepsInv(s: State)
    requires Inv(s) && Enabled(s, Deliver)
    ensures Inv(Apply(s, Deliver))
  {
    var c := s.dispatcher.call;
    var call := s.calls[c];
    assert CallInv(call);
    ChannelKeepsInv(s, c, call.(buffer := call.buffer + [s.dispatcher.frame], delivered := call.delivered + 1), Receiving);
  }

  lemma {:induction false} StepKeepsInv(s: State, ev: Event)
    requires Inv(s) && Enabled(s, ev)
    ensures Inv(Apply(s, ev))
  {
    hide Inv, CallInv, Untouched, HeldWell;
    match ev
    case NewCall => NewCallKeepsInv(s);
    case Register(c) => RegisterKeepsInv(s, c);
    case SendRequest(c, sent) => StageKeepsInv(s, c, if sent then Waiting else Returning(SendFailed));
    case Cancel(c) => StageKeepsInv(s, c, Returning(Cancelled));
    case SeeClosed(c) => StageKeepsInv(s, c, Returning(ConnectionClosed));
    case TakeReply(c) => TakeReplyKeepsInv(s, c);
    case Forget(c) => ForgetKeepsInv(s, c);
    case Receive(f) => ReceiveKeepsInv(s, f);
    case Deliver => DeliverKeepsInv(s);
    case ReceiveFails => ClosingKeepsInv(s, Stopped);
    case Close => ClosingKeepsInv(s, s.dispatcher);
  }

  lemma {:induction false} ClosingKeepsInv(s: State, d: Dispatcher)
    requires Inv(s) && (d == s.dispatcher || d == Stopped)
    ensures Inv(s.(closed := true, dispatcher := d))
  {
    var t := s.(closed := true, dispatcher := d);
    forall id | id in t.pending ensures Untouched(t, id) {
      assert Untouched(s, id);
    }
  }

  lemma {:induction false} RunKeepsInv(states: seq<State>, events: seq<Event>, i: nat)
    requires IsRun(states, events) && i < |states|
    ensures Inv(states[i])
  {
    hide Inv;
    if i > 0 {
      RunKeepsInv(states, events, i - 1);
      StepKeepsInv(states[i - 1], events[i - 1]);
    } else {
      InitialInv();
    }
  }

  lemma {:induction false} InitialInv()
    ensures Inv(INITIAL)
  {
  }

  // ---- What it means ----

  /** A call that returns an answer returns a method-less frame carrying its own id. */
  lemma {:induction false} EveryAnswerIsItsOwn(states: seq<State>, events: seq<Event>, i: nat, c: nat)
    requires IsRun(states, events) && i < |states| && c < |states[i].calls|
    ensures
      var stage := states[i].calls[c].stage;
      stage.Returned? && stage.outcome.Answered? ==> IsReplyTo(stage.outcome.reply, states[i].calls[c].id)
  {
    RunKeepsInv(states, events, i);
    assert CallInv(states[i].calls[c]);
  }

  /** No two calls share an id, whatever became of the earlier one. */
  lemma {:induction false} IdsAreNeverReused(states: seq<State>, events: seq<Event>, i: nat, c: nat, d: nat)
    requires IsRun(states, events) && i < |states| && c < d < |states[i].calls|
    ensures states[i].calls[c].id != states[i].calls[d].id
  {
    RunKeepsInv(states, events, i);
  }

  /** Each channel sees at most one message, so the hand-over never blocks. */
  lemma {:induction false} DispatcherNeverBlocks(states: seq<State>, events: seq<Event>, i: nat)
    requires IsRun(states, events) && i < |states|
    ensures states[i].dispatcher.Holding? ==> Enabled(states[i], Deliver)
    ensures forall c :: 0 <= c < |states[i].calls| ==> states[i].calls[c].delivered <= 1
  {
    RunKeepsInv(states, events, i);
    assert forall c :: 0 <= c < |states[i].calls| ==> CallInv(states[i].calls[c]);
  }

  /** The first reply to a registered call reaches its channel, whatever else has happened. */
  lemma {:induction false} FirstReplyArrives(states: seq<State>, events: seq<Event>, i: nat, c: nat, f: Frame)
    requires IsRun(states, events) && i < |states| && c < |states[i].calls|
    requires states[i].calls[c].id in states[i].pending && states[i].dispatcher == Receiving
    requires IsReplyTo(f, states[i].calls[c].id)
    ensures Enabled(Apply(states[i], Receive(f)), Deliver)
    ensures Apply(Apply(states[i], Receive(f)), Deliver).calls == states[i].calls[c := states[i].calls[c].(buffer := [f], delivered := 1)]
  {
    RunKeepsInv(states, events, i);
    assert Untouched(states[i], states[i].calls[c].id);
    assert CallInv(states[i].calls[c]);
    assert states[i].calls[c].buffer + [f] == [f];
  }

  /** Only calls on their way have an entry, and only a closed connection ends a call as closed. */
  predicate Tidy(s: State)
  {
    && (forall id :: id in s.pending ==> 1 <= id <= |s.calls| && !s.calls[id - 1].stage.Returned?)
    && (forall c :: 0 <= c < |s.calls| ==> (EndedAsClosed(s.calls[c].stage) ==> s.closed))
  }

  predicate EndedAsClosed(stage: Stage)
  {
    (stage.Returning? && stage.outcome.ConnectionClosed?) || (stage.Returned? && stage.outcome.ConnectionClosed?)
  }

  lemma {:induction false} StepKeepsTidy(s: State, ev: Event)
    requires Inv(s) && Tidy(s) && Enabled(s, ev)
    ensures Tidy(Apply(s, ev))
  {
    assert forall id :: id in s.pending ==> Untouched(s, id);
    hide CallInv, HeldWell;
  }

  /** A call that has returned leaves nothing behind, and is told of a closed connection only when it is one. */
  lemma {:induction false} ReturnedIsForgotten(states: seq<State>, events: seq<Event>, i: nat, c: nat)
    requires IsRun(states, events) && i < |states| && c < |states[i].calls|
    ensures states[i].calls[c].stage.Returned? ==> states[i].calls[c].id !in states[i].pending
    ensures EndedAsClosed(states[i].calls[c].stage) ==> states[i].closed
  {
    RunIsTidy(states, events, i);
    RunKeepsInv(states, events, i);
    if states[i].calls[c].id in states[i].pending { assert Untouched(states[i], states[i].calls[c].id); }
  }

  lemma {:induction false} RunIsTidy(states: seq<State>, events: seq<Event>, i: nat)
    requires IsRun(states, events) && i < |states|
    ensures Tidy(states[i])
  {
    hide Inv, Tidy;
    if i > 0 {
      RunIsTidy(states, events, i - 1);
      RunKeepsInv(states, events, i - 1);
      StepKeepsTidy(states[i - 1], events[i - 1]);
    } else {
      assert Tidy(INITIAL) by { InitialIsTidy(); }
    }
  }

  lemma {:induction false} InitialIsTidy()
    ensures Tidy(INITIAL)
  {
  }

  ghost predicate WasReceived(events: seq<Event>, n: nat, f: Frame)
    requires n <= |events|
  {
    exists k :: 0 <= k < n && events[k] == Receive(f)
  }

  function AnswerOf(stage: Stage): Option<Frame>
  {
    match stage
    case Returning(Answered(f)) => Some(f)
    case Returned(Answered(f)) => Some(f)
    case _ => None
  }

  ghost predicate CallReceived(call: Call, events: seq<Event>, n: nat)
    requires n <= |events|
  {
    && (forall i :: 0 <= i < |call.buffer| ==> WasReceived(events, n, call.buffer[i]))
    && (AnswerOf(call.stage).Some? ==> WasReceived(events, n, AnswerOf(call.stage).value))
  }

  /** Every frame a call has, or is about to get, came over the connection. */
  ghost predicate OnlyReceived(s: State, events: seq<Event>, n: nat)
    requires n <= |events|
  {
    && (s.dispatcher.Holding? ==> WasReceived(events, n, s.dispatcher.frame))
    && forall c :: 0 <= c < |s.calls| ==> CallReceived(s.calls[c], events, n)
  }

  lemma {:induction false} ReceivedStays(events: seq<Event>, n: nat)
    requires n < |events|
    ensures forall f :: WasReceived(events, n, f) ==> WasReceived(events, n + 1, f)
    ensures forall call :: CallReceived(call, events, n) ==> CallReceived(call, events, n + 1)
    ensures events[n].Receive? ==> WasReceived(events, n + 1, events[n].frame)
  {
  }

  lemma {:induction false} StepKeepsReceived(s: State, events: seq<Event>, n: nat)
    requires n < |events| && Enabled(s, events[n]) && OnlyReceived(s, events, n)
    ensures OnlyReceived(Apply(s, events[n]), events, n + 1)
  {
    ReceivedStays(events, n);
    var t := Apply(s, events[n]);
    hide WasReceived;
    forall c | 0 <= c < |t.calls| ensures CallReceived(t.calls[c], events, n + 1) {
      assert c < |s.calls| ==> CallReceived(s.calls[c], events, n + 1);
      if c < |s.calls| && t.calls[c] == s.calls[c] {
        hide CallReceived;
      }
    }
  }

  /** A call that returns an answer returns a frame as it was received, and a reply to itself. */
  lemma {:induction false} AnswersWereReceived(states: seq<State>, events: seq<Event>, i: nat, c: nat)
    requires IsRun(states, events) && i < |states| && c < |states[i].calls|
    ensures AnswerOf(states[i].calls[c].stage).Some? ==>
      var f := AnswerOf(states[i].calls[c].stage).value;
      WasReceived(events, i, f) && IsReplyTo(f, states[i].calls[c].id)
  {
    RunOnlyReceived(states, events, i);
    RunKeepsInv(states, events, i);
    assert CallInv(states[i].calls[c]);
  }

  lemma {:induction false} RunOnlyReceived(states: seq<State>, events: seq<Event>, i: nat)
    requires IsRun(states, events) && i < |states|
    ensures OnlyReceived(states[i], events, i)
  {
    hide OnlyReceived;
    if i > 0 {
      RunOnlyReceived(states, events, i - 1);
      StepKeepsReceived(states[i - 1], events, i - 1);
    } else {
      NothingReceived(events);
    }
  }

  lemma {:induction false} NothingReceived(events: seq<Event>)
    ensures OnlyReceived(INITIAL, events, 0)
  {
  }
}
