/**
 * Reply correlation in the Streamable HTTP server transport (pkg/mcp/transport_http.go): handlePost, Recv and Send as
 * the sections their locks and channel operations cut them into, under any interleaving. A reply carries the id of the
 * request it answers (JSON-RPC 2.0, section 5); a request without an id is a notification and gets none.
 */
module McpHttp {
  import opened Common

  /** A frame the host sends: its id as raw text, empty when it has none, and the bytes. */
  datatype Frame = Frame(id: string, body: string)

  // ---- The shared map ----

  class PendingRequest {
    const id: string
    var reply: seq<Frame>

    constructor (id: string)
      ensures this.id == id && reply == []
    {
      this.id := id;
      reply := [];
    }
  }

  class Transport {
    var pending: map<string, PendingRequest>

    /** Every request is filed under its own id, and notifications never are. */
    ghost predicate Valid()
      reads this
    {
      "" !in pending && forall id :: id in pending ==> pending[id].id == id
    }

    constructor ()
      ensures Valid() && pending == map[]
    {
      pending := map[];
    }

    /** The atomic check and insert of handlePost; a duplicate of a pending id is turned away. */
    method Register(id: string) returns (req: PendingRequest?)
      requires Valid() && id != ""
      modifies this
      ensures Valid()
      ensures id in old(pending) ==> req == null && pending == old(pending)
      ensures id !in old(pending) ==>
        req != null && fresh(req) && req.reply == [] && req.id == id && pending == old(pending)[id := req]
    {
      if id in pending {
        return null;
      }
      req := new PendingRequest(id);
      pending := pending[id := req];
    }

    /** The deferred cleanup of handlePost: it deletes by id, whichever request is filed there by then. */
    method Unregister(id: string)
      requires Valid()
      modifies this
      ensures Valid() && pending == old(pending) - {id}
    {
      pending := pending - {id};
    }

    /** The locked section of Send: the waiting request with the frame's id, taken out of the map. */
    method Take(f: Frame) returns (req: PendingRequest?)
      requires Valid()
      modifies this
      ensures Valid()
      ensures f.id in old(pending) ==> req == old(pending)[f.id] && req.id == f.id && pending == old(pending) - {f.id}
      ensures f.id !in old(pending) ==> req == null && pending == old(pending)
    {
      req := null;
      if f.id in pending {
        req := pending[f.id];
        pending := pending - {f.id};
      }
    }
  }

  // ---- The transition system ----

  datatype Outcome = Replied(reply: Frame) | GaveUp | Accepted | Duplicate

  /** A POST is waiting to be handed to Recv, waits for its reply, has an outcome but not cleaned up, or is done. */
  datatype Stage = Offering | Waiting | Leaving(outcome: Outcome) | Done(outcome: Outcome)

  /** `sent` counts the frames ever taken for this request. */
  datatype Post = Post(id: string, stage: Stage, reply: seq<Frame>, sent: nat)

  /** A Send between its locked section and the channel operation. */
  datatype Sending = Sending(post: nat, frame: Frame)

  /** `pending` maps an id to the index of the POST filed under it. */
  datatype State = State(pending: map<string, nat>, posts: seq<Post>, sending: seq<Sending>)

  datatype Event =
    | Arrive(id: string)
    | HandOff(post: nat)
    | GiveUp(post: nat)
    | TakeReply(post: nat)
    | CleanUp(post: nat)
    | Send(frame: Frame)
    | Put(i: nat)
    | Abandon(i: nat)

  const INITIAL := State(map[], [], [])

  function StageOf(s: State, p: nat): Option<Stage> { if p < |s.posts| then Some(s.posts[p].stage) else None }

  predicate Enabled(s: State, ev: Event)
  {
    match ev
    case Arrive(_) => true
    case HandOff(p) => StageOf(s, p) == Some(Offering)
    case GiveUp(p) => StageOf(s, p) == Some(Offering) || StageOf(s, p) == Some(Waiting)
    case TakeReply(p) => StageOf(s, p) == Some(Waiting) && |s.posts[p].reply| > 0
    case CleanUp(p) => StageOf(s, p).Some? && StageOf(s, p).value.Leaving?
    case Send(_) => true
    case Put(i) => i < |s.sending| && s.sending[i].post < |s.posts| && |s.posts[s.sending[i].post].reply| == 0
    case Abandon(i) => i < |s.sending|
  }

  function SetPost(s: State, p: nat, post: Post): State
    requires p < |s.posts|
  {
    s.(posts := s.posts[p := post])
  }

  function Without<T>(s: seq<T>, i: nat): seq<T>
    requires i < |s|
  {
    s[..i] + s[i + 1..]
  }

  function Apply(s: State, ev: Event): State
    requires Enabled(s, ev)
  {
    match ev
    case Arrive(id) =>
      if id == "" then s.(posts := s.posts + [Post(id, Offering, [], 0)])
      else if id in s.pending then s.(posts := s.posts + [Post(id, Done(Duplicate), [], 0)])
      else s.(pending := s.pending[id := |s.posts|], posts := s.posts + [Post(id, Offering, [], 0)])
    case HandOff(p) =>
      SetPost(s, p, s.posts[p].(stage := if s.posts[p].id == "" then Done(Accepted) else Waiting))
    case GiveUp(p) => SetPost(s, p, s.posts[p].(stage := Leaving(GaveUp)))
    case TakeReply(p) =>
      SetPost(s, p, s.posts[p].(stage := Leaving(Replied(s.posts[p].reply[0])), reply := s.posts[p].reply[1..]))
    case CleanUp(p) =>
      SetPost(s, p, s.posts[p].(stage := Done(s.posts[p].stage.outcome))).(pending := s.pending - {s.posts[p].id})
    case Send(f) =>
      if f.id in s.pending then
        var p := s.pending[f.id];
        if p < |s.posts| then
          s.(pending := s.pending - {f.id}, posts := s.posts[p := s.posts[p].(sent := s.posts[p].sent + 1)],
             sending := s.sending + [Sending(p, f)])
        else s
      else s
    case Put(i) =>
      var p := s.sending[i].post;
      SetPost(s, p, s.posts[p].(reply := s.posts[p].reply + [s.sending[i].frame])).(sending := Without(s.sending, i))
    case Abandon(i) => s.(sending := Without(s.sending, i))
  }

  ghost predicate IsRunFrom(s: State, states: seq<State>, events: seq<Event>)
  {
    && |states| == |events| + 1 && states[0] == s
    && (forall i :: 0 <= i < |events| ==> Enabled(states[i], events[i]) && states[i + 1] == Apply(states[i], events[i]))
  }

  // ---- Only own replies, and at most one ----

  function ReplyOf(stage: Stage): Option<Frame>
  {
    match stage
    case Leaving(Replied(f)) => Some(f)
    case Done(Replied(f)) => Some(f)
    case _ => None
  }

  predicate PostInv(post: Post)
  {
    && |post.reply| <= post.sent <= 1
    && (forall i :: 0 <= i < |post.reply| ==> post.reply[i].id == post.id)
    && (post.id == "" ==> post.sent == 0)
    && (ReplyOf(post.stage).Some? ==> ReplyOf(post.stage).value.id == post.id && post.sent == 1)
  }

  /** A pending id is that of the POST filed under it, for which nothing has been taken. */
  predicate Filed(s: State, id: string)
    requires id in s.pending
  {
    && id != "" && s.pending[id] < |s.posts|
    && s.posts[s.pending[id]].id == id && s.posts[s.pending[id]].sent == 0 && !s.posts[s.pending[id]].stage.Done?
  }

  /** A frame on its way goes to a POST with its id whose channel is empty. */
  predicate OnItsWay(s: State, sending: Sending)
  {
    && sending.post < |s.posts| && s.posts[sending.post].id == sending.frame.id && s.posts[sending.post].sent == 1
    && s.posts[sending.post].reply == [] && ReplyOf(s.posts[sending.post].stage) == None
  }

  predicate Inv(s: State)
  {
    && (forall p :: 0 <= p < |s.posts| ==> PostInv(s.posts[p]))
    && (forall id :: id in s.pending ==> Filed(s, id))
    && (forall i :: 0 <= i < |s.sending| ==> OnItsWay(s, s.sending[i]))
    && (forall i, j :: 0 <= i < j < |s.sending| ==> s.sending[i].post != s.sending[j].post)
  }

  // ---- Steps keep the invariant ----

  lemma {:induction false} ArriveKeepsInv(s: State, id: string)
    requires Inv(s)
    ensures Inv(Apply(s, Arrive(id)))
  {
    var t := Apply(s, Arrive(id));
    forall k | k in t.pending ensures Filed(t, k) {
      assert k in s.pending && k != id ==> Filed(s, k);
    }
    forall i | 0 <= i < |t.sending| ensures OnItsWay(t, t.sending[i]) {
      assert OnItsWay(s, s.sending[i]);
    }
  }

  /** A POST moves on: to a stage that claims no reply, and not to its end while it is filed. */
  lemma {:induction false} StageKeepsInv(s: State, p: nat, stage: Stage)
    requires Inv(s) && p < |s.posts|
    requires ReplyOf(stage) == None
    requires stage.Done? ==> s.posts[p].id !in s.pending
    ensures Inv(SetPost(s, p, s.posts[p].(stage := stage)))
  {
    var t := SetPost(s, p, s.posts[p].(stage := stage));
    assert PostInv(s.posts[p]);
    forall k | k in t.pending ensures Filed(t, k) {
      assert Filed(s, k);
    }
    forall i | 0 <= i < |t.sending| ensures OnItsWay(t, t.sending[i]) {
      assert OnItsWay(s, s.sending[i]);
    }
  }

  lemma {:induction false} NoNotificationIsFiled(s: State)
    requires Inv(s)
    ensures "" !in s.pending
  {
    assert forall id :: id in s.pending ==> Filed(s, id);
  }

  lemma {:induction false} UnfileKeepsInv(s: State, id: string)
    requires Inv(s)
    ensures Inv(s.(pending := s.pending - {id}))
  {
    var t := s.(pending := s.pending - {id});
    forall k | k in t.pending ensures Filed(t, k) {
      assert Filed(s, k);
    }
    forall i | 0 <= i < |t.sending| ensures OnItsWay(t, t.sending[i]) {
      assert OnItsWay(s, s.sending[i]);
    }
  }

  lemma {:induction false} TakeReplyKeepsInv(s: State, p: nat)
    requires Inv(s) && Enabled(s, TakeReply(p))
    ensures Inv(Apply(s, TakeReply(p)))
  {
    var t := Apply(s, TakeReply(p));
    assert PostInv(s.posts[p]);
    assert PostInv(t.posts[p]);
    forall k | k in t.pending ensures Filed(t, k) {
      assert Filed(s, k);
    }
    forall i | 0 <= i < |t.sending| ensures OnItsWay(t, t.sending[i]) {
      assert OnItsWay(s, s.sending[i]);
    }
  }

  lemma {:induction false} CleanUpKeepsInv(s: State, p: nat)
    requires Inv(s) && Enabled(s, CleanUp(p))
    ensures Inv(Apply(s, CleanUp(p)))
  {
    var post := s.posts[p];
    UnfileKeepsInv(s, post.id);
    var u := s.(pending := s.pending - {post.id});
    var t := Apply(s, CleanUp(p));
    assert PostInv(post);
    assert PostInv(t.posts[p]);
    forall k | k in t.pending ensures Filed(t, k) {
      assert Filed(u, k);
    }
    forall i | 0 <= i < |t.sending| ensures OnItsWay(t, t.sending[i]) {
      assert OnItsWay(s, s.sending[i]);
    }
  }

  lemma {:induction false} SendKeepsInv(s: State, f: Frame)
    requires Inv(s)
    ensures Inv(Apply(s, Send(f)))
  {
    var t := Apply(s, Send(f));
    if f.id in s.pending {
      assert Filed(s, f.id);
      var p := s.pending[f.id];
      assert PostInv(s.posts[p]);
      forall k | k in t.pending ensures Filed(t, k) {
        assert Filed(s, k);
      }
      forall i | 0 <= i < |s.sending| ensures OnItsWay(t, t.sending[i]) && s.sending[i].post != p {
        assert OnItsWay(s, s.sending[i]);
      }
      assert OnItsWay(t, Sending(p, f));
    }
  }

  lemma {:induction false} WithoutElements<T>(s: seq<T>, i: nat, k: nat)
    requires i < |s| && k < |s| - 1
    ensures Without(s, i)[k] == if k < i then s[k] else s[k + 1]
  {
  }

  lemma {:induction false} AbandonKeepsInv(s: State, i: nat)
    requires Inv(s) && i < |s.sending|
    ensures Inv(s.(sending := Without(s.sending, i)))
    ensures forall k :: 0 <= k < |s.sending| - 1 ==> Without(s.sending, i)[k].post != s.sending[i].post
  {
    var t := s.(sending := Without(s.sending, i));
    forall k | k in t.pending ensures Filed(t, k) {
      assert Filed(s, k);
    }
    forall k | 0 <= k < |t.sending| ensures OnItsWay(t, t.sending[k]) && t.sending[k].post != s.sending[i].post {
      WithoutElements(s.sending, i, k);
      assert OnItsWay(s, s.sending[k]) && OnItsWay(s, s.sending[k + 1]);
    }
  }

  lemma {:induction false} PutKeepsInv(s: State, i: nat)
    requires Inv(s) && Enabled(s, Put(i))
    ensures Inv(Apply(s, Put(i)))
  {
    var t := Apply(s, Put(i));
    var u := s.(sending := Without(s.sending, i));
    var p := s.sending[i].post;
    AbandonKeepsInv(s, i);
    assert OnItsWay(s, s.sending[i]);
    assert PostInv(s.posts[p]);
    assert t.posts[p].reply == [s.sending[i].frame];
    assert PostInv(t.posts[p]);
    forall k | k in t.pending ensures Filed(t, k) {
      assert Filed(s, k);
    }
    forall k | 0 <= k < |t.sending| ensures OnItsWay(t, t.sending[k]) {
      assert OnItsWay(u, u.sending[k]);
    }
  }

  lemma {:induction false} StepKeepsInv(s: State, ev: Event)
    requires Inv(s) && Enabled(s, ev)
    ensures Inv(Apply(s, ev))
  {
    NoNotificationIsFiled(s);
    hide Inv, PostInv, Filed, OnItsWay, Without;
    match ev
    case Arrive(id) => ArriveKeepsInv(s, id);
    case HandOff(p) => StageKeepsInv(s, p, if s.posts[p].id == "" then Done(Accepted) else Waiting);
    case GiveUp(p) => StageKeepsInv(s, p, Leaving(GaveUp));
    case TakeReply(p) => TakeReplyKeepsInv(s, p);
    case CleanUp(p) => CleanUpKeepsInv(s, p);
    case Send(f) => SendKeepsInv(s, f);
    case Put(i) => PutKeepsInv(s, i);
    case Abandon(i) => AbandonKeepsInv(s, i);
  }

  lemma {:induction false} RunKeepsInv(s: State, states: seq<State>, events: seq<Event>, i: nat)
    requires Inv(s) && IsRunFrom(s, states, events) && i < |states|
    ensures Inv(states[i])
  {
    hide Inv;
    if i > 0 {
      RunKeepsInv(s, states, events, i - 1);
      StepKeepsInv(states[i - 1], events[i - 1]);
    }
  }

  lemma {:induction false} InitialInv()
    ensures Inv(INITIAL)
  {
  }

  /** Whatever ids are reused, a POST is only ever answered with a frame of its own id, and at most once. */
  lemma {:induction false} EveryReplyIsItsOwn(states: seq<State>, events: seq<Event>, i: nat, p: nat)
    requires IsRunFrom(INITIAL, states, events) && i < |states| && p < |states[i].posts|
    ensures
      var post := states[i].posts[p];
      && post.sent <= 1
      && (ReplyOf(post.stage).Some? ==> ReplyOf(post.stage).value.id == post.id != "")
  {
    InitialInv();
    RunKeepsInv(INITIAL, states, events, i);
    assert PostInv(states[i].posts[p]);
  }

  /** A Send that has taken a request finds room in its channel. */
  lemma {:induction false} SendNeverBlocks(states: seq<State>, events: seq<Event>, i: nat, k: nat)
    requires IsRunFrom(INITIAL, states, events) && i < |states| && k < |states[i].sending|
    ensures Enabled(states[i], Put(k))
  {
    InitialInv();
    RunKeepsInv(INITIAL, states, events, i);
    assert OnItsWay(states[i], states[i].sending[k]);
  }

  // ---- When a reply is sure to find its request ----

  predicate Active(post: Post) { post.id != "" && (post.stage == Offering || post.stage == Waiting) }

  /** The request is filed under its id. */
  predicate IsFiled(s: State, p: nat)
  {
    p < |s.posts| && Active(s.posts[p]) && s.posts[p].id in s.pending && s.pending[s.posts[p].id] == p
  }

  /** No other request with its id still has its cleanup to run. */
  predicate Alone(s: State, p: nat)
    requires p < |s.posts|
  {
    forall q :: 0 <= q < |s.posts| && q != p && s.posts[q].id == s.posts[p].id ==> s.posts[q].stage.Done?
  }

  /** Still waiting, nothing taken for it yet, and no longer to be found. */
  predicate Orphaned(s: State, p: nat)
  {
    && p < |s.posts| && Active(s.posts[p]) && s.posts[p].sent == 0
    && !(s.posts[p].id in s.pending && s.pending[s.posts[p].id] == p)
  }

  /** Nothing is sent for `id` and request `p` does not give up. */
  predicate LeavesBe(events: seq<Event>, p: nat, id: string)
  {
    forall i :: 0 <= i < |events| ==> events[i] != GiveUp(p) && !(events[i].Send? && events[i].frame.id == id)
  }

  ghost predicate CanBeOrphaned(s: State, p: nat)
    requires p < |s.posts|
  {
    exists states, events ::
      IsRunFrom(s, states, events) && LeavesBe(events, p, s.posts[p].id) && Orphaned(states[|events|], p)
  }

  lemma {:induction false} FiledStays(s: State, p: nat, ev: Event)
    requires Inv(s) && IsFiled(s, p) && Alone(s, p) && Enabled(s, ev)
    requires ev != GiveUp(p) && !(ev.Send? && ev.frame.id == s.posts[p].id)
    ensures var t := Apply(s, ev); IsFiled(t, p) && Alone(t, p) && t.posts[p].id == s.posts[p].id
  {
    assert Filed(s, s.posts[p].id);
    assert PostInv(s.posts[p]);
    if ev.Put? {
      assert OnItsWay(s, s.sending[ev.i]);
    }
    if ev.Send? && ev.frame.id in s.pending {
      assert Filed(s, ev.frame.id);
    }
  }

  lemma {:induction false} FiledStaysOverRun(s: State, p: nat, states: seq<State>, events: seq<Event>, i: nat)
    requires Inv(s) && IsFiled(s, p) && Alone(s, p) && i < |states|
    requires IsRunFrom(s, states, events) && LeavesBe(events, p, s.posts[p].id)
    ensures Inv(states[i]) && IsFiled(states[i], p) && Alone(states[i], p) && states[i].posts[p].id == s.posts[p].id
  {
    hide Inv, IsFiled, Alone;
    if i > 0 {
      FiledStaysOverRun(s, p, states, events, i - 1);
      StepKeepsInv(states[i - 1], events[i - 1]);
      FiledStays(states[i - 1], p, events[i - 1]);
    }
  }

  /** With another request of the same id still to clean up, the cleanup can take this one's entry away. */
  lemma {:induction false} CleanupOrphans(s: State, p: nat, q: nat) returns (states: seq<State>, events: seq<Event>)
    requires Inv(s) && IsFiled(s, p) && q < |s.posts| && q != p
    requires s.posts[q].id == s.posts[p].id && !s.posts[q].stage.Done?
    ensures IsRunFrom(s, states, events) && LeavesBe(events, p, s.posts[p].id) && Orphaned(states[|events|], p)
  {
    assert Filed(s, s.posts[p].id);
    if s.posts[q].stage.Leaving? {
      states, events := [s, Apply(s, CleanUp(q))], [CleanUp(q)];
    } else {
      var t := Apply(s, GiveUp(q));
      states, events := [s, t, Apply(t, CleanUp(q))], [GiveUp(q), CleanUp(q)];
    }
  }

  /**
   * A filed request can lose its entry, with nothing sent for it and itself still waiting, exactly when another
   * request of the same id has its cleanup still to run.
   */
  lemma {:induction false} OrphanedExactlyByReuse(s: State, p: nat)
    requires Inv(s) && IsFiled(s, p)
    ensures CanBeOrphaned(s, p) <==> !Alone(s, p)
  {
    hide Inv;
    if !Alone(s, p) {
      var q :| 0 <= q < |s.posts| && q != p && s.posts[q].id == s.posts[p].id && !s.posts[q].stage.Done?;
      var states, events := CleanupOrphans(s, p, q);
    } else if CanBeOrphaned(s, p) {
      var states, events :|
        IsRunFrom(s, states, events) && LeavesBe(events, p, s.posts[p].id) && Orphaned(states[|events|], p);
      FiledStaysOverRun(s, p, states, events, |events|);
    }
  }

  /** A request whose id no unfinished request has is filed, and alone. */
  lemma {:induction false} FreshIdIsSafe(s: State, id: string)
    requires Inv(s) && id != ""
    requires forall q :: 0 <= q < |s.posts| && s.posts[q].id == id ==> s.posts[q].stage.Done?
    ensures var t := Apply(s, Arrive(id)); IsFiled(t, |s.posts|) && Alone(t, |s.posts|)
  {
    assert id in s.pending ==> Filed(s, id);
  }

  /** A frame sent for a filed request ends up in that request's channel, and in no other. */
  lemma {:induction false} ReplyArrives(s: State, p: nat, f: Frame)
    requires Inv(s) && IsFiled(s, p) && f.id == s.posts[p].id
    ensures
      var t := Apply(s, Send(f));
      && t.sending == s.sending + [Sending(p, f)] && Enabled(t, Put(|s.sending|))
      && Apply(t, Put(|s.sending|)).posts == s.posts[p := s.posts[p].(reply := [f], sent := 1)]
  {
    assert Filed(s, f.id);
    assert PostInv(s.posts[p]);
    assert s.posts[p].reply + [f] == [f];
  }

  /** So a reply sent while a request with a fresh id waits reaches exactly that request, whatever came between. */
  lemma {:induction false} FreshRequestGetsItsReply(s: State, id: string, states: seq<State>, events: seq<Event>, f: Frame)
    requires Inv(s) && id != "" && f.id == id
    requires forall q :: 0 <= q < |s.posts| && s.posts[q].id == id ==> s.posts[q].stage.Done?
    requires IsRunFrom(Apply(s, Arrive(id)), states, events) && LeavesBe(events, |s.posts|, id)
    ensures
      var u, p := states[|events|], |s.posts|;
      var t := Apply(u, Send(f));
      && p < |u.posts| && Enabled(t, Put(|u.sending|))
      && Apply(t, Put(|u.sending|)).posts == u.posts[p := u.posts[p].(reply := [f], sent := 1)]
  {
    FreshIdIsSafe(s, id);
    StepKeepsInv(s, Arrive(id));
    FiledStaysOverRun(Apply(s, Arrive(id)), |s.posts|, states, events, |events|);
    hide Inv, Alone;
    ReplyArrives(states[|events|], |s.posts|, f);
  }

  // ---- The id of a reply as it is sent ----

  /** The characters that marshalling a frame escapes, inside a raw id too. */
  predicate IsEscaped(c: char) { c == '<' || c == '>' || c == '&' || c == '\U{2028}' || c == '\U{2029}' }

  function EscapeOf(c: char): string
    requires IsEscaped(c)
  {
    if c == '<' then "\\u003c" else if c == '>' then "\\u003e" else if c == '&' then "\\u0026"
    else if c == '\U{2028}' then "\\u2028" else "\\u2029"
  }

  /** A raw id after marshalling. */
  function Marshalled(id: string): string
  {
    if id == "" then "" else (if IsEscaped(id[0]) then EscapeOf(id[0]) else [id[0]]) + Marshalled(id[1..])
  }

  /** Marshalling leaves exactly the ids without such characters as they are, and makes the others longer. */
  lemma {:induction false} MarshalledExactly(id: string)
    ensures |Marshalled(id)| >= |id|
    ensures Marshalled(id) == id <==> forall i :: 0 <= i < |id| ==> !IsEscaped(id[i])
  {
    if id != "" {
      MarshalledExactly(id[1..]);
      assert id == [id[0]] + id[1..];
      if IsEscaped(id[0]) {
        assert |Marshalled(id)| > |id|;
      } else {
        assert Marshalled(id) == [id[0]] + Marshalled(id[1..]);
        assert Marshalled(id)[1..] == Marshalled(id[1..]);
      }
    }
  }

  /**
   * A reply that carries the id of a filed request as marshalling leaves it is taken for that request exactly when
   * the id holds none of the characters that are escaped.
   */
  lemma {:induction false} ReplyIsMatchedExactly(s: State, p: nat, body: string)
    requires Inv(s) && IsFiled(s, p)
    ensures
      var t := Apply(s, Send(Frame(Marshalled(s.posts[p].id), body)));
      s.posts[p].id !in t.pending <==> forall i :: 0 <= i < |s.posts[p].id| ==> !IsEscaped(s.posts[p].id[i])
  {
    MarshalledExactly(s.posts[p].id);
    hide Inv, Marshalled;
  }

  /** That situation arises: a client reuses an id once the first reply is on its way. */
  lemma {:induction false} ReuseCanBeFiled(id: string, body: string) returns (states: seq<State>, events: seq<Event>)
    requires id != ""
    ensures IsRunFrom(INITIAL, states, events)
    ensures IsFiled(states[|events|], 1) && !Alone(states[|events|], 1) && CanBeOrphaned(states[|events|], 1)
  {
    events := [Arrive(id), HandOff(0), Send(Frame(id, body)), Arrive(id)];
    var s1 := Apply(INITIAL, Arrive(id));
    var s2 := Apply(s1, HandOff(0));
    var s3 := Apply(s2, Send(Frame(id, body)));
    var s4 := Apply(s3, Arrive(id));
    states := [INITIAL, s1, s2, s3, s4];
    InitialInv();
    RunKeepsInv(INITIAL, states, events, 4);
    assert s4.posts[0].id == id && s4.posts[1].id == id && s4.posts[0].stage == Waiting;
    OrphanedExactlyByReuse(s4, 1);
  }

  // ---- Replies are what was sent ----

  ghost predicate WasSent(events: seq<Event>, n: nat, f: Frame)
    requires n <= |events|
  {
    exists k :: 0 <= k < n && events[k] == Send(f)
  }

  /** Every frame a request has, or is about to get, was sent. */
  ghost predicate OnlySent(s: State, events: seq<Event>, n: nat)
    requires n <= |events|
  {
    && (forall i :: 0 <= i < |s.sending| ==> WasSent(events, n, s.sending[i].frame))
    && forall p :: 0 <= p < |s.posts| ==>
         && (forall i :: 0 <= i < |s.posts[p].reply| ==> WasSent(events, n, s.posts[p].reply[i]))
         && (ReplyOf(s.posts[p].stage).Some? ==> WasSent(events, n, ReplyOf(s.posts[p].stage).value))
  }

  lemma {:induction false} SentStays(events: seq<Event>, n: nat)
    requires n < |events|
    ensures forall f :: WasSent(events, n, f) ==> WasSent(events, n + 1, f)
    ensures events[n].Send? ==> WasSent(events, n + 1, events[n].frame)
  {
  }

  lemma {:induction false} StepKeepsSent(s: State, events: seq<Event>, n: nat)
    requires n < |events| && Enabled(s, events[n]) && OnlySent(s, events, n)
    ensures OnlySent(Apply(s, events[n]), events, n + 1)
  {
    SentStays(events, n);
    hide WasSent;
    if events[n].Put? || events[n].Abandon? {
      forall k | 0 <= k < |s.sending| - 1 ensures Without(s.sending, events[n].i)[k] in s.sending {
        WithoutElements(s.sending, events[n].i, k);
      }
    }
  }

  /** A POST is answered with a frame as it was sent. */
  lemma {:induction false} RepliesWereSent(states: seq<State>, events: seq<Event>, i: nat, p: nat)
    requires IsRunFrom(INITIAL, states, events) && i < |states| && p < |states[i].posts|
    ensures ReplyOf(states[i].posts[p].stage).Some? ==> WasSent(events, i, ReplyOf(states[i].posts[p].stage).value)
  {
    RunOnlySent(states, events, i);
  }

  lemma {:induction false} RunOnlySent(states: seq<State>, events: seq<Event>, i: nat)
    requires IsRunFrom(INITIAL, states, events) && i < |states|
    ensures OnlySent(states[i], events, i)
  {
    hide OnlySent;
    if i > 0 {
      RunOnlySent(states, events, i - 1);
      StepKeepsSent(states[i - 1], events, i - 1);
    } else {
      NothingSent(events);
    }
  }

  lemma {:induction false} NothingSent(events: seq<Event>)
    ensures OnlySent(INITIAL, events, 0)
  {
  }
}
