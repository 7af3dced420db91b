/**
 * Runs of a window with Appends interleaved anywhere between the phases of Snapshot: what is kept, what is summarized
 * and what is handed out.
 */
module WindowRuns {
  import opened Common
  import opened Text
  import opened Schema
  import opened Window

  /** A range of the append history that the summarizer was given, and the copy it got. */
  datatype Fed = Fed(from: nat, to: nat, copy: seq<Message>)

  /** Everything ever appended; which of it leads the window; where the rest begins; what was summarized. */
  datatype History = History(log: seq<Message>, lead: Option<nat>, next: nat, fed: seq<Fed>)

  /** The window's fields, the Snapshot between its phases if there is one, the last snapshot handed out. */
  datatype State = State(messages: seq<Message>, summary: string, plan: Option<Plan>, out: Option<seq<Message>>,
    history: History)

  /** The locked sections. Only one Snapshot is between its phases at a time. */
  datatype Event = Append(ms: seq<Message>) | Begin | Finish(added: string)

  const INITIAL := State([], "", None, None, History([], None, 0, []))

  predicate WellFormed(h: History)
  {
    && h.next <= |h.log|
    && (h.lead.Some? ==> h.lead.value < h.next && h.log[h.lead.value].role == System)
  }

  /** The window as the history tells it: the leading message, then the tail of what was appended. */
  function View(h: History): seq<Message>
    requires WellFormed(h)
  {
    (if h.lead.Some? then [h.log[h.lead.value]] else []) + h.log[h.next..]
  }

  /** A system message that has become the first one leads from then on. */
  predicate Promotes(h: History)
  {
    h.lead.None? && h.next < |h.log| && h.log[h.next].role == System
  }

  function LeadIndex(h: History): Option<nat> { if Promotes(h) then Some(h.next) else h.lead }

  function BodyStart(h: History): nat { if Promotes(h) then h.next + 1 else h.next }

  /** The history after evicting `n` messages. */
  function Evict(h: History, n: nat): (r: History)
  {
    if n == 0 then h else h.(lead := LeadIndex(h), next := BodyStart(h) + n)
  }

  lemma {:induction false} ViewSplits(h: History)
    requires WellFormed(h)
    ensures BodyStart(h) <= |h.log| && Body(View(h)) == h.log[BodyStart(h)..]
    ensures Leading(View(h)) == if LeadIndex(h).Some? then Some(h.log[LeadIndex(h).value]) else None
  {
    if h.lead.Some? {
      assert View(h)[1..] == h.log[h.next..];
    } else {
      assert View(h) == h.log[h.next..];
      assert Promotes(h) ==> h.log[h.next..][1..] == h.log[h.next + 1..];
    }
  }

  lemma {:induction false} EvictDrops(h: History, n: nat)
    requires WellFormed(h) && n <= |Body(View(h))|
    ensures WellFormed(Evict(h, n)) && View(Evict(h, n)) == Dropped(View(h), n)
  {
    ViewSplits(h);
    LeaderIsInFront(h);
    SplitsInTwo(View(h));
    hide Leading, Body, Promotes;
    if n == 0 {
      assert Body(View(h))[0..] == Body(View(h));
    } else {
      assert h.log[BodyStart(h)..][n..] == h.log[BodyStart(h) + n..];
    }
  }

  lemma {:induction false} LeaderIsInFront(h: History)
    requires WellFormed(h)
    ensures LeadIndex(h).Some? ==> LeadIndex(h).value < BodyStart(h) && h.log[LeadIndex(h).value].role == System
  {
  }

  predicate Enabled(s: State, ev: Event)
  {
    match ev
    case Append(_) => true
    case Begin => s.plan.None?
    case Finish(added) => s.plan.Some? && (s.plan.value.evicted == [] ==> added == "")
  }

  /** How many more messages enforcing the caps evicts. */
  function Extra(cfg: Config, summary: string, messages: seq<Message>): nat
  {
    if Capped(cfg) then EvictCount(cfg, summary, messages) else 0
  }

  function Apply(cfg: Config, s: State, ev: Event): State
    requires Enabled(s, ev)
  {
    match ev
    case Append(ms) => s.(messages := s.messages + ms, history := s.history.(log := s.history.log + ms))
    case Begin => s.(plan := Some(PlanFor(cfg, s.messages, s.summary)))
    case Finish(added) =>
      var plan := s.plan.value;
      var summary := Folded(s.summary, added);
      var kept := AfterDrop(s.messages, plan);
      var messages := Enforced(cfg, summary, kept);
      State(messages, summary, None, Some(SnapshotOf(messages, summary)),
            Evict(Told(Evict(s.history, plan.start), s.history, plan), Extra(cfg, summary, kept)))
  }

  /** Notes what the summarizer was given. */
  function Told(h: History, before: History, plan: Plan): History
  {
    if plan.evicted == [] then h
    else h.(fed := h.fed + [Fed(BodyStart(before), BodyStart(before) + plan.start, plan.evicted)])
  }

  ghost predicate IsRun(cfg: Config, states: seq<State>, events: seq<Event>)
  {
    && |states| == |events| + 1 && states[0] == INITIAL
    && (forall i :: 0 <= i < |events| ==> Enabled(states[i], events[i]) && states[i + 1] == Apply(cfg, states[i], events[i]))
  }

  /** A plan is still good: its message leads, and its copy is the front of what may be evicted. */
  predicate PlanHolds(cfg: Config, s: State)
  {
    s.plan.Some? ==>
      && s.plan.value.start <= |Body(s.messages)|
      && (s.plan.value.start > 0 ==> s.plan.value.sys == Leading(s.messages))
      && s.plan.value.evicted == if cfg.hasSummarizer then Body(s.messages)[..s.plan.value.start] else []
  }

  /** Every summarized range was copied right, came after the earlier ones, is gone, and never held the leader. */
  predicate FedWell(h: History)
  {
    && (forall i :: 0 <= i < |h.fed| ==>
          && h.fed[i].from < h.fed[i].to <= h.next <= |h.log|
          && h.fed[i].copy == h.log[h.fed[i].from..h.fed[i].to]
          && !(h.lead.Some? && h.fed[i].from <= h.lead.value < h.fed[i].to))
    && (forall i, j :: 0 <= i < j < |h.fed| ==> h.fed[i].to <= h.fed[j].from)
  }

  predicate Inv(cfg: Config, s: State)
  {
    WellFormed(s.history) && s.messages == View(s.history) && PlanHolds(cfg, s) && FedWell(s.history)
  }

  // ---- Steps keep the invariant ----

  lemma {:induction false} AppendKeepsInv(cfg: Config, s: State, ms: seq<Message>)
    requires Inv(cfg, s)
    ensures Inv(cfg, Apply(cfg, s, Append(ms)))
  {
    var t := Apply(cfg, s, Append(ms));
    var h, h' := s.history, t.history;
    assert h'.log[h.next..] == h.log[h.next..] + ms;
    assert t.messages == View(h');
    if s.plan.Some? && s.plan.value.start > 0 {
      assert Body(t.messages) == Body(s.messages) + ms;
    }
    hide View, Body;
    assert FedWell(h') by {
      forall i | 0 <= i < |h'.fed| ensures h'.fed[i].copy == h'.log[h'.fed[i].from..h'.fed[i].to] {
        var f := h.fed[i];
        assert h'.log[f.from..f.to] == h.log[f.from..f.to];
      }
    }
  }

  /** The prefix dropped in phase 3 is the one copied in phase 1, and the planned leader still leads. */
  lemma {:induction false} DropsWhatWasCopied(cfg: Config, s: State)
    requires Inv(cfg, s) && s.plan.Some?
    ensures AfterDrop(s.messages, s.plan.value) == Dropped(s.messages, s.plan.value.start)
    ensures s.plan.value.evicted != [] ==>
      s.messages == AsList(Leading(s.messages)) + s.plan.value.evicted + Body(s.messages)[s.plan.value.start..]
  {
    hide WellFormed, View, FedWell, Body, Leading, AsList;
    var n := s.plan.value.start;
    var lead, body := AsList(Leading(s.messages)), Body(s.messages);
    SplitsInTwo(s.messages);
    assert s.messages == lead + body[..n] + body[n..] by { assert body == body[..n] + body[n..]; }
    assert n == 0 ==> lead + body[0..] == lead + body;
  }

  lemma {:induction false} SplitsInTwo(messages: seq<Message>)
    ensures messages == AsList(Leading(messages)) + Body(messages)
  {
  }

  lemma {:induction false} EnforcedDrops(cfg: Config, summary: string, messages: seq<Message>)
    ensures Extra(cfg, summary, messages) <= |Body(messages)|
    ensures Enforced(cfg, summary, messages) == Dropped(messages, Extra(cfg, summary, messages))
  {
    assert Dropped(messages, 0) == messages;
  }

  lemma {:induction false} ToldSees(h: History, before: History, plan: Plan)
    requires WellFormed(h)
    ensures WellFormed(Told(h, before, plan)) && View(Told(h, before, plan)) == View(h)
  {
  }

  lemma {:induction false} EvictKeepsFed(h: History, n: nat)
    requires WellFormed(h) && FedWell(h) && n <= |Body(View(h))|
    ensures FedWell(Evict(h, n)) && Evict(h, n).log == h.log && Evict(h, n).fed == h.fed
    ensures n > 0 ==> Evict(h, n).next == BodyStart(h) + n
  {
    ViewSplits(h);
  }

  lemma {:induction false} OneMoreFed(h: History, f: Fed)
    requires FedWell(h) && f.from < f.to <= h.next <= |h.log| && f.copy == h.log[f.from..f.to]
    requires h.lead.Some? ==> h.lead.value < f.from
    requires forall i :: 0 <= i < |h.fed| ==> h.fed[i].to <= f.from
    ensures FedWell(h.(fed := h.fed + [f]))
  {
  }

  lemma {:induction false} NewFed(h: History, plan: Plan)
    requires WellFormed(h) && FedWell(h) && plan.start <= |Body(View(h))|
    requires plan.evicted == Body(View(h))[..plan.start] || plan.evicted == []
    ensures FedWell(Told(Evict(h, plan.start), h, plan))
  {
    hide FedWell, View, Body, Promotes;
    ViewSplits(h);
    EvictDrops(h, plan.start);
    EvictKeepsFed(h, plan.start);
    if plan.evicted != [] {
      var b := BodyStart(h);
      assert h.log[b..][..plan.start] == h.log[b..b + plan.start];
      FedIsGone(h);
      LeaderIsInFront(h);
      OneMoreFed(Evict(h, plan.start), Fed(b, b + plan.start, plan.evicted));
    }
  }

  lemma {:induction false} FedIsGone(h: History)
    requires FedWell(h)
    ensures forall i :: 0 <= i < |h.fed| ==> h.fed[i].to <= BodyStart(h)
  {
  }

  lemma {:induction false} FinishKeepsInv(cfg: Config, s: State, added: string)
    requires Inv(cfg, s) && Enabled(s, Finish(added))
    ensures Inv(cfg, Apply(cfg, s, Finish(added)))
  {
    var plan := s.plan.value;
    var summary := Folded(s.summary, added);
    DropsWhatWasCopied(cfg, s);
    hide FedWell, Evict, Told, View, Enforced, Extra, Dropped, Body, AfterDrop, Folded, WellFormed, SnapshotOf, Leading;
    EvictDrops(s.history, plan.start);
    NewFed(s.history, plan);
    var h1 := Evict(s.history, plan.start);
    var h2 := Told(h1, s.history, plan);
    ToldSees(h1, s.history, plan);
    EnforcedDrops(cfg, summary, View(h1));
    var extra := Extra(cfg, summary, View(h1));
    EvictDrops(h2, extra);
    EvictKeepsFed(h2, extra);
  }

  lemma {:induction false} StepKeepsInv(cfg: Config, s: State, ev: Event)
    requires Inv(cfg, s) && Enabled(s, ev)
    ensures Inv(cfg, Apply(cfg, s, ev))
  {
    match ev
    case Append(ms) => AppendKeepsInv(cfg, s, ms);
    case Begin =>
    case Finish(added) => FinishKeepsInv(cfg, s, added);
  }

  /**
   * In every reachable state the window is a tail of what was appended, behind at most one leading system message,
   * and no message was summarized twice.
   */
  lemma {:induction false} RunKeepsInv(cfg: Config, states: seq<State>, events: seq<Event>, i: nat)
    requires IsRun(cfg, states, events) && i < |states|
    ensures Inv(cfg, states[i])
  {
    if i > 0 {
      RunKeepsInv(cfg, states, events, i - 1);
      StepKeepsInv(cfg, states[i - 1], events[i - 1]);
    }
  }

  // ---- What a finished Snapshot hands out ----

  /** What is left fits the caps as Fits measures them, or nothing evictable is left. */
  lemma {:induction false} EnforcedFits(cfg: Config, summary: string, messages: seq<Message>)
    ensures
      var left := Enforced(cfg, summary, messages);
      Body(left) == [] || Fits(cfg, summary, Leading(left), Body(left))
  {
    if Capped(cfg) {
      var n := EvictCount(cfg, summary, messages);
      var rest := Body(messages)[n..];
      var left := Dropped(messages, n);
      if Leading(messages).Some? {
        assert left[1..] == rest;
      } else {
        assert left == rest;
        if |rest| > 0 && rest[0].role == System {
          LeaderFitsToo(cfg, summary, rest);
        }
      }
    } else {
    }
  }

  /** Counting a message as the leader or as the first of the rest comes to the same. */
  lemma {:induction false} LeaderFitsToo(cfg: Config, summary: string, rest: seq<Message>)
    requires |rest| > 0 && Fits(cfg, summary, None, rest)
    ensures Fits(cfg, summary, Some(rest[0]), rest[1..])
  {
    assert rest == [rest[0]] + rest[1..];
    TokensAdd([rest[0]], rest[1..]);
  }

  lemma {:induction false} TokensAdd(a: seq<Message>, b: seq<Message>)
    ensures TokensOf(a + b) == TokensOf(a) + TokensOf(b)
  {
    if |b| == 0 {
      assert a + b == a;
    } else {
      assert (a + b)[..|a + b| - 1] == a + b[..|b| - 1];
      TokensAdd(a, b[..|b| - 1]);
    }
  }

  /** A snapshot that fits is no longer than the message cap. */
  lemma {:induction false} FittingSnapshotIsShort(cfg: Config, summary: string, messages: seq<Message>)
    requires Fits(cfg, summary, Leading(messages), Body(messages)) && cfg.maxMessages > 0
    ensures |SnapshotOf(messages, summary)| <= cfg.maxMessages
  {
  }

  /** What a snapshot weighs, and what Fits weighs: they differ by the heading of the summary, if there is one. */
  lemma {:induction false} SnapshotTokens(cfg: Config, summary: string, messages: seq<Message>)
    ensures TokensOf(SnapshotOf(messages, summary)) ==
      TokensOf(AsList(Leading(messages))) + TokensOf(Body(messages))
      + if summary == "" then 0 else EstimateTokens(HEADING + summary)
    ensures EstimateTokens(summary) < EstimateTokens(HEADING + summary) <= EstimateTokens(summary) + 8
    ensures Fits(cfg, summary, Leading(messages), Body(messages)) && cfg.maxTokens > 0 ==>
      TokensOf(SnapshotOf(messages, summary)) <= cfg.maxTokens + if summary == "" then 0 else 8
  {
    var note := if summary != "" then [SummaryMessage(summary)] else [];
    TokensAdd(AsList(Leading(messages)) + note, Body(messages));
    TokensAdd(AsList(Leading(messages)), note);
    assert summary != "" ==> note[..0] == [] && TokensOf(note) == EstimateTokens(HEADING + summary);
    assert |HEADING| == 29;
  }

  /** So a snapshot that fits can be over the cap: a summary of one token under a cap of one. */
  lemma {:induction false} HeadingIsNotCounted()
    ensures Fits(Config(0, 1, true), "s", None, []) && TokensOf(SnapshotOf([], "s")) > 1
  {
    SnapshotTokens(Config(0, 1, true), "s", []);
  }

  /**
   * A Snapshot finishing in any reachable state: it hands out the leading system message, the summary and a tail of
   * what was appended, within the caps or with nothing left to evict.
   */
  lemma {:induction false} SnapshotKeepsTheCaps(cfg: Config, states: seq<State>, events: seq<Event>, i: nat)
    requires IsRun(cfg, states, events) && i < |events| && events[i].Finish?
    ensures
      var s := states[i + 1];
      var h := s.history;
      && BodyStart(h) <= |h.log|
      && s.out == Some(AsList(Leading(s.messages)) + (if s.summary != "" then [SummaryMessage(s.summary)] else [])
                       + h.log[BodyStart(h)..])
      && (BodyStart(h) == |h.log| || Fits(cfg, s.summary, Leading(s.messages), h.log[BodyStart(h)..]))
      && (cfg.maxMessages > 0 && BodyStart(h) < |h.log| ==> |s.out.value| <= cfg.maxMessages)
  {
    hide Inv, Fits, SnapshotOf, Enforced, View, WellFormed;
    var s := states[i + 1];
    RunKeepsInv(cfg, states, events, i + 1);
    BodyOfState(cfg, s);
    EnforcedFits(cfg, s.summary, AfterDrop(states[i].messages, states[i].plan.value));
    if BodyStart(s.history) < |s.history.log| && cfg.maxMessages > 0 {
      FittingSnapshotIsShort(cfg, s.summary, s.messages);
    }
    SnapshotParts(s.messages, s.summary);
  }

  lemma {:induction false} SnapshotParts(messages: seq<Message>, summary: string)
    ensures SnapshotOf(messages, summary) ==
      AsList(Leading(messages)) + (if summary != "" then [SummaryMessage(summary)] else []) + Body(messages)
  {
  }

  lemma {:induction false} BodyOfState(cfg: Config, s: State)
    requires Inv(cfg, s)
    ensures WellFormed(s.history) && BodyStart(s.history) <= |s.history.log|
    ensures Body(s.messages) == s.history.log[BodyStart(s.history)..]
  {
    ViewSplits(s.history);
  }

  /** Once a system message leads, it leads for good. */
  lemma {:induction false} LeaderStays(cfg: Config, s: State, ev: Event)
    requires Inv(cfg, s) && Enabled(s, ev) && Leading(s.messages).Some?
    ensures Leading(Apply(cfg, s, ev).messages) == Leading(s.messages)
  {
    if ev.Finish? {
      DropsWhatWasCopied(cfg, s);
      var kept := AfterDrop(s.messages, s.plan.value);
      assert Leading(kept) == Leading(s.messages);
      EnforcedDrops(cfg, Folded(s.summary, ev.added), kept);
    }
  }

  // ---- What the summarizer said stays ----

  /** Everything the summarizer answered, in order. */
  function Answers(events: seq<Event>): seq<string>
  {
    if |events| == 0 then []
    else
      var last := events[|events| - 1];
      Answers(events[..|events| - 1]) + if last.Finish? && last.added != "" then [last.added] else []
  }

  lemma {:induction false} AnswersAreThere(events: seq<Event>)
    ensures forall i :: 0 <= i < |Answers(events)| ==> Answers(events)[i] != ""
  {
    if |events| > 0 { AnswersAreThere(events[..|events| - 1]); }
  }

  lemma {:induction false} JoinOneMore(texts: seq<string>, last: string)
    requires last != "" && forall i :: 0 <= i < |texts| ==> texts[i] != ""
    ensures JoinWith(texts + [last], "\n\n") == Folded(JoinWith(texts, "\n\n"), last)
    ensures |texts| > 0 ==> JoinWith(texts, "\n\n") != ""
  {
    if |texts| == 0 {
      assert texts + [last] == [last];
    } else {
      JoinOneMore(texts[1..], last);
      assert (texts + [last])[1..] == texts[1..] + [last];
      if |texts| > 1 {
        var rest := JoinWith(texts[1..], "\n\n");
        assert texts[0] + "\n\n" + (rest + "\n\n" + last) == (texts[0] + "\n\n" + rest) + "\n\n" + last;
      }
    }
  }

  /** In every reachable state the summary is all that the summarizer answered, with blank lines between. */
  lemma {:induction false} SummaryIsAllAnswers(cfg: Config, states: seq<State>, events: seq<Event>, i: nat)
    requires IsRun(cfg, states, events) && i < |states|
    ensures states[i].summary == JoinWith(Answers(events[..i]), "\n\n")
  {
    if i > 0 {
      SummaryIsAllAnswers(cfg, states, events, i - 1);
      assert events[..i][..i - 1] == events[..i - 1];
      AnswersAreThere(events[..i - 1]);
      hide JoinWith, Enforced, Evict, Told, SnapshotOf, Extra, AfterDrop, PlanFor;
      if events[i - 1].Finish? && events[i - 1].added != "" {
        JoinOneMore(Answers(events[..i - 1]), events[i - 1].added);
      } else {
        hide Folded;
        SummaryStands(cfg, states[i - 1], events[i - 1]);
        assert Answers(events[..i - 1]) + [] == Answers(events[..i - 1]);
      }
    }
  }

  lemma {:induction false} SummaryStands(cfg: Config, s: State, ev: Event)
    requires Enabled(s, ev) && !(ev.Finish? && ev.added != "")
    ensures Apply(cfg, s, ev).summary == s.summary
  {
  }

  /** So every snapshot tells all of it, in a system message of its own behind the leader. */
  lemma {:induction false} SnapshotTellsAllAnswers(cfg: Config, states: seq<State>, events: seq<Event>, i: nat)
    requires IsRun(cfg, states, events) && i < |events| && events[i].Finish? && Answers(events[..i + 1]) != []
    ensures
      var s := states[i + 1];
      var told := Message(System, "Conversation summary so far:\n" + JoinWith(Answers(events[..i + 1]), "\n\n"), [], "");
      && s.out.Some?
      && var at := |AsList(Leading(s.messages))|;
         |s.out.value| > at && s.out.value[..at] == AsList(Leading(s.messages)) && s.out.value[at] == told
  {
    SummaryIsAllAnswers(cfg, states, events, i + 1);
    AnswersAreThere(events[..i + 1]);
    var texts := Answers(events[..i + 1]);
    JoinOneMore(texts, "x");
    SnapshotKeepsTheCaps(cfg, states, events, i);
    hide Answers, JoinWith, Leading, AsList, Fits, IsRun;
  }

  // ---- Which messages reach the summarizer ----

  predicate WasFed(h: History, i: nat) { exists k :: 0 <= k < |h.fed| && h.fed[k].from <= i < h.fed[k].to }

  /** Every evicted message was given to the summarizer. */
  predicate AllFed(h: History) { forall i: nat :: i < h.next && h.lead != Some(i) ==> WasFed(h, i) }

  /** How many messages a finishing Snapshot evicts beyond its plan. */
  function Unplanned(cfg: Config, s: State, added: string): nat
    requires s.plan.Some?
  {
    Extra(cfg, Folded(s.summary, added), AfterDrop(s.messages, s.plan.value))
  }

  lemma {:induction false} EvictingLeavesUnfed(h: History, n: nat)
    requires WellFormed(h) && FedWell(h) && 0 < n
    ensures !AllFed(Evict(h, n))
  {
    var i := BodyStart(h) + n - 1;
    LeaderIsInFront(h);
    FedIsGone(h);
    assert Evict(h, n).lead != Some(i) && !WasFed(Evict(h, n), i);
  }

  lemma {:induction false} ToldFeeds(h: History, plan: Plan)
    requires WellFormed(h) && AllFed(h) && plan.evicted != [] && plan.start > 0
    ensures AllFed(Told(Evict(h, plan.start), h, plan))
  {
    var h2 := Told(Evict(h, plan.start), h, plan);
    forall i: nat | i < h2.next && h2.lead != Some(i) ensures WasFed(h2, i) {
      if i < h.next {
        assert h.lead != Some(i);
        var k :| 0 <= k < |h.fed| && h.fed[k].from <= i < h.fed[k].to;
        assert h2.fed[k] == h.fed[k];
      } else {
        var k := |h.fed|;
        assert h2.fed[k].from <= i < h2.fed[k].to;
      }
    }
  }

  /**
   * A finishing Snapshot gives every message it evicts to the summarizer exactly when its plan had one to give them to
   * and folding in the new summary evicted nothing more.
   */
  lemma {:induction false} EvictionIsSummarized(cfg: Config, s: State, added: string)
    requires Inv(cfg, s) && Enabled(s, Finish(added)) && AllFed(s.history)
    ensures AllFed(Apply(cfg, s, Finish(added)).history) <==>
      (s.plan.value.start == 0 || cfg.hasSummarizer) && Unplanned(cfg, s, added) == 0
  {
    var plan, h := s.plan.value, s.history;
    var h1 := Evict(h, plan.start);
    var h2 := Told(h1, h, plan);
    DropsWhatWasCopied(cfg, s);
    hide FedWell, AllFed, Evict, View, Body, Extra, Fits;
    EvictDrops(h, plan.start);
    NewFed(h, plan);
    ToldSees(h1, h, plan);
    if Unplanned(cfg, s, added) > 0 {
      EvictingLeavesUnfed(h2, Unplanned(cfg, s, added));
    } else {
      EvictNothing(h);
      EvictNothing(h2);
      if plan.start > 0 {
        if cfg.hasSummarizer { ToldFeeds(h, plan); } else { EvictingLeavesUnfed(h, plan.start); }
      }
    }
  }

  lemma {:induction false} EvictNothing(h: History)
    ensures Evict(h, 0) == h
  {
  }

  /** The tokens the caps leave for a summary next to these messages. */
  function Slack(cfg: Config, messages: seq<Message>): int
  {
    cfg.maxTokens - TokensOf(AsList(Leading(messages))) - TokensOf(Body(messages))
  }

  /** Nothing is evicted from messages that fit, and nothing can be when there is nothing evictable. */
  lemma {:induction false} ExtraExactly(cfg: Config, summary: string, messages: seq<Message>)
    ensures Extra(cfg, summary, messages) == 0 <==>
      Body(messages) == [] || Fits(cfg, summary, Leading(messages), Body(messages))
  {
    assert Body(messages)[0..] == Body(messages);
  }

  /** No message is evicted needlessly: not from a snapshot that keeps to the caps, with a slot for a summary to come. */
  lemma {:induction false} NothingIsEvictedNeedlessly(cfg: Config, summary: string, messages: seq<Message>)
    requires cfg.maxMessages > 0 ==>
      |SnapshotOf(messages, summary)| + (if cfg.hasSummarizer && summary == "" then 1 else 0) <= cfg.maxMessages
    requires cfg.maxTokens > 0 ==> TokensOf(SnapshotOf(messages, summary)) <= cfg.maxTokens
    ensures PlanFor(cfg, messages, summary).start == 0 && Extra(cfg, summary, messages) == 0
  {
    SnapshotTokens(cfg, summary, messages);
    assert Fits(cfg, summary, Leading(messages), Body(messages));
    assert Body(messages)[0..] == Body(messages);
  }

  /** With nothing appended since the plan, what is left has a slot for the summary. */
  lemma {:induction false} PlanReservesTheSlot(cfg: Config, s: State)
    requires Inv(cfg, s) && s.plan == Some(PlanFor(cfg, s.messages, s.summary))
    ensures
      var kept := AfterDrop(s.messages, s.plan.value);
      Body(kept) == [] || Fits(cfg, s.summary, Leading(kept), Body(kept))
  {
    DropsWhatWasCopied(cfg, s);
    hide Inv, Fits, Body, Leading, AfterDrop;
    EnforcedFits(cfg, s.summary, s.messages);
    if !Capped(cfg) { UncappedFits(cfg); }
  }

  lemma {:induction false} UncappedFits(cfg: Config)
    requires !Capped(cfg)
    ensures forall summary, sys, kept :: Fits(cfg, summary, sys, kept)
  {
  }

  /**
   * Known before the summarizer is asked: with nothing appended since the plan, the new summary evicts nothing exactly
   * when nothing evictable is left or it fits into the tokens the plan leaves.
   */
  lemma {:induction false} SummaryHasRoomExactly(cfg: Config, s: State, added: string)
    requires Inv(cfg, s) && Enabled(s, Finish(added)) && cfg.hasSummarizer
    requires s.plan == Some(PlanFor(cfg, s.messages, s.summary))
    ensures
      var kept := AfterDrop(s.messages, s.plan.value);
      Unplanned(cfg, s, added) == 0 <==>
        Body(kept) == [] || cfg.maxTokens <= 0 || EstimateTokens(Folded(s.summary, added)) <= Slack(cfg, kept)
  {
    PlanReservesTheSlot(cfg, s);
    hide Inv, Body, Leading, AfterDrop, Folded, EstimateTokens;
    ExtraExactly(cfg, Folded(s.summary, added), AfterDrop(s.messages, s.plan.value));
  }

  /** So with a summarizer, and no Snapshot evicting beyond its plan, no message leaves unsummarized. */
  lemma {:induction false} EverythingIsSummarized(cfg: Config, states: seq<State>, events: seq<Event>, i: nat)
    requires IsRun(cfg, states, events) && i < |states| && cfg.hasSummarizer
    requires forall k :: 0 <= k < i && events[k].Finish? ==> Unplanned(cfg, states[k], events[k].added) == 0
    ensures AllFed(states[i].history)
  {
    hide Inv;
    if i > 0 {
      var s, ev := states[i - 1], events[i - 1];
      EverythingIsSummarized(cfg, states, events, i - 1);
      if ev.Finish? {
        RunKeepsInv(cfg, states, events, i - 1);
        EvictionIsSummarized(cfg, s, ev.added);
      } else {
        SameFed(s.history, states[i].history);
      }
    }
  }

  lemma {:induction false} SameFed(h: History, h': History)
    requires AllFed(h) && h'.next == h.next && h'.lead == h.lead && h'.fed == h.fed
    ensures AllFed(h')
  {
    forall i: nat | i < h'.next && h'.lead != Some(i) ensures WasFed(h', i) {
      assert WasFed(h, i);
    }
  }

  const TIGHT := Config(0, 2, true)
  const SHORT := UserMessage("aaaa")

  /** Three short messages over a cap of two tokens: one goes; next to a summary of two tokens, no message fits. */
  lemma {:induction false} TightCounts()
    ensures EvictCount(TIGHT, "", [SHORT, SHORT, SHORT]) == 1
    ensures EvictCount(TIGHT, "ssssssss", [SHORT, SHORT]) > 0
  {
    var one, two, three := [SHORT], [SHORT, SHORT], [SHORT, SHORT, SHORT];
    assert TokensOf(one) == 1 by { assert one[..0] == []; }
    assert TokensOf(two) == 2 by { assert two[..1] == one; }
    assert TokensOf(three) == 3 by { assert three[..2] == two; }
    assert three[0..] == three && three[1..] == two && two[0..] == two;
    assert !Fits(TIGHT, "", None, three) && Fits(TIGHT, "", None, two) && !Fits(TIGHT, "ssssssss", None, two);
    hide Fits, TokensOf;
    assert EvictFrom(TIGHT, "", None, three, 0) == EvictFrom(TIGHT, "", None, three, 1) == 1;
  }

  /** It can happen: a summary pushes out messages that were not summarized, and no later Snapshot sees them. */
  lemma {:induction false} SummaryCanPushOutUnfed() returns (states: seq<State>, events: seq<Event>)
    ensures IsRun(TIGHT, states, events) && !AllFed(states[|events|].history)
  {
    TightCounts();
    hide EvictCount, Fits, TokensOf, AllFed, Inv, FedWell, Evict, Told, Enforced, SnapshotOf;
    var s1 := Apply(TIGHT, INITIAL, Append([SHORT, SHORT, SHORT]));
    var s2 := Apply(TIGHT, s1, Begin);
    assert s1.messages == [SHORT, SHORT, SHORT] == Body(s1.messages);
    assert s2.plan.value.evicted == [SHORT, SHORT, SHORT][..1] == [SHORT];
    assert AfterDrop(s2.messages, s2.plan.value) == [SHORT, SHORT];
    var s3 := Apply(TIGHT, s2, Finish("ssssssss"));
    states, events := [INITIAL, s1, s2, s3], [Append([SHORT, SHORT, SHORT]), Begin, Finish("ssssssss")];
    NothingYet();
    StepKeepsInv(TIGHT, INITIAL, events[0]);
    StepKeepsInv(TIGHT, s1, Begin);
    SameFed(INITIAL.history, s2.history);
    EvictionIsSummarized(TIGHT, s2, "ssssssss");
  }

  lemma {:induction false} NothingYet()
    ensures Inv(TIGHT, INITIAL) && AllFed(INITIAL.history)
  {
  }
}
