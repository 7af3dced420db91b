/** The bounded conversation window (pkg/memory/window.go) and the two locked phases of its Snapshot. */
module Window {
  import opened Common
  import opened Schema

  /** A cap of zero or less means no limit. */
  datatype Config = Config(maxMessages: int, maxTokens: int, hasSummarizer: bool)

  function EstimateTokens(s: string): nat { (|s| + 3) / 4 }

  function TokensOf(ms: seq<Message>): nat
  {
    if |ms| == 0 then 0 else TokensOf(ms[..|ms| - 1]) + EstimateTokens(ms[|ms| - 1].text)
  }

  /** The leading system message, if there is one. */
  function Leading(messages: seq<Message>): Option<Message>
  {
    if |messages| > 0 && messages[0].role == System then Some(messages[0]) else None
  }

  function AsList(m: Option<Message>): seq<Message> { if m.Some? then [m.value] else [] }

  /** The messages behind the leading system message: those that may be evicted. */
  function Body(messages: seq<Message>): seq<Message>
  {
    if Leading(messages).Some? then messages[1..] else messages
  }

  /** Whether a snapshot keeps to both caps, with a slot reserved for a summary that may yet be made. */
  predicate Fits(cfg: Config, summary: string, sys: Option<Message>, kept: seq<Message>)
  {
    var count := |kept| + |AsList(sys)| + if summary != "" || cfg.hasSummarizer then 1 else 0;
    var tokens := TokensOf(AsList(sys)) + EstimateTokens(summary) + TokensOf(kept);
    && (cfg.maxMessages > 0 ==> count <= cfg.maxMessages)
    && (cfg.maxTokens > 0 ==> tokens <= cfg.maxTokens)
  }

  /** How many messages must go for the rest to fit: the fewest, counted from `from`. */
  function EvictFrom(cfg: Config, summary: string, sys: Option<Message>, body: seq<Message>, from: nat): (start: nat)
    requires from <= |body|
    ensures from <= start <= |body|
    ensures start < |body| ==> Fits(cfg, summary, sys, body[start..])
    ensures forall k :: from <= k < start ==> !Fits(cfg, summary, sys, body[k..])
    decreases |body| - from
  {
    if from == |body| || Fits(cfg, summary, sys, body[from..]) then from
    else EvictFrom(cfg, summary, sys, body, from + 1)
  }

  function EvictCount(cfg: Config, summary: string, messages: seq<Message>): (start: nat)
    ensures start <= |Body(messages)|
  {
    EvictFrom(cfg, summary, Leading(messages), Body(messages), 0)
  }

  /** The messages without the first `n` evictable ones. */
  function Dropped(messages: seq<Message>, n: nat): seq<Message>
    requires n <= |Body(messages)|
  {
    AsList(Leading(messages)) + Body(messages)[n..]
  }

  function Folded(summary: string, added: string): string
  {
    if added == "" then summary else if summary == "" then added else summary + "\n\n" + added
  }

  predicate Capped(cfg: Config) { cfg.maxMessages > 0 || cfg.maxTokens > 0 }

  /** What enforcing the caps leaves. */
  function Enforced(cfg: Config, summary: string, messages: seq<Message>): seq<Message>
  {
    if Capped(cfg) then Dropped(messages, EvictCount(cfg, summary, messages)) else messages
  }

  const HEADING := "Conversation summary so far:\n"

  function SummaryMessage(summary: string): Message { SystemMessage(HEADING + summary) }

  /** What a caller is handed: the leading system message, the summary if any, the rest. */
  function SnapshotOf(messages: seq<Message>, summary: string): seq<Message>
  {
    AsList(Leading(messages)) + (if summary != "" then [SummaryMessage(summary)] else []) + Body(messages)
  }

  /** The plan of phase 1: the leading message, how many to evict, and a copy of those for the summarizer. */
  datatype Plan = Plan(sys: Option<Message>, start: nat, evicted: seq<Message>)

  function PlanFor(cfg: Config, messages: seq<Message>, summary: string): Plan
  {
    var start := EvictCount(cfg, summary, messages);
    Plan(Leading(messages), start, if cfg.hasSummarizer then Body(messages)[..start] else [])
  }

  /** The messages after phase 3 has dropped the planned prefix. */
  function AfterDrop(messages: seq<Message>, plan: Plan): seq<Message>
  {
    if plan.start == 0 then messages
    else
      var drop := if plan.start > |Body(messages)| then |Body(messages)| else plan.start;
      AsList(if Leading(messages).Some? then Leading(messages) else plan.sys) + Body(messages)[drop..]
  }

  class Window {
    const cfg: Config
    var messages: seq<Message>
    var summary: string

    constructor (cfg: Config)
      ensures this.cfg == cfg && messages == [] && summary == ""
    {
      this.cfg, messages, summary := cfg, [], "";
    }

    method Append(m: Message)
      modifies this`messages
      ensures messages == old(messages) + [m]
    {
      messages := messages + [m];
    }

    method AppendAll(ms: seq<Message>)
      modifies this`messages
      ensures messages == old(messages) + ms
    {
      messages := messages + ms;
    }

    method CheckFits(sys: Option<Message>, kept: seq<Message>) returns (fits: bool)
      ensures fits <==> Fits(cfg, summary, sys, kept)
    {
      var count := |kept|;
      if sys.Some? { count := count + 1; }
      if summary != "" || cfg.hasSummarizer { count := count + 1; }
      if cfg.maxMessages > 0 && count > cfg.maxMessages {
        return false;
      }
      if cfg.maxTokens > 0 {
        var tokens := 0;
        if sys.Some? { tokens := tokens + EstimateTokens(sys.value.text); }
        if summary != "" { tokens := tokens + EstimateTokens(summary); }
        ghost var fixed := tokens;
        assert fixed == TokensOf(AsList(sys)) + EstimateTokens(summary) by {
          if sys.Some? { assert [sys.value][..0] == []; }
        }
        var i := 0;
        while i < |kept|
          invariant 0 <= i <= |kept| && tokens == fixed + TokensOf(kept[..i])
        {
          assert kept[..i + 1][..i] == kept[..i];
          tokens := tokens + EstimateTokens(kept[i].text);
          i := i + 1;
        }
        assert kept[..i] == kept;
        if tokens > cfg.maxTokens {
          return false;
        }
      }
      return true;
    }

    /** The fewest messages whose eviction makes the rest fit. */
    method EvictionPlan() returns (sys: Option<Message>, start: nat)
      ensures sys == Leading(messages) && start == EvictCount(cfg, summary, messages)
    {
      hide Fits;
      sys := Leading(messages);
      var body := if sys.Some? then messages[1..] else messages;
      start := 0;
      while start < |body|
        invariant start <= |body|
        invariant EvictFrom(cfg, summary, sys, body, start) == EvictFrom(cfg, summary, sys, body, 0)
      {
        var fits := CheckFits(sys, body[start..]);
        if fits { break; }
        start := start + 1;
      }
    }

    /** Phase 1 of Snapshot, under the data lock. */
    method Begin() returns (plan: Plan)
      ensures plan == PlanFor(cfg, messages, summary)
    {
      var sys, start := EvictionPlan();
      var evicted := [];
      if start > 0 && cfg.hasSummarizer {
        var body := if sys.Some? then messages[1..] else messages;
        evicted := body[..start];
      }
      plan := Plan(sys, start, evicted);
    }

    method EnforceCaps()
      modifies this`messages
      ensures messages == Enforced(cfg, summary, old(messages))
    {
      hide Fits;
      if cfg.maxMessages <= 0 && cfg.maxTokens <= 0 { return; }
      var sys, start := EvictionPlan();
      if start == 0 {
        assert messages == Dropped(messages, 0);
        return;
      }
      var body := if sys.Some? then messages[1..] else messages;
      var out := [];
      if sys.Some? { out := [messages[0]]; }
      messages := out + body[start..];
    }

    method BuildSnapshot() returns (out: seq<Message>)
      ensures out == SnapshotOf(messages, summary)
    {
      out := AsList(Leading(messages));
      if summary != "" { out := out + [SummaryMessage(summary)]; }
      out := out + Body(messages);
    }

    /** Phase 3 of Snapshot, under the data lock: `added` is what the summarizer made, or nothing. */
    method Finish(plan: Plan, added: string) returns (out: seq<Message>)
      modifies this
      ensures summary == Folded(old(summary), added)
      ensures messages == Enforced(cfg, summary, AfterDrop(old(messages), plan))
      ensures out == SnapshotOf(messages, summary)
    {
      hide Enforced;
      if added != "" {
        if summary != "" {
          summary := summary + "\n\n" + added;
        } else {
          summary := added;
        }
      }
      if plan.start > 0 {
        var sys, body := plan.sys, messages;
        if |body| > 0 && body[0].role == System {
          sys, body := Some(body[0]), body[1..];
        }
        var drop := plan.start;
        if drop > |body| { drop := |body|; }
        messages := AsList(sys) + body[drop..];
      }
      EnforceCaps();
      out := BuildSnapshot();
    }
  }
}
