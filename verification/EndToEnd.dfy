/** From the inbound log to the ledger: whatever crashes, torn produces, restarts and redeliveries happen in between, a
    core
    ends as if the engine had never crashed and every outcome had been delivered once. */
module EndToEnd {
  import opened Ledger
  import opened Matching
  import opened Recovery
  import opened Repeats
  import opened Desk
  import opened DeskLogs
  import opened ExactlyOnce

  // ---- what a partition of the outcome topic carries ---------------------------------------------------------

  lemma {:induction false} InLaneJoin(lane: Lane, a: seq<Matching.Outcome>, b: seq<Matching.Outcome>)
    ensures InLane(lane, a + b) == InLane(lane, a) + InLane(lane, b)
  {
    if a == [] { assert a + b == b; } else {
      assert (a + b)[1..] == a[1..] + b;
      InLaneJoin(lane, a[1..], b);
    }
  }

  lemma {:induction false} InLaneFrom(lane: Lane, s: seq<Matching.Outcome>)
    ensures forall m :: m in InLane(lane, s) ==> m in s
  {
    if s != [] { InLaneFrom(lane, s[1..]); }
  }

  /** A partition's share of a stream in which nothing follows a final word is such a stream. */
  lemma {:induction false} LaneConclusive(lane: Lane, s: seq<Matching.Outcome>)
    requires Conclusive(s)
    ensures Conclusive(InLane(lane, s))
  {
    if s != [] {
      var rest := s[1..];
      assert forall i :: 0 <= i < |rest| ==> rest[i] == s[i + 1];
      LaneConclusive(lane, rest);
      InLaneFrom(lane, rest);
      var l := InLane(lane, rest);
      forall j | 0 <= j < |l| && Final(s[0]) && l[j].FillHalf? ensures s[0].order != l[j].order {
        assert l[j] in rest;
        var k :| 0 <= k < |rest| && rest[k] == l[j];
        assert s[k + 1] == l[j];
      }
      OneMoreInFront(s[0], l);
    }
  }

  lemma {:induction false} OneMoreInFront(m: Matching.Outcome, l: seq<Matching.Outcome>)
    requires Conclusive(l) && (m.FillHalf? ==> m.qty > 0)
    requires forall j :: 0 <= j < |l| && Final(m) && l[j].FillHalf? ==> m.order != l[j].order
    ensures Conclusive([m] + l)
  {
    var s := [m] + l;
    forall i, j | 0 <= i < j < |s| && Final(s[i]) && s[j].FillHalf? ensures s[i].order != s[j].order {
      assert s[j] == l[j - 1];
      if i > 0 { assert s[i] == l[i - 1]; }
    }
  }

  lemma {:induction false} PrefixConclusive(s: seq<Matching.Outcome>, p: seq<Matching.Outcome>)
    requires Conclusive(s) && p <= s
    ensures Conclusive(p)
  {
    assert forall i :: 0 <= i < |p| ==> p[i] == s[i];
  }

  lemma {:induction false} UntaggedTag(lane: Lane, offset: nat, outs: seq<Matching.Outcome>)
    ensures Untagged(Tag(lane, offset, outs)) == InLane(lane, outs)
  {}

  /** The crash-free partition is the partition's share of what the shard says. */
  lemma {:induction false} LaneOfStream(cfg: ShardConfig, log: seq<Inbound>, lane: Lane, k: nat)
    requires k <= |log|
    ensures Untagged(CrashFree(cfg, log, lane, k)) == InLane(lane, Stream(cfg, log[..k]))
  {
    hide Handle, InLane, Tag, Told;
    if k == 0 {
      assert log[..0] == [] && InLane(lane, []) == [] by { EmptyLane(lane); }
    } else {
      var n := k - 1;
      LaneOfStream(cfg, log, lane, n);
      StoryStep(cfg, log, n);
      StoryShard(cfg, log[..n]);
      ToldIs(cfg, StoryAfter(cfg, log[..n]), log[n]);
      InLaneJoin(lane, Stream(cfg, log[..n]), Said(cfg, log, n));
      UntaggedTag(lane, n, Said(cfg, log, n));
      UntaggedJoin(CrashFree(cfg, log, lane, n), Tag(lane, n, Said(cfg, log, n)));
    }
  }

  lemma {:induction false} EmptyLane(lane: Lane)
    ensures InLane(lane, []) == []
  {}

  lemma {:induction false} UntaggedJoin(a: seq<Tagged>, b: seq<Tagged>)
    ensures Untagged(a + b) == Untagged(a) + Untagged(b)
  {}

  /** Whatever happened to the process, the topic without its repeats carries no execution after a final word. */
  lemma {:induction false} TopicConclusive(cfg: ShardConfig, facts: Facts, log: seq<Inbound>, lane: Lane,
      events: seq<Event>)
    requires LogTrue(cfg, facts, log) && Lawful(cfg, log, lane, events)
    ensures AllProper(log) && Conclusive(Untagged(Deduped(RunEvents(cfg, log, lane, events).out)))
  {
    TrueIsProper(cfg, facts, log);
    hide LogTrue, Lawful, AllProper, RunEvents, CrashFree, Deduped, Conclusive, StoryAfter;
    StreamIsCrashFreePrefix(cfg, log, lane, events);
    StreamSound(cfg, facts, log);
    assert log[..|log|] == log;
    LaneOfStream(cfg, log, lane, |log|);
    LaneConclusive(lane, Stream(cfg, log));
    var all, d := CrashFree(cfg, log, lane, |log|), Deduped(RunEvents(cfg, log, lane, events).out);
    assert Untagged(d) <= Untagged(all) by { assert d == all[..|d|]; }
    PrefixConclusive(Untagged(all), Untagged(d));
  }

  lemma {:induction false} TrueIsProper(cfg: ShardConfig, facts: Facts, log: seq<Inbound>)
    requires LogTrue(cfg, facts, log)
    ensures AllProper(log)
  {
    forall i | 0 <= i < |log|
      ensures Proper(log[i])
    {
      assert RecordTrue(facts, log[i]) && FactOk(log[i].order, facts[log[i].order]);
    }
  }

  // ---- the same deliveries of a longer stream ------------------------------------------------------------------

  ghost predicate Within(events: seq<Delivery>, n: nat)
  {
    forall i :: 0 <= i < |events| && events[i].Deliver? ==> events[i].offset < n
  }

  lemma {:induction false} DistilledWithin(terms: Terms, log: seq<Tagged>, events: seq<Delivery>)
    ensures Within(Distilled(terms, log, events), |Deduped(log)|)
    decreases |events|
  {
    hide Deduped, Play;
    if events != [] {
      var before, e := events[..|events| - 1], events[|events| - 1];
      DistilledWithin(terms, log, before);
      if e.Deliver? && FirstTime(terms, log, before, e.offset) { DedupedStep(log, e.offset); }
    }
  }

  lemma {:induction false} SamePlay(terms: Terms, short: seq<Tagged>, long: seq<Tagged>, events: seq<Delivery>)
    requires short <= long && Within(events, |short|)
    ensures Play(terms, short, events) == Play(terms, long, events)
    ensures NothingTwice(terms, short, events) == NothingTwice(terms, long, events)
    decreases |events|
  {
    hide ApplyOutcome;
    if events != [] {
      var before, e := events[..|events| - 1], events[|events| - 1];
      assert forall i :: 0 <= i < |before| ==> before[i] == events[i];
      SamePlay(terms, short, long, before);
    }
  }

  /** The core of any account partition, after any schedule of engine crashes and any deliveries of what was published,
      is
      what it would be had the engine never crashed and each of its outcomes been delivered at most once, in order. */
  lemma {:induction false} SettledAsIfNothingHappened(
      cfg: ShardConfig, facts: Facts, log: seq<Inbound>, lane: Lane, events: seq<Event>, terms: Terms,
        deliveries: seq<Delivery>)
    requires LogTrue(cfg, facts, log) && Lawful(cfg, log, lane, events)
    requires Causal(terms, RunEvents(cfg, log, lane, events).out, deliveries)
    ensures var out := RunEvents(cfg, log, lane, events).out;
      var ideal, once := CrashFree(cfg, log, lane, |log|), Distilled(terms, out, deliveries);
      && NothingTwice(terms, ideal, once)
      && Play(terms, out, deliveries).core.(offset := 0) == Play(terms, ideal, once).core.(offset := 0)
      && Play(terms, out, deliveries).core.offset <= Play(terms, out, deliveries).high <= |out|
  {
    hide LogTrue, Lawful, Causal, Play, RunEvents, CrashFree, Deduped, Distilled, Conclusive, NothingTwice;
    var out := RunEvents(cfg, log, lane, events).out;
    TopicConclusive(cfg, facts, log, lane, events);
    StreamIsCrashFreePrefix(cfg, log, lane, events);
    SettledExactlyOnce(terms, out, deliveries);
    DurableOffsetIsSafe(terms, out, deliveries);
    DistilledWithin(terms, out, deliveries);
    SamePlay(terms, Deduped(out), CrashFree(cfg, log, lane, |log|), Distilled(terms, out, deliveries));
  }
}
