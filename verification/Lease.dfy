/** Fencing of a partition's writers: internal/engine/lease.go. The newest claim always wins; what keeps an older
    process
    from writing is the epoch it asserts, under a share lock, in every transaction. */
module Lease {
  import opened Types

  /** The row of partition_leases. */
  datatype Claim = Claim(owner: Uuid, epoch: nat)

  datatype Entry = Took(owner: Uuid) | Wrote(owner: Uuid)

  /** The row, the epoch each process was granted, the transactions holding the row's share lock by owner, and what took
      effect, in order. */
  datatype World = World(row: Option<Claim>, granted: map<Uuid, nat>, open: multiset<Uuid>, journal: seq<Entry>)

  /** A process claims the partition under an id it has just drawn, or renews or gives up its claim; it asserts its
      claim
      in a new transaction, and commits or aborts one. */
  datatype Event =
    | Acquire(owner: Uuid) | Renew(owner: Uuid) | Release(owner: Uuid)
    | Begin(owner: Uuid) | Commit(owner: Uuid) | Abort(owner: Uuid)

  predicate Owns(w: World, o: Uuid) { o in w.granted && w.row == Some(Claim(o, w.granted[o])) }

  /** `assert`: only the epoch is compared. */
  predicate Asserts(w: World, o: Uuid) { o in w.granted && w.row.Some? && w.row.value.epoch == w.granted[o] }

  /** A claim goes through at once, unless a transaction holds the row. */
  predicate Takes(w: World, e: Event) { e.Acquire? && e.owner !in w.granted && (w.row.None? || w.open == multiset{}) }

  function Step(w: World, e: Event): World
  {
    match e
    case Acquire(o) =>
      if !Takes(w, e) then w
      else
        var epoch := if w.row.None? then 1 else w.row.value.epoch + 1;
        w.(row := Some(Claim(o, epoch)), granted := w.granted[o := epoch], journal := w.journal + [Took(o)])
    case Renew(_) => w
    case Release(o) => if Owns(w, o) && w.open == multiset{} then w.(row := None) else w
    case Begin(o) => if Asserts(w, o) then w.(open := w.open + multiset{o}) else w
    case Commit(o) => if o in w.open then w.(open := w.open - multiset{o}, journal := w.journal + [Wrote(o)]) else w
    case Abort(o) => w.(open := w.open - multiset{o})
  }

  function Run(events: seq<Event>): World
    decreases |events|
  {
    if events == [] then World(None, map[], multiset{}, []) else Step(Run(events[..|events| - 1]), events[|events| - 1])
  }

  function LastToTake(journal: seq<Entry>): Option<Uuid>
  {
    if journal == [] then None
    else
      var last := journal[|journal| - 1];
      if last.Took? then Some(last.owner) else LastToTake(journal[..|journal| - 1])
  }

  /** Every write is by the process that took the partition last. */
  ghost predicate Fenced(journal: seq<Entry>)
  {
    forall j :: 0 <= j < |journal| && journal[j].Wrote? ==> LastToTake(journal[..j]) == Some(journal[j].owner)
  }

  // ---- what holds in every run ------------------------------------------------------------------------------

  ghost predicate Guarded(w: World)
  {
    && (forall o :: o in w.open ==> Asserts(w, o))
    && (w.row.Some? ==> w.row.value.owner in w.granted && w.granted[w.row.value.owner] == w.row.value.epoch
                        && LastToTake(w.journal) == Some(w.row.value.owner))
    && (w.granted != map[] ==> exists o :: o in w.granted && w.granted[o] == 1)
    && (forall o :: o in w.granted ==> w.granted[o] >= 1)
  }

  lemma {:induction false} Appended(journal: seq<Entry>, e: Entry)
    ensures LastToTake(journal + [e]) == if e.Took? then Some(e.owner) else LastToTake(journal)
  {
    assert (journal + [e])[..|journal|] == journal;
  }

  lemma {:induction false} FencedOn(journal: seq<Entry>, e: Entry)
    requires Fenced(journal) && (e.Wrote? ==> LastToTake(journal) == Some(e.owner))
    ensures Fenced(journal + [e])
  {
    var all := journal + [e];
    forall j | 0 <= j < |all| && all[j].Wrote? ensures LastToTake(all[..j]) == Some(all[j].owner) {
      assert all[..j] == journal[..j];
      if j == |journal| { assert journal[..j] == journal; }
    }
  }

  lemma {:induction false} StepGuards(w: World, e: Event)
    requires Guarded(w)
    ensures Guarded(Step(w, e))
  {
    var w' := Step(w, e);
    match e
    case Acquire(o) =>
      if Takes(w, e) {
        Appended(w.journal, Took(o));
        if w.granted != map[] {
          var x :| x in w.granted && w.granted[x] == 1;
          assert w'.granted[x] == 1;
        } else {
          assert w.row.None? && w'.granted[o] == 1;
        }
        if w.row.None? { assert forall x :: x !in w.open; }
      }
    case Commit(o) => if o in w.open { Appended(w.journal, Wrote(o)); }
    case Renew(_) =>
    case Release(_) =>
    case Begin(_) =>
    case Abort(_) =>
  }

  lemma {:induction false} RunGuards(events: seq<Event>)
    ensures Guarded(Run(events))
    decreases |events|
  {
    hide Guarded, Step;
    if events == [] { assert Guarded(Run(events)) by { NothingYet(); } } else {
      RunGuards(events[..|events| - 1]);
      StepGuards(Run(events[..|events| - 1]), events[|events| - 1]);
    }
  }

  lemma {:induction false} NothingYet()
    ensures Guarded(World(None, map[], multiset{}, []))
  {}

  /** A transaction that is still open asserted the epoch that is still current: the row cannot have moved under it. */
  lemma {:induction false} CommitsUnderCurrentEpoch(events: seq<Event>, o: Uuid)
    requires o in Run(events).open
    ensures Asserts(Run(events), o)
    ensures forall other :: Step(Run(events), Acquire(other)) == Run(events)
  {
    RunGuards(events);
    hide Run;
  }

  // ---- when the fence holds --------------------------------------------------------------------------------------

  /** A claim that finds no row although the partition has been owned: the epochs start again from 1. */
  predicate Retakes(w: World, e: Event) { Takes(w, e) && w.row.None? && w.granted != map[] }

  ghost predicate EverRetaken(events: seq<Event>)
  {
    exists k :: 0 <= k < |events| && Retakes(Run(events[..k]), events[k])
  }

  /** Nobody but the current owner has the current epoch. */
  ghost predicate Sole(w: World)
  {
    && Fenced(w.journal)
    && (w.row.Some? ==> forall o :: o in w.granted ==>
         w.granted[o] <= w.row.value.epoch && (w.granted[o] == w.row.value.epoch ==> o == w.row.value.owner))
  }

  lemma {:induction false} StepKeepsSole(w: World, e: Event)
    requires Guarded(w) && Sole(w) && !Retakes(w, e)
    ensures Sole(Step(w, e))
  {
    hide Fenced, LastToTake;
    match e
    case Acquire(o) => if Takes(w, e) { TakeKeepsSole(w, o); }
    case Commit(o) => if o in w.open { WriteKeepsSole(w, o); }
    case Renew(_) =>
    case Release(_) =>
    case Begin(_) =>
    case Abort(_) =>
  }

  lemma {:induction false} TakeKeepsSole(w: World, o: Uuid)
    requires Guarded(w) && Sole(w) && !Retakes(w, Acquire(o)) && Takes(w, Acquire(o))
    ensures Sole(Step(w, Acquire(o)))
  {
    hide Fenced, LastToTake;
    FencedOn(w.journal, Took(o));
  }

  lemma {:induction false} WriteKeepsSole(w: World, o: Uuid)
    requires Guarded(w) && Sole(w) && o in w.open
    ensures Sole(Step(w, Commit(o)))
  {
    hide Fenced, LastToTake;
    assert Asserts(w, o);
    FencedOn(w.journal, Wrote(o));
  }

  /** While no claim starts the epochs again, no older owner ever commits once a newer one exists. */
  lemma {:induction false} NoOlderOwnerCommits(events: seq<Event>)
    requires !EverRetaken(events)
    ensures Fenced(Run(events).journal) && Sole(Run(events))
    decreases |events|
  {
    hide Guarded, Step, Retakes;
    if events != [] {
      var n := |events| - 1;
      assert !EverRetaken(events[..n]) by {
        forall k | 0 <= k < n
          ensures !Retakes(Run(events[..n][..k]), events[..n][k])
        {
          assert events[..n][..k] == events[..k];
        }
      }
      NoOlderOwnerCommits(events[..n]);
      RunGuards(events[..n]);
      StepKeepsSole(Run(events[..n]), events[n]);
    }
  }

  predicate Writing(more: seq<Event>)
  {
    forall i :: 0 <= i < |more| ==> more[i].Begin? || more[i].Commit? || more[i].Abort?
  }

  lemma {:induction false} WritersDoNotRetake(events: seq<Event>, k: nat, more: seq<Event>)
    requires !EverRetaken(events) && k <= |events| && Writing(more)
    ensures !EverRetaken(events[..k] + more)
  {
    hide Run;
    var all := events[..k] + more;
    forall i | 0 <= i < |all| ensures !Retakes(Run(all[..i]), all[i]) {
      if i < k { assert all[..i] == events[..i]; }
    }
  }

  /** After a claim that starts the epochs again, the first owner the partition ever had can still write. */
  lemma {:induction false} FirstOwnerReturns(events: seq<Event>, e: Event) returns (more: seq<Event>)
    requires Retakes(Run(events), e)
    ensures Writing(more) && !Fenced(Run(events + [e] + more).journal)
  {
    RunGuards(events);
    var w := Run(events);
    var x :| x in w.granted && w.granted[x] == 1;
    more := [Begin(x), Commit(x)];
    var w1 := Step(w, e);
    assert (events + [e])[..|events|] == events && Run(events + [e]) == w1;
    assert (events + [e] + [Begin(x)])[..|events + [e]|] == events + [e];
    var w2 := Step(w1, Begin(x));
    assert Run(events + [e] + [Begin(x)]) == w2;
    assert (events + [e] + more)[..|events| + 2] == events + [e] + [Begin(x)];
    var w3 := Step(w2, Commit(x));
    assert Run(events + [e] + more) == w3;
    Appended(w.journal, Took(e.owner));
    assert w3.journal == w1.journal + [Wrote(x)];
    assert w3.journal[..|w1.journal|] == w1.journal && w3.journal[|w1.journal|] == Wrote(x);
  }

  /** The fence holds at every point of a run, whatever transactions follow, exactly when no claim is made on a
      partition
      whose row a release has deleted. */
  lemma {:induction false} FencedIff(events: seq<Event>)
    ensures (forall k, more :: 0 <= k <= |events| && Writing(more) ==> Fenced(Run(events[..k] + more).journal)) <==>
      !EverRetaken(events)
  {
    hide Run, Fenced, Retakes;
    if EverRetaken(events) {
      var k :| 0 <= k < |events| && Retakes(Run(events[..k]), events[k]);
      var more := FirstOwnerReturns(events[..k], events[k]);
      assert events[..k] + [events[k]] == events[..k + 1];
      assert !Fenced(Run(events[..k + 1] + more).journal);
    } else {
      forall k, more | 0 <= k <= |events| && Writing(more) ensures Fenced(Run(events[..k] + more).journal) {
        WritersDoNotRetake(events, k, more);
        NoOlderOwnerCommits(events[..k] + more);
      }
    }
  }

  lemma {:induction false} NeverReleased(events: seq<Event>)
    requires forall i :: 0 <= i < |events| ==> !events[i].Release?
    ensures !EverRetaken(events)
  {
    forall k | 0 <= k < |events| ensures !Retakes(Run(events[..k]), events[k]) {
      forall i | 0 <= i < k ensures !events[..k][i].Release? { assert events[..k][i] == events[i]; }
      RowStays(events[..k]);
    }
  }

  /** Only a release ever removes the row. */
  lemma {:induction false} RowStays(events: seq<Event>)
    requires forall i :: 0 <= i < |events| ==> !events[i].Release?
    ensures Run(events).row.None? ==> Run(events).granted == map[]
    decreases |events|
  {
    if events != [] {
      assert forall i :: 0 <= i < |events| - 1 ==> events[..|events| - 1][i] == events[i];
      RowStays(events[..|events| - 1]);
    }
  }
}
