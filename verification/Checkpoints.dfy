/** Recovery of an account from its checkpoints: internal/engine/snapshot.go. */
module Checkpoints {
  import opened Ledger
  import opened Replay
  import opened Codec
  import opened Extremes

  /** An account's ledger and its checkpoint table. */
  datatype Archive = Archive(txns: seq<Txn>, snapshots: map<int, Bytes>)

  /** The ledger grows by one transaction, or a checkpoint is taken, with or without the pruning that follows. */
  datatype Event = Written(txn: Txn) | Checkpointed(prune: bool)

  const SNAPSHOTS_KEPT: nat := 3

  /** The transactions numbered after a sequence number. */
  function TailAfter(txns: seq<Txn>, seqNo: int): seq<Txn>
  {
    if txns == [] then []
    else
      var rest, t := TailAfter(txns[..|txns| - 1], seqNo), txns[|txns| - 1];
      if t.seqNo > seqNo then rest + [t] else rest
  }

  datatype Recovered = Ok(state: ReplayState) | Failed(fault: Fault)

  /** `RecoverState`: the newest checkpoint and the rest of the ledger, or the whole ledger. */
  ghost function RecoverState(a: Archive): Recovered
  {
    if a.snapshots == map[] then Ok(Fold(Genesis(), a.txns))
    else
      match Decode(a.snapshots[Latest(a.snapshots.Keys)])
      case Bad(f) => Failed(f)
      case Good(s) => Ok(Fold(s, TailAfter(a.txns, s.seqNo)))
  }

  /** `Snapshot`: what a recovery gives is stored under its sequence number unless one is there already. */
  ghost function Step(a: Archive, e: Event): Archive
  {
    match e
    case Written(t) => a.(txns := a.txns + [t])
    case Checkpointed(prune) =>
      match RecoverState(a)
      case Failed(_) => a
      case Ok(s) =>
        if s.seqNo == 0 then a
        else
          var m := if s.seqNo in a.snapshots then a.snapshots else a.snapshots[s.seqNo := Encode(s)];
          a.(snapshots := if prune then KeepNewest(m, SNAPSHOTS_KEPT) else m)
  }

  ghost function Run(events: seq<Event>): Archive
    decreases |events|
  {
    if events == [] then Archive([], map[]) else Step(Run(events[..|events| - 1]), events[|events| - 1])
  }

  /** What the account clock guarantees: transactions are numbered 1, 2, 3, ... */
  ghost predicate Numbered(txns: seq<Txn>) { forall i :: 0 <= i < |txns| ==> txns[i].seqNo == i + 1 }

  /** Every intermediate state of the account fits the encoding. */
  ghost predicate Fits(txns: seq<Txn>)
  {
    forall k :: 0 <= k <= |txns| ==> Encodable(Fold(Genesis(), txns[..k]))
  }

  // ---- every checkpoint is the genesis replay up to it ---------------------------------------------------

  ghost predicate Faithful(a: Archive)
  {
    forall k :: k in a.snapshots ==> 0 < k <= |a.txns| && a.snapshots[k] == Encode(Fold(Genesis(), a.txns[..k]))
  }

  lemma {:induction false} FoldNumber(txns: seq<Txn>)
    requires Numbered(txns)
    ensures Fold(Genesis(), txns).seqNo == |txns|
  {
    hide Deltas, Moved, ApplyDelta;
  }

  lemma {:induction false} TailIs(txns: seq<Txn>, k: nat)
    requires Numbered(txns) && k <= |txns|
    ensures TailAfter(txns, k) == txns[k..]
    decreases |txns|
  {
    if txns != [] {
      var n := |txns| - 1;
      if k <= n {
        TailIs(txns[..n], k);
        assert txns[k..] == txns[..n][k..] + [txns[n]];
      } else {
        NoTail(txns, k);
      }
    }
  }

  lemma {:induction false} NoTail(txns: seq<Txn>, k: int)
    requires forall i :: 0 <= i < |txns| ==> txns[i].seqNo <= k
    ensures TailAfter(txns, k) == []
  {
    if txns != [] { NoTail(txns[..|txns| - 1], k); }
  }

  /** Recovery succeeds and agrees with the replay from genesis, up to all-zero positions. */
  lemma {:induction false} RecoversGenesis(a: Archive)
    requires Numbered(a.txns) && Fits(a.txns) && Faithful(a)
    ensures RecoverState(a).Ok? && Same(RecoverState(a).state, Fold(Genesis(), a.txns))
  {
    hide Decode, Encode, Encodable, TailAfter;
    if a.snapshots != map[] {
      var k := Latest(a.snapshots.Keys);
      var s := Fold(Genesis(), a.txns[..k]);
      assert a.snapshots[k] == Encode(s) && Encodable(s);
      RoundTrip(s, []);
      assert Encode(s) + [] == Encode(s);
      PrunedIsSame(s);
      FoldNumber(a.txns[..k]);
      hide Fold;
      TailIs(a.txns, k);
      FoldSame(Pruned(s), s, a.txns[k..]);
      FoldJoin(Genesis(), a.txns[..k], a.txns[k..]);
      assert a.txns[..k] + a.txns[k..] == a.txns;
    }
  }

  lemma {:induction false} PrunedIsSame(s: ReplayState)
    ensures Same(Pruned(s), s)
  {}

  lemma {:induction false} StepFaithful(a: Archive, e: Event)
    requires Faithful(a) && Numbered(Step(a, e).txns) && Fits(Step(a, e).txns)
    ensures Faithful(Step(a, e))
  {
    hide Encode, Encodable, Fold;
    match e {
      case Written(t) =>
        forall k | k in a.snapshots ensures a.snapshots[k] == Encode(Fold(Genesis(), (a.txns + [t])[..k])) {
          assert (a.txns + [t])[..k] == a.txns[..k];
        }
      case Checkpointed(prune) =>
        RecoversGenesis(a);
        var s := RecoverState(a).state;
        FoldNumber(a.txns);
        assert a.txns[..|a.txns|] == a.txns;
        SameBytes(s, Fold(Genesis(), a.txns));
    }
  }

  /** States that agree up to all-zero positions encode alike, in range or not. */
  lemma {:induction false} SameBytes(s: ReplayState, t: ReplayState)
    requires Same(s, t)
    ensures Encode(s) == Encode(t)
  {
    PrunedSame(s, t);
    EncodePruned(s, t);
  }

  lemma {:induction false} StepTxns(a: Archive, e: Event)
    ensures Step(a, e).txns == if e.Written? then a.txns + [e.txn] else a.txns
  {
    hide RecoverState, Encode, KeepNewest;
  }

  lemma {:induction false} EarlierFits(txns: seq<Txn>, t: Txn)
    requires Numbered(txns + [t]) && Fits(txns + [t])
    ensures Numbered(txns) && Fits(txns)
  {
    hide Encodable, Fold;
    assert forall i :: 0 <= i < |txns| ==> (txns + [t])[i] == txns[i];
    forall k | 0 <= k <= |txns| ensures Encodable(Fold(Genesis(), txns[..k])) { assert (txns + [t])[..k] == txns[..k]; }
  }

  lemma {:induction false} RunFaithful(events: seq<Event>)
    requires Numbered(Run(events).txns) && Fits(Run(events).txns)
    ensures Faithful(Run(events))
    decreases |events|
  {
    hide Step, Fits, Numbered;
    if events != [] {
      var before, e := Run(events[..|events| - 1]), events[|events| - 1];
      StepTxns(before, e);
      if e.Written? { EarlierFits(before.txns, e.txn); }
      RunFaithful(events[..|events| - 1]);
      StepFaithful(before, e);
    }
  }

  /** For any history and any chain of checkpoints each taken by a recovery, the newest checkpoint plus the tail of the
      ledger encodes to the very bytes of a replay from genesis. */
  lemma {:induction false} RecoveryEqualsGenesisReplay(events: seq<Event>)
    requires Numbered(Run(events).txns) && Fits(Run(events).txns)
    ensures var a := Run(events);
      RecoverState(a).Ok? && Encode(RecoverState(a).state) == Encode(Fold(Genesis(), a.txns))
  {
    RunFaithful(events);
    hide Run, Encode, Fold, RecoverState, Fits, Numbered, Faithful;
    RecoversGenesis(Run(events));
    SameBytes(RecoverState(Run(events)).state, Fold(Genesis(), Run(events).txns));
  }
}
