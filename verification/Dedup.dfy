/** Bounded duplicate suppression: the ring, set and cursor of internal/book/book.go:403-413 and
    internal/matching/matching.go:130-143, seen as a FIFO of the most recently remembered ids. */
module Dedup {
  import opened Types

  datatype Window = Window(limit: nat, recent: seq<Uuid>)
  {
    predicate Has(id: Uuid) { id in recent }

    function Push(id: Uuid): Window
    {
      if limit == 0 || id in recent then this
      else if |recent| < limit then this.(recent := recent + [id])
      else this.(recent := recent[1..] + [id])
    }

    ghost predicate Valid()
    {
      |recent| <= limit && NIL !in recent && forall i, j :: 0 <= i < j < |recent| ==> recent[i] != recent[j]
    }
  }

  lemma {:induction false} PushValid(w: Window, id: Uuid)
    requires w.Valid() && id != NIL
    ensures w.Push(id).Valid() && (w.limit > 0 ==> w.Push(id).Has(id))
  {}

  function PushAll(w: Window, ids: seq<Uuid>): Window
    decreases |ids|
  {
    if ids == [] then w else PushAll(w.Push(ids[0]), ids[1..])
  }

  /** How many of the ids were new to the window when their turn came. */
  function Admitted(w: Window, ids: seq<Uuid>): nat
    decreases |ids|
  {
    if ids == [] then 0 else (if w.Has(ids[0]) then 0 else 1) + Admitted(w.Push(ids[0]), ids[1..])
  }

  /** An id just remembered is suppressed exactly until `limit` newer ids have been admitted after it. */
  lemma {:induction false} SuppressedUntilLimitNewer(w: Window, id: Uuid, ids: seq<Uuid>)
    requires w.Valid() && w.limit > 0 && id != NIL && !w.Has(id) && id !in ids && NIL !in ids
    ensures PushAll(w.Push(id), ids).Has(id) <==> Admitted(w.Push(id), ids) < w.limit
  {
    PushValid(w, id);
    AgeCounts(w.Push(id), id, |w.Push(id).recent| - 1, ids);
  }

  /** The position of an id counts down with every admission; it leaves from the front. */
  lemma {:induction false} AgeCounts(w: Window, id: Uuid, at: nat, ids: seq<Uuid>)
    requires w.Valid() && w.limit > 0 && at < |w.recent| && w.recent[at] == id && id !in ids && NIL !in ids
    ensures PushAll(w, ids).Has(id) <==> |w.recent| - 1 - at + Admitted(w, ids) < w.limit
    decreases |ids|
  {
    if ids != [] {
      var next := w.Push(ids[0]);
      PushValid(w, ids[0]);
      if w.Has(ids[0]) || |w.recent| < w.limit {
        assert next.recent[at] == id;
        AgeCounts(next, id, at, ids[1..]);
      } else if at > 0 {
        assert next.recent[at - 1] == id;
        AgeCounts(next, id, at - 1, ids[1..]);
      } else {
        StaysAbsent(next, id, ids[1..]);
      }
    }
  }

  lemma {:induction false} StaysAbsent(w: Window, id: Uuid, ids: seq<Uuid>)
    requires !w.Has(id) && id !in ids
    ensures !PushAll(w, ids).Has(id)
    decreases |ids|
  {
    if ids != [] { StaysAbsent(w.Push(ids[0]), id, ids[1..]); }
  }

  /** The window is ids from the past followed by the ones remembered since a checkpoint. */
  ghost predicate TailSince(x: seq<Uuid>, past: set<Uuid>, tail: seq<Uuid>)
  {
    exists head: seq<Uuid> :: Joined(x, past, head, tail)
  }

  ghost predicate Joined(x: seq<Uuid>, past: set<Uuid>, head: seq<Uuid>, tail: seq<Uuid>)
  {
    x == head + tail && (forall u :: u in head ==> u in past) && (forall u :: u in tail ==> u !in past)
  }

  /** Two windows that agree on everything remembered since a checkpoint. */
  ghost predicate AgreeSince(a: Window, b: Window, past: set<Uuid>)
  {
    a.limit == b.limit && |a.recent| <= a.limit && |b.recent| <= b.limit
    && exists tail: seq<Uuid> :: TailSince(a.recent, past, tail) && TailSince(b.recent, past, tail)
  }

  function PushTail(tail: seq<Uuid>, limit: nat, id: Uuid): seq<Uuid>
    requires limit > 0
  {
    if |tail| == limit then tail[1..] + [id] else tail + [id]
  }

  lemma {:induction false} PushMovesTail(w: Window, past: set<Uuid>, tail: seq<Uuid>, id: Uuid)
    requires TailSince(w.recent, past, tail) && |w.recent| <= w.limit && id !in past
    ensures w.Has(id) <==> id in tail
    ensures w.limit > 0 && !w.Has(id) ==> TailSince(w.Push(id).recent, past, PushTail(tail, w.limit, id))
  {
    var head :| Joined(w.recent, past, head, tail);
    if w.limit > 0 && !w.Has(id) {
      var next := w.Push(id).recent;
      var head' := if |w.recent| < w.limit || head == [] then head else head[1..];
      assert next == head' + PushTail(tail, w.limit, id) by {
        if |w.recent| == w.limit && head != [] { assert (head + tail)[1..] == head[1..] + tail; }
      }
      assert Joined(next, past, head', PushTail(tail, w.limit, id));
    }
  }

  /** They answer alike for every id not seen before the checkpoint, and stay in agreement. */
  lemma {:induction false} PushAgree(a: Window, b: Window, past: set<Uuid>, id: Uuid)
    requires AgreeSince(a, b, past) && id !in past
    ensures a.Has(id) == b.Has(id)
    ensures AgreeSince(a.Push(id), b.Push(id), past)
  {
    var tail :| TailSince(a.recent, past, tail) && TailSince(b.recent, past, tail);
    PushMovesTail(a, past, tail, id);
    PushMovesTail(b, past, tail, id);
  }

  /** The ids in a ring of slots, oldest first: before the first lap the slots from the cursor on are still nil. */
  function Unrolled(slots: seq<Uuid>, next: nat): seq<Uuid>
    requires next < |slots| || slots == []
  {
    if slots == [] then []
    else if slots[next] == NIL then slots[..next]
    else slots[next..] + slots[..next]
  }

  /** The ring buffer with its membership set, updated in place. */
  class IdRing {
    var slots: array<Uuid>
    var members: set<Uuid>
    var next: nat

    ghost predicate Valid()
      reads this, slots
    {
      && (next < slots.Length || (slots.Length == 0 && next == 0))
      && (next < slots.Length && slots[next] == NIL ==> forall i :: next <= i < slots.Length ==> slots[i] == NIL)
      && View().Valid()
      && members == (set id | id in View().recent)
    }

    ghost function View(): Window
      requires next < slots.Length || slots.Length == 0
      reads this, slots
    {
      Window(slots.Length, Unrolled(slots[..], next))
    }

    constructor (limit: nat)
      ensures Valid() && fresh(slots)
      ensures View() == Window(limit, [])
    {
      slots := new Uuid[limit](_ => NIL);
      members := {};
      next := 0;
    }

    method Seen(id: Uuid) returns (r: bool)
      requires Valid()
      ensures r == View().Has(id)
    {
      r := id in members;
    }

    method Remember(id: Uuid)
      requires Valid() && id != NIL
      modifies this, slots
      ensures Valid() && slots == old(slots)
      ensures View() == old(View()).Push(id)
    {
      if slots.Length == 0 { return; }
      if id in members { return; }
      ghost var w, before, at := View(), slots[..], next;
      var evicted := slots[next];
      if evicted != NIL {
        members := members - {evicted};
      }
      slots[next] := id;
      members := members + {id};
      next := Stepped(next, slots.Length);
      assert slots[..] == before[at := id];
      if evicted == NIL { FirstLap(before, at, id); } else { LaterLap(before, at, id); }
      PushValid(w, id);
    }
  }

  /** The cursor's next position. */
  function Stepped(next: nat, length: nat): (r: nat)
    requires next < length
    ensures r == if next + 1 == length then 0 else next + 1
  {
    if next + 1 < length then
      assert (next + 1) % length == next + 1 by { SmallMod(next + 1, length); }
      (next + 1) % length
    else (next + 1) % length
  }

  lemma {:induction false} SmallMod(x: nat, d: nat)
    requires x < d
    ensures x % d == x
  {}

  /** Overwriting the slot under the cursor and stepping it is a push on the unrolled ring: before the ring is full
      the id is appended and the slots from the new cursor on are still nil. */
  lemma {:induction false} FirstLap(slots: seq<Uuid>, next: nat, id: Uuid)
    requires next < |slots| && id != NIL
    requires forall i :: next <= i < |slots| ==> slots[i] == NIL
    requires NIL !in Unrolled(slots, next)
    ensures var n := Stepped(next, |slots|);
      Unrolled(slots[next := id], n) == Unrolled(slots, next) + [id]
      && (slots[next := id][n] == NIL ==> next < n)
  {
    var after := slots[next := id];
    if next + 1 == |slots| {
      if next > 0 { assert slots[..next][0] == slots[0]; }
      assert after[0..] + after[..0] == slots[..next] + [id];
    } else {
      assert after[..next + 1] == slots[..next] + [id];
    }
  }

  /** Once it is full the oldest id is the one under the cursor, and it is the one overwritten. */
  lemma {:induction false} LaterLap(slots: seq<Uuid>, next: nat, id: Uuid)
    requires next < |slots| && id != NIL && slots[next] != NIL
    requires NIL !in Unrolled(slots, next)
    ensures var n := Stepped(next, |slots|);
      Unrolled(slots[next := id], n) == Unrolled(slots, next)[1..] + [id] && slots[next := id][n] != NIL
      && Unrolled(slots, next)[0] == slots[next]
  {
    var after, u := slots[next := id], Unrolled(slots, next);
    assert forall i :: next <= i < |slots| ==> slots[i] == u[i - next];
    assert forall i :: 0 <= i < next ==> slots[i] == u[|slots| - next + i];
    if next + 1 == |slots| {
      assert u == [slots[next]] + slots[..next];
      assert after[0..] + after[..0] == slots[..next] + [id];
    } else {
      assert u[1..] == slots[next + 1..] + slots[..next];
      assert after[next + 1..] + after[..next + 1] == slots[next + 1..] + (slots[..next] + [id]);
    }
  }
}
