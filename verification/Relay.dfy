/** The transactional outbox and its relay: internal/outbox/relay.go over internal/eventlog/memlog.go. Rows become
    visible,
    passes publish them in id order and mark them, and any pass may be cut short or fail to mark. */
module Relay {
  import opened Types
  import opened Repeats

  /** A row's contents: the record it becomes. */
  datatype Record = Record(key: Text, payload: seq<Byte>)

  /** The visible rows, the ones marked published, and the ids of the records produced so far, repeats included. */
  datatype Box = Box(rows: map<nat, Record>, published: set<nat>, sent: seq<nat>)

  /** A row becomes visible; a pass produces its batch, some records twice, stops after some of them or marks them all.
      */
  datatype Event = Insert(id: nat, record: Record) | Pass(twice: Record -> bool, cut: nat, marked: bool)

  // ---- rows in id order ----------------------------------------------------------------------------------

  ghost predicate IsLeast(ids: set<nat>, m: nat) { m in ids && forall k :: k in ids ==> m <= k }

  lemma {:induction false} LeastExists(ids: set<nat>)
    requires ids != {}
    ensures exists m :: IsLeast(ids, m)
  {
    var x :| x in ids;
    var rest := ids - {x};
    assert forall k :: k in ids ==> k in rest || k == x;
    if rest == {} {
      assert IsLeast(ids, x);
    } else {
      LeastExists(rest);
      var m :| IsLeast(rest, m);
      assert IsLeast(ids, if x < m then x else m);
    }
  }

  ghost function Least(ids: set<nat>): (m: nat)
    requires ids != {}
    ensures IsLeast(ids, m)
  {
    LeastExists(ids);
    var m :| IsLeast(ids, m);
    m
  }

  /** ORDER BY id. */
  ghost function Ascending(ids: set<nat>): seq<nat>
  {
    if ids == {} then [] else [Least(ids)] + Ascending(ids - {Least(ids)})
  }

  ghost predicate Increasing(s: seq<nat>) { forall i, j :: 0 <= i < j < |s| ==> s[i] < s[j] }

  lemma {:induction false} AscendingIs(ids: set<nat>)
    ensures Increasing(Ascending(ids)) && |Ascending(ids)| == |ids| && forall x :: x in Ascending(ids) <==> x in ids
  {
    if ids != {} {
      var m, rest := Least(ids), Ascending(ids - {Least(ids)});
      AscendingIs(ids - {m});
      forall k | 0 <= k < |rest| ensures m < rest[k] { assert rest[k] in rest; }
    }
  }

  lemma {:induction false} FirstIsLeast(s: seq<nat>)
    requires Increasing(s) && s != []
    ensures forall x :: x in s ==> s[0] <= x
  {}

  /** An increasing sequence of ids below which nothing of the set is missing is the beginning of the set in order. */
  lemma {:induction false} BeginningOf(ids: set<nat>, s: seq<nat>)
    requires Increasing(s) && forall x :: x in s ==> x in ids
    requires forall x, y :: x in ids && y in s && x < y ==> x in s
    ensures s <= Ascending(ids)
    decreases |s|
  {
    if s != [] {
      assert s[0] in s;
      assert IsLeast(ids, s[0]) by {
        FirstIsLeast(s);
        forall k | k in ids ensures s[0] <= k { assert k in s || s[0] <= k; }
      }
      var rest := s[1..];
      forall x | x in rest ensures x in ids - {s[0]} { var i :| 0 <= i < |rest| && rest[i] == x; assert s[i + 1] == x; }
      forall x, y | x in ids - {s[0]} && y in rest && x < y ensures x in rest {
        var j :| 0 <= j < |rest| && rest[j] == y;
        assert s[j + 1] == y && y in s;
        assert x in s;
        var i :| 0 <= i < |s| && s[i] == x;
        assert rest[i - 1] == x;
      }
      BeginningOf(ids - {s[0]}, rest);
    }
  }

  // ---- a pass -----------------------------------------------------------------------------------------------

  function Unpublished(b: Box): set<nat> { b.rows.Keys - b.published }

  function First(s: seq<nat>, n: nat): seq<nat> { s[..Min(n, |s|)] }

  /** SELECT ... WHERE published_at IS NULL ORDER BY id LIMIT. */
  ghost function Batch(b: Box, limit: nat): seq<nat> { First(Ascending(Unpublished(b)), limit) }

  /** The ids of the records a produce appends: each once, or twice when the log duplicates it. */
  function Doubled(rows: map<nat, Record>, ids: seq<nat>, twice: Record -> bool): seq<nat>
    decreases |ids|
  {
    if ids == [] then []
    else
      var n := |ids| - 1;
      Doubled(rows, ids[..n], twice) + (if ids[n] in rows && twice(rows[ids[n]]) then [ids[n], ids[n]] else [ids[n]])
  }

  function Members(ids: seq<nat>): (r: set<nat>)
    ensures forall x :: x in r <==> x in ids
  {
    if ids == [] then {}
    else
      assert ids == ids[..|ids| - 1] + [ids[|ids| - 1]];
      Members(ids[..|ids| - 1]) + {ids[|ids| - 1]}
  }

  ghost function Passed(b: Box, limit: nat, twice: Record -> bool, cut: nat, marked: bool): Box
  {
    var ids := Batch(b, limit);
    Box(b.rows, if cut >= |ids| && marked then b.published + Members(ids) else b.published,
        b.sent + Doubled(b.rows, First(ids, cut), twice))
  }

  ghost function Step(b: Box, limit: nat, e: Event): Box
  {
    match e
    case Insert(id, r) => if id in b.rows then b else b.(rows := b.rows[id := r])
    case Pass(twice, cut, marked) => Passed(b, limit, twice, cut, marked)
  }

  ghost function Run(limit: nat, events: seq<Event>): Box
    decreases |events|
  {
    if events == [] then Box(map[], {}, []) else Step(Run(limit, events[..|events| - 1]), limit, events[|events| - 1])
  }

  lemma {:induction false} DoubledHas(rows: map<nat, Record>, ids: seq<nat>, twice: Record -> bool)
    ensures forall x :: x in Doubled(rows, ids, twice) <==> x in ids
    decreases |ids|
  {
    if ids != [] {
      var n := |ids| - 1;
      DoubledHas(rows, ids[..n], twice);
      assert ids == ids[..n] + [ids[n]];
    }
  }

  // ---- nothing is lost ------------------------------------------------------------------------------------------

  ghost predicate NothingLost(b: Box)
  {
    (forall id :: id in b.published ==> id in b.sent) && forall id :: id in b.sent ==> id in b.rows
  }

  lemma {:induction false} BatchHas(b: Box, limit: nat)
    ensures forall x :: x in Batch(b, limit) ==> x in Unpublished(b)
    ensures |Batch(b, limit)| == Min(limit, |Unpublished(b)|)
    ensures Increasing(Batch(b, limit))
    ensures forall x, y :: x in Unpublished(b) && y in Batch(b, limit) && x < y ==> x in Batch(b, limit)
  {
    AscendingIs(Unpublished(b));
    FirstHas(Ascending(Unpublished(b)), limit);
  }

  lemma {:induction false} FirstHas(all: seq<nat>, n: nat)
    requires Increasing(all)
    ensures Increasing(First(all, n)) && forall x :: x in First(all, n) ==> x in all
    ensures forall x, y :: x in all && y in First(all, n) && x < y ==> x in First(all, n)
  {
    var ids := First(all, n);
    assert forall i :: 0 <= i < |ids| ==> ids[i] == all[i];
    forall x, y | x in all && y in ids && x < y ensures x in ids {
      var i :| 0 <= i < |all| && all[i] == x;
      var j :| 0 <= j < |ids| && ids[j] == y;
      assert all[j] == y && i < j;
      assert ids[i] == x;
    }
  }

  lemma {:induction false} StepLosesNothing(b: Box, limit: nat, e: Event)
    requires NothingLost(b)
    ensures NothingLost(Step(b, limit, e))
  {
    if e.Pass? {
      var ids := Batch(b, limit);
      BatchHas(b, limit);
      DoubledHas(b.rows, First(ids, e.cut), e.twice);
      forall x | x in First(ids, e.cut)
        ensures x in ids
      {
        var i :| 0 <= i < |First(ids, e.cut)| && First(ids, e.cut)[i] == x;
        assert ids[i] == x;
      }
      if e.cut >= |ids| { assert First(ids, e.cut) == ids; }
    }
  }

  /** Whatever fails, a row is never marked without having been produced, and nothing is produced that is not a row. */
  lemma {:induction false} RunLosesNothing(limit: nat, events: seq<Event>)
    ensures NothingLost(Run(limit, events))
    decreases |events|
  {
    hide NothingLost, Step;
    if events == [] { assert NothingLost(Run(limit, events)) by { NothingYet(); } } else {
      RunLosesNothing(limit, events[..|events| - 1]);
      StepLosesNothing(Run(limit, events[..|events| - 1]), limit, events[|events| - 1]);
    }
  }

  lemma {:induction false} NothingYet()
    ensures NothingLost(Box(map[], {}, []))
  {}

  /** A pass that completes marks as many rows as the batch takes, so repeating it publishes every row. */
  lemma {:induction false} PassMarks(b: Box, limit: nat, twice: Record -> bool, cut: nat)
    requires cut >= |Batch(b, limit)|
    ensures |Unpublished(Passed(b, limit, twice, cut, true))| == |Unpublished(b)| - Min(limit, |Unpublished(b)|)
  {
    var ids := Batch(b, limit);
    BatchHas(b, limit);
    var done := Members(ids);
    SetOf(ids);
    assert Unpublished(Passed(b, limit, twice, cut, true)) == Unpublished(b) - done;
  }

  lemma {:induction false} SetOf(s: seq<nat>)
    requires Increasing(s)
    ensures |Members(s)| == |s|
  {
    if s != [] { SetOf(s[..|s| - 1]); }
  }

  // ---- order ----------------------------------------------------------------------------------------------------

  /** Every time y is produced, x has been produced before it. */
  ghost predicate Precedes(sent: seq<nat>, x: nat, y: nat)
  {
    forall j :: 0 <= j < |sent| && sent[j] == y ==> x in sent[..j]
  }

  lemma {:induction false} PrecedesOn(sent: seq<nat>, more: seq<nat>, x: nat, y: nat)
    requires Precedes(sent, x, y) && (x in sent || Precedes(more, x, y))
    ensures Precedes(sent + more, x, y)
  {
    var all, n := sent + more, |sent|;
    forall j | 0 <= j < |all| && all[j] == y ensures x in all[..j] {
      if j < n { assert all[..j] == sent[..j]; } else {
        assert all[..j] == sent + more[..j - n];
        assert x !in sent ==> more[j - n] == y;
      }
    }
  }

  lemma {:induction false} DoubledPrecedes(rows: map<nat, Record>, ids: seq<nat>, twice: Record -> bool, x: nat, y: nat)
    requires Precedes(ids, x, y) && x != y
    ensures Precedes(Doubled(rows, ids, twice), x, y)
    decreases |ids|
  {
    if ids != [] {
      var n := |ids| - 1;
      var last := if ids[n] in rows && twice(rows[ids[n]]) then [ids[n], ids[n]] else [ids[n]];
      forall j | 0 <= j < n && ids[..n][j] == y ensures x in ids[..n][..j] { assert ids[..j] == ids[..n][..j]; }
      DoubledPrecedes(rows, ids[..n], twice, x, y);
      DoubledHas(rows, ids[..n], twice);
      if ids[n] == y { assert x in ids[..n]; } else { assert Precedes(last, x, y); }
      PrecedesOn(Doubled(rows, ids[..n], twice), last, x, y);
    }
  }

  /** A visible row with a lower id than another stays ahead of it in the log, whatever the pass does. */
  lemma {:induction false} PassKeepsOrder(b: Box, limit: nat, twice: Record -> bool, cut: nat, marked: bool, x: nat,
      y: nat)
    requires NothingLost(b) && x in b.rows && x < y && Precedes(b.sent, x, y)
    ensures Precedes(Passed(b, limit, twice, cut, marked).sent, x, y)
  {
    var ids := Batch(b, limit);
    var f := First(ids, cut);
    BatchHas(b, limit);
    if x !in b.sent {
      assert x in Unpublished(b);
      forall j | 0 <= j < |f| && f[j] == y ensures x in f[..j] {
        assert ids[j] == y && y in ids;
        var i :| 0 <= i < |ids| && ids[i] == x;
        assert i < j;
        assert f[..j][i] == x;
      }
      DoubledPrecedes(b.rows, f, twice, x, y);
    }
    PrecedesOn(b.sent, Doubled(b.rows, f, twice), x, y);
  }

  /** A row that was visible before a row with a higher id came in, as an order's is when its cancel is written, is
      ahead
      of it in the log forever: before every copy of the later one there is a copy of the earlier. */
  lemma {:induction false} OrderPrecedesCancel(limit: nat, events: seq<Event>, x: nat, y: nat, n: nat)
    requires n <= |events| && x < y && x in Run(limit, events[..n]).rows && y !in Run(limit, events[..n]).rows
    ensures x in Run(limit, events).rows && Precedes(Run(limit, events).sent, x, y)
    decreases |events|
  {
    RunLosesNothing(limit, events[..n]);
    if n == |events| {
      assert events[..n] == events;
    } else {
      var before, e := events[..|events| - 1], events[|events| - 1];
      assert before[..n] == events[..n];
      OrderPrecedesCancel(limit, before, x, y, n);
      RunLosesNothing(limit, before);
      if e.Pass? { PassKeepsOrder(Run(limit, before), limit, e.twice, e.cut, e.marked, x, y); }
    }
  }

  // ---- the whole outbox in order ------------------------------------------------------------------------------------

  /** The log without its repeats is the beginning of the outbox in id order. */
  ghost predicate InIdOrder(b: Box) { Deduped(b.sent) <= Ascending(b.rows.Keys) }

  ghost predicate AllPrecede(b: Box) { forall x, y :: x in b.rows && x < y ==> Precedes(b.sent, x, y) }

  /** A row that comes in has a higher id than everything produced. */
  ghost predicate OnTime(b: Box, e: Event)
  {
    e.Insert? && e.id !in b.rows ==> forall y :: y in b.sent ==> y < e.id
  }

  lemma {:induction false} NotBefore(sent: seq<nat>, n: nat, x: nat, i: nat)
    requires i < n <= |sent| && x !in sent[..n]
    ensures !Precedes(sent, x, sent[i])
  {
    assert forall k :: 0 <= k < i ==> sent[..i][k] == sent[..n][k];
  }

  lemma {:induction false} FirstsIncrease(sent: seq<nat>, rows: set<nat>)
    requires (forall y :: y in sent ==> y in rows) && forall x, y :: x in rows && x < y ==> Precedes(sent, x, y)
    ensures Increasing(Deduped(sent))
    decreases |sent|
  {
    if sent != [] {
      var n := |sent| - 1;
      forall x, y | x in rows && x < y ensures Precedes(sent[..n], x, y) {
        assert Precedes(sent, x, y);
        forall j | 0 <= j < n && sent[..n][j] == y ensures x in sent[..n][..j] { assert sent[..n][..j] == sent[..j]; }
      }
      FirstsIncrease(sent[..n], rows);
      DedupedHas(sent[..n]);
      var d, last := Deduped(sent[..n]), sent[n];
      if last !in d {
        forall k | 0 <= k < |d| ensures d[k] < last {
          assert d[k] in sent[..n];
          var i :| 0 <= i < n && sent[i] == d[k];
          NotBefore(sent, n, last, i);
        }
      }
    }
  }

  lemma {:induction false} PrecedingIsOrder(b: Box)
    requires NothingLost(b) && AllPrecede(b)
    ensures InIdOrder(b)
  {
    FirstsIncrease(b.sent, b.rows.Keys);
    DedupedHas(b.sent);
    forall x, y | x in b.rows.Keys && y in Deduped(b.sent) && x < y ensures x in Deduped(b.sent) {
      var j :| 0 <= j < |b.sent| && b.sent[j] == y;
      assert Precedes(b.sent, x, y);
      assert x in b.sent[..j];
    }
    BeginningOf(b.rows.Keys, Deduped(b.sent));
  }

  lemma {:induction false} OnTimeKeeps(b: Box, limit: nat, e: Event)
    requires NothingLost(b) && AllPrecede(b) && OnTime(b, e)
    ensures AllPrecede(Step(b, limit, e))
  {
    var b' := Step(b, limit, e);
    forall x, y | x in b'.rows && x < y ensures Precedes(b'.sent, x, y) {
      if e.Pass? {
        assert Precedes(b.sent, x, y);
        PassKeepsOrder(b, limit, e.twice, e.cut, e.marked, x, y);
      } else if x !in b.rows {
        assert y !in b.sent;
      }
    }
  }

  /** A row that comes in late, below something already produced, is out of order then and there. */
  lemma {:induction false} LateIsOutOfOrder(b: Box, limit: nat, e: Event)
    requires NothingLost(b) && !OnTime(b, e)
    ensures !InIdOrder(Step(b, limit, e))
  {
    var b' := Step(b, limit, e);
    var y :| y in b.sent && y >= e.id;
    DedupedHas(b.sent);
    AscendingIs(b'.rows.Keys);
    assert e.id in b'.rows.Keys && e.id !in b.sent && e.id < y;
    NothingMissing(Deduped(b.sent), Ascending(b'.rows.Keys), e.id, y);
  }

  lemma {:induction false} NothingMissing(d: seq<nat>, all: seq<nat>, x: nat, y: nat)
    requires Increasing(all) && x in all && y in d && x < y
    ensures d <= all ==> x in d
  {
    var k :| 0 <= k < |d| && d[k] == y;
    var i :| 0 <= i < |all| && all[i] == x;
    if d <= all {
      assert all[k] == y;
      assert d[i] == x;
    }
  }

  lemma {:induction false} OnTimeRun(limit: nat, events: seq<Event>)
    requires forall k :: 0 <= k < |events| ==> OnTime(Run(limit, events[..k]), events[k])
    ensures AllPrecede(Run(limit, events))
    decreases |events|
  {
    hide AllPrecede, OnTime, Step;
    if events == [] { assert AllPrecede(Run(limit, events)) by { NonePrecede(); } } else {
      var n := |events| - 1;
      forall k | 0 <= k < n
        ensures OnTime(Run(limit, events[..n][..k]), events[..n][k])
      {
        assert events[..n][..k] == events[..k];
      }
      OnTimeRun(limit, events[..n]);
      RunLosesNothing(limit, events[..n]);
      OnTimeKeeps(Run(limit, events[..n]), limit, events[n]);
    }
  }

  lemma {:induction false} NonePrecede()
    ensures AllPrecede(Box(map[], {}, []))
  {}

  /** At every point of a run the log without its repeats is the beginning of the outbox in id order, exactly when no
      row
      ever becomes visible below one already produced. */
  lemma {:induction false} InOrderIff(limit: nat, events: seq<Event>)
    ensures (forall k :: 0 <= k <= |events| ==> InIdOrder(Run(limit, events[..k])))
      <==> forall k :: 0 <= k < |events| ==> OnTime(Run(limit, events[..k]), events[k])
  {
    hide InIdOrder, OnTime, Step;
    if forall k :: 0 <= k < |events| ==> OnTime(Run(limit, events[..k]), events[k]) {
      forall k | 0 <= k <= |events| ensures InIdOrder(Run(limit, events[..k])) {
        forall i | 0 <= i < k
          ensures OnTime(Run(limit, events[..k][..i]), events[..k][i])
        {
          assert events[..k][..i] == events[..i];
        }
        OnTimeRun(limit, events[..k]);
        RunLosesNothing(limit, events[..k]);
        PrecedingIsOrder(Run(limit, events[..k]));
      }
    } else {
      var k :| 0 <= k < |events| && !OnTime(Run(limit, events[..k]), events[k]);
      RunLosesNothing(limit, events[..k]);
      LateIsOutOfOrder(Run(limit, events[..k]), limit, events[k]);
      assert events[..k + 1][..k] == events[..k];
      assert !InIdOrder(Run(limit, events[..k + 1]));
    }
  }

  // ---- the relay and the log
  // -------------------------------------------------------------------------------------------

  /** What one partition of the log holds of the records with these row ids. */
  function PartitionOf(rows: map<nat, Record>, sent: seq<nat>, partition: Text -> int, p: int): seq<Record>
    decreases |sent|
  {
    if sent == [] then []
    else
      var n := |sent| - 1;
      PartitionOf(rows, sent[..n], partition, p)
      + (if sent[n] in rows && partition(rows[sent[n]].key) == p then [rows[sent[n]]] else [])
  }

  lemma {:induction false} OneMoreRecord(rows: map<nat, Record>, sent: seq<nat>, id: nat, partition: Text -> int,
      p: int)
    ensures PartitionOf(rows, sent + [id], partition, p)
      == PartitionOf(rows, sent, partition, p) + (if id in rows && partition(rows[id].key) == p then [rows[id]] else [])
  {
    assert (sent + [id])[..|sent|] == sent;
  }

  lemma {:induction false} OneMoreId(rows: map<nat, Record>, ids: seq<nat>, id: nat, twice: Record -> bool)
    ensures Doubled(rows, ids + [id], twice) ==
      Doubled(rows, ids, twice) + (if id in rows && twice(rows[id]) then [id, id] else [id])
  {
    assert (ids + [id])[..|ids|] == ids;
  }

  lemma {:induction false} PassedIs(b: Box, limit: nat, ids: seq<nat>, twice: Record -> bool, cut: nat, marked: bool)
    requires ids == Batch(b, limit)
    ensures Passed(b, limit, twice, cut, marked) ==
      if ids == [] then b
      else Box(b.rows, if cut >= |ids| && marked then b.published + Members(ids) else b.published,
               b.sent + Doubled(b.rows, First(ids, cut), twice))
  {
    if ids == [] {
      assert First(ids, cut) == [] && Doubled(b.rows, [], twice) == [];
      assert b.sent + [] == b.sent && b.published + Members([]) == b.published;
    }
  }

  lemma {:induction false} NothingFirst(left: set<nat>, n: nat)
    requires left == {} || n == 0
    ensures First(Ascending(left), n) == []
  {}

  /** Taking the least id off and going on is taking ids in order. */
  lemma {:induction false} LeastFirst(left: set<nat>, n: nat)
    requires left != {} && n > 0
    ensures First(Ascending(left), n) == [Least(left)] + First(Ascending(left - {Least(left)}), n - 1)
  {}

  lemma {:induction false} LeastIs(ids: set<nat>, m: nat)
    requires IsLeast(ids, m)
    ensures ids != {} && Least(ids) == m
  {}

  class Outbox {
    var rows: map<nat, Record>
    var published: set<nat>
    /** `MemLog.records`, one topic: offset is index. */
    var records: map<int, seq<Record>>
    /** Row ids in the order their records were appended. */
    ghost var sent: seq<nat>
    const batch: nat
    const partition: Text -> int

    ghost function Contents(): Box reads this { Box(rows, published, sent) }

    function Stored(p: int): seq<Record> reads this`records { if p in records then records[p] else [] }

    /** Each partition holds what was produced for it, in the order it was produced. */
    ghost predicate LogValid() reads this`rows, this`records, this`sent
    {
      (forall id :: id in sent ==> id in rows) && forall p :: Stored(p) == PartitionOf(rows, sent, partition, p)
    }

    ghost predicate Valid() reads this { published <= rows.Keys && LogValid() }

    constructor (limit: int, partition: Text -> int)
      ensures Valid() && Contents() == Box(map[], {}, [])
      ensures batch == (if limit <= 0 then 256 else limit) && this.partition == partition
    {
      rows, published, records, sent := map[], {}, map[], [];
      batch := if limit <= 0 then 256 else limit;
      this.partition := partition;
    }

    /** `append`, for the row with this id. */
    method Append(id: nat)
      requires Valid() && id in rows
      modifies this`records, this`sent
      ensures Valid() && sent == old(sent) + [id]
    {
      var p := partition(rows[id].key);
      records := records[p := Stored(p) + [rows[id]]];
      sent := sent + [id];
      forall q
        ensures Stored(q) == PartitionOf(rows, sent, partition, q)
      {
        OneMoreRecord(rows, old(sent), id, partition, q);
      }
    }

    /** One record of a produce, once or, if the hook picks it, twice. */
    method AppendOne(id: nat, twice: Record -> bool)
      requires Valid() && id in rows
      modifies this`records, this`sent
      ensures Valid() && sent == old(sent) + (if twice(rows[id]) then [id, id] else [id])
    {
      Append(id);
      if twice(rows[id]) { Append(id); }
    }

    /** `Produce`, cut short after some records; a record the hook picks is appended twice. */
    method Produce(ids: seq<nat>, twice: Record -> bool, cut: nat) returns (ok: bool)
      requires Valid() && forall id :: id in ids ==> id in rows
      modifies this`records, this`sent
      ensures Valid() && ok == (cut >= |ids|)
      ensures sent == old(sent) + Doubled(rows, First(ids, cut), twice)
    {
      hide LogValid, Stored, PartitionOf;
      var k := 0;
      assert First(ids, 0) == [] && Doubled(rows, [], twice) == [];
      hide Doubled;
      while k < |ids| && k < cut
        invariant 0 <= k <= Min(cut, |ids|) && Valid()
        invariant sent == old(sent) + Doubled(rows, First(ids, k), twice)
      {
        assert ids[k] in ids;
        OneMoreId(rows, First(ids, k), ids[k], twice);
        assert First(ids, k + 1) == First(ids, k) + [ids[k]];
        AppendOne(ids[k], twice);
        k := k + 1;
      }
      assert First(ids, k) == First(ids, cut);
      ok := k == |ids|;
    }

    /** The rows a pass reads, in id order. */
    method Select() returns (ids: seq<nat>)
      requires Valid()
      ensures ids == Batch(Contents(), batch)
    {
      hide LogValid, Stored, PartitionOf;
      var left := rows.Keys - published;
      ids := [];
      hide Ascending, First;
      assert [] + First(Ascending(left), batch) == First(Ascending(left), batch);
      while left != {} && |ids| < batch
        invariant |ids| <= batch
        invariant Batch(Contents(), batch) == ids + First(Ascending(left), batch - |ids|)
        decreases |left|
      {
        LeastExists(left);
        var id :| id in left && forall k :: k in left ==> id <= k;
        LeastIs(left, id);
        LeastFirst(left, batch - |ids|);
        ids := ids + [id];
        left := left - {id};
      }
      NothingFirst(left, batch - |ids|);
    }

    /** UPDATE outbox SET published_at. */
    method Mark(ids: seq<nat>)
      requires Valid() && forall id :: id in ids ==> id in rows
      modifies this`published
      ensures Valid() && published == old(published) + Members(ids)
    {
      hide LogValid;
      published := published + Members(ids);
    }

    /** `PumpOnce`: how many rows were published, none when the produce or the mark failed. */
    method PumpOnce(twice: Record -> bool, cut: nat, marked: bool) returns (n: Option<nat>)
      requires Valid()
      modifies this`records, this`sent, this`published
      ensures Valid() && Contents() == Passed(old(Contents()), batch, twice, cut, marked)
      ensures n == if cut >= |Batch(old(Contents()), batch)| && (marked || Batch(old(Contents()), batch) == [])
                   then Some(|Batch(old(Contents()), batch)|) else None
    {
      hide LogValid, Batch, Passed, First;
      ghost var b := Contents();
      BatchHas(b, batch);
      var ids := Select();
      PassedIs(b, batch, ids, twice, cut, marked);
      if ids == [] {
        n := Some(0);
      } else {
        var ok := Produce(ids, twice, cut);
        if ok && marked {
          Mark(ids);
          n := Some(|ids|);
        } else {
          n := None;
        }
      }
    }

    /** `Drain`: passes until one finds nothing. */
    method Drain(twice: Record -> bool) returns (total: nat)
      requires Valid() && batch > 0
      modifies this`records, this`sent, this`published
      ensures Valid() && rows == old(rows) && published == rows.Keys
      ensures total == |old(rows.Keys - published)|
    {
      total := 0;
      while true
        invariant Valid() && total + |Unpublished(Contents())| == |old(rows.Keys - published)|
        decreases |Unpublished(Contents())|
      {
        ghost var before := Contents();
        BatchHas(before, batch);
        PassMarks(before, batch, twice, batch);
        var n := PumpOnce(twice, batch, true);
        if n == Some(0) {
          assert Unpublished(before) == {};
          break;
        }
        total := total + n.value;
      }
    }
  }
}
