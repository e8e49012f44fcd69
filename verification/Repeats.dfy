/** Streams with repeats: what is left when only the first occurrence of everything is kept. */
module Repeats {
  import opened Types

  /** A stream without the repeats: the first occurrence of everything, in order. */
  function Deduped<T(==)>(s: seq<T>): seq<T>
  {
    if s == [] then []
    else
      var d, last := Deduped(s[..|s| - 1]), s[|s| - 1];
      if last in d then d else d + [last]
  }

  ghost predicate AllDistinct<T>(s: seq<T>) { forall i, j :: 0 <= i < j < |s| ==> s[i] != s[j] }

  lemma {:induction false} DedupedHas<T>(s: seq<T>)
    ensures forall t :: t in s <==> t in Deduped(s)
  {
    if s != [] {
      DedupedHas(s[..|s| - 1]);
      assert s == s[..|s| - 1] + [s[|s| - 1]];
    }
  }

  lemma {:induction false} DedupedPrefix<T>(log: seq<T>, n: nat)
    requires n <= |log|
    ensures Deduped(log[..n]) <= Deduped(log)
    decreases |log| - n
  {
    if n < |log| {
      DedupedPrefix(log, n + 1);
      assert log[..n + 1][..n] == log[..n];
    } else {
      assert log[..n] == log;
    }
  }

  /** One more record: it extends the deduplicated log exactly when it is no copy of an earlier one. */
  lemma {:induction false} DedupedStep<T>(log: seq<T>, n: nat)
    requires n < |log|
    ensures Deduped(log[..n + 1]) == if log[n] in log[..n] then Deduped(log[..n]) else Deduped(log[..n]) + [log[n]]
    ensures log[n] !in log[..n] ==> |Deduped(log[..n])| < |Deduped(log)| && Deduped(log)[|Deduped(log[..n])|] == log[n]
  {
    assert log[..n + 1][..n] == log[..n];
    DedupedHas(log[..n]);
    DedupedPrefix(log, n + 1);
  }

  /** Publishing a segment again, or onward, of a stream whose beginning is already out. */
  lemma {:induction false} DedupSegment<T>(all: seq<T>, out: seq<T>, i: nat, j: nat)
    requires AllDistinct(all) && Deduped(out) <= all && i <= |Deduped(out)| && i <= j <= |all|
    ensures Deduped(out + all[i..j]) == all[..Max(|Deduped(out)|, j)]
    decreases j - i
  {
    if i == j {
      assert out + all[i..j] == out;
    } else {
      DedupSegment(all, out, i, j - 1);
      var s := out + all[i..j];
      assert s[..|s| - 1] == out + all[i..j - 1] && s[|s| - 1] == all[j - 1];
      DedupNext(all, Max(|Deduped(out)|, j - 1), j - 1);
    }
  }

  lemma {:induction false} DedupNext<T>(all: seq<T>, n: nat, j: nat)
    requires AllDistinct(all) && j < |all| && j <= n <= |all|
    ensures all[j] in all[..n] <==> j < n
    ensures j == n ==> all[..n] + [all[j]] == all[..n + 1]
  {
    if j < n { assert all[..n][j] == all[j]; }
  }
}
