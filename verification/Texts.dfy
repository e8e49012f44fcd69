/** Byte strings in the order Go's sort.Strings puts them. */
module Texts {
  import opened Types

  predicate Less(a: Text, b: Text)
  {
    if b == [] then false
    else if a == [] then true
    else a[0] < b[0] || (a[0] == b[0] && Less(a[1..], b[1..]))
  }

  lemma {:induction false} LessTotal(a: Text, b: Text)
    ensures !(Less(a, b) && Less(b, a)) && (a == b ==> !Less(a, b))
    ensures Less(a, b) || Less(b, a) || a == b
  {
    if a != [] && b != [] {
      LessTotal(a[1..], b[1..]);
      if a[1..] == b[1..] && a[0] == b[0] { assert a == [a[0]] + a[1..] && b == [b[0]] + b[1..]; }
    }
  }

  lemma {:induction false} LessTransitive(a: Text, b: Text, c: Text)
    requires Less(a, b) && Less(b, c)
    ensures Less(a, c)
  {
    if a != [] && a[0] == b[0] == c[0] { LessTransitive(a[1..], b[1..], c[1..]); }
  }

  ghost predicate Sorted(s: seq<Text>) { forall i, j :: 0 <= i < j < |s| ==> Less(s[i], s[j]) }

  function Insert(s: seq<Text>, t: Text): seq<Text>
  {
    if s == [] || Less(t, s[0]) then [t] + s else [s[0]] + Insert(s[1..], t)
  }

  /** sort.Strings. */
  function Sort(s: seq<Text>): seq<Text>
  {
    if s == [] then [] else Insert(Sort(s[1..]), s[0])
  }

  ghost predicate Distinct(s: seq<Text>) { forall i, j :: 0 <= i < j < |s| ==> s[i] != s[j] }

  lemma {:induction false} InsertSorted(s: seq<Text>, t: Text)
    requires Sorted(s) && t !in s
    ensures Sorted(Insert(s, t)) && forall x :: x in Insert(s, t) <==> x in s || x == t
  {
    if s == [] {
    } else if Less(t, s[0]) {
      forall i | 0 < i < |s| ensures Less(t, s[i]) { LessTransitive(t, s[0], s[i]); }
    } else {
      var r := Insert(s[1..], t);
      InsertSorted(s[1..], t);
      LessTotal(s[0], t);
      assert s == [s[0]] + s[1..];
      forall i | 0 <= i < |r| ensures Less(s[0], r[i]) {
        assert r[i] in r;
        if r[i] in s[1..] { var k :| 0 <= k < |s[1..]| && s[1..][k] == r[i]; assert Less(s[0], s[k + 1]); }
      }
    }
  }

  lemma {:induction false} SortSorted(s: seq<Text>)
    requires Distinct(s)
    ensures Sorted(Sort(s)) && forall x :: x in Sort(s) <==> x in s
  {
    if s != [] {
      SortSorted(s[1..]);
      assert s == [s[0]] + s[1..];
      forall k | 0 <= k < |s[1..]| ensures s[1..][k] != s[0] { assert s[1..][k] == s[k + 1]; }
      InsertSorted(Sort(s[1..]), s[0]);
    }
  }

  /** The members of a set, sorted: there is only one such sequence. */
  ghost function Listed(s: set<Text>): (r: seq<Text>)
    ensures Sorted(r) && forall x :: x in r <==> x in s
  {
    ListedExists(s);
    var r :| Sorted(r) && forall x :: x in r <==> x in s;
    r
  }

  lemma {:induction false} ListedExists(s: set<Text>)
    ensures exists r: seq<Text> :: Sorted(r) && forall x :: x in r <==> x in s
    decreases |s|
  {
    if s == {} {
      var r: seq<Text> := [];
      assert Sorted(r) && forall x :: x in r <==> x in s;
    } else {
      var t :| t in s;
      ListedExists(s - {t});
      var r: seq<Text> :| Sorted(r) && forall x :: x in r <==> x in s - {t};
      InsertSorted(r, t);
      var r' := Insert(r, t);
      assert Sorted(r') && forall x :: x in r' <==> x in s;
    }
  }

  lemma {:induction false} SortedUnique(p: seq<Text>, q: seq<Text>)
    requires Sorted(p) && Sorted(q) && forall x :: x in p <==> x in q
    ensures p == q
    decreases |p|
  {
    assert q != [] ==> q[0] in q;
    assert p != [] ==> p[0] in p;
    if p == [] || q == [] {
    } else {
      HeadsAgree(p, q);
      forall x ensures x in p[1..] <==> x in q[1..] {
        if x in p[1..] { TailMember(p, q, x); }
        if x in q[1..] { TailMember(q, p, x); }
      }
      SortedUnique(p[1..], q[1..]);
      assert p == [p[0]] + p[1..] && q == [q[0]] + q[1..];
    }
  }

  lemma {:induction false} HeadsAgree(p: seq<Text>, q: seq<Text>)
    requires Sorted(p) && Sorted(q) && p != [] && q != [] && p[0] in q && q[0] in p
    ensures p[0] == q[0]
  {
    FirstIsLeast(q, p[0]);
    FirstIsLeast(p, q[0]);
    LessTotal(p[0], q[0]);
  }

  lemma {:induction false} FirstIsLeast(q: seq<Text>, x: Text)
    requires Sorted(q) && x in q
    ensures q[0] == x || Less(q[0], x)
  {
    var i :| 0 <= i < |q| && q[i] == x;
    assert i > 0 ==> Less(q[0], q[i]);
  }

  lemma {:induction false} TailMember(p: seq<Text>, q: seq<Text>, x: Text)
    requires Sorted(p) && p != [] && q != [] && p[0] == q[0] && x in p[1..] && forall y :: y in p <==> y in q
    ensures x in q[1..]
  {
    var i :| 0 <= i < |p[1..]| && p[1..][i] == x;
    assert Less(p[0], p[i + 1]) && p[i + 1] in q;
    LessTotal(p[0], x);
    var k :| 0 <= k < |q| && q[k] == x;
    assert k > 0 ==> q[1..][k - 1] == x;
  }

  /** Collecting a set in any order and sorting gives its listing. */
  lemma {:induction false} SortIsListed(s: seq<Text>, all: set<Text>)
    requires Distinct(s) && forall x :: x in s <==> x in all
    ensures Sort(s) == Listed(all)
  {
    SortSorted(s);
    SortedUnique(Sort(s), Listed(all));
  }
}
