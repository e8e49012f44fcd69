/** The byte encoding account states are compared and stored in: internal/engine/replay.go, Encode and DecodeState. */
module Codec {
  import opened Types
  import opened Replay
  import Ledger
  import Money
  import Texts

  type Bytes = seq<Byte>
  type Position = Ledger.Position

  const VERSION: int := 1
  const MAX_NAME: int := 64

  // ---- fixed-width integers ------------------------------------------------------------------------

  function Pow256(n: nat): nat { if n == 0 then 1 else 256 * Pow256(n - 1) }

  function BigEndian(v: nat, n: nat): (r: Bytes)
    ensures |r| == n
  {
    if n == 0 then [] else BigEndian(v / 256, n - 1) + [v % 256]
  }

  function Value(b: Bytes): nat
  {
    if b == [] then 0 else Value(b[..|b| - 1]) * 256 + b[|b| - 1]
  }

  /** The two's-complement pattern of an int64, most significant byte first. */
  function Write64(v: int): (r: Bytes)
    ensures |r| == 8
  {
    BigEndian(v % Money.TWO64, 8)
  }

  function Signed(u: nat): int { if u <= Money.MAX64 then u else u - Money.TWO64 }

  lemma {:induction false} ValueOfBigEndian(v: nat, n: nat)
    requires v < Pow256(n)
    ensures Value(BigEndian(v, n)) == v
  {
    if n > 0 {
      ValueOfBigEndian(v / 256, n - 1);
      var b := BigEndian(v, n);
      assert b[..|b| - 1] == BigEndian(v / 256, n - 1);
    }
  }

  lemma {:induction false} EightBytes()
    ensures Pow256(8) == Money.TWO64
  {
    assert Pow256(2) == 0x1_0000;
    assert Pow256(4) == 0x1_0000_0000;
    assert Pow256(6) == 0x1_0000_0000_0000;
  }

  lemma {:induction false} ReadsBack64(v: int)
    requires Money.Is64(v)
    ensures Signed(Value(Write64(v))) == v
  {
    EightBytes();
    ValueOfBigEndian(v % Money.TWO64, 8);
    if v < 0 { assert v % Money.TWO64 == v + Money.TWO64; }
  }

  // ---- encoding ------------------------------------------------------------------------------------

  /** Symbols whose position is not entirely zero. */
  function Live(m: map<Text, Position>): set<Text>
  {
    set s | s in m && m[s] != Ledger.Position(0, 0, 0)
  }

  function Entry(name: Text, p: Position): Bytes
  {
    Write64(|name|) + name + Write64(p.qty) + Write64(p.basis) + Write64(p.realized)
  }

  function Entries(names: seq<Text>, m: map<Text, Position>): Bytes
    requires forall i :: 0 <= i < |names| ==> names[i] in m
  {
    if names == [] then [] else Entry(names[0], m[names[0]]) + Entries(names[1..], m)
  }

  function Header(s: ReplayState, n: int): Bytes
  {
    Write64(VERSION) + Write64(s.seqNo) + Write64(s.cash) + Write64(s.fees) + Write64(s.clearing) + Write64(n)
  }

  ghost function Names(s: ReplayState): (r: seq<Text>)
    ensures forall i :: 0 <= i < |r| ==> r[i] in s.positions
  {
    var r := Texts.Listed(Live(s.positions));
    assert forall i :: 0 <= i < |r| ==> r[i] in r;
    r
  }

  ghost function Encode(s: ReplayState): Bytes
  {
    Header(s, |Names(s)|) + Entries(Names(s), s.positions)
  }

  // ---- decoding ------------------------------------------------------------------------------------

  datatype Fault = Truncated | WrongVersion | BadSymbolLength
  datatype Decoded = Good(state: ReplayState) | Bad(fault: Fault)

  /** binary.Read of eight bytes: all of them or an error. */
  datatype Read64 = Got(value: int, rest: Bytes) | Short

  function Take64(b: Bytes): Read64
  {
    if |b| < 8 then Short else Got(Signed(Value(b[..8])), b[8..])
  }

  function Zeros(n: nat): Bytes { if n == 0 then [] else [0] + Zeros(n - 1) }

  /** bytes.Reader.Read into a buffer of n bytes: an error only at the end of the input; a short read leaves the rest of
      the buffer zero. */
  datatype ReadName = Name(name: Text, rest: Bytes) | AtEnd

  function TakeName(b: Bytes, n: nat): ReadName
  {
    if b == [] then AtEnd
    else if |b| >= n then Name(b[..n], b[n..])
    else Name(b + Zeros(n - |b|), [])
  }

  datatype DecodedEntries = Filled(positions: map<Text, Position>) | Faulty(fault: Fault)

  function DecodeEntries(n: int, b: Bytes, m: map<Text, Position>): DecodedEntries
    decreases n
  {
    if n <= 0 then Filled(m)
    else
      var len := Take64(b);
      if len.Short? || len.value < 0 || len.value > MAX_NAME then Faulty(BadSymbolLength)
      else
        var name := TakeName(len.rest, len.value);
        if name.AtEnd? then Faulty(Truncated)
        else
          var qty := Take64(name.rest);
          if qty.Short? then Faulty(Truncated)
          else
            var basis := Take64(qty.rest);
            if basis.Short? then Faulty(Truncated)
            else
              var realized := Take64(basis.rest);
              if realized.Short? then Faulty(Truncated)
              else DecodeEntries(n - 1, realized.rest,
                m[name.name := Ledger.Position(qty.value, basis.value, realized.value)])
  }

  function Decode(b: Bytes): Decoded
  {
    var version := Take64(b);
    if version.Short? then Bad(Truncated)
    else if version.value != VERSION then Bad(WrongVersion)
    else
      var seqNo := Take64(version.rest);
      if seqNo.Short? then Bad(Truncated) else
      var cash := Take64(seqNo.rest);
      if cash.Short? then Bad(Truncated) else
      var fees := Take64(cash.rest);
      if fees.Short? then Bad(Truncated) else
      var clearing := Take64(fees.rest);
      if clearing.Short? then Bad(Truncated) else
      var n := Take64(clearing.rest);
      if n.Short? then Bad(Truncated) else
      match DecodeEntries(n.value, n.rest, map[])
      case Faulty(f) => Bad(f)
      case Filled(m) => Good(ReplayState(seqNo.value, cash.value, fees.value, clearing.value, m))
  }

  // ---- the round trip --------------------------------------------------------------------------------

  /** The state without its all-zero positions. */
  function Pruned(s: ReplayState): ReplayState
  {
    s.(positions := map k | k in s.positions && k in Live(s.positions) :: s.positions[k])
  }

  predicate PositionFits(p: Position) { Money.Is64(p.qty) && Money.Is64(p.basis) && Money.Is64(p.realized) }

  /** Every number is an int64 and every symbol is at most 64 bytes. */
  ghost predicate Encodable(s: ReplayState)
  {
    && Money.Is64(s.seqNo) && Money.Is64(s.cash) && Money.Is64(s.fees) && Money.Is64(s.clearing)
    && |Names(s)| <= Money.MAX64
    && forall k :: k in s.positions ==> |k| <= MAX_NAME && PositionFits(s.positions[k])
  }

  lemma {:induction false} TakeWritten(v: int, rest: Bytes)
    requires Money.Is64(v)
    ensures Take64(Write64(v) + rest) == Got(v, rest)
  {
    ReadsBack64(v);
    hide Value, BigEndian, Write64;
    var b := Write64(v) + rest;
    assert b[..8] == Write64(v) && b[8..] == rest;
  }

  lemma {:induction false} TakeWrittenName(name: Text, rest: Bytes)
    requires rest != []
    ensures TakeName(name + rest, |name|) == Name(name, rest)
  {
    var b := name + rest;
    assert b[..|name|] == name && b[|name|..] == rest;
  }

  lemma {:induction false} DecodeOneEntry(n: int, name: Text, p: Position, rest: Bytes, acc: map<Text, Position>)
    requires n > 0 && |name| <= MAX_NAME && PositionFits(p)
    ensures DecodeEntries(n, Entry(name, p) + rest, acc) == DecodeEntries(n - 1, rest, acc[name := p])
  {
    var r3 := Write64(p.realized) + rest;
    var r2 := Write64(p.basis) + r3;
    var r1 := Write64(p.qty) + r2;
    assert Entry(name, p) + rest == Write64(|name|) + (name + r1);
    hide Write64, Take64, TakeName, Entry;
    TakeWritten(|name|, name + r1);
    TakeWrittenName(name, r1);
    TakeWritten(p.qty, r2);
    TakeWritten(p.basis, r3);
    TakeWritten(p.realized, rest);
  }

  function Restrict(names: seq<Text>, m: map<Text, Position>): map<Text, Position>
    requires forall i :: 0 <= i < |names| ==> names[i] in m
  {
    if names == [] then map[] else map[names[0] := m[names[0]]] + Restrict(names[1..], m)
  }

  lemma {:induction false} RestrictKeys(names: seq<Text>, m: map<Text, Position>)
    requires forall i :: 0 <= i < |names| ==> names[i] in m
    ensures forall k :: k in Restrict(names, m) <==> k in names
    ensures forall k :: k in Restrict(names, m) ==> Restrict(names, m)[k] == m[k]
  {
    if names != [] {
      RestrictKeys(names[1..], m);
      assert names == [names[0]] + names[1..];
    }
  }

  lemma {:induction false} DecodeAllEntries(names: seq<Text>, m: map<Text, Position>, rest: Bytes,
      acc: map<Text, Position>)
    requires forall i :: 0 <= i < |names| ==> names[i] in m && |names[i]| <= MAX_NAME && PositionFits(m[names[i]])
    ensures DecodeEntries(|names|, Entries(names, m) + rest, acc) == Filled(acc + Restrict(names, m))
    decreases |names|
  {
    hide Entry, PositionFits;
    if names == [] {
      assert acc + Restrict(names, m) == acc;
    } else {
      var name, tail := names[0], Entries(names[1..], m);
      assert Entries(names, m) + rest == Entry(name, m[name]) + (tail + rest);
      DecodeOneEntry(|names|, name, m[name], tail + rest, acc);
      DecodeAllEntries(names[1..], m, rest, acc[name := m[name]]);
      assert acc[name := m[name]] + Restrict(names[1..], m) == acc + Restrict(names, m);
    }
  }

  lemma {:induction false} DecodeHeader(s: ReplayState, n: int, rest: Bytes)
    requires Money.Is64(s.seqNo) && Money.Is64(s.cash) && Money.Is64(s.fees) && Money.Is64(s.clearing) && Money.Is64(n)
    ensures Decode(Header(s, n) + rest) == match DecodeEntries(n, rest, map[])
      case Faulty(f) => Bad(f)
      case Filled(m) => Good(s.(positions := m))
  {
    var r5 := Write64(n) + rest;
    var r4 := Write64(s.clearing) + r5;
    var r3 := Write64(s.fees) + r4;
    var r2 := Write64(s.cash) + r3;
    var r1 := Write64(s.seqNo) + r2;
    assert Header(s, n) + rest == Write64(VERSION) + r1;
    hide Write64, Take64, Header, DecodeEntries;
    TakeWritten(VERSION, r1);
    TakeWritten(s.seqNo, r2);
    TakeWritten(s.cash, r3);
    TakeWritten(s.fees, r4);
    TakeWritten(s.clearing, r5);
    TakeWritten(n, rest);
  }

  /** Decoding what was encoded gives the state back without its all-zero positions, whatever bytes follow it. */
  lemma {:induction false} RoundTrip(s: ReplayState, trailing: Bytes)
    requires Encodable(s)
    ensures Decode(Encode(s) + trailing) == Good(Pruned(s))
  {
    var names := Names(s);
    hide Entries, Header, DecodeEntries, Decode, Restrict;
    DecodeHeader(s, |names|, Entries(names, s.positions) + trailing);
    assert Encode(s) + trailing == Header(s, |names|) + (Entries(names, s.positions) + trailing);
    DecodeAllEntries(names, s.positions, trailing, map[]);
    RestrictKeys(names, s.positions);
    assert map[] + Restrict(names, s.positions) == Pruned(s).positions;
  }

  lemma {:induction false} PrunedSame(s: ReplayState, t: ReplayState)
    ensures Pruned(s) == Pruned(t) <==> Same(s, t)
  {
    if Same(s, t) {
      forall k
        ensures (k in Pruned(s).positions <==> k in Pruned(t).positions)
      {
        assert Holds(s.positions, k) == Holds(t.positions, k);
      }
      forall k | k in Pruned(s).positions
        ensures Pruned(s).positions[k] == Pruned(t).positions[k]
      {
        assert Holds(s.positions, k) == Holds(t.positions, k);
      }
    }
    if Pruned(s) == Pruned(t) {
      forall k ensures Holds(s.positions, k) == Holds(t.positions, k) {
        assert Holds(s.positions, k) == Holds(Pruned(s).positions, k);
        assert Holds(t.positions, k) == Holds(Pruned(t).positions, k);
      }
    }
  }

  /** The bytes depend only on what survives pruning. */
  lemma {:induction false} EncodePruned(s: ReplayState, t: ReplayState)
    requires Pruned(s) == Pruned(t)
    ensures Encode(s) == Encode(t)
  {
    assert Live(s.positions) == Pruned(s).positions.Keys && Live(t.positions) == Pruned(t).positions.Keys;
    var names := Names(s);
    assert Names(t) == names;
    forall i | 0 <= i < |names| ensures names[i] in t.positions && s.positions[names[i]] == t.positions[names[i]] {
      assert names[i] in names;
      assert Pruned(s).positions[names[i]] == Pruned(t).positions[names[i]];
    }
    SameEntries(names, s.positions, t.positions);
  }

  lemma {:induction false} SameEntries(names: seq<Text>, m: map<Text, Position>, n: map<Text, Position>)
    requires forall i :: 0 <= i < |names| ==> names[i] in m && names[i] in n && m[names[i]] == n[names[i]]
    ensures Entries(names, m) == Entries(names, n)
  {
    hide Entry;
    if names != [] { SameEntries(names[1..], m, n); }
  }

  /** Two states have equal bytes exactly when they agree up to all-zero positions. */
  lemma {:induction false} Canonical(s: ReplayState, t: ReplayState)
    requires Encodable(s) && Encodable(t)
    ensures Encode(s) == Encode(t) <==> Same(s, t)
  {
    hide Encode, Decode, Encodable, Same, Pruned;
    RoundTrip(s, []);
    RoundTrip(t, []);
    assert Encode(s) + [] == Encode(s) && Encode(t) + [] == Encode(t);
    PrunedSame(s, t);
    if Pruned(s) == Pruned(t) { EncodePruned(s, t); }
  }

  /** Bytes that are not the canonical ones of any state are accepted all the same: anything after the last entry is
      ignored. */
  lemma {:induction false} TrailingBytesIgnored(s: ReplayState, b: Byte)
    requires Encodable(s)
    ensures Decode(Encode(s) + [b]) == Decode(Encode(s)) && Encode(s) + [b] != Encode(s)
  {
    hide Encode, Decode, Pruned;
    RoundTrip(s, [b]);
    RoundTrip(s, []);
    assert Encode(s) + [] == Encode(s);
    assert |Encode(s) + [b]| == |Encode(s)| + 1;
  }

  // ---- the loops ---------------------------------------------------------------------------------------

  /** `Encode`: collect the live symbols, sort them, write the header and the entries. */
  method EncodeState(s: ReplayState) returns (buf: Bytes)
    ensures buf == Encode(s)
  {
    hide Header, Entry;
    var syms: seq<Text> := [];
    var left := s.positions.Keys;
    while left != {}
      invariant left <= s.positions.Keys && Texts.Distinct(syms)
      invariant forall x :: x in syms <==> x in Live(s.positions) && x !in left
      decreases |left|
    {
      var sym :| sym in left;
      if s.positions[sym] != Ledger.Position(0, 0, 0) {
        syms := syms + [sym];
      }
      left := left - {sym};
    }
    Texts.SortIsListed(syms, Live(s.positions));
    syms := Texts.Sort(syms);
    buf := Header(s, |syms|);
    var i := 0;
    while i < |syms|
      invariant 0 <= i <= |syms| && buf + Entries(syms[i..], s.positions) == Encode(s)
    {
      assert syms[i..][0] == syms[i] && syms[i..][1..] == syms[i + 1..];
      var rest := Entries(syms[i + 1..], s.positions);
      assert buf + (Entry(syms[i], s.positions[syms[i]]) + rest) == (buf + Entry(syms[i], s.positions[syms[i]])) + rest;
      buf := buf + Entry(syms[i], s.positions[syms[i]]);
      i := i + 1;
    }
  }

  /** `DecodeState`: the header, then entry by entry until the count is used up or a read fails. */
  method DecodeState(b: Bytes) returns (r: Decoded)
    ensures r == Decode(b)
  {
    hide Take64, TakeName;
    var version := Take64(b);
    if version.Short? { return Bad(Truncated); }
    if version.value != VERSION { return Bad(WrongVersion); }
    var seqNo := Take64(version.rest);
    if seqNo.Short? { return Bad(Truncated); }
    var cash := Take64(seqNo.rest);
    if cash.Short? { return Bad(Truncated); }
    var fees := Take64(cash.rest);
    if fees.Short? { return Bad(Truncated); }
    var clearing := Take64(fees.rest);
    if clearing.Short? { return Bad(Truncated); }
    var n := Take64(clearing.rest);
    if n.Short? { return Bad(Truncated); }
    var entries := ReadEntries(n.value, n.rest);
    match entries
    case Faulty(f) => r := Bad(f);
    case Filled(m) => r := Good(ReplayState(seqNo.value, cash.value, fees.value, clearing.value, m));
  }

  method ReadEntries(n: int, b: Bytes) returns (r: DecodedEntries)
    ensures r == DecodeEntries(n, b, map[])
  {
    hide Take64, TakeName;
    var m: map<Text, Position> := map[];
    var rest := b;
    var i := 0;
    while i < n
      invariant 0 <= i && (i <= n || n < 0) && DecodeEntries(n - i, rest, m) == DecodeEntries(n, b, map[])
    {
      var len := Take64(rest);
      if len.Short? || len.value < 0 || len.value > MAX_NAME { return Faulty(BadSymbolLength); }
      var name := TakeName(len.rest, len.value);
      if name.AtEnd? { return Faulty(Truncated); }
      var qty := Take64(name.rest);
      if qty.Short? { return Faulty(Truncated); }
      var basis := Take64(qty.rest);
      if basis.Short? { return Faulty(Truncated); }
      var realized := Take64(basis.rest);
      if realized.Short? { return Faulty(Truncated); }
      m := m[name.name := Ledger.Position(qty.value, basis.value, realized.value)];
      rest := realized.rest;
      i := i + 1;
    }
    r := Filled(m);
  }
}
