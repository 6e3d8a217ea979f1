/** Bolt buckets: maps iterated in ascending key order, their eight-byte keys, and the
    filter-without-allocating idiom the organization facades use on what they read. */
module Buckets {
  import opened Octets
  import opened Options

  // ---------------------------------------------------------------- keys (bolt/util.go)

  const TWO_TO_64: nat := 0x1_0000_0000_0000_0000

  /** The number a big-endian byte string stands for. */
  function Decode(b: seq<byte>): nat {
    if b == [] then 0 else Decode(b[..|b| - 1]) * 256 + b[|b| - 1] as nat
  }

  /** bytes.Compare, the order in which bolt keeps its keys. */
  predicate Before(a: seq<byte>, b: seq<byte>) {
    if a == [] then b != []
    else b != [] && (a[0] < b[0] || (a[0] == b[0] && Before(a[1..], b[1..])))
  }

  /** binary.BigEndian.PutUint64 into a fresh buffer. */
  method U64tob(v: nat) returns (b: array<byte>)
    requires v < TWO_TO_64
    ensures fresh(b) && b.Length == 8 && Decode(b[..]) == v
  {
    b := new byte[8];
    var rest: nat, i: nat := v, 8;
    while i > 0
      invariant i <= 8
      invariant Split(v, rest, i, b[i..])
    {
      i := i - 1;
      ghost var tail := b[i + 1..];
      b[i] := (rest % 256) as byte;
      assert b[i..] == [b[i]] + tail;
      SplitStep(v, rest, i, tail);
      rest := rest / 256;
    }
    assert b[0..] == b[..];
  }

  /** i digits are still to come: `rest` holds them and `tail` decodes to what is below. */
  ghost predicate Split(v: nat, rest: nat, i: nat, tail: seq<byte>) {
    |tail| + i == 8 && rest < Power(i) && v == rest * Power(8 - i) + Decode(tail)
  }

  lemma SplitStep(v: nat, rest: nat, i: nat, tail: seq<byte>)
    requires i < 8 && Split(v, rest, i + 1, tail)
    ensures Split(v, rest / 256, i, [(rest % 256) as byte] + tail)
  {
    DecodeCons((rest % 256) as byte, tail);
    Regroup(rest, Power(7 - i));
  }

  function Power(n: nat): nat {
    if n == 0 then 1 else 256 * Power(n - 1)
  }

  lemma Regroup(rest: nat, p: nat)
    ensures rest * p == (rest / 256) * (256 * p) + (rest % 256) * p
  {
    assert rest == (rest / 256) * 256 + rest % 256;
  }

  lemma {:induction false} DecodeCons(x: byte, b: seq<byte>)
    ensures Decode([x] + b) == x as nat * Power(|b|) + Decode(b)
  {
    var s := [x] + b;
    if b == [] {
      assert s[..|s| - 1] == [];
    } else {
      assert s[..|s| - 1] == [x] + b[..|b| - 1];
      DecodeCons(x, b[..|b| - 1]);
      assert x as nat * Power(|b| - 1) * 256 == x as nat * Power(|b|);
    }
  }

  lemma {:induction false} DecodeBound(b: seq<byte>)
    ensures Decode(b) < Power(|b|)
  {
    if b != [] { DecodeBound(b[..|b| - 1]); }
  }

  /** Keys are injective and bolt's byte order on them is the order of the numbers, so a bucket
      is walked in ascending order of its ids. */
  lemma {:induction false} KeyOrder(a: seq<byte>, b: seq<byte>)
    requires |a| == |b|
    ensures Before(a, b) <==> Decode(a) < Decode(b)
    ensures a == b <==> Decode(a) == Decode(b)
  {
    if a != [] {
      KeyOrder(a[1..], b[1..]);
      DecodeCons(a[0], a[1..]);
      DecodeCons(b[0], b[1..]);
      DecodeBound(a[1..]);
      DecodeBound(b[1..]);
      assert a == [a[0]] + a[1..] && b == [b[0]] + b[1..];
      LeadingDigit(Power(|a| - 1), a[0] as nat, b[0] as nat, Decode(a[1..]), Decode(b[1..]));
    }
  }

  lemma LeadingDigit(p: nat, x: nat, y: nat, s: nat, t: nat)
    requires s < p && t < p
    ensures x * p + s < y * p + t <==> x < y || (x == y && s < t)
    ensures x * p + s == y * p + t <==> x == y && s == t
  {
    if x < y {
      assert (x + 1) * p <= y * p;
    } else if y < x {
      assert (y + 1) * p <= x * p;
    }
  }

  // ---------------------------------------------------------------- iteration

  ghost predicate IsLeast(k: nat, keys: set<nat>) {
    k in keys && forall x :: x in keys ==> k <= x
  }

  lemma {:induction false} LeastExists(keys: set<nat>)
    requires keys != {}
    ensures exists k :: IsLeast(k, keys)
  {
    var k :| k in keys;
    if keys == {k} {
      assert IsLeast(k, keys);
    } else {
      LeastExists(keys - {k});
      var l :| IsLeast(l, keys - {k});
      var m := if l < k then l else k;
      forall x | x in keys ensures m <= x { assert x == k || x in keys - {k}; }
      assert IsLeast(m, keys);
    }
  }

  function Least(keys: set<nat>): (k: nat)
    requires keys != {}
    ensures IsLeast(k, keys)
  {
    LeastExists(keys);
    assert exists k :: k in keys && forall x :: x in keys ==> k <= x by {
      var l :| IsLeast(l, keys);
    }
    var k :| k in keys && forall x :: x in keys ==> k <= x;
    k
  }

  function Ascending(keys: set<nat>): (ks: seq<nat>)
    ensures forall k :: k in ks <==> k in keys
    ensures forall i, j :: 0 <= i < j < |ks| ==> ks[i] < ks[j]
  {
    if keys == {} then []
    else
      var k := Least(keys);
      [k] + Ascending(keys - {k})
  }

  /** What ForEach over a bucket visits, in order. */
  function Records<V>(m: map<nat, V>): (vs: seq<V>)
    ensures |vs| == |Ascending(m.Keys)|
    ensures forall i :: 0 <= i < |vs| ==> Ascending(m.Keys)[i] in m && vs[i] == m[Ascending(m.Keys)[i]]
  {
    var ks := Ascending(m.Keys);
    seq(|ks|, i requires 0 <= i < |ks| => m[ks[i]])
  }

  /** Walking a bucket: record i is the next key's, above all keys visited so far. */
  lemma Visit<V>(m: map<nat, V>, i: nat)
    requires i < |Records(m)|
    ensures var ks := Ascending(m.Keys);
      && ks[..i + 1] == ks[..i] + [ks[i]] && ks[i] in m && Records(m)[i] == m[ks[i]]
      && (forall l :: l in ks[..i] ==> l < ks[i])
  {
    AboveEarlier(Ascending(m.Keys), i);
  }

  lemma AboveEarlier(ks: seq<nat>, i: nat)
    requires i < |ks| && forall a, b :: 0 <= a < b < |ks| ==> ks[a] < ks[b]
    ensures ks[..i + 1] == ks[..i] + [ks[i]]
    ensures forall l :: l in ks[..i] ==> l < ks[i]
  {
  }

  // ---------------------------------------------------------------- filtering without allocating

  function Filter<T>(s: seq<T>, keep: T -> bool): seq<T> {
    if s == [] then []
    else
      var last := s[|s| - 1];
      Filter(s[..|s| - 1], keep) + (if keep(last) then [last] else [])
  }

  lemma {:induction false} FilterMembers<T(!new)>(s: seq<T>, keep: T -> bool)
    ensures forall x :: x in Filter(s, keep) <==> x in s && keep(x)
    ensures |Filter(s, keep)| <= |s|
  {
    if s != [] {
      FilterMembers(s[..|s| - 1], keep);
      assert s == s[..|s| - 1] + [s[|s| - 1]];
    }
  }

  /** `kept := a[:0]; for _, x := range a { if keep(x) { kept = append(kept, x) } }`. */
  method FilterInPlace<T(!new)>(a: array<T>, keep: T -> bool) returns (n: nat)
    modifies a
    ensures n <= a.Length && a[..n] == Filter(old(a[..]), keep)
  {
    n := 0;
    ghost var was := a[..];
    for i := 0 to a.Length
      invariant n <= i
      invariant a[..n] == Filter(was[..i], keep)
      invariant forall j :: i <= j < a.Length ==> a[j] == was[j]
    {
      FilterSnoc(was, i, keep);
      if keep(a[i]) {
        ghost var kept := a[..n];
        a[n] := a[i];
        n := n + 1;
        assert a[..n] == kept + [was[i]];
      }
    }
    assert was[..a.Length] == was;
  }

  lemma FilterSnoc<T(!new)>(s: seq<T>, i: nat, keep: T -> bool)
    requires i < |s|
    ensures Filter(s[..i + 1], keep) == Filter(s[..i], keep) + (if keep(s[i]) then [s[i]] else [])
  {
    assert s[..i + 1][..i] == s[..i];
  }

  lemma {:induction false} FilterAppend<T(!new)>(s: seq<T>, t: seq<T>, keep: T -> bool)
    ensures Filter(s + t, keep) == Filter(s, keep) + Filter(t, keep)
  {
    if t == [] {
      assert s + t == s;
    } else {
      assert (s + t)[..|s + t| - 1] == s + t[..|t| - 1];
      FilterAppend(s, t[..|t| - 1], keep);
    }
  }

  lemma {:induction false} FilterAll<T(!new)>(s: seq<T>, keep: T -> bool)
    requires forall x :: x in s ==> keep(x)
    ensures Filter(s, keep) == s
  {
    if s != [] {
      FilterAll(s[..|s| - 1], keep);
      assert s == s[..|s| - 1] + [s[|s| - 1]];
    }
  }

  // ---------------------------------------------------------------- reading some records of a bucket

  function Ids<V>(vs: seq<V>, idOf: V -> nat): (ids: seq<nat>)
    ensures |ids| == |vs| && forall i :: 0 <= i < |ids| ==> ids[i] == idOf(vs[i])
  {
    seq(|vs|, i requires 0 <= i < |vs| => idOf(vs[i]))
  }

  ghost predicate Distinct(ids: seq<nat>) {
    forall i, j :: 0 <= i < j < |ids| ==> ids[i] != ids[j]
  }

  ghost predicate Selects<V>(m: map<nat, V>, keep: V -> bool, ids: seq<nat>, vs: seq<V>) {
    && |ids| == |vs| && Distinct(ids)
    && (forall k :: k in ids <==> k in m && keep(m[k]))
    && (forall i :: 0 <= i < |ids| ==> ids[i] in m && vs[i] == m[ids[i]])
  }

  function KeptIds<V>(m: map<nat, V>, keep: V -> bool, ks: seq<nat>): seq<nat>
    requires forall k :: k in ks ==> k in m
  {
    if ks == [] then []
    else
      var n := |ks| - 1;
      KeptIds(m, keep, ks[..n]) + (if keep(m[ks[n]]) then [ks[n]] else [])
  }

  lemma {:induction false} SelectsFrom<V>(m: map<nat, V>, keep: V -> bool, ks: seq<nat>, vs: seq<V>)
    requires |ks| == |vs| && (forall k :: k in ks ==> k in m) && forall i :: 0 <= i < |ks| ==> vs[i] == m[ks[i]]
    requires forall i, j :: 0 <= i < j < |ks| ==> ks[i] < ks[j]
    ensures var ids, r := KeptIds(m, keep, ks), Filter(vs, keep);
      && |ids| == |r| && Distinct(ids)
      && (forall k :: k in ids <==> k in ks && keep(m[k]))
      && (forall i :: 0 <= i < |ids| ==> ids[i] in m && r[i] == m[ids[i]])
  {
    if ks != [] {
      var n := |ks| - 1;
      var ids := KeptIds(m, keep, ks[..n]);
      SelectsFrom(m, keep, ks[..n], vs[..n]);
      AboveEarlier(ks, n);
      assert ks == ks[..n] + [ks[n]];
      assert forall i :: 0 <= i < |ids| ==> ids[i] in ids;
    }
  }

  /** What a facade's All returns are the selected records of the bucket, each once. */
  lemma Selected<V(!new)>(m: map<nat, V>, keep: V -> bool, idOf: V -> nat)
    requires forall k :: k in m ==> idOf(m[k]) == k
    ensures var vs := Filter(Records(m), keep); Selects(m, keep, Ids(vs, idOf), vs)
  {
    var ks := Ascending(m.Keys);
    SelectsFrom(m, keep, ks, Records(m));
    var vs, ids := Filter(Records(m), keep), KeptIds(m, keep, ks);
    assert Ids(vs, idOf) == ids;
  }

  // ---------------------------------------------------------------- loops over a bucket

  function MapValues<V>(m: map<nat, V>, f: V -> V): map<nat, V> {
    map k | k in m :: f(m[k])
  }

  /** The records visited so far have been rewritten by f, the others are as they were. */
  ghost predicate MappedUpTo<V>(m: map<nat, V>, now: map<nat, V>, f: V -> V, done: seq<nat>) {
    now.Keys == m.Keys && forall k :: k in m ==> now[k] == if k in done then f(m[k]) else m[k]
  }

  lemma MapNext<V>(m: map<nat, V>, now: map<nat, V>, f: V -> V, i: nat)
    requires i < |Records(m)| && MappedUpTo(m, now, f, Ascending(m.Keys)[..i])
    ensures var x := Ascending(m.Keys)[i];
      && x in m && Records(m)[i] == m[x] && now[x] == m[x]
      && MappedUpTo(m, now[x := f(m[x])], f, Ascending(m.Keys)[..i + 1])
      && (f(m[x]) == m[x] ==> now == now[x := f(m[x])])
  {
    Visit(m, i);
    MapStep(m, now, f, Ascending(m.Keys)[..i], Ascending(m.Keys)[i]);
  }

  lemma MapStep<V>(m: map<nat, V>, now: map<nat, V>, f: V -> V, done: seq<nat>, x: nat)
    requires x in m && x !in done && MappedUpTo(m, now, f, done)
    ensures MappedUpTo(m, now[x := f(m[x])], f, done + [x])
    ensures now[x] == m[x]
  {
    var now' := now[x := f(m[x])];
    forall k | k in m ensures now'[k] == if k in done + [x] then f(m[k]) else m[k] {
      assert k in done + [x] <==> k in done || k == x;
    }
  }

  lemma MapDone<V>(m: map<nat, V>, now: map<nat, V>, f: V -> V)
    requires MappedUpTo(m, now, f, Ascending(m.Keys)[..|Ascending(m.Keys)|])
    ensures now == MapValues(m, f)
  {
    var ks := Ascending(m.Keys);
    assert ks[..|ks|] == ks;
    forall k | k in m ensures now[k] == f(m[k]) { assert k in ks; }
  }

  function Without<V>(m: map<nat, V>, ids: seq<nat>): map<nat, V> {
    map k | k in m && k !in ids :: m[k]
  }

  /** What is left when an organization's records are gone. */
  function Others<V>(m: map<nat, V>, mine: V -> bool): map<nat, V> {
    map k | k in m && !mine(m[k]) :: m[k]
  }

  /** The loop that removes what a facade's All returned, with the first `i` records gone. */
  ghost predicate Removing<V>(m: map<nat, V>, now: map<nat, V>, mine: V -> bool, idOf: V -> nat, vs: seq<V>, i: nat) {
    i <= |vs| && Selects(m, mine, Ids(vs, idOf), vs) && now == Without(m, Ids(vs, idOf)[..i])
  }

  lemma RemovingStarts<V(!new)>(m: map<nat, V>, mine: V -> bool, idOf: V -> nat)
    requires forall k :: k in m ==> idOf(m[k]) == k
    ensures Removing(m, m, mine, idOf, Filter(Records(m), mine), 0)
  {
    Selected(m, mine, idOf);
    assert Without(m, []) == m;
  }

  lemma RemovingNext<V>(m: map<nat, V>, now: map<nat, V>, mine: V -> bool, idOf: V -> nat, vs: seq<V>, i: nat)
    requires i < |vs| && Removing(m, now, mine, idOf, vs, i)
    ensures idOf(vs[i]) in now && now[idOf(vs[i])] == vs[i]
    ensures Removing(m, now - {idOf(vs[i])}, mine, idOf, vs, i + 1)
  {
    var ids := Ids(vs, idOf);
    assert ids[..i + 1] == ids[..i] + [ids[i]];
  }

  lemma RemovingEnds<V>(m: map<nat, V>, now: map<nat, V>, mine: V -> bool, idOf: V -> nat, vs: seq<V>)
    requires Removing(m, now, mine, idOf, vs, |vs|)
    ensures now == Others(m, mine)
  {
    var ids := Ids(vs, idOf);
    assert ids[..|ids|] == ids;
  }
}
