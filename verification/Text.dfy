/** Decimal numerals as fmt.Sprintf("%d", n) prints them and their reader, strings.Join, and
    sort.Strings. */
module Text {

  predicate IsDigit(c: char) {
    '0' <= c <= '9'
  }

  function Digit(d: nat): char
    requires d < 10
  {
    ('0' as int + d) as char
  }

  function Value(c: char): nat
    requires IsDigit(c)
  {
    c as int - '0' as int
  }

  function Decimal(n: nat): (s: string)
    ensures |s| > 0 && forall c :: c in s ==> IsDigit(c)
  {
    if n < 10 then [Digit(n)] else Decimal(n / 10) + [Digit(n % 10)]
  }

  function ReadDecimal(s: string): nat
    requires forall c :: c in s ==> IsDigit(c)
  {
    if s == [] then 0 else ReadDecimal(s[..|s| - 1]) * 10 + Value(s[|s| - 1])
  }

  lemma {:induction false} DecimalRoundTrip(n: nat)
    ensures ReadDecimal(Decimal(n)) == n
  {
    var s := Decimal(n);
    if n < 10 {
      assert s[..|s| - 1] == [];
    } else {
      DecimalRoundTrip(n / 10);
      assert s[..|s| - 1] == Decimal(n / 10);
    }
  }

  lemma DecimalInjective(m: nat, n: nat)
    ensures Decimal(m) == Decimal(n) ==> m == n
  {
    DecimalRoundTrip(m);
    DecimalRoundTrip(n);
  }

  /** %d of a signed number. */
  function Signed(n: int): string {
    if n < 0 then "-" + Decimal(-n) else Decimal(n)
  }

  predicate IsSigned(s: string) {
    var t := if s != [] && s[0] == '-' then s[1..] else s;
    t != [] && forall c :: c in t ==> IsDigit(c)
  }

  function ReadSigned(s: string): int
    requires IsSigned(s)
  {
    if s[0] == '-' then 0 - ReadDecimal(s[1..]) else ReadDecimal(s)
  }

  lemma SignedRoundTrip(n: int)
    ensures IsSigned(Signed(n)) && ReadSigned(Signed(n)) == n
    ensures forall c :: c in Signed(n) ==> IsDigit(c) || c == '-'
  {
    if n < 0 {
      DecimalRoundTrip(-n);
      assert Signed(n)[1..] == Decimal(-n);
    } else {
      DecimalRoundTrip(n);
      assert Signed(n)[0] in Signed(n);
    }
  }

  // ---------------------------------------------------------------- strings.Join

  function Join(ss: seq<string>, sep: string): string {
    if ss == [] then "" else if |ss| == 1 then ss[0] else ss[0] + sep + Join(ss[1..], sep)
  }

  // ---------------------------------------------------------------- sort.Strings

  predicate AtMost(a: string, b: string) {
    a == [] || (b != [] && (a[0] < b[0] || (a[0] == b[0] && AtMost(a[1..], b[1..]))))
  }

  function Insert(s: string, ss: seq<string>): seq<string> {
    if ss == [] || AtMost(s, ss[0]) then [s] + ss else [ss[0]] + Insert(s, ss[1..])
  }

  function SortStrings(ss: seq<string>): seq<string> {
    if ss == [] then [] else Insert(ss[0], SortStrings(ss[1..]))
  }

  lemma {:induction false} AtMostTotal(a: string, b: string)
    ensures AtMost(a, b) || AtMost(b, a)
    ensures AtMost(a, b) && AtMost(b, a) ==> a == b
  {
    if a != [] && b != [] {
      AtMostTotal(a[1..], b[1..]);
      assert a == [a[0]] + a[1..] && b == [b[0]] + b[1..];
    }
  }

  lemma {:induction false} AtMostTransitive(a: string, b: string, c: string)
    requires AtMost(a, b) && AtMost(b, c)
    ensures AtMost(a, c)
  {
    if a != [] && a[0] == b[0] && b[0] == c[0] { AtMostTransitive(a[1..], b[1..], c[1..]); }
  }

  ghost predicate Ordered(ss: seq<string>) {
    |ss| > 1 ==> AtMost(ss[0], ss[1]) && Ordered(ss[1..])
  }

  lemma {:induction false} InsertOrdered(s: string, ss: seq<string>)
    requires Ordered(ss)
    ensures Ordered(Insert(s, ss))
    ensures multiset(Insert(s, ss)) == multiset{s} + multiset(ss)
  {
    if ss == [] || AtMost(s, ss[0]) {
      assert ([s] + ss)[1..] == ss;
    } else {
      var rest := Insert(s, ss[1..]);
      InsertOrdered(s, ss[1..]);
      AtMostTotal(s, ss[0]);
      assert ss == [ss[0]] + ss[1..] && ([ss[0]] + rest)[1..] == rest;
    }
  }

  lemma {:induction false} SortIsOrdered(ss: seq<string>)
    ensures Ordered(SortStrings(ss)) && multiset(SortStrings(ss)) == multiset(ss)
  {
    if ss != [] {
      SortIsOrdered(ss[1..]);
      InsertOrdered(ss[0], SortStrings(ss[1..]));
      assert ss == [ss[0]] + ss[1..];
    }
  }

  lemma {:induction false} InsertsCommute(a: string, b: string, ss: seq<string>)
    ensures Insert(a, Insert(b, ss)) == Insert(b, Insert(a, ss))
  {
    AtMostTotal(a, b);
    if ss == [] {
    } else if AtMost(a, ss[0]) {
      if AtMost(b, a) { AtMostTransitive(b, a, ss[0]); }
      assert ([a] + ss)[1..] == ss && ([b] + ss)[1..] == ss;
    } else if AtMost(b, ss[0]) {
      if AtMost(a, b) { AtMostTransitive(a, b, ss[0]); }
      assert ([b] + ss)[1..] == ss;
    } else {
      InsertsCommute(a, b, ss[1..]);
      assert ([ss[0]] + Insert(a, ss[1..]))[1..] == Insert(a, ss[1..]);
      assert ([ss[0]] + Insert(b, ss[1..]))[1..] == Insert(b, ss[1..]);
    }
  }

  // ---------------------------------------------------------------- texts of keys, sorted

  function Map<K>(ks: seq<K>, f: K -> string): seq<string> {
    if ks == [] then [] else [f(ks[0])] + Map(ks[1..], f)
  }

  /** Any key may be taken out and put back last. */
  lemma {:induction false} SortTakesOut<K>(ks: seq<K>, i: nat, f: K -> string)
    requires i < |ks|
    ensures SortStrings(Map(ks, f)) == Insert(f(ks[i]), SortStrings(Map(ks[..i] + ks[i + 1..], f)))
  {
    var rest := ks[..i] + ks[i + 1..];
    if i == 0 {
      assert rest == ks[1..];
    } else {
      assert rest[0] == ks[0] && rest[1..] == ks[1..][..i - 1] + ks[1..][i..];
      SortTakesOut(ks[1..], i - 1, f);
      InsertsCommute(f(ks[0]), f(ks[i]), SortStrings(Map(rest[1..], f)));
    }
  }

  /** What is sorted does not depend on the order in which it was gathered. */
  lemma {:induction false} SortForgetsOrder<K>(a: seq<K>, b: seq<K>, f: K -> string)
    requires multiset(a) == multiset(b)
    ensures SortStrings(Map(a, f)) == SortStrings(Map(b, f))
  {
    if a == [] {
      assert |b| == |multiset(b)| == |multiset(a)| == 0;
    } else {
      assert a[0] in multiset(b);
      var i :| 0 <= i < |b| && b[i] == a[0];
      TakenOut(a, b, i);
      SortForgetsOrder(a[1..], b[..i] + b[i + 1..], f);
      SortTakesOut(b, i, f);
    }
  }

  lemma TakenOut<K>(a: seq<K>, b: seq<K>, i: nat)
    requires multiset(a) == multiset(b) && a != [] && i < |b| && b[i] == a[0]
    ensures multiset(a[1..]) == multiset(b[..i] + b[i + 1..])
  {
    assert a == [a[0]] + a[1..] && b == b[..i] + ([b[i]] + b[i + 1..]);
    assert multiset(a) == multiset{a[0]} + multiset(a[1..]);
    assert multiset(b) == multiset{a[0]} + multiset(b[..i] + b[i + 1..]);
    assert multiset(a[1..]) == multiset(a) - multiset{a[0]};
  }

  function InsertBy<K>(k: K, ks: seq<K>, f: K -> string): seq<K> {
    if ks == [] || AtMost(f(k), f(ks[0])) then [k] + ks else [ks[0]] + InsertBy(k, ks[1..], f)
  }

  function SortBy<K>(ks: seq<K>, f: K -> string): seq<K> {
    if ks == [] then [] else InsertBy(ks[0], SortBy(ks[1..], f), f)
  }

  lemma {:induction false} InsertByMap<K>(k: K, ks: seq<K>, f: K -> string)
    ensures Map(InsertBy(k, ks, f), f) == Insert(f(k), Map(ks, f))
    ensures multiset(InsertBy(k, ks, f)) == multiset{k} + multiset(ks)
  {
    if ks != [] && !AtMost(f(k), f(ks[0])) {
      InsertByMap(k, ks[1..], f);
      var r := InsertBy(k, ks[1..], f);
      assert ([ks[0]] + r)[1..] == r && ks == [ks[0]] + ks[1..];
    } else {
      assert ([k] + ks)[1..] == ks;
    }
  }

  /** Sorting the texts of some keys is the text of the keys in another order. */
  lemma {:induction false} SortByMap<K>(ks: seq<K>, f: K -> string)
    ensures Map(SortBy(ks, f), f) == SortStrings(Map(ks, f))
    ensures multiset(SortBy(ks, f)) == multiset(ks)
  {
    if ks != [] {
      SortByMap(ks[1..], f);
      InsertByMap(ks[0], SortBy(ks[1..], f), f);
      assert ks == [ks[0]] + ks[1..];
    }
  }
  lemma MapPush<K>(ks: seq<K>, k: K, f: K -> string)
    ensures Map(ks + [k], f) == Map(ks, f) + [f(k)]
  {
    if ks == [] {
      assert ks + [k] == [k];
    } else {
      assert (ks + [k])[1..] == ks[1..] + [k];
    }
  }

  // ---------------------------------------------------------------- ranging over a map

  /** An order in which Go may range over the keys of a map: every key once. */
  ghost predicate Ranges<K>(order: seq<K>, keys: set<K>) {
    if order == [] then keys == {}
    else
      var n := |order| - 1;
      order[n] in keys && Ranges(order[..n], keys - {order[n]})
  }

  lemma {:induction false} RangesOnce<K>(order: seq<K>, keys: set<K>)
    requires Ranges(order, keys)
    ensures multiset(order) == multiset(keys)
  {
    if order != [] {
      var n := |order| - 1;
      RangesOnce(order[..n], keys - {order[n]});
      assert order == order[..n] + [order[n]];
    }
  }

  lemma RangesPush<K>(order: seq<K>, done: set<K>, k: K)
    requires Ranges(order, done) && k !in done
    ensures Ranges(order + [k], done + {k})
  {
    assert (order + [k])[..|order|] == order && done + {k} - {k} == done;
  }

  /** There is one. */
  ghost function AnOrder<K>(keys: set<K>): (order: seq<K>)
    ensures Ranges(order, keys)
    decreases |keys|
  {
    if keys == {} then []
    else
      var k :| k in keys;
      var order := AnOrder(keys - {k});
      assert (order + [k])[..|order|] == order;
      order + [k]
  }

  /** Sorted texts of the keys: the same for every order. */
  lemma OneSorting<K>(order: seq<K>, other: seq<K>, keys: set<K>, f: K -> string)
    requires Ranges(order, keys) && Ranges(other, keys)
    ensures SortStrings(Map(order, f)) == SortStrings(Map(other, f))
    ensures |order| == |other|
  {
    RangesOnce(order, keys);
    RangesOnce(other, keys);
    SortForgetsOrder(order, other, f);
    assert |order| == |multiset(order)| == |multiset(other)| == |other|;
  }

  /** The sorted texts are the texts of the keys in some order. */
  lemma SortedKeys<K>(order: seq<K>, keys: set<K>, f: K -> string) returns (sorted: seq<K>)
    requires Ranges(order, keys)
    ensures Map(sorted, f) == SortStrings(Map(order, f))
    ensures multiset(sorted) == multiset(keys) && |sorted| == |order|
    ensures forall k :: k in sorted <==> k in keys
    ensures order == [] <==> keys == {}
  {
    sorted := SortBy(order, f);
    RangesOnce(order, keys);
    SortByMap(order, f);
    forall k ensures k in sorted <==> k in keys { assert k in sorted <==> k in multiset(sorted); }
    assert |sorted| == |multiset(sorted)| == |order|;
    if order != [] { assert order[0] in multiset(order); }
  }

  /** The elements of a set, in an order that Go leaves open. */
  method Enumerate<T(==)>(s: set<T>) returns (order: seq<T>)
    ensures forall x :: x in order <==> x in s
  {
    order := [];
    var left := s;
    while left != {}
      invariant left <= s && forall x :: x in order <==> x in s - left
      decreases |left|
    {
      var x :| x in left;
      order, left := order + [x], left - {x};
    }
  }
}
