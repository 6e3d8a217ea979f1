/** The placeholders of a query text (influx/query.go, Convert): `:interval:` and
    `:dashboardTime:` are replaced by text the parser understands and put back afterwards. */
module Placeholders {

  const INTERVAL := ":interval:"
  const INTERVAL_SENTINEL := "8675309ns"
  const DASHBOARD_TIME := ":dashboardTime:"
  const DASHBOARD_SENTINEL := "now() - 15m"

  predicate Starts(s: string, p: string) {
    |p| <= |s| && s[..|p|] == p
  }

  predicate Contains(s: string, p: string) {
    Starts(s, p) || (s != [] && Contains(s[1..], p))
  }

  /** strings.Replace with n = -1: every match, from the left, without overlaps. */
  function ReplaceAll(s: string, pat: string, sub: string): string
    requires pat != []
    decreases |s|
  {
    if s == [] then []
    else if Starts(s, pat) then sub + ReplaceAll(s[|pat|..], pat, sub)
    else [s[0]] + ReplaceAll(s[1..], pat, sub)
  }

  /** strings.Replace with n = 1: the first match. */
  function ReplaceFirst(s: string, pat: string, sub: string): string
    requires pat != []
    decreases |s|
  {
    if s == [] then []
    else if Starts(s, pat) then sub + s[|pat|..]
    else [s[0]] + ReplaceFirst(s[1..], pat, sub)
  }

  /** The part of a text before the first match. */
  function Before(s: string, p: string): string {
    if s == [] || Starts(s, p) then [] else [s[0]] + Before(s[1..], p)
  }

  /** The raw text Convert reports: substituted, parsed, and restored. */
  method RawText(influxQL: string) returns (parsed: string, raw: string)
    ensures parsed == Substituted(influxQL) && !Contains(parsed, INTERVAL)
    ensures raw == Restored(influxQL)
  {
    var itsDashboardTime, intervalTime := false, false;
    raw := influxQL;
    if Contains(raw, INTERVAL) {
      raw := ReplaceAll(raw, INTERVAL, INTERVAL_SENTINEL);
      intervalTime := true;
    }
    if Contains(raw, DASHBOARD_TIME) {
      raw := ReplaceFirst(raw, DASHBOARD_TIME, DASHBOARD_SENTINEL);
      itsDashboardTime := true;
    }
    parsed := raw;
    NoIntervalLeft(influxQL);
    if itsDashboardTime {
      raw := ReplaceFirst(raw, DASHBOARD_SENTINEL, DASHBOARD_TIME);
    }
    if intervalTime {
      raw := ReplaceAll(raw, INTERVAL_SENTINEL, INTERVAL);
    }
  }

  function WithInterval(s: string): string {
    if Contains(s, INTERVAL) then ReplaceAll(s, INTERVAL, INTERVAL_SENTINEL) else s
  }

  function WithDashboard(s: string): string {
    if Contains(s, DASHBOARD_TIME) then ReplaceFirst(s, DASHBOARD_TIME, DASHBOARD_SENTINEL) else s
  }

  function Substituted(s: string): string {
    WithDashboard(WithInterval(s))
  }

  function DashboardRestored(s: string): string {
    if Contains(s, DASHBOARD_TIME) then ReplaceFirst(WithDashboard(s), DASHBOARD_SENTINEL, DASHBOARD_TIME) else s
  }

  function Restored(s: string): string {
    var t := DashboardRestored(WithInterval(s));
    if Contains(s, INTERVAL) then ReplaceAll(t, INTERVAL_SENTINEL, INTERVAL) else t
  }

  // ---------------------------------------------------------------- sentinels

  /** The first character occurs nowhere else, so two matches cannot overlap. */
  ghost predicate HeadOnce(p: string) {
    p != [] && forall j :: 1 <= j < |p| ==> p[j] != p[0]
  }

  /** No match of d can begin inside an inserted q or have a q begin inside it. */
  ghost predicate Apart(q: string, d: string) {
    && (forall j :: 0 <= j < |d| && q != [] ==> d[j] != q[0])
    && (forall j :: 0 <= j < |q| ==> !Starts(q[j..], d) && !Starts(d, q[j..]))
  }

  lemma Differ(s: string, p: string, i: nat)
    requires i < |s| && i < |p| && s[i] != p[i]
    ensures !Starts(s, p)
  {
    assert |p| <= |s| ==> s[..|p|][i] == s[i];
  }

  lemma StartsTail(s: string, p: string)
    requires s != [] && p != []
    ensures Starts(s, p) <==> s[0] == p[0] && Starts(s[1..], p[1..])
  {
    if s[0] == p[0] && Starts(s[1..], p[1..]) {
      assert s[..|p|] == [s[0]] + s[1..][..|p| - 1];
      assert p == [p[0]] + p[1..];
    }
    if Starts(s, p) {
      assert s[0] == s[..|p|][0];
      assert s[1..][..|p| - 1] == s[..|p|][1..];
    }
  }

  /** What a tail of the sentinel meets in a substituted text, it meets in the text. */
  lemma {:induction false} TailInReplaced(t: string, pat: string, q: string, j: nat)
    requires pat != [] && HeadOnce(q) && 1 <= j <= |q| && Starts(ReplaceAll(t, pat, q), q[j..])
    ensures Starts(t, q[j..])
    decreases |t|
  {
    var r := ReplaceAll(t, pat, q);
    if j < |q| && t != [] {
      StartsTail(r, q[j..]);
      if !Starts(t, pat) {
        StartsTail(t, q[j..]);
        assert r[1..] == ReplaceAll(t[1..], pat, q) && q[j..][1..] == q[j + 1..];
        TailInReplaced(t[1..], pat, q, j + 1);
      }
    }
  }

  /** A text without the sentinel is restored. */
  lemma {:induction false} AllRestored(t: string, pat: string, q: string)
    requires pat != [] && HeadOnce(q) && !Contains(t, q)
    ensures ReplaceAll(ReplaceAll(t, pat, q), q, pat) == t
    decreases |t|
  {
    if t != [] {
      var r := ReplaceAll(t, pat, q);
      if Starts(t, pat) {
        NotContainedInSuffix(t, q, |pat|);
        AllRestored(t[|pat|..], pat, q);
        assert r[..|q|] == q && r[|q|..] == ReplaceAll(t[|pat|..], pat, q);
        assert t == pat + t[|pat|..];
      } else {
        AllRestored(t[1..], pat, q);
        assert r[0] == t[0] && r[1..] == ReplaceAll(t[1..], pat, q);
        if Starts(r, q) {
          StartsTail(r, q);
          TailInReplaced(t[1..], pat, q, 1);
          StartsTail(t, q);
        }
      }
    }
  }

  lemma {:induction false} NotContainedInSuffix(t: string, q: string, n: nat)
    requires n <= |t| && !Contains(t, q)
    ensures !Contains(t[n..], q)
  {
    if n > 0 {
      NotContainedInSuffix(t[1..], q, n - 1);
      assert t[n..] == t[1..][n - 1..];
    }
  }

  /** Replacing shorter text by longer: every sentinel the text had of its own makes what comes
      back longer, when placeholder and sentinel cannot overlap. */
  lemma {:induction false} ComesBackLonger(t: string, pat: string, q: string)
    requires |pat| > |q| && HeadOnce(q)
    requires forall j :: 0 <= j < |pat| ==> pat[j] != q[0]
    requires forall j :: 0 <= j < |q| ==> q[j] != pat[0]
    ensures var back := ReplaceAll(ReplaceAll(t, pat, q), q, pat);
      |back| >= |t| && (Contains(t, q) ==> |back| > |t|)
    decreases |t|
  {
    var r := ReplaceAll(t, pat, q);
    if t == [] {
    } else if Starts(t, pat) {
      if Contains(t, q) { SkipToMatch(t, q, pat); }
      ComesBackLonger(t[|pat|..], pat, q);
      assert r[..|q|] == q && r[|q|..] == ReplaceAll(t[|pat|..], pat, q);
    } else if Starts(t, q) {
      assert t == q + t[|q|..];
      CopyOver(q, t[|q|..], pat, q);
      ComesBackLonger(t[|q|..], pat, q);
      assert r[..|q|] == q && r[|q|..] == ReplaceAll(t[|q|..], pat, q);
    } else {
      ComesBackLonger(t[1..], pat, q);
      assert r[0] == t[0] && r[1..] == ReplaceAll(t[1..], pat, q);
      if Starts(r, q) {
        StartsTail(r, q);
        TailInReplaced(t[1..], pat, q, 1);
        StartsTail(t, q);
      }
    }
  }

  /** The sentinel does not begin inside a placeholder, so a later match is after it. */
  lemma {:induction false} SkipToMatch(t: string, q: string, p: string)
    requires Starts(t, p) && Contains(t, q) && q != [] && forall j :: 0 <= j < |p| ==> p[j] != q[0]
    ensures Contains(t[|p|..], q)
  {
    if p != [] {
      StartsTail(t, p);
      if Starts(t, q) { StartsTail(t, q); }
      SkipToMatch(t[1..], q, p[1..]);
      assert t[1..][|p[1..]|..] == t[|p|..];
    }
  }

  /** Text in which the placeholder's first character does not occur is copied. */
  lemma {:induction false} CopyOver(a: string, b: string, pat: string, sub: string)
    requires pat != [] && forall j :: 0 <= j < |a| ==> a[j] != pat[0]
    ensures ReplaceAll(a + b, pat, sub) == a + ReplaceAll(b, pat, sub)
  {
    if a == [] {
      assert a + b == b;
    } else {
      if Starts(a + b, pat) { StartsTail(a + b, pat); }
      assert (a + b)[1..] == a[1..] + b;
      CopyOver(a[1..], b, pat, sub);
      assert [a[0]] + (a[1..] + ReplaceAll(b, pat, sub)) == a + ReplaceAll(b, pat, sub);
    }
  }

  // ---------------------------------------------------------------- the first match

  lemma {:induction false} FirstSplit(t: string, p: string, sub: string)
    requires p != []
    ensures var b := Before(t, p);
      if Contains(t, p)
      then |b| + |p| <= |t| && t == b + p + t[|b| + |p|..] && ReplaceFirst(t, p, sub) == b + sub + t[|b| + |p|..]
      else b == t && ReplaceFirst(t, p, sub) == t
    decreases |t|
  {
    if t != [] {
      if Starts(t, p) {
        assert t == p + t[|p|..] && [] + p == p && [] + sub == sub;
      } else {
        FirstSplit(t[1..], p, sub);
        var b := Before(t[1..], p);
        assert t == [t[0]] + t[1..];
        if Contains(t, p) {
          var rest := t[|b| + 1 + |p|..];
          assert t[1..][|b| + |p|..] == rest;
          Prepended(t[0], b, p, rest);
          Prepended(t[0], b, sub, rest);
        }
      }
    }
  }

  lemma Prepended(c: char, b: string, m: string, rest: string)
    ensures [c] + (b + m + rest) == ([c] + b) + m + rest
  {
  }

  /** In b + q + rest the first match of q is the one shown, unless b has one. */
  lemma {:induction false} FirstIsShown(b: string, q: string, rest: string)
    requires HeadOnce(q)
    ensures Contains(b, q) <==> Before(b + q + rest, q) != b
    ensures Contains(b + q + rest, q)
  {
    var s := b + q + rest;
    if b == [] {
      assert s == q + rest && s[..|q|] == q;
    } else {
      assert s[1..] == b[1..] + q + rest;
      FirstIsShown(b[1..], q, rest);
      if |b| < |q| { Differ(s, q, |b|); }
      if |q| <= |b| { assert s[..|q|] == b[..|q|]; }
      assert Before(s, q) == if Starts(s, q) then [] else [b[0]] + Before(s[1..], q);
    }
  }

  lemma {:induction false} EarlierMatch(b: string, q: string, rest: string)
    requires HeadOnce(q) && Contains(b, q)
    ensures var c := Before(b + q + rest, q); |c| < |b| && b[|c|] == q[0]
  {
    var s := b + q + rest;
    if Starts(b, q) {
      assert s[..|q|] == b[..|q|];
      assert b[0] == b[..|q|][0];
    } else {
      assert s[1..] == b[1..] + q + rest;
      EarlierMatch(b[1..], q, rest);
      if Starts(s, q) { StartsTail(s, q); }
    }
  }

  /** Replacing the first p by q and the first q by p. */
  lemma FirstRestoredIff(t: string, p: string, q: string)
    requires p != [] && q != [] && p[0] != q[0] && HeadOnce(q) && Contains(t, p)
    ensures ReplaceFirst(ReplaceFirst(t, p, q), q, p) == t <==> !Contains(Before(t, p), q)
  {
    var b := Before(t, p);
    FirstSplit(t, p, q);
    var rest := t[|b| + |p|..];
    var s := b + q + rest;
    FirstIsShown(b, q, rest);
    FirstSplit(s, q, p);
    if Before(s, q) == b {
      assert s[|b| + |q|..] == rest;
    } else {
      var c := Before(s, q);
      EarlierMatch(b, q, rest);
      assert ReplaceFirst(s, q, p)[|c|] == p[0];
      assert t[|c|] == b[|c|] == s[|c|] == q[0];
    }
  }

  /** The dashboard time is restored exactly when its sentinel does not stand before it. */
  lemma DashboardRestoredIff(t: string)
    ensures DashboardRestored(t) == t <==>
      !(Contains(t, DASHBOARD_TIME) && Contains(Before(t, DASHBOARD_TIME), DASHBOARD_SENTINEL))
  {
    if Contains(t, DASHBOARD_TIME) {
      assert HeadOnce(DASHBOARD_SENTINEL);
      FirstRestoredIff(t, DASHBOARD_TIME, DASHBOARD_SENTINEL);
    }
  }

  /** Intervals are restored exactly when the text holds a placeholder or its sentinel, not both. */
  lemma IntervalRestoredIff(t: string)
    ensures (Contains(t, INTERVAL) ==> ReplaceAll(WithInterval(t), INTERVAL_SENTINEL, INTERVAL) == t)
       <==> !(Contains(t, INTERVAL) && Contains(t, INTERVAL_SENTINEL))
  {
    assert HeadOnce(INTERVAL_SENTINEL);
    if Contains(t, INTERVAL) {
      if Contains(t, INTERVAL_SENTINEL) {
        ComesBackLonger(t, INTERVAL, INTERVAL_SENTINEL);
      } else {
        AllRestored(t, INTERVAL, INTERVAL_SENTINEL);
      }
    }
  }

  // ---------------------------------------------------------------- both together

  lemma {:induction false} NoNewMatch(t: string, pat: string, q: string, d: string)
    requires pat != [] && q != [] && d != [] && Apart(q, d) && !Contains(t, d)
    ensures !Contains(ReplaceAll(t, pat, q), d)
    decreases |t|
  {
    var r := ReplaceAll(t, pat, q);
    if t == [] {
    } else if Starts(t, pat) {
      NotContainedInSuffix(t, d, |pat|);
      NoNewMatch(t[|pat|..], pat, q, d);
      AfterInserted(q, ReplaceAll(t[|pat|..], pat, q), d);
    } else {
      NoNewMatch(t[1..], pat, q, d);
      assert r[1..] == ReplaceAll(t[1..], pat, q);
      if Starts(r, d) { HeadInReplaced(t, pat, q, d, 0); }
    }
  }

  lemma {:induction false} AfterInserted(q: string, rest: string, d: string)
    requires d != [] && !Contains(rest, d) && forall j :: 0 <= j < |q| ==> !Starts(q[j..], d) && !Starts(d, q[j..])
    ensures !Contains(q + rest, d)
  {
    if q == [] {
      assert q + rest == rest;
    } else {
      assert (q + rest)[1..] == q[1..] + rest;
      forall j | 0 <= j < |q[1..]| ensures !Starts(q[1..][j..], d) && !Starts(d, q[1..][j..]) {
        assert q[1..][j..] == q[j + 1..];
      }
      AfterInserted(q[1..], rest, d);
      assert q[0..] == q;
      assert |d| <= |q| ==> q[..|d|] == (q + rest)[..|d|];
      assert |d| > |q| && |d| <= |q + rest| ==> (q + rest)[..|d|][..|q|] == q;
    }
  }

  lemma {:induction false} HeadInReplaced(t: string, pat: string, q: string, d: string, j: nat)
    requires pat != [] && j <= |d| && Apart(q, d) && Starts(ReplaceAll(t, pat, q), d[j..])
    requires q != []
    ensures Starts(t, d[j..])
    decreases |t|
  {
    var r := ReplaceAll(t, pat, q);
    if j < |d| && t != [] {
      StartsTail(r, d[j..]);
      if !Starts(t, pat) {
        StartsTail(t, d[j..]);
        assert r[1..] == ReplaceAll(t[1..], pat, q) && d[j..][1..] == d[j + 1..];
        HeadInReplaced(t[1..], pat, q, d, j + 1);
      }
    }
  }

  /** No placeholder stays, if none can begin in a sentinel or around one. */
  lemma {:induction false} NoneStays(t: string, pat: string, q: string)
    requires pat != [] && q != [] && Apart(q, pat)
    ensures !Contains(ReplaceAll(t, pat, q), pat)
    decreases |t|
  {
    var r := ReplaceAll(t, pat, q);
    if t == [] {
    } else if Starts(t, pat) {
      NoneStays(t[|pat|..], pat, q);
      AfterInserted(q, ReplaceAll(t[|pat|..], pat, q), pat);
    } else {
      NoneStays(t[1..], pat, q);
      assert r[1..] == ReplaceAll(t[1..], pat, q);
      if Starts(r, pat) { HeadInReplaced(t, pat, q, pat, 0); }
    }
  }

  /** Neither text is a beginning of the other. */
  predicate Unlike(s: string, t: string) {
    !Starts(s, t) && !Starts(t, s)
  }

  lemma UnlikeLonger(q: string, rest: string, d: string)
    requires Unlike(q, d)
    ensures !Starts(q + rest, d)
  {
    assert |d| <= |q| ==> (q + rest)[..|d|] == q[..|d|];
    assert |d| > |q| && |d| <= |q + rest| ==> (q + rest)[..|d|][..|q|] == q;
  }

  lemma {:induction false} HeadInFirst(t: string, pat: string, q: string, d: string, j: nat)
    requires pat != [] && j <= |d| && Starts(ReplaceFirst(t, pat, q), d[j..])
    requires forall i :: j <= i < |d| ==> Unlike(q, d[i..])
    ensures Starts(t, d[j..])
    decreases |t|
  {
    var r := ReplaceFirst(t, pat, q);
    if j < |d| && t != [] {
      if Starts(t, pat) {
        UnlikeLonger(q, t[|pat|..], d[j..]);
      } else {
        StartsTail(r, d[j..]);
        StartsTail(t, d[j..]);
        assert r[1..] == ReplaceFirst(t[1..], pat, q) && d[j..][1..] == d[j + 1..];
        HeadInFirst(t[1..], pat, q, d, j + 1);
      }
    }
  }

  /** Replacing the first match brings no d, if none can begin in the inserted text or run into it. */
  lemma {:induction false} NoneByFirst(t: string, pat: string, q: string, d: string)
    requires pat != [] && d != [] && !Contains(t, d)
    requires forall i :: 0 <= i < |d| ==> Unlike(q, d[i..])
    requires forall j :: 0 <= j < |q| ==> !Starts(q[j..], d) && !Starts(d, q[j..])
    ensures !Contains(ReplaceFirst(t, pat, q), d)
    decreases |t|
  {
    var r := ReplaceFirst(t, pat, q);
    if t == [] {
    } else if Starts(t, pat) {
      NotContainedInSuffix(t, d, |pat|);
      AfterInserted(q, t[|pat|..], d);
    } else {
      NoneByFirst(t[1..], pat, q, d);
      assert r[1..] == ReplaceFirst(t[1..], pat, q);
      if Starts(r, d) {
        assert d[0..] == d;
        HeadInFirst(t, pat, q, d, 0);
      }
    }
  }

  lemma IntervalApart()
    ensures Apart(INTERVAL_SENTINEL, INTERVAL)
    ensures forall i :: 0 <= i < |INTERVAL| ==> Unlike(DASHBOARD_SENTINEL, INTERVAL[i..])
    ensures forall j :: 0 <= j < |DASHBOARD_SENTINEL| ==>
      !Starts(DASHBOARD_SENTINEL[j..], INTERVAL) && !Starts(INTERVAL, DASHBOARD_SENTINEL[j..])
  {
    var p, q, d := INTERVAL, INTERVAL_SENTINEL, DASHBOARD_SENTINEL;
    forall j | 0 <= j < |q| ensures !Starts(q[j..], p) && !Starts(p, q[j..]) {
      Differ(q[j..], p, 0);
      Differ(p, q[j..], 0);
    }
    forall i | 0 <= i < |p| ensures Unlike(d, p[i..]) {
      var k := if i == 2 then 1 else 0;
      Differ(d, p[i..], k);
      Differ(p[i..], d, k);
    }
    forall j | 0 <= j < |d| ensures !Starts(d[j..], p) && !Starts(p, d[j..]) {
      Differ(d[j..], p, 0);
      Differ(p, d[j..], 0);
    }
  }

  /** The parser meets no interval placeholder. */
  lemma NoIntervalLeft(s: string)
    ensures !Contains(Substituted(s), INTERVAL)
  {
    var t := WithInterval(s);
    IntervalApart();
    if Contains(s, INTERVAL) { NoneStays(s, INTERVAL, INTERVAL_SENTINEL); }
    if Contains(t, DASHBOARD_TIME) { NoneByFirst(t, DASHBOARD_TIME, DASHBOARD_SENTINEL, INTERVAL); }
  }

  lemma SentinelsApart()
    ensures Apart(INTERVAL_SENTINEL, DASHBOARD_SENTINEL)
  {
    var q, d := INTERVAL_SENTINEL, DASHBOARD_SENTINEL;
    forall j | 0 <= j < |q| ensures !Starts(q[j..], d) && !Starts(d, q[j..]) {
      var i := if j == 7 then 1 else 0;
      Differ(q[j..], d, i);
      Differ(d, q[j..], i);
    }
  }

  /** Convert reports the text it was given whenever that holds neither sentinel. */
  lemma TextRestored(s: string)
    requires !Contains(s, INTERVAL_SENTINEL) && !Contains(s, DASHBOARD_SENTINEL)
    ensures Restored(s) == s
  {
    var t := WithInterval(s);
    if Contains(s, INTERVAL) {
      SentinelsApart();
      NoNewMatch(s, INTERVAL, INTERVAL_SENTINEL, DASHBOARD_SENTINEL);
    }
    if Contains(t, DASHBOARD_TIME) { PrefixLacks(t, DASHBOARD_TIME, DASHBOARD_SENTINEL); }
    DashboardRestoredIff(t);
    IntervalRestoredIff(s);
  }

  /** Replacing the first p by q and the first q by p exchanges the two if a q stood before. */
  lemma ExchangedParts(t: string, p: string, q: string) returns (c: string, x: string, r: string)
    requires p != [] && q != [] && Contains(t, p) && Contains(Before(t, p), q)
    ensures t == c + (q + (x + (p + r)))
    ensures ReplaceFirst(ReplaceFirst(t, p, q), q, p) == c + (p + (x + (q + r)))
  {
    var b := Before(t, p);
    FirstSplit(t, p, q);
    r := t[|b| + |p|..];
    FirstSplit(b, q, p);
    c := Before(b, q);
    x := b[|c| + |q|..];
    Nested(c, q, x, p, r);
    SecondReplaced(b, c, x, r, p, q);
  }

  lemma SecondReplaced(b: string, c: string, x: string, r: string, p: string, q: string)
    requires p != [] && q != [] && Contains(b, q) && c == Before(b, q) && b == c + q + x
    ensures ReplaceFirst(b + q + r, q, p) == c + (p + (x + (q + r)))
  {
    var rest := x + (q + r);
    var s := b + q + r;
    assert s == b + (q + r) == c + q + rest;
    BeforeSame(b, q + r, q);
    FirstSplit(s, q, p);
    assert s[|c| + |q|..] == rest;
    assert c + p + rest == c + (p + rest);
  }

  lemma Nested(c: string, q: string, x: string, p: string, r: string)
    ensures c + q + x + p + r == c + (q + (x + (p + r)))
  {
  }

  /** A text whose dashboard time is not restored comes back with the two exchanged. */
  lemma Exchanged(t: string) returns (c: string, x: string, r: string)
    requires DashboardRestored(t) != t
    ensures t == c + (DASHBOARD_SENTINEL + (x + (DASHBOARD_TIME + r)))
    ensures DashboardRestored(t) == c + (DASHBOARD_TIME + (x + (DASHBOARD_SENTINEL + r)))
  {
    DashboardRestoredIff(t);
    c, x, r := ExchangedParts(t, DASHBOARD_TIME, DASHBOARD_SENTINEL);
  }

  lemma {:induction false} BeforeSame(b: string, y: string, q: string)
    requires Contains(b, q) && q != []
    ensures Before(b + y, q) == Before(b, q)
  {
    if Starts(b, q) {
      assert (b + y)[..|q|] == b[..|q|];
    } else {
      assert (b + y)[1..] == b[1..] + y;
      BeforeSame(b[1..], y, q);
      if Starts(b + y, q) { StartsInside(b, y, q); }
    }
  }

  /** A match at the start of b + y is in b, if b has a later one that begins with the same character. */
  lemma StartsInside(b: string, y: string, q: string)
    requires Starts(b + y, q) && Contains(b, q)
    ensures Starts(b, q)
  {
    ContainsLonger(b, q);
    assert b == (b + y)[..|b|];
    assert (b + y)[..|q|] == b[..|q|];
  }

  lemma {:induction false} ContainsLonger(b: string, q: string)
    requires Contains(b, q)
    ensures |q| <= |b|
  {
    if !Starts(b, q) { ContainsLonger(b[1..], q); }
  }

  /** No match runs over the border before v. */
  lemma {:induction false} CutAt(c: string, v: string, q: string, sub: string)
    requires q != [] && forall j :: 1 <= j < |q| ==> !Starts(v, q[j..])
    ensures ReplaceAll(c + v, q, sub) == ReplaceAll(c, q, sub) + ReplaceAll(v, q, sub)
    decreases |c|
  {
    var s := c + v;
    if c == [] {
      assert s == v;
    } else {
      if Starts(s, q) && |c| < |q| { Straddles(c, v, q); }
      if Starts(s, q) {
        assert c[..|q|] == s[..|q|] && s[|q|..] == c[|q|..] + v;
        CutAt(c[|q|..], v, q, sub);
      } else {
        assert |q| <= |c| ==> c[..|q|] == s[..|q|];
        assert s[1..] == c[1..] + v;
        CutAt(c[1..], v, q, sub);
      }
    }
  }

  lemma Straddles(c: string, v: string, q: string)
    requires Starts(c + v, q) && |c| < |q|
    ensures Starts(v, q[|c|..])
  {
    assert v[..|q| - |c|] == (c + v)[..|q|][|c|..] == q[|c|..];
  }

  /** The second half of the restoration. */
  function Back(t: string): string {
    ReplaceAll(t, INTERVAL_SENTINEL, INTERVAL)
  }

  /** Neither dashboard text begins inside an interval sentinel, nor holds its first character. */
  lemma DashboardTextsCopied(c: string, d: string, rest: string)
    requires d == DASHBOARD_TIME || d == DASHBOARD_SENTINEL
    ensures Back(c + (d + rest)) == Back(c) + (d + Back(rest))
  {
    var q := INTERVAL_SENTINEL;
    forall j | 1 <= j < |q| ensures !Starts(d + rest, q[j..]) {
      Differ(d + rest, q[j..], if d == DASHBOARD_SENTINEL && j == 7 then 1 else 0);
    }
    CutAt(c, d + rest, q, INTERVAL);
    CopyOver(d, rest, q, INTERVAL);
  }

  /** Exchanging the two shows, in a text of the same length, whether or not sentinels of
      intervals are replaced afterwards. */
  lemma ExchangeShows(c: string, x: string, r: string)
    ensures var t := Back(c + (DASHBOARD_SENTINEL + (x + (DASHBOARD_TIME + r))));
      var d := Back(c + (DASHBOARD_TIME + (x + (DASHBOARD_SENTINEL + r))));
      |t| == |d| && t != d
  {
    var p, q := DASHBOARD_TIME, DASHBOARD_SENTINEL;
    DashboardTextsCopied(c, q, x + (p + r));
    DashboardTextsCopied(x, p, r);
    DashboardTextsCopied(c, p, x + (q + r));
    DashboardTextsCopied(x, q, r);
    assert (Back(c) + (q + Back(x + (p + r))))[|Back(c)|] == q[0];
    assert (Back(c) + (p + Back(x + (q + r))))[|Back(c)|] == p[0];
  }

  /** What the reported text needs: the given text does not hold both the interval placeholder and
      its sentinel, and the dashboard sentinel does not stand before the first dashboard time. */
  predicate Restorable(s: string) {
    var t := WithInterval(s);
    && !(Contains(s, INTERVAL) && Contains(s, INTERVAL_SENTINEL))
    && !(Contains(t, DASHBOARD_TIME) && Contains(Before(t, DASHBOARD_TIME), DASHBOARD_SENTINEL))
  }

  lemma IntervalsComeBack(s: string)
    requires Contains(s, INTERVAL)
    ensures Back(WithInterval(s)) == s || |Back(WithInterval(s))| > |s|
  {
    ComesBackLonger(s, INTERVAL, INTERVAL_SENTINEL);
    if !Contains(s, INTERVAL_SENTINEL) { AllRestored(s, INTERVAL, INTERVAL_SENTINEL); }
  }

  /** A dashboard time that is not restored shows, whatever happens to the intervals. */
  lemma ExchangedIsNotRestored(s: string)
    requires var t := WithInterval(s); DashboardRestored(t) != t
    ensures Restored(s) != s
  {
    var t := WithInterval(s);
    var c, x, r := Exchanged(t);
    ExchangeShows(c, x, r);
    if Contains(s, INTERVAL) { IntervalsComeBack(s); }
  }

  /** Convert reports the text it was given exactly when that is restorable. */
  lemma RestoredIff(s: string)
    ensures Restored(s) == s <==> Restorable(s)
  {
    var t := WithInterval(s);
    DashboardRestoredIff(t);
    if DashboardRestored(t) != t { ExchangedIsNotRestored(s); } else { IntervalRestoredIff(s); }
  }

  lemma {:induction false} PrefixLacks(t: string, p: string, d: string)
    requires !Contains(t, d) && d != []
    ensures !Contains(Before(t, p), d)
  {
    var b := Before(t, p);
    if t != [] && !Starts(t, p) {
      PrefixLacks(t[1..], p, d);
      assert b[1..] == Before(t[1..], p);
      BeforeIsPrefix(t, p);
      assert |d| <= |b| ==> b[..|d|] == t[..|d|];
    }
  }

  lemma {:induction false} BeforeIsPrefix(t: string, p: string)
    ensures |Before(t, p)| <= |t| && Before(t, p) == t[..|Before(t, p)|]
  {
    if t != [] && !Starts(t, p) {
      BeforeIsPrefix(t[1..], p);
      var b := Before(t[1..], p);
      assert t[..|b| + 1] == [t[0]] + t[1..][..|b|];
    }
  }
}
