/** The lifetime of sessions (oauth2/cookies.go, oauth2/jwt.go): durations in nanoseconds, tokens
    whose claims hold whole seconds (sections 4.1.4 to 4.1.6 of RFC 7519). */
module Sessions {
  import opened Options

  const SECOND: nat := 1_000_000_000

  /** DefaultInactivityDuration. */
  const FIVE_MINUTES: nat := 300 * SECOND

  datatype Principal = Principal(subject: string, issuer: string, organization: string, group: string, issuedAt: int,
      expiresAt: int)

  /** Claims of zero are not written into a token. */
  datatype Claims = Claims(subject: string, issuer: string, organization: string, group: string, iat: int, nbf: int,
      exp: int)

  datatype Cookie = Cookie(lifespan: int, inactivity: int)

  /** time.Time.Unix: whole seconds, rounded down. */
  function Unix(t: int): int {
    t / SECOND
  }

  // ---------------------------------------------------------------- tokens

  function Create(p: Principal): Claims {
    Claims(p.subject, p.issuer, p.organization, p.group, Unix(p.issuedAt), Unix(p.issuedAt), Unix(p.expiresAt))
  }

  /** The claims of the standard, none of them required, and a subject. */
  predicate ClaimsValid(c: Claims, now: int) {
    && (c.exp == 0 || Unix(now) <= c.exp)
    && (c.iat == 0 || Unix(now) >= c.iat)
    && (c.nbf == 0 || Unix(now) >= c.nbf)
    && c.subject != ""
  }

  function ValidClaims(c: Claims, lifespan: int, now: int): Option<Principal> {
    if !ClaimsValid(c, now) then None
    else if lifespan > 0 && c.exp * SECOND - c.iat * SECOND > lifespan then None
    else Some(Principal(c.subject, c.issuer, c.organization, c.group, c.iat * SECOND, c.exp * SECOND))
  }

  function ExtendedPrincipal(p: Principal, now: int, extension: int): Principal {
    p.(expiresAt := now + extension)
  }

  // ---------------------------------------------------------------- cookies

  function CookieFor(lifespan: int): Cookie {
    Cookie(lifespan, if 0 < lifespan < FIVE_MINUTES then lifespan / 2 else FIVE_MINUTES)
  }

  function Validate(c: Cookie, token: Claims, now: int): Option<Principal> {
    ValidClaims(token, c.lifespan, now)
  }

  function Authorized(c: Cookie, p: Principal, now: int): Claims {
    Create(p.(issuedAt := now, expiresAt := now + c.inactivity))
  }

  function Extended(c: Cookie, p: Principal, now: int): Claims {
    Create(ExtendedPrincipal(p, now, c.inactivity))
  }

  // ---------------------------------------------------------------- sessions

  /** The token a browser holds and when it was last authorized. */
  datatype Session = Session(token: Claims, issued: int)

  /** A request validates the token at one moment and renews it at a later one: by extending it,
      or, when it switches the organization (server/me.go), by authorizing it anew. */
  datatype Event = Request(at: int, again: int) | Switch(at: int, again: int, organization: string)

  function Start(c: Cookie, p: Principal, now: int): Session {
    Session(Authorized(c, p, now), now)
  }

  predicate Accepts(c: Cookie, s: Session, now: int) {
    Validate(c, s.token, now).Some?
  }

  function Step(c: Cookie, s: Session, e: Event): Session {
    var p := Validate(c, s.token, e.at);
    if p.None? then s
    else match e
      case Request(_, again) => Session(Extended(c, p.value, again), s.issued)
      case Switch(_, again, org) => Session(Authorized(c, p.value.(organization := org), again), again)
  }

  function Run(c: Cookie, s: Session, es: seq<Event>): Session {
    if es == [] then s else Step(c, Run(c, s, es[..|es| - 1]), es[|es| - 1])
  }

  /** Clocks are past the first second of 1970 and do not go back while a request is served. */
  predicate Timely(e: Event) {
    SECOND <= e.at <= e.again
  }

  ghost predicate Inv(c: Cookie, s: Session) {
    && s.issued >= SECOND && s.token.iat == s.token.nbf == Unix(s.issued)
    && s.token.exp > 0
  }

  lemma UnixMonotone(s: int, t: int)
    requires s <= t
    ensures Unix(s) <= Unix(t)
  {
  }

  lemma StepInv(c: Cookie, s: Session, e: Event)
    requires Inv(c, s) && Timely(e) && c.inactivity >= 0
    ensures Inv(c, Step(c, s, e))
  {
    UnixMonotone(SECOND, e.again);
    UnixMonotone(SECOND, e.again + c.inactivity);
  }

  lemma {:induction false} RunInv(c: Cookie, p: Principal, now: int, es: seq<Event>)
    requires now >= SECOND && c.inactivity >= 0 && forall e :: e in es ==> Timely(e)
    ensures Inv(c, Run(c, Start(c, p, now), es))
  {
    if es != [] {
      var n := |es| - 1;
      assert forall e :: e in es[..n] ==> e in es;
      RunInv(c, p, now, es[..n]);
      StepInv(c, Run(c, Start(c, p, now), es[..n]), es[n]);
    }
  }

  // ---------------------------------------------------------------- the end of a session

  /** However often a token is extended, it is not accepted later, in whole seconds, than the
      lifespan after its authorization; in nanoseconds it is less than a second more. */
  lemma NoLongerThanLifespan(c: Cookie, p: Principal, start: int, es: seq<Event>, now: int)
    requires start >= SECOND && c.inactivity >= 0 && forall e :: e in es ==> Timely(e)
    requires c.lifespan > 0 && Accepts(c, Run(c, Start(c, p, start), es), now)
    ensures var issued := Run(c, Start(c, p, start), es).issued;
      Unix(issued) <= Unix(now) && Unix(now) * SECOND <= Unix(issued) * SECOND + c.lifespan &&
        now < issued + c.lifespan + SECOND
  {
    RunInv(c, p, start, es);
  }

  /** The second is needed: a token issued at a whole second is accepted through the last one. */
  lemma LifespanOvershot(p: Principal)
    requires p.subject != ""
    ensures var c := CookieFor(2 * SECOND);
      var es := [Request(2 * SECOND, 2 * SECOND)];
      Accepts(c, Run(c, Start(c, p, SECOND), es), 3 * SECOND + SECOND - 1) &&
        3 * SECOND + SECOND - 1 > SECOND + c.lifespan
  {
    var c := CookieFor(2 * SECOND);
    var s := Start(c, p, SECOND);
    var e := Request(2 * SECOND, 2 * SECOND);
    assert s.token.iat == 1 && s.token.exp == 2;
    assert [e][..0] == [] && Run(c, s, []) == s;
    assert Step(c, s, e).token.exp == 3 && Step(c, s, e).token.iat == 1;
  }

  /** No request that switches the organization finds the session alive. */
  predicate NoSwitchAccepted(c: Cookie, s: Session, es: seq<Event>) {
    es == [] ||
    (NoSwitchAccepted(c, s, es[..|es| - 1])
     && (es[|es| - 1].Switch? ==> !Accepts(c, Run(c, s, es[..|es| - 1]), es[|es| - 1].at)))
  }

  /** As long as no switch is accepted the moment of authorization stays. */
  lemma {:induction false} IssuedKept(c: Cookie, s: Session, es: seq<Event>)
    requires NoSwitchAccepted(c, s, es)
    ensures Run(c, s, es).issued == s.issued
  {
    if es != [] { IssuedKept(c, s, es[..|es| - 1]); }
  }

  /** So without switches a session ends less than a second after its lifespan. */
  lemma EndsWithoutSwitches(c: Cookie, p: Principal, start: int, es: seq<Event>, now: int)
    requires start >= SECOND && c.inactivity >= 0 && (forall e :: e in es ==> Timely(e)) && c.lifespan > 0
    requires NoSwitchAccepted(c, Start(c, p, start), es) && Accepts(c, Run(c, Start(c, p, start), es), now)
    ensures now < start + c.lifespan + SECOND
  {
    IssuedKept(c, Start(c, p, start), es);
    NoLongerThanLifespan(c, p, start, es, now);
  }

  /** A token renewed at `again` is accepted at a later moment exactly when that moment is not past
      its expiry and the renewal left the expiry within the lifespan. */
  lemma RenewedAcceptedIff(c: Cookie, s: Session, e: Event, now: int)
    requires Inv(c, s) && Timely(e) && e.Request? && c.inactivity >= 0 && Accepts(c, s, e.at) && now >= e.again
    ensures Accepts(c, Step(c, s, e), now) <==>
      Unix(now) <= Unix(e.again + c.inactivity)
      && (c.lifespan > 0 ==> Unix(e.again + c.inactivity) * SECOND <= Unix(s.issued) * SECOND + c.lifespan)
  {
    StepInv(c, s, e);
    UnixMonotone(e.at, now);
  }

  // ---------------------------------------------------------------- staying in a session

  /** Requests one after the other, each within the expiry of the token before it, and each renewing
      early enough. */
  ghost predicate Active(c: Cookie, s: Session, es: seq<Event>) {
    forall i :: 0 <= i < |es| ==> ActiveAt(c, s, es, i)
  }

  predicate ActiveAt(c: Cookie, s: Session, es: seq<Event>, i: nat)
    requires i < |es|
  {
    && (forall j :: 0 <= j <= i ==> es[j].Request?) && Timely(es[i])
    && (if i == 0 then s.issued <= es[i].at && Unix(es[i].at) <= s.token.exp
        else es[i - 1].again <= es[i].at && Unix(es[i].at) <= Unix(es[i - 1].again + c.inactivity))
    && (c.lifespan > 0 ==> es[i].again <= Unix(s.issued) * SECOND + c.lifespan - c.inactivity)
  }

  lemma ActiveBefore(c: Cookie, s: Session, es: seq<Event>, n: nat)
    requires Active(c, s, es) && n <= |es|
    ensures Active(c, s, es[..n])
  {
    forall i | 0 <= i < n ensures ActiveAt(c, s, es[..n], i) { assert ActiveAt(c, s, es, i); }
  }

  lemma EarlyEnough(c: Cookie, issued: int, again: int)
    requires again <= Unix(issued) * SECOND + c.lifespan - c.inactivity
    ensures Unix(again + c.inactivity) * SECOND <= Unix(issued) * SECOND + c.lifespan
  {
  }

  /** An active session is accepted at each of its requests and after the last one until it expires. */
  lemma {:induction false} ActiveStaysAccepted(c: Cookie, s: Session, es: seq<Event>, now: int)
    requires Inv(c, s) && c.inactivity >= 0 && Accepts(c, s, s.issued) && Active(c, s, es)
    requires if es == [] then s.issued <= now && Unix(now) <= s.token.exp
      else es[|es| - 1].again <= now && Unix(now) <= Unix(es[|es| - 1].again + c.inactivity)
    ensures Inv(c, Run(c, s, es)) && Run(c, s, es).issued == s.issued
    ensures Accepts(c, Run(c, s, es), now)
  {
    if es == [] {
      UnixMonotone(s.issued, now);
    } else {
      var n := |es| - 1;
      var e := es[n];
      assert ActiveAt(c, s, es, n);
      ActiveBefore(c, s, es, n);
      ActiveStaysAccepted(c, s, es[..n], e.at);
      var before := Run(c, s, es[..n]);
      StepInv(c, before, e);
      if c.lifespan > 0 { EarlyEnough(c, s.issued, e.again); }
      RenewedAcceptedIff(c, before, e, now);
    }
  }

  // ---------------------------------------------------------------- fresh tokens

  /** A token is accepted in the moment it is authorized. */
  predicate FreshAccepted(lifespan: int, p: Principal, now: int) {
    Accepts(CookieFor(lifespan), Start(CookieFor(lifespan), p, now), now)
  }

  lemma FreshIsAccepted(lifespan: int, p: Principal, now: int)
    requires p.subject != "" && now >= SECOND && (lifespan <= 1 || lifespan >= SECOND)
    ensures FreshAccepted(lifespan, p, now)
  {
    var i := CookieFor(lifespan).inactivity;
    UnixMonotone(now, now + i);
  }

  /** Rounding down to seconds never takes a fresh token away, except for lifespans of less than a
      second, where it does so for some moment of authorization. */
  lemma FreshAlwaysAcceptedIff(lifespan: int, p: Principal)
    requires p.subject != ""
    ensures (forall now :: now >= SECOND ==> FreshAccepted(lifespan, p, now)) <==> lifespan <= 1 || lifespan >= SECOND
  {
    if lifespan <= 1 || lifespan >= SECOND {
      forall now | now >= SECOND ensures FreshAccepted(lifespan, p, now) { FreshIsAccepted(lifespan, p, now); }
    } else {
      var late := 2 * SECOND - 1;
      assert Unix(late) == 1 && Unix(late + lifespan / 2) == 2;
      assert !FreshAccepted(lifespan, p, late);
    }
  }

  // ---------------------------------------------------------------- to the nanosecond

  predicate OnlyRequests(es: seq<Event>) {
    forall e :: e in es ==> e.Request? && Timely(e)
  }

  /** After any chain of requests, nothing is accepted past the lifespan. */
  ghost predicate Within(lifespan: int, p: Principal, start: int) {
    var c := CookieFor(lifespan);
    forall es, now :: OnlyRequests(es) && Accepts(c, Run(c, Start(c, p, start), es), now) ==> now <= start + lifespan
  }

  lemma {:induction false} NoSwitch(c: Cookie, s: Session, es: seq<Event>)
    requires OnlyRequests(es)
    ensures NoSwitchAccepted(c, s, es)
  {
    if es != [] {
      var n := |es| - 1;
      assert es[n] in es && forall e :: e in es[..n] ==> e in es;
      NoSwitch(c, s, es[..n]);
    }
  }

  lemma WithinIf(lifespan: int, p: Principal, start: int)
    requires start >= SECOND && lifespan > 0 && start % SECOND + lifespan % SECOND >= SECOND - 1
    ensures Within(lifespan, p, start)
  {
    var c := CookieFor(lifespan);
    forall es, now | OnlyRequests(es) && Accepts(c, Run(c, Start(c, p, start), es), now)
      ensures now <= start + lifespan
    {
      NoSwitch(c, Start(c, p, start), es);
      IssuedKept(c, Start(c, p, start), es);
      NoLongerThanLifespan(c, p, start, es, now);
    }
  }

  /** A token that is refused when fresh is never accepted, so it is never renewed. */
  lemma {:induction false} RefusedForever(lifespan: int, p: Principal, start: int, es: seq<Event>, now: int)
    requires start >= SECOND && lifespan > 0 && p.subject != "" && !FreshAccepted(lifespan, p, start)
    ensures var c := CookieFor(lifespan); var s := Start(c, p, start); Run(c, s, es) == s && !Accepts(c, s, now)
  {
    UnixMonotone(start, start + CookieFor(lifespan).inactivity);
    if es != [] { RefusedForever(lifespan, p, start, es[..|es| - 1], es[|es| - 1].at); }
  }

  /** Last renewed at `last`, and accepted since. */
  ghost predicate Alive(c: Cookie, s: Session, last: int) {
    Inv(c, s) && s.issued <= last && s.token.exp == Unix(last + c.inactivity) && Accepts(c, s, last)
  }

  lemma OneRequest(c: Cookie, s: Session, last: int, t: int)
    requires Alive(c, s, last) && c.inactivity >= 0 && c.lifespan > 0
    requires last <= t <= last + c.inactivity && t <= Unix(s.issued) * SECOND + c.lifespan - c.inactivity
    ensures var s' := Step(c, s, Request(t, t)); Alive(c, s', t) && s'.issued == s.issued
  {
    UnixMonotone(last, t);
    UnixMonotone(t, last + c.inactivity);
    assert Accepts(c, s, t);
    StepInv(c, s, Request(t, t));
    EarlyEnough(c, s.issued, t);
    UnixMonotone(t, t + c.inactivity);
    RenewedAcceptedIff(c, s, Request(t, t), t);
  }

  /** A chain of requests, an inactivity period apart, up to `t`. */
  lemma {:induction false} KeepAlive(c: Cookie, s: Session, last: int, t: int) returns (es: seq<Event>)
    requires Alive(c, s, last) && c.inactivity > 0 && c.lifespan > 0
    requires last <= t <= Unix(s.issued) * SECOND + c.lifespan - c.inactivity
    ensures OnlyRequests(es) && Alive(c, Run(c, s, es), t) && Run(c, s, es).issued == s.issued
    decreases t - last
  {
    if t <= last + c.inactivity {
      OneRequest(c, s, last, t);
      es := [Request(t, t)];
      assert es[..0] == [] && Run(c, s, []) == s;
    } else {
      var before := KeepAlive(c, s, last, t - c.inactivity);
      OneRequest(c, Run(c, s, before), t - c.inactivity, t);
      es := before + [Request(t, t)];
      assert es[..|before|] == before;
    }
  }

  /** Some chain is accepted through the last second of the lifespan. */
  lemma LastSecond(lifespan: int, p: Principal, start: int) returns (es: seq<Event>)
    requires p.subject != "" && start >= SECOND && lifespan > 0 && FreshAccepted(lifespan, p, start)
    ensures var c := CookieFor(lifespan);
      && OnlyRequests(es)
      && Accepts(c, Run(c, Start(c, p, start), es), (Unix(start) + lifespan / SECOND) * SECOND + SECOND - 1)
  {
    var c := CookieFor(lifespan);
    var s := Start(c, p, start);
    var last := Unix(start) + lifespan / SECOND;
    var t := last * SECOND - c.inactivity;
    UnixMonotone(start, start + c.inactivity);
    es := [];
    if start < t { es := KeepAlive(c, s, start, t); }
    LastMoment(last);
    assert Run(c, s, es).token.exp == last;
  }

  lemma LastMoment(n: int)
    ensures Unix(n * SECOND) == n && Unix(n * SECOND + SECOND - 1) == n
  {
  }

  /** To the nanosecond: nothing is accepted past the lifespan, whatever the requests, exactly when
      the parts of a second in start and lifespan fill a second (or nothing is accepted at all). */
  lemma WithinLifespanIff(lifespan: int, p: Principal, start: int)
    requires p.subject != "" && start >= SECOND && lifespan > 0
    ensures Within(lifespan, p, start)
       <==> !FreshAccepted(lifespan, p, start) || start % SECOND + lifespan % SECOND >= SECOND - 1
    ensures lifespan >= SECOND ==> FreshAccepted(lifespan, p, start)
  {
    var c := CookieFor(lifespan);
    if lifespan >= SECOND { FreshIsAccepted(lifespan, p, start); }
    if !FreshAccepted(lifespan, p, start) {
      forall es, now ensures !Accepts(c, Run(c, Start(c, p, start), es), now) {
        RefusedForever(lifespan, p, start, es, now);
      }
    } else if start % SECOND + lifespan % SECOND >= SECOND - 1 {
      WithinIf(lifespan, p, start);
    } else {
      var es := LastSecond(lifespan, p, start);
      assert (Unix(start) + lifespan / SECOND) * SECOND + SECOND - 1 > start + lifespan;
    }
  }

  // ---------------------------------------------------------------- switching organizations

  /** `n` steps after the start. */
  function After(start: int, gap: int, n: nat): int {
    if n == 0 then start else After(start, gap, n - 1) + gap
  }

  lemma {:induction false} AfterIs(start: int, gap: int, n: nat)
    ensures After(start, gap, n) == start + n * gap
  {
    if n > 0 { AfterIs(start, gap, n - 1); }
  }

  function Switches(start: int, gap: int, n: nat, org: string): seq<Event> {
    if n == 0 then []
    else Switches(start, gap, n - 1, org) + [Switch(After(start, gap, n), After(start, gap, n), org)]
  }

  /** Fresh, and acceptable until the token expires. */
  ghost predicate Fresh(c: Cookie, s: Session) {
    Inv(c, s) && Accepts(c, s, s.issued) && s.token.exp == Unix(s.issued + c.inactivity)
  }

  lemma FreshStart(lifespan: int, p: Principal, now: int)
    requires p.subject != "" && now >= SECOND && (lifespan <= 1 || lifespan >= SECOND)
    ensures Fresh(CookieFor(lifespan), Start(CookieFor(lifespan), p, now))
  {
    FreshIsAccepted(lifespan, p, now);
  }

  lemma OneSwitch(lifespan: int, s: Session, now: int, org: string)
    requires (lifespan <= 1 || lifespan >= SECOND) && Fresh(CookieFor(lifespan), s)
    requires now == s.issued + CookieFor(lifespan).inactivity
    ensures var s' := Step(CookieFor(lifespan), s, Switch(now, now, org));
      Fresh(CookieFor(lifespan), s') && s'.issued == now
  {
    var c := CookieFor(lifespan);
    UnixMonotone(s.issued, now);
    assert Accepts(c, s, now);
    FreshStart(lifespan, Validate(c, s.token, now).value.(organization := org), now);
  }

  lemma {:induction false} SwitchingKeepsFresh(lifespan: int, p: Principal, start: int, n: nat, org: string)
    requires p.subject != "" && start >= SECOND && (lifespan <= 1 || lifespan >= SECOND)
    ensures var c := CookieFor(lifespan);
      var s := Run(c, Start(c, p, start), Switches(start, c.inactivity, n, org));
      Fresh(c, s) && s.issued == After(start, c.inactivity, n)
  {
    var c := CookieFor(lifespan);
    if n == 0 {
      FreshStart(lifespan, p, start);
    } else {
      SwitchesLength(start, c.inactivity, n - 1, org);
      SwitchingKeepsFresh(lifespan, p, start, n - 1, org);
      var first := Switches(start, c.inactivity, n - 1, org);
      var now := After(start, c.inactivity, n);
      assert (first + [Switch(now, now, org)])[..n - 1] == first;
      OneSwitch(lifespan, Run(c, Start(c, p, start), first), now, org);
    }
  }

  /** Switching organizations authorizes anew, so by switching often enough a session can be kept
      beyond its lifespan and beyond any other moment. */
  lemma SwitchingOutlivesLifespan(lifespan: int, p: Principal, start: int, org: string, beyond: int)
    returns (es: seq<Event>, now: int)
    requires p.subject != "" && start >= SECOND && lifespan >= SECOND
    ensures now > beyond && now > start + lifespan
    ensures Accepts(CookieFor(lifespan), Run(CookieFor(lifespan), Start(CookieFor(lifespan), p, start), es), now)
  {
    var i := CookieFor(lifespan).inactivity;
    var n := lifespan + (if beyond > 0 then beyond else 0) + 1;
    SwitchingKeepsFresh(lifespan, p, start, n, org);
    AfterIs(start, i, n);
    Product(n, i);
    es, now := Switches(start, i, n, org), After(start, i, n);
  }

  lemma Product(n: nat, i: int)
    requires i >= 1
    ensures n * i >= n
  {
  }

  lemma {:induction false} SwitchesLength(start: int, gap: int, n: nat, org: string)
    ensures |Switches(start, gap, n, org)| == n
  {
    if n > 0 { SwitchesLength(start, gap, n - 1, org); }
  }

  // ---------------------------------------------------------------- the cookie authenticator

  /** Half of a lifespan of less than five minutes, so that it is never longer than the lifespan:
      fresh tokens of the cookie are accepted but for lifespans of less than a second. */
  method NewCookieJWT(lifespan: int) returns (c: Cookie)
    ensures c.lifespan == lifespan && 0 <= c.inactivity <= FIVE_MINUTES
    ensures lifespan > 0 ==> c.inactivity <= lifespan
    ensures c.inactivity < FIVE_MINUTES ==> c.inactivity * 2 <= lifespan <= c.inactivity * 2 + 1
    ensures (forall p: Principal, now :: p.subject != "" && now >= SECOND ==> Accepts(c, Start(c, p, now), now))
       <==> lifespan <= 1 || lifespan >= SECOND
  {
    var inactivity := FIVE_MINUTES;
    if lifespan > 0 && inactivity > lifespan {
      inactivity := lifespan / 2;
    }
    c := Cookie(lifespan, inactivity);
    assert c == CookieFor(lifespan);
    AllFreshAcceptedIff(lifespan);
  }

  lemma AllFreshAcceptedIff(lifespan: int)
    ensures var c := CookieFor(lifespan);
      (forall p: Principal, now :: p.subject != "" && now >= SECOND ==> Accepts(c, Start(c, p, now), now))
      <==> lifespan <= 1 || lifespan >= SECOND
  {
    var c := CookieFor(lifespan);
    var someone := Principal("x", "", "", "", 0, 0);
    if forall p: Principal, now :: p.subject != "" && now >= SECOND ==> Accepts(c, Start(c, p, now), now) {
      forall now | now >= SECOND
        ensures FreshAccepted(lifespan, someone, now)
      {
        assert Accepts(c, Start(c, someone, now), now);
      }
    }
    FreshAlwaysAcceptedIff(lifespan, someone);
    forall p: Principal, now: int | p.subject != "" && now >= SECOND && (lifespan <= 1 || lifespan >= SECOND)
      ensures Accepts(c, Start(c, p, now), now)
    {
      FreshIsAccepted(lifespan, p, now);
    }
  }

  /** Who the token was made for. */
  predicate SameIdentity(p: Principal, q: Principal) {
    p.subject == q.subject && p.issuer == q.issuer && p.organization == q.organization && p.group == q.group
  }

  /** What validating a token gives back while it is accepted: the principal it was made for, from
      the second of its issue to that of its expiry. */
  ghost predicate ValidatesAs(c: Cookie, token: Claims, p: Principal, issued: int, expires: int) {
    forall t :: t >= expires - c.inactivity ==>
      var v := Validate(c, token, t);
      && (v.Some? ==> SameIdentity(v.value, p) && v.value.issuedAt == Unix(issued) * SECOND)
      && (v.Some? <==> p.subject != "" && Unix(t) <= Unix(expires)
                       && (c.lifespan > 0 ==> Unix(expires) * SECOND - Unix(issued) * SECOND <= c.lifespan))
  }

  lemma CreateValidates(c: Cookie, p: Principal, now: int)
    requires p.expiresAt == now + c.inactivity
    ensures SECOND <= p.issuedAt <= now && c.inactivity >= 0 ==> ValidatesAs(c, Create(p), p, p.issuedAt, p.expiresAt)
  {
    if SECOND <= p.issuedAt <= now && c.inactivity >= 0 {
      UnixMonotone(SECOND, p.issuedAt);
      UnixMonotone(p.issuedAt, p.expiresAt);
      forall t | t >= now ensures Unix(t) >= Unix(p.issuedAt) { UnixMonotone(p.issuedAt, t); }
    }
  }

  /** The token, and when the cookie around it expires unless it ends with the browser session. */
  method Authorize(c: Cookie, principal: Principal, now: int) returns (token: Claims, expires: Option<int>)
    ensures token == Start(c, principal, now).token
    ensures now >= SECOND && c.inactivity >= 0 ==> ValidatesAs(c, token, principal, now, now + c.inactivity)
    ensures expires == if c.lifespan > 0 then Some(now + c.lifespan) else None
  {
    var p := principal;
    p := p.(issuedAt := now);
    p := p.(expiresAt := now + c.inactivity);
    token := Create(p);
    CreateValidates(c, p, now);
    var exp := now + c.lifespan;
    expires := if c.lifespan > 0 then Some(exp) else None;
  }

  /** Extending a principal issued in a whole second, as validation gives them back, moves only the
      expiry; the cookie still expires a lifespan after the issue. */
  method Extend(c: Cookie, principal: Principal, now: int) returns (p: Principal, token: Claims, expires: Option<int>)
    ensures token == Extended(c, principal, now)
    ensures SameIdentity(p, principal) && p.issuedAt == principal.issuedAt && p.expiresAt == now + c.inactivity
    ensures SECOND <= principal.issuedAt <= now && c.inactivity >= 0 ==>
      ValidatesAs(c, token, principal, principal.issuedAt, now + c.inactivity)
    ensures expires == if c.lifespan > 0 then Some(principal.issuedAt + c.lifespan) else None
  {
    p := ExtendedPrincipal(principal, now, c.inactivity);
    token := Create(p);
    CreateValidates(c, p, now);
    var exp := p.issuedAt + c.lifespan;
    expires := if c.lifespan > 0 then Some(exp) else None;
  }
}
