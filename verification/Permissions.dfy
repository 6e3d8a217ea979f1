/** Permissions of InfluxDB users: comparing wanted and present permissions (influx/permissions.go)
    and bringing a user to the wanted ones with GRANT and REVOKE (influx/users.go). */
module Permissions {
  import opened Options
  import opened Text

  datatype Scope = AllScope | DBScope

  datatype Permission = Permission(scope: Scope, name: string, allowed: seq<string>)

  datatype Right = Read | Write

  const BOTH: set<Right> := {Read, Write}

  // ---------------------------------------------------------------- allowances

  /** The rights that a list of allowances names. */
  function Rights(allowed: seq<string>): set<Right> {
    (if "READ" in allowed || "ALL" in allowed then {Read} else {})
    + (if "WRITE" in allowed || "ALL" in allowed then {Write} else {})
  }

  function Priv(rights: set<Right>): string {
    if rights == BOTH then "ALL" else if rights == {Write} then "WRITE" else if rights == {Read} then "READ"
      else "NO PRIVILEGES"
  }

  /** What InfluxDB and the allowances alike mean by a name. */
  predicate Gives(name: string, r: Right) {
    name == "ALL" || (name == "READ" && r == Read) || (name == "WRITE" && r == Write)
  }

  /** One of the allowances gives the right. */
  predicate Allows(allowed: seq<string>, r: Right) {
    exists name :: name in allowed && Gives(name, r)
  }

  ghost predicate Exactly(rights: set<Right>, allowed: seq<string>) {
    forall r :: r in rights <==> Allows(allowed, r)
  }

  /** A list names the rights that one of its names gives, and an unknown name gives none. */
  lemma ExactlyIff(rights: set<Right>, allowed: seq<string>)
    ensures Exactly(Rights(allowed), allowed)
    ensures Exactly(rights, allowed) <==> rights == Rights(allowed)
  {
    forall r ensures r in Rights(allowed) <==> Allows(allowed, r) {
      assert r == Read || r == Write;
      assert Gives("ALL", r) && Gives("READ", Read) && Gives("WRITE", Write);
      if Allows(allowed, r) {
        var name :| name in allowed && Gives(name, r);
      }
    }
  }

  lemma RightsUnion(a: seq<string>, b: seq<string>)
    ensures Rights(a + b) == Rights(a) + Rights(b)
  {
  }

  /** The name of a privilege gives the rights it stands for. */
  lemma PrivGives(rights: set<Right>, r: Right)
    ensures Gives(Priv(rights), r) <==> r in rights
  {
    RightsAre(rights);
    assert r == Read || r == Write;
  }

  /** "ALL" is granted like reading and writing. */
  lemma AllIsReadAndWrite(scope: Scope, name: string)
    ensures Exactly(BOTH, ["ALL"]) && Exactly(BOTH, ["READ", "WRITE"])
    ensures ToGrant(Permission(scope, name, ["ALL"])) == ToGrant(Permission(scope, name, ["READ", "WRITE"]))
    ensures ToGrant(Permission(DBScope, name, ["ALL"])) == Grant(name, BOTH)
  {
    ExactlyIff(BOTH, ["ALL"]);
    ExactlyIff(BOTH, ["READ", "WRITE"]);
  }

  method ToPriv(a: seq<string>) returns (priv: string)
    ensures priv == Priv(Rights(a))
    ensures forall r :: Gives(priv, r) <==> Allows(a, r)
  {
    ghost var rights := Rights(a);
    ExactlyIff(rights, a);
    forall r ensures Gives(Priv(rights), r) <==> Allows(a, r) { PrivGives(rights, r); }
    if |a| == 0 { return "NO PRIVILEGES"; }
    var hasWrite, hasRead := false, false;
    for i := 0 to |a|
      invariant hasRead <==> "READ" in a[..i] || "ALL" in a[..i]
      invariant hasWrite <==> "WRITE" in a[..i] || "ALL" in a[..i]
    {
      assert a[..i + 1] == a[..i] + [a[i]];
      if a[i] == "READ" {
        hasRead := true;
      } else if a[i] == "WRITE" {
        hasWrite := true;
      } else if a[i] == "ALL" {
        hasRead, hasWrite := true, true;
      }
    }
    assert a[..|a|] == a;
    assert Rights(a) == (if hasRead then {Read} else {}) + (if hasWrite then {Write} else {});
    if hasWrite && hasRead { return "ALL"; }
    if hasWrite { return "WRITE"; }
    if hasRead { return "READ"; }
    return "NO PRIVILEGES";
  }

  // ---------------------------------------------------------------- the server

  /** An InfluxDB account: administrator or not, and its rights on databases. */
  datatype Account = Account(admin: bool, rights: map<string, set<Right>>) {
    function On(db: string): set<Right> {
      if db in rights then rights[db] else {}
    }
  }

  ghost predicate Same(a: Account, b: Account) {
    a.admin == b.admin && forall db :: a.On(db) == b.On(db)
  }

  /** GRANT replaces the rights on a database, REVOKE takes rights away from them. */
  datatype Command = Nothing | GrantAdmin | RevokeAdmin | Grant(db: string, rights: set<Right>)
      | Revoke(db: string, rights: set<Right>)

  function Apply(a: Account, c: Command): Account {
    match c
    case Nothing => a
    case GrantAdmin => a.(admin := true)
    case RevokeAdmin => a.(admin := false)
    case Grant(db, rights) => a.(rights := a.rights[db := rights])
    case Revoke(db, rights) => a.(rights := a.rights[db := a.On(db) - rights])
  }

  function Run(a: Account, cs: seq<Command>): Account {
    if cs == [] then a else Apply(Run(a, cs[..|cs| - 1]), cs[|cs| - 1])
  }

  function ToRevoke(p: Permission): Command {
    if p.scope == AllScope then RevokeAdmin
    else if |p.allowed| == 0 then Revoke(p.name, BOTH)
    else if Priv(Rights(p.allowed)) == "NO PRIVILEGES" then Nothing
    else Revoke(p.name, Rights(p.allowed))
  }

  function ToGrant(p: Permission): Command {
    if |p.allowed| == 0 then Nothing
    else if p.scope == AllScope then GrantAdmin
    else if Priv(Rights(p.allowed)) == "NO PRIVILEGES" then Nothing
    else Grant(p.name, Rights(p.allowed))
  }

  // ---------------------------------------------------------------- the difference

  predicate SameKey(p: Permission, q: Permission) {
    p.scope == q.scope && p.name == q.name
  }

  predicate Found(p: Permission, ps: seq<Permission>) {
    exists q :: q in ps && SameKey(p, q)
  }

  /** Wanted permissions, except those that ask for nothing on what is held. */
  function Added(wants: seq<Permission>, haves: seq<Permission>): seq<Permission> {
    if wants == [] then []
    else
      var n := |wants| - 1;
      Added(wants[..n], haves) + (if Found(wants[n], haves) && wants[n].allowed == [] then [] else [wants[n]])
  }

  function Emptied(wants: seq<Permission>, haves: seq<Permission>): seq<Permission> {
    if wants == [] then []
    else
      var n := |wants| - 1;
      Emptied(wants[..n], haves) + (if Found(wants[n], haves) && wants[n].allowed == [] then [wants[n]] else [])
  }

  function Unwanted(wants: seq<Permission>, haves: seq<Permission>): seq<Permission> {
    if haves == [] then []
    else
      var n := |haves| - 1;
      Unwanted(wants, haves[..n]) + (if Found(haves[n], wants) then [] else [haves[n]])
  }

  method Finds(p: Permission, ps: seq<Permission>) returns (found: bool)
    ensures found <==> Found(p, ps)
  {
    found := false;
    for i := 0 to |ps|
      invariant !found && forall j :: 0 <= j < i ==> !SameKey(p, ps[j])
    {
      if !SameKey(p, ps[i]) { continue; }
      found := true;
      break;
    }
  }

  method Difference(wants: seq<Permission>, haves: seq<Permission>)
    returns (revoke: seq<Permission>, add: seq<Permission>)
    ensures add == Added(wants, haves)
    ensures revoke == Emptied(wants, haves) + Unwanted(wants, haves)
  {
    revoke, add := [], [];
    for i := 0 to |wants|
      invariant add == Added(wants[..i], haves) && revoke == Emptied(wants[..i], haves)
    {
      assert wants[..i + 1][..i] == wants[..i];
      var want := wants[i];
      var found := Finds(want, haves);
      if found {
        if |want.allowed| == 0 { revoke := revoke + [want]; } else { add := add + [want]; }
      } else {
        add := add + [want];
      }
    }
    assert wants[..|wants|] == wants;
    for i := 0 to |haves|
      invariant revoke == Emptied(wants, haves) + Unwanted(wants, haves[..i])
    {
      assert haves[..i + 1][..i] == haves[..i];
      var found := Finds(haves[i], wants);
      if !found { revoke := revoke + [haves[i]]; }
    }
    assert haves[..|haves|] == haves;
  }

  lemma {:induction false} AddedHas(wants: seq<Permission>, haves: seq<Permission>, p: Permission)
    ensures p in Added(wants, haves) <==> p in wants && !(Found(p, haves) && p.allowed == [])
    ensures p in Emptied(wants, haves) <==> p in wants && Found(p, haves) && p.allowed == []
  {
    if wants != [] {
      var n := |wants| - 1;
      AddedHas(wants[..n], haves, p);
      assert wants == wants[..n] + [wants[n]];
    }
  }

  lemma {:induction false} UnwantedHas(wants: seq<Permission>, haves: seq<Permission>, p: Permission)
    ensures p in Unwanted(wants, haves) <==> p in haves && !Found(p, wants)
  {
    if haves != [] {
      var n := |haves| - 1;
      UnwantedHas(wants, haves[..n], p);
      assert haves == haves[..n] + [haves[n]];
    }
  }

  // ---------------------------------------------------------------- what the server reports

  function AllowedFor(rights: set<Right>): seq<string> {
    if rights == BOTH then ["WRITE", "READ"] else if rights == {Read} then ["READ"] else ["WRITE"]
  }

  /** SHOW USERS and SHOW GRANTS, whatever the order of the databases. */
  ghost predicate Reports(a: Account, haves: seq<Permission>) {
    && (forall p :: p in haves ==>
          if p.scope == AllScope then a.admin && p.name == ""
          else a.On(p.name) != {} && p.allowed == AllowedFor(a.On(p.name)))
    && (a.admin ==> Permission(AllScope, "", ["ALL"]) in haves)
    && (forall db :: a.On(db) != {} ==> Permission(DBScope, db, AllowedFor(a.On(db))) in haves)
  }

  lemma AllRights(rights: set<Right>)
    ensures rights <= BOTH && rights - BOTH == {}
  {
    forall r | r in rights ensures r in BOTH { assert r == Read || r == Write; }
  }

  lemma RightsAre(rights: set<Right>)
    ensures rights == {} || rights == {Read} || rights == {Write} || rights == BOTH
    ensures rights != {} ==> Rights(AllowedFor(rights)) == rights && Priv(rights) != "NO PRIVILEGES"
  {
    AllRights(rights);
    if Read in rights {
      assert if Write in rights then rights == BOTH else rights == {Read};
    } else {
      assert if Write in rights then rights == {Write} else rights == {};
    }
  }

  // ---------------------------------------------------------------- running commands

  predicate Touches(c: Command, db: string) {
    (c.Grant? || c.Revoke?) && c.db == db
  }

  predicate OnAdmin(c: Command) {
    c.GrantAdmin? || c.RevokeAdmin?
  }

  function Effect(rights: set<Right>, c: Command): set<Right>
    requires c.Grant? || c.Revoke?
  {
    if c.Grant? then c.rights else rights - c.rights
  }

  lemma {:induction false} Untouched(a: Account, cs: seq<Command>, db: string)
    requires forall c :: c in cs ==> !Touches(c, db)
    ensures Run(a, cs).On(db) == a.On(db)
  {
    if cs != [] {
      var n := |cs| - 1;
      assert cs == cs[..n] + [cs[n]] && !Touches(cs[n], db);
      Untouched(a, cs[..n], db);
    }
  }

  /** One command on a database, however often and among whatever others. */
  lemma {:induction false} TouchedBy(a: Account, cs: seq<Command>, db: string, c: Command)
    requires c in cs && Touches(c, db) && forall d :: d in cs && Touches(d, db) ==> d == c
    ensures Run(a, cs).On(db) == Effect(a.On(db), c)
  {
    var n := |cs| - 1;
    assert cs == cs[..n] + [cs[n]];
    if c in cs[..n] {
      TouchedBy(a, cs[..n], db, c);
      assert Touches(cs[n], db) ==> cs[n] == c;
    } else {
      Untouched(a, cs[..n], db);
    }
  }

  lemma {:induction false} AdminRun(a: Account, cs: seq<Command>, granted: bool)
    requires forall c :: c in cs && OnAdmin(c) ==> c.GrantAdmin? == granted
    ensures Run(a, cs).admin == if exists c :: c in cs && OnAdmin(c) then granted else a.admin
  {
    if cs != [] {
      var n := |cs| - 1;
      AdminRun(a, cs[..n], granted);
      assert cs == cs[..n] + [cs[n]] && cs[n] in cs;
      if OnAdmin(cs[n]) {
        assert Run(a, cs).admin == granted;
      } else if exists c :: c in cs[..n] && OnAdmin(c) {
        var c :| c in cs[..n] && OnAdmin(c);
        assert c in cs;
      } else {
        assert forall c :: c in cs ==> c in cs[..n] || c == cs[n];
      }
    }
  }

  lemma {:induction false} RunBoth(a: Account, cs: seq<Command>, ds: seq<Command>)
    ensures Run(a, cs + ds) == Run(Run(a, cs), ds)
  {
    if ds == [] {
      assert cs + ds == cs;
    } else {
      var n := |ds| - 1;
      RunBoth(a, cs, ds[..n]);
      assert (cs + ds)[..|cs| + n] == cs + ds[..n];
    }
  }

  // ---------------------------------------------------------------- grants, then revokes

  function Grants(ps: seq<Permission>): seq<Command> {
    if ps == [] then [] else Grants(ps[..|ps| - 1]) + [ToGrant(ps[|ps| - 1])]
  }

  function Revokes(ps: seq<Permission>): seq<Command> {
    if ps == [] then [] else Revokes(ps[..|ps| - 1]) + [ToRevoke(ps[|ps| - 1])]
  }

  /** Some permission in the list makes the command. */
  ghost predicate Makes(ps: seq<Permission>, f: Permission -> Command, c: Command) {
    exists p :: p in ps && f(p) == c
  }

  lemma MakesMore(ps: seq<Permission>, f: Permission -> Command, c: Command)
    requires ps != []
    ensures Makes(ps, f, c) <==> Makes(ps[..|ps| - 1], f, c) || f(ps[|ps| - 1]) == c
  {
    var n := |ps| - 1;
    assert ps == ps[..n] + [ps[n]];
    assert ps[n] in ps;
  }

  lemma GrantsHas(ps: seq<Permission>, c: Command)
    ensures c in Grants(ps) <==> exists p :: p in ps && ToGrant(p) == c
  {
    GrantsMake(ps, c);
  }

  lemma {:induction false} GrantsMake(ps: seq<Permission>, c: Command)
    ensures c in Grants(ps) <==> Makes(ps, ToGrant, c)
  {
    if ps != [] {
      GrantsMake(ps[..|ps| - 1], c);
      MakesMore(ps, ToGrant, c);
    }
  }

  lemma RevokesHas(ps: seq<Permission>, c: Command)
    ensures c in Revokes(ps) <==> exists p :: p in ps && ToRevoke(p) == c
  {
    RevokesMake(ps, c);
  }

  lemma {:induction false} RevokesMake(ps: seq<Permission>, c: Command)
    ensures c in Revokes(ps) <==> Makes(ps, ToRevoke, c)
  {
    if ps != [] {
      RevokesMake(ps[..|ps| - 1], c);
      MakesMore(ps, ToRevoke, c);
    }
  }

  function Commands(wants: seq<Permission>, haves: seq<Permission>): seq<Command> {
    Grants(Added(wants, haves)) + Revokes(Emptied(wants, haves) + Unwanted(wants, haves))
  }

  /** Where every command comes from. */
  lemma CommandsHas(wants: seq<Permission>, haves: seq<Permission>, c: Command)
    ensures c in Commands(wants, haves) <==>
      || (exists w :: w in wants && !(Found(w, haves) && w.allowed == []) && ToGrant(w) == c)
      || (exists w :: w in wants && Found(w, haves) && w.allowed == [] && ToRevoke(w) == c)
      || (exists g :: g in haves && !Found(g, wants) && ToRevoke(g) == c)
  {
    GrantsHas(Added(wants, haves), c);
    RevokesHas(Emptied(wants, haves) + Unwanted(wants, haves), c);
    forall p
      ensures p in Added(wants, haves) <==> p in wants && !(Found(p, haves) && p.allowed == [])
    {
      AddedHas(wants, haves, p);
    }
    forall p
      ensures p in Emptied(wants, haves) <==> p in wants && Found(p, haves) && p.allowed == []
    {
      AddedHas(wants, haves, p);
    }
    forall p ensures p in Unwanted(wants, haves) <==> p in haves && !Found(p, wants) { UnwantedHas(wants, haves, p); }
  }

  predicate DistinctKeys(ps: seq<Permission>) {
    forall p, q :: p in ps && q in ps && SameKey(p, q) ==> p == q
  }

  predicate Names(wants: seq<Permission>, db: string) {
    exists w :: w in wants && w.scope == DBScope && w.name == db
  }

  /** The one command that concerns a database, if there is one. */
  function CommandOn(a: Account, w: Option<Permission>, db: string): Command {
    if w.None? then (if a.On(db) == {} then Nothing else Revoke(db, a.On(db)))
    else if w.value.allowed == [] then (if a.On(db) == {} then Nothing else Revoke(db, BOTH))
    else if Rights(w.value.allowed) == {} then Nothing
    else Grant(db, Rights(w.value.allowed))
  }

  ghost predicate WantedOn(wants: seq<Permission>, db: string, w: Option<Permission>) {
    if w.None? then !Names(wants, db) else w.value in wants && w.value.scope == DBScope && w.value.name == db
  }

  lemma RevokedOn(a: Account, wants: seq<Permission>, haves: seq<Permission>, db: string, w: Option<Permission>,
      g: Permission)
    requires Reports(a, haves) && WantedOn(wants, db, w) && g in haves && !Found(g, wants) && Touches(ToRevoke(g), db)
    ensures ToRevoke(g) == CommandOn(a, w, db)
  {
    RightsAre(a.On(db));
    assert g.name == db && g.scope == DBScope;
    if w.Some? { assert SameKey(g, w.value); }
  }

  lemma WantedCommandOn(a: Account, wants: seq<Permission>, haves: seq<Permission>, db: string,
      w: Option<Permission>, v: Permission, c: Command)
    requires DistinctKeys(wants) && Reports(a, haves) && WantedOn(wants, db, w) && v in wants && Touches(c, db)
    requires c == if Found(v, haves) && v.allowed == [] then ToRevoke(v) else ToGrant(v)
    ensures c == CommandOn(a, w, db)
  {
    assert v.scope == DBScope && v.name == db;
    assert Names(wants, db) && SameKey(v, w.value);
    RightsAre(Rights(v.allowed));
  }

  lemma OnlyCommandOn(a: Account, wants: seq<Permission>, haves: seq<Permission>, db: string, w: Option<Permission>,
      c: Command)
    requires DistinctKeys(wants) && Reports(a, haves) && WantedOn(wants, db, w)
    requires c in Commands(wants, haves) && Touches(c, db)
    ensures c == CommandOn(a, w, db)
  {
    CommandsHas(wants, haves, c);
    if g :| g in haves && !Found(g, wants) && ToRevoke(g) == c {
      RevokedOn(a, wants, haves, db, w, g);
    } else {
      var v :| v in wants && c == if Found(v, haves) && v.allowed == [] then ToRevoke(v) else ToGrant(v);
      WantedCommandOn(a, wants, haves, db, w, v, c);
    }
  }

  lemma CommandOnIsThere(a: Account, wants: seq<Permission>, haves: seq<Permission>, db: string, w: Option<Permission>)
    requires DistinctKeys(wants) && Reports(a, haves) && WantedOn(wants, db, w)
    ensures var c := CommandOn(a, w, db); c == Nothing || (c in Commands(wants, haves) && Touches(c, db))
  {
    var c := CommandOn(a, w, db);
    CommandsHas(wants, haves, c);
    RightsAre(a.On(db));
    var held := Permission(DBScope, db, AllowedFor(a.On(db)));
    if c == Nothing {
    } else if w.None? {
      assert held in haves && ToRevoke(held) == c;
      assert !Found(held, wants);
    } else if w.value.allowed == [] {
      assert held in haves && SameKey(w.value, held);
      assert ToRevoke(w.value) == c;
    } else {
      RightsAre(Rights(w.value.allowed));
      assert ToGrant(w.value) == c;
    }
  }

  /** What the commands make of the rights on a database, in any order and however repeated. */
  lemma RightsAfter(a: Account, wants: seq<Permission>, haves: seq<Permission>, cs: seq<Command>, db: string,
      w: Option<Permission>)
    requires DistinctKeys(wants) && Reports(a, haves) && WantedOn(wants, db, w)
    requires forall c :: c in cs <==> c in Commands(wants, haves)
    ensures Run(a, cs).On(db) ==
      if w.None? || w.value.allowed == [] then {}
      else if Rights(w.value.allowed) == {} then a.On(db)
      else Rights(w.value.allowed)
  {
    var c := CommandOn(a, w, db);
    CommandOnIsThere(a, wants, haves, db, w);
    forall d | d in cs && Touches(d, db) ensures d == c { OnlyCommandOn(a, wants, haves, db, w, d); }
    RightsAre(a.On(db));
    if c == Nothing {
      Untouched(a, cs, db);
    } else {
      TouchedBy(a, cs, db, c);
      AllRights(a.On(db));
    }
  }

  // ---------------------------------------------------------------- administrators

  ghost predicate WantsAdmin(wants: seq<Permission>) {
    exists w :: w in wants && w.scope == AllScope && w.allowed != []
  }

  /** The all-scope entry proper, which has no name. */
  ghost predicate WantsUnnamed(wants: seq<Permission>) {
    exists w :: w in wants && w.scope == AllScope && w.allowed != [] && w.name == ""
  }

  lemma AdminGranted(wants: seq<Permission>, haves: seq<Permission>)
    ensures GrantAdmin in Grants(Added(wants, haves)) <==> WantsAdmin(wants)
  {
    GrantsHas(Added(wants, haves), GrantAdmin);
    forall p
      ensures p in Added(wants, haves) <==> p in wants && !(Found(p, haves) && p.allowed == [])
    {
      AddedHas(wants, haves, p);
    }
  }

  /** Whom a revoked permission concerns. */
  lemma Revoked(wants: seq<Permission>, haves: seq<Permission>, p: Permission)
    ensures p in Emptied(wants, haves) + Unwanted(wants, haves)
      <==> (p in wants && Found(p, haves) && p.allowed == []) || (p in haves && !Found(p, wants))
  {
    AddedHas(wants, haves, p);
    UnwantedHas(wants, haves, p);
  }

  lemma AdminKept(a: Account, wants: seq<Permission>, haves: seq<Permission>, p: Permission)
    requires DistinctKeys(wants) && Reports(a, haves)
    requires p in Emptied(wants, haves) + Unwanted(wants, haves) && p.scope == AllScope
    ensures a.admin && !WantsUnnamed(wants)
  {
    Revoked(wants, haves, p);
    if p in wants && Found(p, haves) && p.allowed == [] {
      var g :| g in haves && SameKey(p, g);
      assert p.name == "";
      forall w | w in wants && w.scope == AllScope && w.name == "" ensures w.allowed == [] { assert SameKey(p, w); }
    } else {
      assert p.name == "" && forall w :: w in wants && w.scope == AllScope && w.name == "" ==> SameKey(p, w);
    }
  }

  lemma AdminRevoked(a: Account, wants: seq<Permission>, haves: seq<Permission>)
    requires DistinctKeys(wants) && Reports(a, haves)
    ensures RevokeAdmin in Revokes(Emptied(wants, haves) + Unwanted(wants, haves)) <==> a.admin && !WantsUnnamed(wants)
  {
    var revoked := Emptied(wants, haves) + Unwanted(wants, haves);
    RevokesHas(revoked, RevokeAdmin);
    if p :| p in revoked && ToRevoke(p) == RevokeAdmin { AdminKept(a, wants, haves, p); }
    if a.admin && !WantsUnnamed(wants) {
      var admin := Permission(AllScope, "", ["ALL"]);
      assert admin in haves;
      var p := admin;
      if Found(admin, wants) {
        var w :| w in wants && SameKey(admin, w);
        p := w;
        assert SameKey(w, admin) && Found(w, haves);
      }
      Revoked(wants, haves, p);
      assert p in revoked && ToRevoke(p) == RevokeAdmin;
    }
  }

  // ---------------------------------------------------------------- the wanted state is reached

  /** The account has what is wanted and nothing else. */
  ghost predicate Meets(a: Account, wants: seq<Permission>) {
    && (a.admin <==> WantsAdmin(wants))
    && (forall w :: w in wants && w.scope == DBScope ==> Exactly(a.On(w.name), w.allowed))
    && (forall db :: !Names(wants, db) ==> a.On(db) == {})
  }

  function After(a: Account, wants: seq<Permission>, haves: seq<Permission>): Account {
    Run(a, Commands(wants, haves))
  }

  /** No rights are held where only unknown allowances are asked for, and an administrator who
      stays one is asked for without a name. */
  ghost predicate Honoured(a: Account, wants: seq<Permission>) {
    && (forall w :: w in wants && w.scope == DBScope && w.allowed != [] && Exactly({}, w.allowed) ==>
      a.On(w.name) == {})
    && (a.admin && WantsAdmin(wants) ==> WantsUnnamed(wants))
  }

  lemma {:induction false} AdminByGrants(a: Account, cs: seq<Command>)
    requires RevokeAdmin !in cs
    ensures Run(a, cs).admin <==> a.admin || GrantAdmin in cs
  {
    if cs != [] {
      var n := |cs| - 1;
      assert cs == cs[..n] + [cs[n]];
      AdminByGrants(a, cs[..n]);
    }
  }

  lemma {:induction false} AdminByRevokes(a: Account, cs: seq<Command>)
    requires GrantAdmin !in cs
    ensures Run(a, cs).admin <==> a.admin && RevokeAdmin !in cs
  {
    if cs != [] {
      var n := |cs| - 1;
      assert cs == cs[..n] + [cs[n]];
      AdminByRevokes(a, cs[..n]);
    }
  }

  lemma {:induction false} NeverRevoked(ps: seq<Permission>)
    ensures RevokeAdmin !in Grants(ps)
  {
    if ps != [] { NeverRevoked(ps[..|ps| - 1]); }
  }

  lemma {:induction false} NeverGranted(ps: seq<Permission>)
    ensures GrantAdmin !in Revokes(ps)
  {
    if ps != [] { NeverGranted(ps[..|ps| - 1]); }
  }

  lemma AdminAfter(a: Account, wants: seq<Permission>, haves: seq<Permission>)
    requires DistinctKeys(wants) && Reports(a, haves)
    ensures After(a, wants, haves).admin == if a.admin then WantsUnnamed(wants) else WantsAdmin(wants)
  {
    var grants, revokes := Grants(Added(wants, haves)), Revokes(Emptied(wants, haves) + Unwanted(wants, haves));
    RunBoth(a, grants, revokes);
    AdminGranted(wants, haves);
    AdminRevoked(a, wants, haves);
    NeverRevoked(Added(wants, haves));
    NeverGranted(Emptied(wants, haves) + Unwanted(wants, haves));
    AdminByGrants(a, grants);
    AdminByRevokes(Run(a, grants), revokes);
    assert WantsUnnamed(wants) ==> WantsAdmin(wants);
  }

  lemma RightsAfterUpdate(a: Account, wants: seq<Permission>, haves: seq<Permission>, w: Permission)
    requires DistinctKeys(wants) && Reports(a, haves) && w in wants && w.scope == DBScope
    ensures After(a, wants, haves).On(w.name) ==
      if w.allowed != [] && Rights(w.allowed) == {} then a.On(w.name) else Rights(w.allowed)
  {
    RightsAfter(a, wants, haves, Commands(wants, haves), w.name, Some(w));
  }

  /** Granting and then revoking the difference reaches the wanted permissions, whatever the
      account had, exactly when they can be honoured. */
  lemma UpdateMeetsIff(a: Account, wants: seq<Permission>, haves: seq<Permission>)
    requires DistinctKeys(wants) && Reports(a, haves)
    ensures Meets(After(a, wants, haves), wants) <==> Honoured(a, wants)
  {
    var b := After(a, wants, haves);
    AdminAfter(a, wants, haves);
    assert WantsUnnamed(wants) ==> WantsAdmin(wants);
    forall w | w in wants && w.scope == DBScope
      ensures b.On(w.name) == if w.allowed != [] && Rights(w.allowed) == {} then a.On(w.name) else Rights(w.allowed)
    {
      RightsAfterUpdate(a, wants, haves, w);
    }
    forall w | w in wants && w.scope == DBScope
      ensures Exactly(b.On(w.name), w.allowed) <==> b.On(w.name) == Rights(w.allowed)
      ensures Exactly({}, w.allowed) <==> Rights(w.allowed) == {}
    {
      ExactlyIff(b.On(w.name), w.allowed);
      ExactlyIff({}, w.allowed);
    }
    forall db | !Names(wants, db) ensures b.On(db) == {} {
      RightsAfter(a, wants, haves, Commands(wants, haves), db, None);
    }
  }

  lemma RightsCommute(a: Account, wants: seq<Permission>, haves: seq<Permission>, cs: seq<Command>, db: string)
    requires DistinctKeys(wants) && Reports(a, haves)
    requires forall c :: c in cs <==> c in Commands(wants, haves)
    ensures Run(a, cs).On(db) == After(a, wants, haves).On(db)
  {
    var w: Option<Permission> := None;
    if Names(wants, db) {
      var v :| v in wants && v.scope == DBScope && v.name == db;
      w := Some(v);
    }
    RightsAfter(a, wants, haves, cs, db, w);
    RightsAfter(a, wants, haves, Commands(wants, haves), db, w);
  }

  lemma AdminCommandIs(a: Account, wants: seq<Permission>, haves: seq<Permission>, c: Command)
    requires DistinctKeys(wants) && Reports(a, haves) && (a.admin && WantsAdmin(wants) ==> WantsUnnamed(wants))
    requires c in Commands(wants, haves) && OnAdmin(c)
    ensures c.GrantAdmin? == WantsAdmin(wants)
  {
    AdminGranted(wants, haves);
    AdminRevoked(a, wants, haves);
    NeverRevoked(Added(wants, haves));
    NeverGranted(Emptied(wants, haves) + Unwanted(wants, haves));
    assert WantsUnnamed(wants) ==> WantsAdmin(wants);
  }

  lemma AdminCommutes(a: Account, wants: seq<Permission>, haves: seq<Permission>, cs: seq<Command>)
    requires DistinctKeys(wants) && Reports(a, haves) && (a.admin && WantsAdmin(wants) ==> WantsUnnamed(wants))
    requires forall c :: c in cs <==> c in Commands(wants, haves)
    ensures Run(a, cs).admin == After(a, wants, haves).admin
  {
    forall c | c in cs && OnAdmin(c) ensures c.GrantAdmin? == WantsAdmin(wants) {
      AdminCommandIs(a, wants, haves, c);
    }
    AdminRun(a, cs, WantsAdmin(wants));
    AdminRun(a, Commands(wants, haves), WantsAdmin(wants));
  }

  /** No two of the commands concern the same thing, so they may be run in any order. */
  lemma CommandsCommute(a: Account, wants: seq<Permission>, haves: seq<Permission>, cs: seq<Command>)
    requires DistinctKeys(wants) && Reports(a, haves) && (a.admin && WantsAdmin(wants) ==> WantsUnnamed(wants))
    requires forall c :: c in cs <==> c in Commands(wants, haves)
    ensures Same(Run(a, cs), After(a, wants, haves))
  {
    forall db ensures Run(a, cs).On(db) == After(a, wants, haves).On(db) { RightsCommute(a, wants, haves, cs, db); }
    AdminCommutes(a, wants, haves, cs);
  }

  // ---------------------------------------------------------------- stopping halfway

  lemma AdminHalfway(a: Account, grants: seq<Command>, revokes: seq<Command>, k: nat)
    requires RevokeAdmin !in grants && GrantAdmin !in revokes && (RevokeAdmin in revokes ==> a.admin)
    requires k <= |grants + revokes|
    ensures Run(a, (grants + revokes)[..k]).admin in {a.admin, Run(a, grants + revokes).admin}
  {
    RunBoth(a, grants, revokes);
    AdminByGrants(a, grants);
    AdminByRevokes(Run(a, grants), revokes);
    if k <= |grants| {
      assert (grants + revokes)[..k] == grants[..k];
      AdminByGrants(a, grants[..k]);
    } else {
      var some := revokes[..k - |grants|];
      assert (grants + revokes)[..k] == grants + some;
      RunBoth(a, grants, some);
      AdminByRevokes(Run(a, grants), some);
    }
  }

  /** Where the query after the k-th command fails, the rights on each database are those before
      or those after the whole update, and so is the administrator's flag. */
  lemma HalfwayIsOldOrNew(a: Account, wants: seq<Permission>, haves: seq<Permission>, k: nat, db: string)
    requires DistinctKeys(wants) && Reports(a, haves) && k <= |Commands(wants, haves)|
    ensures var now := Run(a, Commands(wants, haves)[..k]);
      && now.On(db) in {a.On(db), After(a, wants, haves).On(db)}
      && now.admin in {a.admin, After(a, wants, haves).admin}
  {
    var cs := Commands(wants, haves);
    var w: Option<Permission> := None;
    if Names(wants, db) {
      var v :| v in wants && v.scope == DBScope && v.name == db;
      w := Some(v);
    }
    var c := CommandOn(a, w, db);
    forall d | d in cs && Touches(d, db) ensures d == c { OnlyCommandOn(a, wants, haves, db, w, d); }
    assert forall d :: d in cs[..k] ==> d in cs;
    if c in cs[..k] && Touches(c, db) {
      TouchedBy(a, cs[..k], db, c);
      TouchedBy(a, cs, db, c);
    } else {
      Untouched(a, cs[..k], db);
    }
    NeverRevoked(Added(wants, haves));
    NeverGranted(Emptied(wants, haves) + Unwanted(wants, haves));
    AdminRevoked(a, wants, haves);
    AdminHalfway(a, Grants(Added(wants, haves)), Revokes(Emptied(wants, haves) + Unwanted(wants, haves)), k);
  }

  // ---------------------------------------------------------------- the client

  datatype Outcome = Done | UserNotFound | QueryFailed

  /** A client and the accounts of the server it talks to. */
  class Client {
    var accounts: map<string, Account>

    /** SHOW GRANTS, with databases in any order, as permissions. */
    method UserPermissions(name: string) returns (res: seq<Permission>)
      requires name in accounts
      ensures Reports(accounts[name].(admin := false), res)
    {
      var a := accounts[name];
      OnKept(a);
      res := [];
      var left := a.rights.Keys;
      while left != {}
        invariant left <= a.rights.Keys
        invariant forall p :: p in res ==>
          p.scope == DBScope && a.On(p.name) != {} && p.allowed == AllowedFor(a.On(p.name))
        invariant forall db :: db !in left && a.On(db) != {} ==> Permission(DBScope, db, AllowedFor(a.On(db))) in res
        decreases |left|
      {
        var db :| db in left;
        left := left - {db};
        var priv := Priv(a.rights[db]);
        RightsAre(a.rights[db]);
        if priv == "ALL" {
          res := res + [Permission(DBScope, db, ["WRITE", "READ"])];
        } else if priv == "READ" {
          res := res + [Permission(DBScope, db, ["READ"])];
        } else if priv == "WRITE" {
          res := res + [Permission(DBScope, db, ["WRITE"])];
        }
      }
    }

    method Get(name: string) returns (r: Option<seq<Permission>>)
      ensures r.None? <==> name !in accounts
      ensures r.Some? ==> Reports(accounts[name], r.value)
    {
      if name !in accounts { return None; }
      var permissions := if accounts[name].admin then [Permission(AllScope, "", ["ALL"])] else [];
      var perms := UserPermissions(name);
      OnKept(accounts[name]);
      r := Some(permissions + perms);
    }

    /** One query; `up` tells whether the server answers, and an empty query is not sent. */
    method Query(name: string, c: Command, up: bool) returns (ok: bool)
      requires name in accounts
      modifies this
      ensures ok <==> up || c == Nothing
      ensures accounts == if ok then old(accounts)[name := Apply(old(accounts)[name], c)] else old(accounts)
    {
      if !up && c != Nothing { return false; }
      accounts := accounts[name := Apply(accounts[name], c)];
      return true;
    }

    /** The loops over the permissions to grant and to revoke, one query each, up to the first that
        fails; `answers` is the number of queries after which the server goes down. */
    method Execute(name: string, cs: seq<Command>, answers: nat) returns (ok: bool, ghost k: nat)
      requires name in accounts
      modifies this
      ensures k <= |cs| && accounts == old(accounts)[name := Run(old(accounts)[name], cs[..k])]
      ensures ok <==> k == |cs|
      ensures |cs| <= answers ==> ok
    {
      ghost var was, a := accounts, accounts[name];
      k := 0;
      for i := 0 to |cs|
        invariant k == i && accounts == was[name := Run(a, cs[..i])]
      {
        assert cs[..i + 1][..i] == cs[..i];
        var sent := Query(name, cs[i], i < answers);
        if !sent { return false, k; }
        k := i + 1;
      }
      return true, k;
    }

    /** One loop after the other. */
    method ExecuteBoth(name: string, grants: seq<Command>, revokes: seq<Command>, answers: nat)
      returns (ok: bool, ghost k: nat)
      requires name in accounts
      modifies this
      ensures k <= |grants + revokes|
      ensures accounts == old(accounts)[name := Run(old(accounts)[name], (grants + revokes)[..k])]
      ensures ok <==> k == |grants + revokes|
      ensures |grants + revokes| <= answers ==> ok
    {
      ghost var a := accounts[name];
      ok, k := Execute(name, grants, answers);
      FirstLoop(grants, revokes, k);
      if !ok { return; }
      ghost var j;
      ok, j := Execute(name, revokes, if answers < |grants| then 0 else answers - |grants|);
      SecondLoop(a, grants, revokes, j);
      k := k + j;
    }

    /** Grants first, then revokes, up to the first query that fails; `listed` tells whether the
        user's permissions could be read. */
    method Update(name: string, passwd: string, wants: seq<Permission>, listed: bool, answers: nat)
      returns (r: Outcome, ghost haves: seq<Permission>, ghost k: nat)
      modifies this
      ensures passwd != "" || !listed || name !in old(accounts) ==> accounts == old(accounts)
      ensures r == UserNotFound <==> passwd == "" && listed && name !in old(accounts)
      ensures !listed ==> r == QueryFailed
      ensures passwd == "" && listed && name in old(accounts) ==>
        && Reports(old(accounts)[name], haves) && k <= |Commands(wants, haves)|
        && accounts == old(accounts)[name := Run(old(accounts)[name], Commands(wants, haves)[..k])]
        && r == (if k == |Commands(wants, haves)| then Done else QueryFailed)
        && (|Commands(wants, haves)| <= answers ==> r == Done)
      ensures passwd == "" && r == Done && DistinctKeys(wants) ==>
        && name in accounts && name in old(accounts)
        && (Meets(accounts[name], wants) <==> Honoured(old(accounts)[name], wants))
    {
      haves, k := [], 0;
      if !listed { return QueryFailed, haves, k; }
      if passwd != "" { return Done, haves, k; }
      var user := Get(name);
      if user.None? { return UserNotFound, haves, k; }
      haves := user.value;
      var revoke, add := Difference(wants, user.value);
      var ok;
      ghost var a := accounts[name];
      if DistinctKeys(wants) { UpdateMeetsIff(a, wants, haves); }
      ok, k := ExecuteBoth(name, Grants(add), Revokes(revoke), answers);
      WholeRun(Commands(wants, haves));
      return if ok then Done else QueryFailed, haves, k;
    }
  }

  lemma WholeRun(cs: seq<Command>)
    ensures cs[..|cs|] == cs
  {
  }

  lemma FirstLoop(grants: seq<Command>, revokes: seq<Command>, k: nat)
    requires k <= |grants|
    ensures (grants + revokes)[..k] == grants[..k]
  {
  }

  lemma SecondLoop(a: Account, grants: seq<Command>, revokes: seq<Command>, j: nat)
    requires j <= |revokes|
    ensures Run(a, (grants + revokes)[..|grants| + j]) == Run(Run(a, grants[..|grants|]), revokes[..j])
  {
    RunBoth(a, grants, revokes[..j]);
    assert grants[..|grants|] == grants;
    assert (grants + revokes)[..|grants| + j] == grants + revokes[..j];
  }

  lemma OnKept(a: Account)
    ensures forall db :: a.(admin := false).On(db) == a.On(db)
  {
  }
}
