/** The store-changing steps of the request handlers (server/me.go, server/users.go,
    server/organizations.go, server/mapping.go), and the invariant that the authorization
    middleware (server/auth.go) relies on: no user has two roles in one organization. */
module Handlers {
  import opened Options
  import opened Buckets
  import opened Users
  import Orgs = Organizations
  import Sources

  const MEMBER := "member"
  const VIEWER := "viewer"
  const EDITOR := "editor"
  const ADMIN := "admin"
  const WILDCARD_ROLE := "*"
  const SCHEME := "oauth2"

  /** The principal of a request; its group claim is already split at the commas. */
  datatype Principal = Principal(subject: string, issuer: string, groups: seq<string>)

  /** A decoded user request; `superAdmin` is the flag asked for. */
  datatype Request = Request(name: string, provider: string, scheme: string, superAdmin: bool, roles: seq<Role>)

  // ---------------------------------------------------------------- the invariant

  ghost predicate OneRolePerOrg(rs: seq<Role>) {
    forall i, j :: 0 <= i < j < |rs| ==> rs[i].organization != rs[j].organization
  }

  ghost predicate OneRole(db: DB) {
    forall k :: k in db.table ==> OneRolePerOrg(db.table[k].roles)
  }

  // ---------------------------------------------------------------- server/mapping.go

  function Applies(m: Orgs.Mapping, p: Principal): bool {
    && (m.provider == Orgs.WILDCARD || m.provider == p.issuer)
    && (m.scheme == Orgs.WILDCARD || m.scheme == SCHEME)
    && (m.providerOrganization == Orgs.WILDCARD || m.providerOrganization in p.groups)
  }

  predicate HasRoleIn(rs: seq<Role>, org: string) {
    exists r :: r in rs && r.organization == org
  }

  /** mapPrincipalToRoles over the mappings in the order the store lists them: one role for
      every existing organization that some applying mapping names. */
  function MappedRoles(ms: seq<Orgs.Mapping>, orgs: Orgs.Bucket, p: Principal): seq<Role> {
    if ms == [] then []
    else
      var n := |ms| - 1;
      var rs := MappedRoles(ms[..n], orgs, p);
      if !Applies(ms[n], p) || ms[n].organization !in orgs then rs
      else
        var org := orgs[ms[n].organization];
        if HasRoleIn(rs, org.id) then rs else rs + [Role(org.id, org.defaultRole)]
  }

  lemma {:induction false} MappedRolesDistinct(ms: seq<Orgs.Mapping>, orgs: Orgs.Bucket, p: Principal)
    ensures OneRolePerOrg(MappedRoles(ms, orgs, p))
  {
    if ms != [] { MappedRolesDistinct(ms[..|ms| - 1], orgs, p); }
  }

  // ---------------------------------------------------------------- server/users.go

  predicate KnownRole(name: string) {
    name == MEMBER || name == VIEWER || name == EDITOR || name == ADMIN || name == WILDCARD_ROLE
  }

  /** ValidRoles of a request: named organizations, no duplicates, known role names. */
  ghost predicate ValidRoles(rs: seq<Role>) {
    OneRolePerOrg(rs) && forall r :: r in rs ==> r.organization != "" && KnownRole(r.name)
  }

  predicate OrgsExist(orgs: Orgs.Bucket, rs: seq<Role>) {
    forall r :: r in rs ==> r.organization in orgs
  }

  function ResolvedRole(orgs: Orgs.Bucket, r: Role): Role {
    if r.name == WILDCARD_ROLE && r.organization in orgs then r.(name := orgs[r.organization].defaultRole) else r
  }

  /** validRoles: every organization exists, and the wildcard role becomes its default role. */
  function Resolved(orgs: Orgs.Bucket, rs: seq<Role>): (out: seq<Role>)
    ensures |out| == |rs| && forall i :: 0 <= i < |rs| ==> out[i] == ResolvedRole(orgs, rs[i])
  {
    seq(|rs|, i requires 0 <= i < |rs| => ResolvedRole(orgs, rs[i]))
  }

  /** setSuperAdmin: only a super admin may change the flag. */
  predicate MaySet(byAdmin: bool, asked: bool, current: bool) {
    byAdmin || asked == current
  }

  // ---------------------------------------------------------------- the steps on the user table

  /** The store a request works on: the raw table, or one organization's facade. */
  datatype Scope = Raw | Within(org: string)

  function ScopedGet(db: DB, scope: Scope, id: nat): Result<User> {
    match scope case Raw => Find(db, ByID(id)) case Within(org) => OrgGet(db, org, ByID(id))
  }

  function ScopedAdd(db: DB, scope: Scope, u: User): DB {
    match scope case Raw => StoreAdd(db, u).0 case Within(org) => OrgAdd(db, org, u).0
  }

  function ScopedUpdate(db: DB, scope: Scope, u: User): DB {
    match scope case Raw => StoreUpdate(db, u).0 case Within(org) => OrgUpdate(db, org, u).0
  }

  function ScopedDelete(db: DB, scope: Scope, u: User): DB {
    match scope case Raw => StoreDelete(db, u).0 case Within(org) => OrgDelete(db, org, u.id).0
  }

  function DefaultOrg(orgs: Orgs.Bucket): Orgs.Organization {
    if Orgs.DEFAULT_ID in orgs then orgs[Orgs.DEFAULT_ID] else Orgs.Organization("", "", "")
  }

  function Who(p: Principal): Query {
    ByName(p.subject, p.issuer, SCHEME)
  }

  /** Me: a known user may be promoted; an unknown one is created from the mappings, a super
      admin also with a role in the default organization. */
  function Login(db: DB, orgs: Orgs.Bucket, ms: seq<Orgs.Mapping>, p: Principal, superAdmin: bool,
      newUsersAreSuperAdmin: bool): DB {
    var found := Find(db, Who(p));
    if found.Ok? then
      (if superAdmin && !found.value.superAdmin then StoreUpdate(db, found.value.(superAdmin := true)).0 else db)
    else
      var rs := MappedRoles(ms, orgs, p);
      var admin := superAdmin || newUsersAreSuperAdmin;
      if !superAdmin && rs == [] then db
      else StoreAdd(db, User(0, p.subject, p.issuer, SCHEME, admin, LoginRoles(rs, DefaultOrg(orgs), admin))).0
  }

  function LoginRoles(rs: seq<Role>, default: Orgs.Organization, admin: bool): seq<Role> {
    if admin && !HasRoleIn(rs, default.id) then rs + [Role(default.id, default.defaultRole)] else rs
  }

  /** UpdateMe up to the point where it goes on as Me: a super admin who is not in the
      organization switched to is added to it with its default role. */
  function Switch(db: DB, orgs: Orgs.Bucket, org: string, p: Principal): DB {
    if org !in orgs || OrgGet(db, org, Who(p)).Ok? then db
    else
      var u := Find(db, Who(p));
      if u.Ok? && u.value.superAdmin then
        StoreUpdate(db, u.value.(roles := u.value.roles + [Role(orgs[org].id, orgs[org].defaultRole)])).0
      else db
  }

  /** NewUser; rejected requests leave the table alone. */
  ghost function Create(db: DB, orgs: Orgs.Bucket, scope: Scope, req: Request, byAdmin: bool,
      superAdminNewUsers: bool): DB {
    var asked := superAdminNewUsers || req.superAdmin;
    if req.name == "" || req.provider == "" || req.scheme == "" || !ValidRoles(req.roles) || !OrgsExist(orgs, req.roles)
       || !MaySet(byAdmin, asked, false) then db
    else ScopedAdd(db, scope, User(0, req.name, req.provider, SCHEME, byAdmin && asked, Resolved(orgs, req.roles)))
  }

  /** UpdateUser by the user with id `actor`. */
  ghost function Modify(db: DB, orgs: Orgs.Bucket, scope: Scope, id: nat, req: Request, actor: nat, byAdmin: bool): DB {
    var u := ScopedGet(db, scope, id);
    if !ValidRoles(req.roles) || u.Err? || !OrgsExist(orgs, req.roles)
       || (req.name != "" && req.name != u.value.name) || (req.provider != "" && req.provider != u.value.provider)
       || (req.scheme != "" && req.scheme != u.value.scheme)
       || (actor == u.value.id && u.value.superAdmin && !req.superAdmin)
       || !MaySet(byAdmin, req.superAdmin, u.value.superAdmin) then db
    else
      ScopedUpdate(db, scope, u.value.(roles := Resolved(orgs, req.roles),
                                       superAdmin := if byAdmin then req.superAdmin else u.value.superAdmin))
  }

  function Remove(db: DB, scope: Scope, id: nat): DB {
    var u := ScopedGet(db, scope, id);
    if u.Err? then db else ScopedDelete(db, scope, u.value)
  }

  /** The part of NewOrganization that makes its creator an admin of it, or cleans up. */
  function Founded(db: DB, org: string, creator: Option<User>): (DB, bool) {
    if creator.None? then (db.(table := MapValues(db.table, Strip(org))), false)
    else
      var (db', r) := OrgAdd(db, org, creator.value.(roles := [Role(org, ADMIN)]));
      if r.Ok? then (db', true) else (db'.(table := MapValues(db'.table, Strip(org))), false)
  }

  // ---------------------------------------------------------------- the steps keep the invariant

  lemma {:induction false} FilterKeepsOneRole(rs: seq<Role>, keep: Role -> bool)
    requires OneRolePerOrg(rs)
    ensures OneRolePerOrg(Filter(rs, keep))
  {
    if rs != [] {
      var n := |rs| - 1;
      FilterKeepsOneRole(rs[..n], keep);
      FilterMembers(rs[..n], keep);
      var kept := Filter(rs[..n], keep);
      forall i | 0 <= i < |kept| ensures kept[i].organization != rs[n].organization {
        assert kept[i] in kept;
        var j :| 0 <= j < n && rs[..n][j] == kept[i];
      }
    }
  }

  lemma JoinKeepsOneRole(rs: seq<Role>, org: string, ours: seq<Role>)
    requires OneRolePerOrg(rs) && OneRolePerOrg(ours) && ValidFor(org, ours)
    ensures OneRolePerOrg(Filter(rs, NotIn(org)) + ours)
  {
    FilterKeepsOneRole(rs, NotIn(org));
    FilterMembers(rs, NotIn(org));
    var theirs := Filter(rs, NotIn(org));
    forall i, j | 0 <= i < |theirs| && 0 <= j < |ours| ensures theirs[i].organization != ours[j].organization {
      assert theirs[i] in theirs && ours[j] in ours;
    }
  }

  lemma FacadeKeepsOneRole(db: DB, org: string, op: Op)
    requires Keyed(db) && OneRole(db)
    requires op.Add? || op.Update? ==> OneRolePerOrg(op.u.roles)
    ensures Keyed(Apply(db, org, op)) && OneRole(Apply(db, org, op))
  {
    ApplyKeeps(db, org, op);
    match op
    case Add(u) =>
      FindKeyed(db, NameOf(u));
      if ValidFor(org, u.roles) && Find(db, NameOf(u)).Ok? {
        JoinKeepsOneRole(Find(db, NameOf(u)).value.roles, org, u.roles);
      }
    case Update(u) =>
      if ValidFor(org, u.roles) && u.id in db.table { JoinKeepsOneRole(db.table[u.id].roles, org, u.roles); }
    case Delete(id) =>
      if id in db.table { FilterKeepsOneRole(db.table[id].roles, NotIn(org)); }
  }

  ghost predicate Good(db: DB) {
    Keyed(db) && OneRole(db)
  }

  lemma LoginKeeps(db: DB, orgs: Orgs.Bucket, ms: seq<Orgs.Mapping>, p: Principal, superAdmin: bool, newAdmins: bool)
    requires Good(db)
    ensures Good(Login(db, orgs, ms, p, superAdmin, newAdmins))
  {
    FindKeyed(db, Who(p));
    MappedRolesDistinct(ms, orgs, p);
  }

  lemma SwitchKeeps(db: DB, orgs: Orgs.Bucket, org: string, p: Principal)
    requires Good(db) && forall k :: k in orgs ==> orgs[k].id == k
    ensures Good(Switch(db, orgs, org, p))
  {
    FindKeyed(db, Who(p));
    if Find(db, Who(p)).Ok? && org in orgs {
      var rs := Find(db, Who(p)).value.roles;
      if Filter(rs, In(org)) == [] { FirstRoleThere(rs, Role(org, orgs[org].defaultRole)); }
    }
  }

  lemma FirstRoleThere(rs: seq<Role>, role: Role)
    requires OneRolePerOrg(rs) && Filter(rs, In(role.organization)) == []
    ensures OneRolePerOrg(rs + [role])
  {
    FilterMembers(rs, In(role.organization));
    forall r | r in rs ensures r.organization != role.organization {
      assert r !in Filter(rs, In(role.organization));
    }
  }

  lemma ScopedAddKeeps(db: DB, scope: Scope, u: User)
    requires Good(db) && OneRolePerOrg(u.roles)
    ensures Good(ScopedAdd(db, scope, u))
  {
    if scope.Within? { FacadeKeepsOneRole(db, scope.org, Add(u)); }
  }

  lemma ScopedUpdateKeeps(db: DB, scope: Scope, u: User)
    requires Good(db) && OneRolePerOrg(u.roles)
    ensures Good(ScopedUpdate(db, scope, u))
  {
    if scope.Within? { FacadeKeepsOneRole(db, scope.org, Update(u)); }
  }

  lemma ScopedDeleteKeeps(db: DB, scope: Scope, u: User)
    requires Good(db)
    ensures Good(ScopedDelete(db, scope, u))
  {
    if scope.Within? { FacadeKeepsOneRole(db, scope.org, Delete(u.id)); }
  }

  lemma StripKeeps(db: DB, org: string)
    requires Good(db)
    ensures Good(db.(table := MapValues(db.table, Strip(org))))
  {
    forall k | k in db.table ensures OneRolePerOrg(Elsewhere(db.table[k], org)) {
      FilterKeepsOneRole(db.table[k].roles, NotIn(org));
    }
  }

  // ---------------------------------------------------------------- runs

  datatype State = State(users: DB, orgs: Orgs.Bucket)

  datatype Step =
    | LoginStep(ms: seq<Orgs.Mapping>, p: Principal, superAdmin: bool, newAdmins: bool)
    | SwitchStep(org: string, p: Principal)
    | CreateStep(scope: Scope, req: Request, byAdmin: bool, superAdminNewUsers: bool)
    | ModifyStep(scope: Scope, id: nat, req: Request, actor: nat, byAdmin: bool)
    | RemoveStep(scope: Scope, id: nat)
    | FoundStep(founded: Orgs.Organization, creator: Option<User>)
    | DissolveStep(org: string)

  ghost function Perform(s: State, step: Step): State {
    match step
    case LoginStep(ms, p, superAdmin, newAdmins) => s.(users := Login(s.users, s.orgs, ms, p, superAdmin, newAdmins))
    case SwitchStep(org, p) => s.(users := Switch(s.users, s.orgs, org, p))
    case CreateStep(scope, req, byAdmin, newAdmins) =>
      s.(users := Create(s.users, s.orgs, scope, req, byAdmin, newAdmins))
    case ModifyStep(scope, id, req, actor, byAdmin) =>
      s.(users := Modify(s.users, s.orgs, scope, id, req, actor, byAdmin))
    case RemoveStep(scope, id) => s.(users := Remove(s.users, scope, id))
    case FoundStep(org, creator) =>
      if Orgs.Taken(s.orgs, org.name) then s
      else
        var (users, ok) := Founded(s.users, org.id, creator);
        State(users, if ok then s.orgs[org.id := org] else s.orgs - {org.id})
    case DissolveStep(org) =>
      if org == Orgs.DEFAULT_ID || org !in s.orgs then s
      else State(s.users.(table := MapValues(s.users.table, Strip(org))), s.orgs - {org})
  }

  ghost predicate Invariant(s: State) {
    Good(s.users) && forall k :: k in s.orgs ==> s.orgs[k].id == k
  }

  lemma StepKeeps(s: State, step: Step)
    requires Invariant(s)
    ensures Invariant(Perform(s, step))
  {
    match step
    case LoginStep(ms, p, superAdmin, newAdmins) => LoginKeeps(s.users, s.orgs, ms, p, superAdmin, newAdmins);
    case SwitchStep(org, p) => SwitchKeeps(s.users, s.orgs, org, p);
    case CreateStep(scope, req, byAdmin, newAdmins) =>
      if ValidRoles(req.roles) {
        var admin := byAdmin && (newAdmins || req.superAdmin);
        ScopedAddKeeps(s.users, scope,
          User(0, req.name, req.provider, SCHEME, admin, Resolved(s.orgs, req.roles)));
      }
    case ModifyStep(scope, id, req, actor, byAdmin) =>
      var u := ScopedGet(s.users, scope, id);
      if ValidRoles(req.roles) && u.Ok? {
        var admin := if byAdmin then req.superAdmin else u.value.superAdmin;
        ScopedUpdateKeeps(s.users, scope, u.value.(roles := Resolved(s.orgs, req.roles), superAdmin := admin));
      }
    case RemoveStep(scope, id) =>
      var u := ScopedGet(s.users, scope, id);
      if u.Ok? { ScopedDeleteKeeps(s.users, scope, u.value); }
    case FoundStep(org, creator) =>
      if creator.Some? {
        var u := creator.value.(roles := [Role(org.id, ADMIN)]);
        FacadeKeepsOneRole(s.users, org.id, Add(u));
        StripKeeps(OrgAdd(s.users, org.id, u).0, org.id);
      } else {
        StripKeeps(s.users, org.id);
      }
    case DissolveStep(org) => StripKeeps(s.users, org);
  }

  ghost function PerformAll(s: State, steps: seq<Step>): State
    decreases |steps|
  {
    if steps == [] then s else PerformAll(Perform(s, steps[0]), steps[1..])
  }

  /** However requests follow each other, no user ever has two roles in one organization, so
      whoever the middleware finds in an organization has exactly one role there. */
  lemma {:induction false} OneRoleAlways(s: State, steps: seq<Step>, org: string, q: Query)
    requires Invariant(s)
    ensures Invariant(PerformAll(s, steps))
    ensures var r := OrgGet(PerformAll(s, steps).users, org, q); r.Ok? ==> |r.value.roles| == 1
    decreases |steps|
  {
    if steps == [] {
      AuthorizedOnce(s.users, org, q);
    } else {
      StepKeeps(s, steps[0]);
      OneRoleAlways(Perform(s, steps[0]), steps[1..], org, q);
    }
  }

  lemma TwoRolesTwoOrgs(rs: seq<Role>, org: string)
    requires |rs| > 1 && OneRolePerOrg(rs)
    ensures exists r :: r in rs && r.organization != org
  {
    assert rs[0] in rs && rs[1] in rs;
  }

  lemma AuthorizedOnce(db: DB, org: string, q: Query)
    requires Good(db)
    ensures var r := OrgGet(db, org, q); r.Ok? ==> |r.value.roles| == 1
  {
    FindKeyed(db, q);
    if OrgGet(db, org, q).Ok? {
      var u := Find(db, q).value;
      var rs := Filter(u.roles, In(org));
      FilterKeepsOneRole(u.roles, In(org));
      FilterMembers(u.roles, In(org));
      if |rs| > 1 { TwoRolesTwoOrgs(rs, org); }
    }
  }

  // ---------------------------------------------------------------- roles name organizations there are

  ghost predicate RolesNamed(db: DB, orgs: Orgs.Bucket) {
    forall k :: k in db.table ==> OrgsExist(orgs, db.table[k].roles)
  }

  /** Nobody has a role there. */
  ghost predicate Unheld(db: DB, org: string) {
    forall k :: k in db.table ==> View(db.table[k], org).roles == []
  }

  lemma UnknownIsUnheld(db: DB, orgs: Orgs.Bucket, org: string)
    requires RolesNamed(db, orgs) && org !in orgs
    ensures Unheld(db, org)
  {
    forall k | k in db.table ensures View(db.table[k], org).roles == [] { NoneThere(db.table[k].roles, orgs, org); }
  }

  lemma {:induction false} NoneThere(rs: seq<Role>, orgs: Orgs.Bucket, org: string)
    requires OrgsExist(orgs, rs) && org !in orgs
    ensures Filter(rs, In(org)) == []
  {
    if rs != [] {
      NoneThere(rs[..|rs| - 1], orgs, org);
      assert rs[|rs| - 1] in rs;
    }
  }

  lemma {:induction false} MappedRolesNamed(ms: seq<Orgs.Mapping>, orgs: Orgs.Bucket, p: Principal)
    requires forall k :: k in orgs ==> orgs[k].id == k
    ensures OrgsExist(orgs, MappedRoles(ms, orgs, p))
  {
    if ms != [] { MappedRolesNamed(ms[..|ms| - 1], orgs, p); }
  }

  lemma ResolvedNamed(orgs: Orgs.Bucket, rs: seq<Role>)
    requires OrgsExist(orgs, rs)
    ensures OrgsExist(orgs, Resolved(orgs, rs))
  {
    forall r | r in Resolved(orgs, rs) ensures r.organization in orgs {
      var i :| 0 <= i < |rs| && Resolved(orgs, rs)[i] == r;
      assert rs[i] in rs;
    }
  }

  lemma ElsewhereNamed(orgs: Orgs.Bucket, u: User, org: string)
    requires OrgsExist(orgs, u.roles)
    ensures OrgsExist(orgs, Elsewhere(u, org)) && OrgsExist(orgs - {org}, Elsewhere(u, org))
  {
    FilterMembers(u.roles, NotIn(org));
  }

  lemma ScopedAddNamed(db: DB, orgs: Orgs.Bucket, scope: Scope, u: User)
    requires Keyed(db) && RolesNamed(db, orgs) && OrgsExist(orgs, u.roles)
    ensures RolesNamed(ScopedAdd(db, scope, u), orgs)
  {
    FindKeyed(db, NameOf(u));
    if scope.Within? && Find(db, NameOf(u)).Ok? { ElsewhereNamed(orgs, Find(db, NameOf(u)).value, scope.org); }
  }

  lemma ScopedUpdateNamed(db: DB, orgs: Orgs.Bucket, scope: Scope, u: User)
    requires RolesNamed(db, orgs) && OrgsExist(orgs, u.roles)
    ensures RolesNamed(ScopedUpdate(db, scope, u), orgs)
  {
    if scope.Within? && u.id in db.table { ElsewhereNamed(orgs, db.table[u.id], scope.org); }
  }

  lemma StripNamed(db: DB, orgs: Orgs.Bucket, org: string)
    requires forall k :: k in db.table ==> OrgsExist(orgs[org := Orgs.DEFAULT], db.table[k].roles)
    ensures RolesNamed(db.(table := MapValues(db.table, Strip(org))), orgs - {org})
  {
    forall k | k in db.table ensures OrgsExist(orgs - {org}, Elsewhere(db.table[k], org)) {
      FilterMembers(db.table[k].roles, NotIn(org));
    }
  }

  /** A state whose roles name organizations there are, the default one among them. */
  ghost predicate Settled(s: State) {
    Invariant(s) && RolesNamed(s.users, s.orgs) && Orgs.DEFAULT_ID in s.orgs
  }

  lemma FoundNamed(s: State, org: Orgs.Organization, creator: Option<User>)
    requires Settled(s) && org.id != Orgs.DEFAULT_ID
    ensures var t := Perform(s, FoundStep(org, creator)); RolesNamed(t.users, t.orgs) && Orgs.DEFAULT_ID in t.orgs
  {
    if creator.Some? {
      var u := creator.value.(roles := [Role(org.id, ADMIN)]);
      ScopedAddNamed(s.users, s.orgs[org.id := org], Within(org.id), u);
      StripNamed(OrgAdd(s.users, org.id, u).0, s.orgs, org.id);
    } else {
      StripNamed(s.users, s.orgs, org.id);
    }
  }

  lemma CreateNamed(db: DB, orgs: Orgs.Bucket, scope: Scope, req: Request, byAdmin: bool, newAdmins: bool)
    requires Keyed(db) && RolesNamed(db, orgs)
    ensures RolesNamed(Create(db, orgs, scope, req, byAdmin, newAdmins), orgs)
  {
    if OrgsExist(orgs, req.roles) {
      ResolvedNamed(orgs, req.roles);
      var admin := byAdmin && (newAdmins || req.superAdmin);
      ScopedAddNamed(db, orgs, scope, User(0, req.name, req.provider, SCHEME, admin, Resolved(orgs, req.roles)));
    }
  }

  lemma ModifyNamed(db: DB, orgs: Orgs.Bucket, scope: Scope, id: nat, req: Request, actor: nat, byAdmin: bool)
    requires RolesNamed(db, orgs)
    ensures RolesNamed(Modify(db, orgs, scope, id, req, actor, byAdmin), orgs)
  {
    var u := ScopedGet(db, scope, id);
    if OrgsExist(orgs, req.roles) && u.Ok? {
      ResolvedNamed(orgs, req.roles);
      var admin := if byAdmin then req.superAdmin else u.value.superAdmin;
      ScopedUpdateNamed(db, orgs, scope, u.value.(roles := Resolved(orgs, req.roles), superAdmin := admin));
    }
  }

  lemma LoginNamed(db: DB, orgs: Orgs.Bucket, ms: seq<Orgs.Mapping>, p: Principal, superAdmin: bool, newAdmins: bool)
    requires Keyed(db) && RolesNamed(db, orgs) && Orgs.DEFAULT_ID in orgs && forall k :: k in orgs ==> orgs[k].id == k
    ensures RolesNamed(Login(db, orgs, ms, p, superAdmin, newAdmins), orgs)
  {
    FindKeyed(db, Who(p));
    MappedRolesNamed(ms, orgs, p);
  }

  lemma SwitchNamed(db: DB, orgs: Orgs.Bucket, org: string, p: Principal)
    requires Keyed(db) && RolesNamed(db, orgs) && forall k :: k in orgs ==> orgs[k].id == k
    ensures RolesNamed(Switch(db, orgs, org, p), orgs)
  {
    FindKeyed(db, Who(p));
  }

  lemma RemoveNamed(db: DB, orgs: Orgs.Bucket, scope: Scope, id: nat)
    requires Keyed(db) && RolesNamed(db, orgs)
    ensures RolesNamed(Remove(db, scope, id), orgs)
  {
    if scope.Within? && id in db.table { ElsewhereNamed(orgs, db.table[id], scope.org); }
  }

  lemma StepNamed(s: State, step: Step)
    requires Settled(s) && (step.FoundStep? ==> step.founded.id != Orgs.DEFAULT_ID)
    ensures Settled(Perform(s, step))
  {
    StepKeeps(s, step);
    match step
    case LoginStep(ms, p, superAdmin, newAdmins) => LoginNamed(s.users, s.orgs, ms, p, superAdmin, newAdmins);
    case SwitchStep(org, p) => SwitchNamed(s.users, s.orgs, org, p);
    case CreateStep(scope, req, byAdmin, newAdmins) => CreateNamed(s.users, s.orgs, scope, req, byAdmin, newAdmins);
    case ModifyStep(scope, id, req, actor, byAdmin) => ModifyNamed(s.users, s.orgs, scope, id, req, actor, byAdmin);
    case RemoveStep(scope, id) => RemoveNamed(s.users, s.orgs, scope, id);
    case FoundStep(org, creator) => FoundNamed(s, org, creator);
    case DissolveStep(org) => StripNamed(s.users, s.orgs, org);
  }

  /** However requests follow each other, users have roles only in organizations there are. */
  lemma {:induction false} RolesAlwaysNamed(s: State, steps: seq<Step>)
    requires Settled(s)
    requires forall step :: step in steps && step.FoundStep? ==> step.founded.id != Orgs.DEFAULT_ID
    ensures Settled(PerformAll(s, steps))
    decreases |steps|
  {
    if steps != [] {
      assert steps[0] in steps;
      StepNamed(s, steps[0]);
      RolesAlwaysNamed(Perform(s, steps[0]), steps[1..]);
    }
  }

  // ---------------------------------------------------------------- what founding means

  /** What another organization sees of a user, apart from the flag. */
  function SeenBy(db: DB, org: string, id: nat): Result<User> {
    match OrgGet(db, org, ByID(id))
    case Err(e) => Err(e)
    case Ok(u) => Ok(u.(superAdmin := false))
  }

  /** The creator is found in the organization with one role, its admin's, nobody else is found there,
      and every other organization sees what it saw. */
  ghost predicate Administers(db: DB, db': DB, org: string, creator: User) {
    var r := OrgGet(db', org, NameOf(creator));
    && r.Ok? && r.value.roles == [Role(org, "admin")]
    && (forall id :: OrgGet(db', org, ByID(id)).Ok? <==> id == r.value.id)
    && (forall other, id :: other != org ==> SeenBy(db', other, id) == SeenBy(db, other, id))
  }

  lemma OthersSeeNoRole(u: User, org: string, role: Role, other: string)
    requires role.organization == org != other
    ensures Filter(Elsewhere(u, org) + [role], In(other)) == Filter(u.roles, In(other))
  {
    FilterAppend(Elsewhere(u, org), [role], In(other));
    OtherOrg(u.roles, org, other);
    assert Filter([role], In(other)) == [];
  }

  /** A record written where nobody had a role. */
  lemma OnlyHolder(db: DB, db': DB, org: string, u: User, id: nat)
    requires Unheld(db, org) && db'.table == db.table[u.id := u] && View(u, org).roles != []
    ensures OrgGet(db', org, ByID(id)).Ok? <==> id == u.id
  {
  }

  lemma OthersSee(db: DB, db': DB, u: User, other: string, id: nat)
    requires db'.table == db.table[u.id := u]
    requires u.id in db.table ==>
      View(u, other).(superAdmin := false) == View(db.table[u.id], other).(superAdmin := false)
    requires u.id !in db.table ==> View(u, other).roles == []
    ensures SeenBy(db', other, id) == SeenBy(db, other, id)
  {
  }

  lemma AdministersBy(db: DB, db': DB, org: string, creator: User, u: User)
    requires Unheld(db, org) && db'.table == db.table[u.id := u] && Find(db', NameOf(creator)) == Ok(u)
    requires View(u, org).roles == [Role(org, "admin")]
    requires forall other, id :: other != org ==> SeenBy(db', other, id) == SeenBy(db, other, id)
    ensures Administers(db, db', org, creator)
  {
    forall id ensures OrgGet(db', org, ByID(id)).Ok? <==> id == u.id { OnlyHolder(db, db', org, u, id); }
  }

  function Joined(usr: User, u: User, org: string): User {
    usr.(roles := Elsewhere(usr, org) + u.roles, superAdmin := u.superAdmin || usr.superAdmin)
  }

  lemma KnownFounder(db: DB, org: string, creator: User)
    requires Keyed(db) && Unheld(db, org) && org != "" && Find(db, NameOf(creator)).Ok?
    ensures var (db', ok) := Founded(db, org, Some(creator)); ok && Administers(db, db', org, creator)
  {
    var usr, role := Find(db, NameOf(creator)).value, Role(org, ADMIN);
    var u := usr.(roles := Elsewhere(usr, org) + [role], superAdmin := creator.superAdmin || usr.superAdmin);
    var db' := StoreUpdate(db, u).0;
    FoundedByKnown(db, org, creator);
    FindKeyed(db, NameOf(creator));
    FirstIsIn(Records(db.table), Named(NameOf(creator)));
    SameFound(db, NameOf(creator), u);
    WrittenShows(usr, [role], org);
    forall other, id | other != org ensures SeenBy(db', other, id) == SeenBy(db, other, id) {
      OthersSeeNoRole(usr, org, role, other);
      OthersSee(db, db', u, other, id);
    }
    AdministersBy(db, db', org, creator, u);
  }

  lemma FoundedByKnown(db: DB, org: string, creator: User)
    requires Keyed(db) && Unheld(db, org) && org != "" && Find(db, NameOf(creator)).Ok?
    ensures var usr := Find(db, NameOf(creator)).value;
      var u := usr.(roles := Elsewhere(usr, org) + [Role(org, ADMIN)],
                    superAdmin := creator.superAdmin || usr.superAdmin);
      Founded(db, org, Some(creator)) == (StoreUpdate(db, u).0, true) && u.id in db.table
  {
    var usr := Find(db, NameOf(creator)).value;
    FindKeyed(db, NameOf(creator));
    NoneHere(usr.roles, org);
    JoinsKnown(db, org, creator.(roles := [Role(org, ADMIN)]), usr);
  }

  lemma JoinsKnown(db: DB, org: string, u: User, usr: User)
    requires ValidFor(org, u.roles) && Find(db, NameOf(u)) == Ok(usr) && usr.id in db.table
    requires |usr.roles| == |Elsewhere(usr, org)|
    ensures OrgAdd(db, org, u).1.Ok? && OrgAdd(db, org, u).0 == StoreUpdate(db, Joined(usr, u, org)).0
  {
  }

  lemma NewFounder(db: DB, org: string, creator: User)
    requires Keyed(db) && Unheld(db, org) && org != "" && Find(db, NameOf(creator)).Err?
    ensures var (db', ok) := Founded(db, org, Some(creator)); ok && Administers(db, db', org, creator)
  {
    var role := Role(org, ADMIN);
    var u := creator.(roles := [role]);
    AddedFound(db, u);
    var db', added := StoreAdd(db, u).0, StoreAdd(db, u).1.value;
    assert Founded(db, org, Some(creator)) == (db', true);
    assert Filter([role], In(org)) == [role];
    forall other, id | other != org ensures SeenBy(db', other, id) == SeenBy(db, other, id) {
      assert Filter([role], In(other)) == [];
      OthersSee(db, db', added, other, id);
    }
    AdministersBy(db, db', org, creator, added);
  }

  /** Founding an organization where nobody has a role makes its creator its admin, and fails only
      without a creator; then nothing is changed. */
  lemma FounderAdministers(db: DB, org: string, creator: Option<User>)
    requires Keyed(db) && Unheld(db, org) && org != ""
    ensures var (db', ok) := Founded(db, org, creator);
      && (ok <==> creator.Some?)
      && (if ok then Administers(db, db', org, creator.value) else db' == db)
  {
    if creator.Some? {
      if Find(db, NameOf(creator.value)).Ok? {
        KnownFounder(db, org, creator.value);
      } else {
        NewFounder(db, org, creator.value);
      }
    } else {
      forall k | k in db.table ensures Strip(org)(db.table[k]) == db.table[k] { NoneHere(db.table[k].roles, org); }
      assert MapValues(db.table, Strip(org)) == db.table;
    }
  }

  lemma FoundingPerformed(t: State, org: Orgs.Organization, creator: User)
    requires !Orgs.Taken(t.orgs, org.name) && Founded(t.users, org.id, Some(creator)).1
    ensures Perform(t, FoundStep(org, Some(creator))) ==
      State(Founded(t.users, org.id, Some(creator)).0, t.orgs[org.id := org])
  {
  }

  lemma FoundingSettled(t: State, org: Orgs.Organization, creator: User, after: State)
    requires Settled(t) && !Orgs.Taken(t.orgs, org.name) && org.id !in t.orgs && org.id != ""
    requires after == Perform(t, FoundStep(org, Some(creator)))
    ensures Administers(t.users, after.users, org.id, creator) && after.orgs == t.orgs[org.id := org]
  {
    UnknownIsUnheld(t.users, t.orgs, org.id);
    FounderAdministers(t.users, org.id, Some(creator));
    FoundingPerformed(t, org, creator);
    assert after.users == Founded(t.users, org.id, Some(creator)).0;
  }

  /** After any run of requests, whoever founds an organization under a new id administers it alone. */
  lemma FoundersAdminister(s: State, steps: seq<Step>, org: Orgs.Organization, creator: User)
    requires Settled(s)
    requires forall step :: step in steps && step.FoundStep? ==> step.founded.id != Orgs.DEFAULT_ID
    ensures var t := PerformAll(s, steps);
      var after := Perform(t, FoundStep(org, Some(creator)));
      !Orgs.Taken(t.orgs, org.name) && org.id !in t.orgs && org.id != "" ==>
        Administers(t.users, after.users, org.id, creator) && after.orgs == t.orgs[org.id := org]
  {
    RolesAlwaysNamed(s, steps);
    var t := PerformAll(s, steps);
    var after := Perform(t, FoundStep(org, Some(creator)));
    if !Orgs.Taken(t.orgs, org.name) && org.id !in t.orgs && org.id != "" {
      FoundingSettled(t, org, creator, after);
    }
  }

  // ---------------------------------------------------------------- what the other steps give

  /** "*" fits everything. */
  predicate Fits(pattern: string, values: seq<string>) {
    pattern == "*" || pattern in values
  }

  /** The role that a mapping gives to a principal. */
  predicate Maps(m: Orgs.Mapping, orgs: Orgs.Bucket, p: Principal, r: Role) {
    && Fits(m.provider, [p.issuer]) && Fits(m.scheme, ["oauth2"]) && Fits(m.providerOrganization, p.groups)
    && m.organization in orgs && r == Role(m.organization, orgs[m.organization].defaultRole)
  }

  ghost predicate Given(ms: seq<Orgs.Mapping>, orgs: Orgs.Bucket, p: Principal, r: Role) {
    exists m :: m in ms && Maps(m, orgs, p, r)
  }

  lemma GivenSnoc(ms: seq<Orgs.Mapping>, m: Orgs.Mapping, orgs: Orgs.Bucket, p: Principal, r: Role)
    ensures Given(ms + [m], orgs, p, r) <==> Given(ms, orgs, p, r) || Maps(m, orgs, p, r)
  {
    if Given(ms, orgs, p, r) {
      var n :| n in ms && Maps(n, orgs, p, r);
      assert n in ms + [m];
    } else if Maps(m, orgs, p, r) {
      assert m in ms + [m];
    }
  }

  lemma GivenOnce(ms: seq<Orgs.Mapping>, orgs: Orgs.Bucket, p: Principal, r: Role, other: Role)
    requires Given(ms, orgs, p, other) && r.organization == other.organization && r.organization in orgs
    requires r.name == orgs[r.organization].defaultRole
    ensures r == other
  {
  }

  /** A principal gets exactly the roles of the mappings that fit it. */
  lemma {:induction false} MappedRolesIff(ms: seq<Orgs.Mapping>, orgs: Orgs.Bucket, p: Principal, r: Role)
    requires forall k :: k in orgs ==> orgs[k].id == k
    ensures r in MappedRoles(ms, orgs, p) <==> Given(ms, orgs, p, r)
  {
    if ms != [] {
      var n := |ms| - 1;
      var m, rs := ms[n], MappedRoles(ms[..n], orgs, p);
      assert ms == ms[..n] + [m];
      GivenSnoc(ms[..n], m, orgs, p, r);
      MappedRolesIff(ms[..n], orgs, p, r);
      if Maps(m, orgs, p, r) && HasRoleIn(rs, r.organization) {
        var other :| other in rs && other.organization == r.organization;
        MappedRolesIff(ms[..n], orgs, p, other);
        GivenOnce(ms[..n], orgs, p, r, other);
      }
    }
  }

  /** The default organization's role, for a super admin to whom no mapping gives one there. */
  ghost predicate GivenDefault(ms: seq<Orgs.Mapping>, orgs: Orgs.Bucket, p: Principal, r: Role) {
    && Orgs.DEFAULT_ID in orgs && r == Role(Orgs.DEFAULT_ID, orgs[Orgs.DEFAULT_ID].defaultRole)
    && forall o :: Given(ms, orgs, p, o) ==> o.organization != Orgs.DEFAULT_ID
  }

  lemma LoginRolesIff(ms: seq<Orgs.Mapping>, orgs: Orgs.Bucket, p: Principal, admin: bool, r: Role)
    requires (forall k :: k in orgs ==> orgs[k].id == k) && Orgs.DEFAULT_ID in orgs
    ensures r in LoginRoles(MappedRoles(ms, orgs, p), DefaultOrg(orgs), admin) <==>
      Given(ms, orgs, p, r) || (admin && GivenDefault(ms, orgs, p, r))
  {
    var rs := MappedRoles(ms, orgs, p);
    MappedRolesIff(ms, orgs, p, r);
    if HasRoleIn(rs, Orgs.DEFAULT_ID) {
      var o :| o in rs && o.organization == Orgs.DEFAULT_ID;
      MappedRolesIff(ms, orgs, p, o);
    } else {
      forall o | Given(ms, orgs, p, o) ensures o.organization != Orgs.DEFAULT_ID { MappedRolesIff(ms, orgs, p, o); }
    }
  }

  /** A login of a known user changes nothing but that a super admin of the configuration gets the flag. */
  lemma KnownLogin(db: DB, orgs: Orgs.Bucket, ms: seq<Orgs.Mapping>, p: Principal, superAdmin: bool, newAdmins: bool)
    requires Keyed(db) && Find(db, Who(p)).Ok?
    ensures var u, db' := Find(db, Who(p)).value, Login(db, orgs, ms, p, superAdmin, newAdmins);
      var now := u.(superAdmin := u.superAdmin || superAdmin);
      && Find(db', Who(p)) == Ok(now) && u.id in db.table && db'.table == db.table[u.id := now]
  {
    FindKeyed(db, Who(p));
    var u := Find(db, Who(p)).value;
    SameFound(db, Who(p), u.(superAdmin := true));
    Unwritten(db.table, u.id);
  }

  lemma Unwritten<K, V>(m: map<K, V>, k: K)
    requires k in m
    ensures m[k := m[k]] == m
  {
  }

  /** An unknown user is stored, with the roles of the mappings that fit and a super admin with one in the
      default organization, unless nothing gives it a role. */
  lemma FirstLoginGives(db: DB, orgs: Orgs.Bucket, ms: seq<Orgs.Mapping>, p: Principal, superAdmin: bool,
      newAdmins: bool, r: Role)
    requires Keyed(db) && Find(db, Who(p)).Err?
    requires (forall k :: k in orgs ==> orgs[k].id == k) && Orgs.DEFAULT_ID in orgs
    ensures var db' := Login(db, orgs, ms, p, superAdmin, newAdmins);
      var found, admin := Find(db', Who(p)), superAdmin || newAdmins;
      && (found.Ok? <==> superAdmin || exists o :: Given(ms, orgs, p, o))
      && (if found.Err? then db' == db
          else
            && found.value.superAdmin == admin && db'.table == db.table[found.value.id := found.value]
            && found.value.id !in db.table
            && (r in found.value.roles <==> Given(ms, orgs, p, r) || (admin && GivenDefault(ms, orgs, p, r))))
  {
    var rs, admin := MappedRoles(ms, orgs, p), superAdmin || newAdmins;
    AnyGiven(ms, orgs, p);
    if superAdmin || rs != [] {
      var u := User(0, p.subject, p.issuer, SCHEME, admin, LoginRoles(rs, DefaultOrg(orgs), admin));
      AddedFound(db, u);
      LoginRolesIff(ms, orgs, p, admin, r);
    }
  }

  lemma AnyGiven(ms: seq<Orgs.Mapping>, orgs: Orgs.Bucket, p: Principal)
    requires forall k :: k in orgs ==> orgs[k].id == k
    ensures MappedRoles(ms, orgs, p) != [] <==> exists o :: Given(ms, orgs, p, o)
  {
    var rs := MappedRoles(ms, orgs, p);
    if rs != [] {
      MappedRolesIff(ms, orgs, p, rs[0]);
    } else {
      forall o ensures !Given(ms, orgs, p, o) { MappedRolesIff(ms, orgs, p, o); }
    }
  }

  /** Whoever is removed is not found where the request looked, and every other organization, if the
      request was made in one, sees what it saw. */
  lemma RemovedIsGone(db: DB, scope: Scope, id: nat, other: string, k: nat)
    requires Keyed(db)
    ensures ScopedGet(Remove(db, scope, id), scope, id).Err?
    ensures scope.Within? && other != scope.org ==> SeenBy(Remove(db, scope, id), other, k) == SeenBy(db, other, k)
    ensures scope.Raw? ==> Remove(db, scope, id).table == db.table - {id}
  {
    if scope.Within? && OrgGet(db, scope.org, ByID(id)).Ok? {
      DeleteGet(db, scope.org, id);
      if other != scope.org { OtherOrg(db.table[id].roles, scope.org, other); }
    }
  }

  /** Whoever may switch to an organization is a member afterwards, a new one with its default role. */
  lemma SwitchJoins(db: DB, orgs: Orgs.Bucket, org: string, p: Principal)
    requires Keyed(db) && MaySwitch(db, orgs, org, p) && orgs[org].id == org
    ensures var before, r := OrgGet(db, org, Who(p)), OrgGet(Switch(db, orgs, org, p), org, Who(p));
      && r.Ok?
      && r.value.roles == if before.Ok? then before.value.roles else [Role(org, orgs[org].defaultRole)]
  {
    if OrgGet(db, org, Who(p)).Err? {
      FindKeyed(db, Who(p));
      var u, role := Find(db, Who(p)).value, Role(org, orgs[org].defaultRole);
      SameFound(db, Who(p), u.(roles := u.roles + [role]));
      FilterAppend(u.roles, [role], In(org));
      assert Filter([role], In(org)) == [role];
    }
  }

  /** The role asked for, the organization's default one for the wildcard. */
  function Asked(orgs: Orgs.Bucket, org: string, name: string): Role
    requires org in orgs
  {
    Role(org, if name == "*" then orgs[org].defaultRole else name)
  }

  lemma OneAsked(orgs: Orgs.Bucket, org: string, name: string)
    requires org in orgs && org != "" && orgs[org].defaultRole != ""
    requires name in ["member", "viewer", "editor", "admin", "*"]
    ensures var rs := [Role(org, name)];
      && ValidRoles(rs) && OrgsExist(orgs, rs) && Resolved(orgs, rs) == [Asked(orgs, org, name)]
      && ValidFor(org, Resolved(orgs, rs)) && Filter(Resolved(orgs, rs), In(org)) == Resolved(orgs, rs)
  {
    assert Resolved(orgs, [Role(org, name)]) == [Asked(orgs, org, name)];
  }

  /** A user created in an organization has the role asked for there. */
  lemma CreatedIsSeen(db: DB, orgs: Orgs.Bucket, org: string, name: string, req: Request, byAdmin: bool,
      newAdmins: bool)
    requires Keyed(db) && org in orgs && org != "" && orgs[org].defaultRole != ""
    requires name in ["member", "viewer", "editor", "admin", "*"] && req.roles == [Role(org, name)]
    requires req.name != "" && req.provider != "" && req.scheme != ""
    requires byAdmin || !(newAdmins || req.superAdmin)
    requires OrgGet(db, org, ByName(req.name, req.provider, "oauth2")).Err?
    ensures var r := OrgGet(Create(db, orgs, Within(org), req, byAdmin, newAdmins), org,
                            ByName(req.name, req.provider, "oauth2"));
      r.Ok? && r.value.roles == [Asked(orgs, org, name)]
  {
    OneAsked(orgs, org, name);
    CreatedHas(db, orgs, org, [Asked(orgs, org, name)], req, byAdmin, newAdmins);
  }

  lemma CreatedHas(db: DB, orgs: Orgs.Bucket, org: string, rs: seq<Role>, req: Request, byAdmin: bool,
      newAdmins: bool)
    requires Keyed(db) && rs != [] && ValidFor(org, rs) && OrgsExist(orgs, req.roles) && Resolved(orgs, req.roles) == rs
    requires req.name != "" && req.provider != "" && req.scheme != "" && ValidRoles(req.roles)
    requires byAdmin || !(newAdmins || req.superAdmin)
    requires OrgGet(db, org, ByName(req.name, req.provider, SCHEME)).Err?
    ensures var r := OrgGet(Create(db, orgs, Within(org), req, byAdmin, newAdmins), org,
                            ByName(req.name, req.provider, SCHEME));
      r.Ok? && r.value.roles == rs
  {
    var u := User(0, req.name, req.provider, SCHEME, byAdmin && (newAdmins || req.superAdmin), rs);
    CreateAccepts(db, orgs, org, req, byAdmin, newAdmins);
    AddedIsSeen(db, org, u);
  }

  lemma CreateAccepts(db: DB, orgs: Orgs.Bucket, org: string, req: Request, byAdmin: bool, newAdmins: bool)
    requires req.name != "" && req.provider != "" && req.scheme != "" && ValidRoles(req.roles)
    requires OrgsExist(orgs, req.roles) && (byAdmin || !(newAdmins || req.superAdmin))
    ensures Create(db, orgs, Within(org), req, byAdmin, newAdmins) ==
      OrgAdd(db, org, User(0, req.name, req.provider, SCHEME, byAdmin && (newAdmins || req.superAdmin),
                           Resolved(orgs, req.roles))).0
  {
  }

  lemma AddedToKnown(db: DB, org: string, u: User)
    requires Keyed(db) && ValidFor(org, u.roles) && Find(db, NameOf(u)).Ok? && OrgGet(db, org, NameOf(u)).Err?
    ensures OrgAdd(db, org, u).0 == StoreUpdate(db, Joined(Find(db, NameOf(u)).value, u, org)).0
  {
    FindKeyed(db, NameOf(u));
    NoneHere(Find(db, NameOf(u)).value.roles, org);
    JoinsKnown(db, org, u, Find(db, NameOf(u)).value);
  }

  lemma AddedIsSeen(db: DB, org: string, u: User)
    requires Keyed(db) && ValidFor(org, u.roles) && u.roles != [] && OrgGet(db, org, NameOf(u)).Err?
    ensures var r := OrgGet(OrgAdd(db, org, u).0, org, NameOf(u)); r.Ok? && r.value.roles == u.roles
  {
    var found := Find(db, NameOf(u));
    if found.Err? {
      AddedFound(db, u);
      FilterAll(u.roles, In(org));
    } else {
      AddedToKnown(db, org, u);
      WrittenShows(found.value, u.roles, org);
      FirstIsIn(Records(db.table), Named(NameOf(u)));
      SameFound(db, NameOf(u), Joined(found.value, u, org));
    }
  }

  /** A member updated in an organization has the role asked for there. */
  lemma ModifiedIsSeen(db: DB, orgs: Orgs.Bucket, org: string, name: string, id: nat, req: Request, actor: nat,
      byAdmin: bool)
    requires Keyed(db) && org in orgs && org != "" && orgs[org].defaultRole != ""
    requires name in ["member", "viewer", "editor", "admin", "*"] && req.roles == [Role(org, name)]
    requires req.name == req.provider == req.scheme == "" && OrgGet(db, org, ByID(id)).Ok?
    requires req.superAdmin == db.table[id].superAdmin || (byAdmin && (actor != id || req.superAdmin))
    ensures var r := OrgGet(Modify(db, orgs, Within(org), id, req, actor, byAdmin), org, ByID(id));
      r.Ok? && r.value.roles == [Asked(orgs, org, name)] && r.value.superAdmin == req.superAdmin
  {
    OneAsked(orgs, org, name);
    var usr := View(db.table[id], org).(roles := [Asked(orgs, org, name)], superAdmin := req.superAdmin);
    ModifyAccepts(db, orgs, org, id, req, actor, byAdmin);
    UpdateGet(db, org, usr);
  }

  lemma ModifyAccepts(db: DB, orgs: Orgs.Bucket, org: string, id: nat, req: Request, actor: nat, byAdmin: bool)
    requires Keyed(db) && ValidRoles(req.roles) && OrgsExist(orgs, req.roles)
    requires req.name == req.provider == req.scheme == "" && OrgGet(db, org, ByID(id)).Ok?
    requires req.superAdmin == db.table[id].superAdmin || (byAdmin && (actor != id || req.superAdmin))
    ensures Modify(db, orgs, Within(org), id, req, actor, byAdmin) ==
      OrgUpdate(db, org, View(db.table[id], org).(roles := Resolved(orgs, req.roles), superAdmin := req.superAdmin)).0
  {
  }

  /** The same super admins. */
  ghost predicate SameFlags(db: DB, db': DB) {
    forall k :: k in db'.table ==> (db'.table[k].superAdmin <==> k in db.table && db.table[k].superAdmin)
  }

  lemma ScopedAddFlags(db: DB, scope: Scope, u: User)
    requires Keyed(db) && !u.superAdmin
    ensures SameFlags(db, ScopedAdd(db, scope, u))
  {
    FindKeyed(db, NameOf(u));
    if scope.Within? { AddFlags(db, scope.org, u); }
  }

  lemma AddFlags(db: DB, org: string, u: User)
    requires Keyed(db) && !u.superAdmin
    ensures SameFlags(db, OrgAdd(db, org, u).0)
  {
    FindKeyed(db, NameOf(u));
  }

  lemma ScopedUpdateFlags(db: DB, scope: Scope, u: User)
    requires u.id in db.table ==> u.superAdmin == db.table[u.id].superAdmin
    ensures SameFlags(db, ScopedUpdate(db, scope, u))
  {
  }

  lemma CreateFlags(db: DB, orgs: Orgs.Bucket, scope: Scope, req: Request, newAdmins: bool)
    requires Keyed(db)
    ensures SameFlags(db, Create(db, orgs, scope, req, false, newAdmins))
  {
    if OrgsExist(orgs, req.roles) {
      ScopedAddFlags(db, scope, User(0, req.name, req.provider, SCHEME, false, Resolved(orgs, req.roles)));
    }
  }

  lemma ModifyFlags(db: DB, orgs: Orgs.Bucket, scope: Scope, req: Request, id: nat, actor: nat)
    requires Keyed(db)
    ensures SameFlags(db, Modify(db, orgs, scope, id, req, actor, false))
  {
    var u := ScopedGet(db, scope, id);
    if OrgsExist(orgs, req.roles) && u.Ok? {
      ScopedUpdateFlags(db, scope, u.value.(roles := Resolved(orgs, req.roles)));
    }
  }

  /** Requests of others than super admins make nobody a super admin, and no super admin anything else. */
  lemma OnlyAdminsSetFlags(db: DB, orgs: Orgs.Bucket, scope: Scope, req: Request, id: nat, actor: nat, newAdmins: bool)
    requires Keyed(db)
    ensures SameFlags(db, Create(db, orgs, scope, req, false, newAdmins))
    ensures SameFlags(db, Modify(db, orgs, scope, id, req, actor, false))
  {
    CreateFlags(db, orgs, scope, req, newAdmins);
    ModifyFlags(db, orgs, scope, req, id, actor);
  }

  /** Super admins do not take the flag from themselves. */
  lemma KeepsOwnFlag(db: DB, orgs: Orgs.Bucket, scope: Scope, id: nat, req: Request, byAdmin: bool)
    requires Keyed(db) && id in db.table && db.table[id].superAdmin
    ensures var db' := Modify(db, orgs, scope, id, req, id, byAdmin); id in db'.table && db'.table[id].superAdmin
  {
  }

  // ---------------------------------------------------------------- the handlers

  /** The request's organization, the default one if the principal names none. */
  function CurrentOrg(orgs: Orgs.Bucket, current: string): string {
    if current == "" then DefaultOrg(orgs).id else current
  }

  /** Me answers when the current organization exists and the user is known, or is a super admin or has
      a mapped role, and so is stored before that organization is looked up. */
  predicate Admitted(db: DB, orgs: Orgs.Bucket, ms: seq<Orgs.Mapping>, p: Principal, current: string,
      superAdmin: bool) {
    && CurrentOrg(orgs, current) in orgs
    && (Find(db, Who(p)).Ok? || superAdmin || MappedRoles(ms, orgs, p) != [])
  }

  /** Who may switch to an organization: its members, and super admins, who become members. */
  predicate MaySwitch(db: DB, orgs: Orgs.Bucket, org: string, p: Principal) {
    org in orgs
    && (OrgGet(db, org, Who(p)).Ok? || (Find(db, Who(p)).Ok? && Find(db, Who(p)).value.superAdmin))
  }

  lemma StillFound(db: DB, u: User, q: Query)
    requires Keyed(db) && q.ByName? && u.id in db.table && Named(q)(u)
    ensures Keyed(StoreUpdate(db, u).0) && Find(StoreUpdate(db, u).0, q).Ok?
  {
    FindKeyed(StoreUpdate(db, u).0, q);
    assert u.id in StoreUpdate(db, u).0.table && StoreUpdate(db, u).0.table[u.id] == u;
  }

  /** Whoever may switch is known afterwards. */
  lemma SwitchedIsKnown(db: DB, orgs: Orgs.Bucket, org: string, p: Principal)
    requires Keyed(db) && MaySwitch(db, orgs, org, p)
    ensures Keyed(Switch(db, orgs, org, p)) && Find(Switch(db, orgs, org, p), Who(p)).Ok?
  {
    FindKeyed(db, Who(p));
    var u := Find(db, Who(p)).value;
    FirstIsIn(Records(db.table), Named(Who(p)));
    StillFound(db, u.(roles := u.roles + [Role(orgs[org].id, orgs[org].defaultRole)]), Who(p));
  }

  lemma MappedRolesSnoc(ms: seq<Orgs.Mapping>, i: nat, orgs: Orgs.Bucket, p: Principal)
    requires i < |ms|
    ensures MappedRoles(ms[..i + 1], orgs, p) ==
      var rs := MappedRoles(ms[..i], orgs, p);
      if !Applies(ms[i], p) || ms[i].organization !in orgs || HasRoleIn(rs, orgs[ms[i].organization].id) then rs
      else rs + [Role(orgs[ms[i].organization].id, orgs[ms[i].organization].defaultRole)]
  {
    assert ms[..i + 1][..i] == ms[..i];
  }

  class Service {
    const organizations: Orgs.OrganizationsStore
    const users: UsersStore
    const mappings: Orgs.MappingsStore
    var superAdminNewUsers: bool

    ghost predicate Wired()
      reads organizations
    {
      organizations.users == users && organizations.mappings == mappings
    }

    constructor (organizations: Orgs.OrganizationsStore, superAdminNewUsers: bool)
      ensures Wired() && this.organizations == organizations
    {
      this.organizations := organizations;
      this.users, this.mappings := organizations.users, organizations.mappings;
      this.superAdminNewUsers := superAdminNewUsers;
    }

    method HasRole(rs: seq<Role>, org: string) returns (has: bool)
      ensures has <==> HasRoleIn(rs, org)
    {
      for i := 0 to |rs|
        invariant !HasRoleIn(rs[..i], org)
      {
        if rs[i].organization == org {
          return true;
        }
      }
      assert rs[..|rs|] == rs;
      return false;
    }

    method MapPrincipalToRoles(ms: seq<Orgs.Mapping>, p: Principal) returns (rs: seq<Role>)
      ensures rs == MappedRoles(ms, organizations.bucket, p)
    {
      rs := [];
      for i := 0 to |ms|
        invariant rs == MappedRoles(ms[..i], organizations.bucket, p)
      {
        MappedRolesSnoc(ms, i, organizations.bucket, p);
        if Applies(ms[i], p) {
          var org := organizations.Get(ms[i].organization);
          if org.Ok? {
            var has := HasRole(rs, org.value.id);
            if !has {
              rs := rs + [Role(org.value.id, org.value.defaultRole)];
            }
          }
        }
      }
      assert ms[..|ms|] == ms;
    }

    /** The part of Me that stores an unknown user, with the mappings that the store lists. */
    method FirstLogin(p: Principal, ms: seq<Orgs.Mapping>, superAdmin: bool) returns (stored: bool)
      requires Find(users.db, Who(p)).Err?
      modifies users
      ensures users.db == Login(old(users.db), organizations.bucket, ms, p, superAdmin,
                                old(users.db.table) == map[] || superAdminNewUsers)
      ensures stored <==> superAdmin || MappedRoles(ms, organizations.bucket, p) != []
    {
      var admin := superAdmin || users.db.table == map[] || superAdminNewUsers;
      var rs := MapPrincipalToRoles(ms, p);
      if !superAdmin && |rs| == 0 {
        return false;
      }
      if admin {
        var default := DefaultOrg(organizations.bucket);
        var has := HasRole(rs, default.id);
        if !has {
          rs := rs + [Role(default.id, default.defaultRole)];
        }
      }
      var r := users.Add(User(0, p.subject, p.issuer, SCHEME, admin, rs));
      return r.Ok?;
    }

    /** Me: findOrCreate for the principal of the request, who is in the organization `current`. */
    method Me(p: Principal, current: string, superAdmin: bool) returns (accepted: bool, ghost ms: seq<Orgs.Mapping>)
      requires Wired() && mappings.Valid() && Keyed(users.db)
      modifies users
      ensures Orgs.Lists(ms, mappings.bucket)
      ensures users.db == Login(old(users.db), organizations.bucket, ms, p, superAdmin,
                                old(users.db.table) == map[] || superAdminNewUsers)
      ensures accepted <==> Admitted(old(users.db), organizations.bucket, ms, p, current, superAdmin)
    {
      var all := mappings.All();
      ms := all;
      var org := current;
      if org == "" {
        org := DefaultOrg(organizations.bucket).id;
      }
      FindKeyed(users.db, Who(p));
      var found := users.Get(Who(p));
      if found.Err? {
        var stored := FirstLogin(p, all, superAdmin);
        if !stored {
          return false, ms;
        }
      } else if superAdmin && !found.value.superAdmin {
        var r := users.Update(found.value.(superAdmin := true));
        if r.Err? {
          return false, ms;
        }
      }
      var currentOrg := organizations.Get(org);
      return currentOrg.Ok?, ms;
    }

    /** UpdateMe: checks or creates the membership, then goes on as Me in that organization. */
    method UpdateMe(org: string, p: Principal, superAdmin: bool) returns (accepted: bool, ghost ms: seq<Orgs.Mapping>)
      requires Wired() && mappings.Valid() && Keyed(users.db) && organizations.Valid()
      modifies users
      ensures accepted <==> MaySwitch(old(users.db), organizations.bucket, org, p)
      ensures !accepted ==> users.db == old(users.db)
      ensures accepted ==> Orgs.Lists(ms, mappings.bucket)
      ensures var switched := Switch(old(users.db), organizations.bucket, org, p);
        accepted ==> users.db == Login(switched, organizations.bucket, ms, p, superAdmin,
                                       switched.table == map[] || superAdminNewUsers)
    {
      ms := [];
      var found := organizations.Get(org);
      if found.Err? {
        return false, ms;
      }
      FindKeyed(users.db, Who(p));
      var scoped := new OrgUsersStore(users, org);
      var member := scoped.Get(Who(p));
      if member.Err? {
        var u := users.Get(Who(p));
        if u.Err? || !u.value.superAdmin {
          return false, ms;
        }
        SwitchedIsKnown(users.db, organizations.bucket, org, p);
        var r := users.Update(u.value.(roles := u.value.roles + [Role(found.value.id, found.value.defaultRole)]));
        if r.Err? {
          return false, ms;
        }
      }
      accepted, ms := Me(p, org, superAdmin);
    }

    /** ValidRoles: the map of organizations seen so far. */
    method CheckRoles(rs: seq<Role>) returns (ok: bool)
      ensures ok <==> ValidRoles(rs)
    {
      var orgs: set<string> := {};
      for i := 0 to |rs|
        invariant ValidRoles(rs[..i])
        invariant orgs == set j | 0 <= j < i :: rs[j].organization
      {
        var r := rs[i];
        if r.organization == "" {
          return false;
        }
        if r.organization in orgs {
          var j :| 0 <= j < i && rs[j].organization == r.organization;
          return false;
        }
        orgs := orgs + {r.organization};
        if !KnownRole(r.name) {
          return false;
        }
        assert rs[..i + 1] == rs[..i] + [r];
      }
      assert rs[..|rs|] == rs;
      return true;
    }

    /** validRoles: writes the default role over each wildcard in place. */
    method ResolveRoles(rs: array<Role>) returns (ok: bool)
      modifies rs
      ensures ok <==> OrgsExist(organizations.bucket, old(rs[..]))
      ensures ok ==> rs[..] == Resolved(organizations.bucket, old(rs[..]))
    {
      for i := 0 to rs.Length
        invariant forall j :: 0 <= j < i ==> old(rs[j]).organization in organizations.bucket
        invariant forall j :: 0 <= j < i ==> rs[j] == ResolvedRole(organizations.bucket, old(rs[j]))
        invariant forall j :: i <= j < rs.Length ==> rs[j] == old(rs[j])
      {
        var role := rs[i];
        var org := organizations.Get(role.organization);
        if org.Err? {
          assert old(rs[..])[i] == role;
          return false;
        }
        if role.name == WILDCARD_ROLE {
          rs[i] := role.(name := org.value.defaultRole);
        }
      }
      return true;
    }

    method Add(scope: Scope, u: User) returns (ok: bool)
      modifies users
      ensures users.db == ScopedAdd(old(users.db), scope, u)
    {
      match scope
      case Raw =>
        var r := users.Add(u);
        return r.Ok?;
      case Within(org) =>
        var scoped := new OrgUsersStore(users, org);
        var r := scoped.Add(u);
        return r.Ok?;
    }

    method Get(scope: Scope, id: nat) returns (r: Result<User>)
      ensures r == ScopedGet(users.db, scope, id)
    {
      match scope
      case Raw => r := users.Get(ByID(id));
      case Within(org) =>
        var scoped := new OrgUsersStore(users, org);
        r := scoped.Get(ByID(id));
    }

    method Update(scope: Scope, u: User) returns (ok: bool)
      modifies users
      ensures users.db == ScopedUpdate(old(users.db), scope, u)
    {
      match scope
      case Raw =>
        var r := users.Update(u);
        return r.Ok?;
      case Within(org) =>
        var scoped := new OrgUsersStore(users, org);
        var r := scoped.Update(u);
        return r.Ok?;
    }

    method NewUser(scope: Scope, req: Request, byAdmin: bool) returns (ok: bool)
      modifies users
      ensures users.db == Create(old(users.db), organizations.bucket, scope, req, byAdmin, superAdminNewUsers)
    {
      if req.name == "" || req.provider == "" || req.scheme == "" {
        return false;
      }
      ok := CheckRoles(req.roles);
      if !ok {
        return;
      }
      var rs := new Role[|req.roles|](i requires 0 <= i < |req.roles| => req.roles[i]);
      assert rs[..] == req.roles;
      ok := ResolveRoles(rs);
      if !ok {
        return;
      }
      var asked := superAdminNewUsers || req.superAdmin;
      if !byAdmin && asked {
        return false;
      }
      ok := Add(scope, User(0, req.name, req.provider, SCHEME, byAdmin && asked, rs[..]));
    }

    method UpdateUser(scope: Scope, id: nat, req: Request, actor: nat, byAdmin: bool) returns (ok: bool)
      modifies users
      ensures users.db == Modify(old(users.db), organizations.bucket, scope, id, req, actor, byAdmin)
    {
      ok := CheckRoles(req.roles);
      if !ok {
        return;
      }
      var found := Get(scope, id);
      if found.Err? {
        return false;
      }
      var u := found.value;
      var rs := new Role[|req.roles|](i requires 0 <= i < |req.roles| => req.roles[i]);
      assert rs[..] == req.roles;
      ok := ResolveRoles(rs);
      if !ok {
        return;
      }
      if (req.name != "" && req.name != u.name) || (req.provider != "" && req.provider != u.provider)
         || (req.scheme != "" && req.scheme != u.scheme) {
        return false;
      }
      if actor == u.id && u.superAdmin && !req.superAdmin {
        return false;
      }
      if !MaySet(byAdmin, req.superAdmin, u.superAdmin) {
        return false;
      }
      u := u.(roles := rs[..]);
      if byAdmin {
        u := u.(superAdmin := req.superAdmin);
      }
      ok := Update(scope, u);
    }

    method RemoveUser(scope: Scope, id: nat) returns (ok: bool)
      modifies users
      ensures users.db == Remove(old(users.db), scope, id)
    {
      var found := Get(scope, id);
      if found.Err? {
        return false;
      }
      match scope
      case Raw =>
        var r := users.Delete(found.value);
        return r.Ok?;
      case Within(org) =>
        var scoped := new OrgUsersStore(users, org);
        var r := scoped.Delete(found.value);
        return r.Ok?;
    }

    /** Best attempt at cleaning up the organization just added. */
    method Undo(org: Orgs.Organization)
      requires Wired() && organizations.StoresValid() && org.id in organizations.bucket && org.id != Orgs.DEFAULT_ID
      modifies organizations, organizations.sources`bucket, organizations.servers`bucket, organizations.dashboards,
        users, mappings
      ensures users.db == old(users.db).(table := MapValues(old(users.db.table), Strip(org.id)))
      ensures organizations.bucket == old(organizations.bucket) - {org.id}
    {
      var r := organizations.Delete(org);
    }

    /** The creator of a new organization becomes its admin, or the organization is deleted again. */
    method MakeAdmin(org: Orgs.Organization, creator: Option<User>) returns (ok: bool)
      requires Wired() && organizations.StoresValid() && org.id in organizations.bucket && org.id != Orgs.DEFAULT_ID
      modifies organizations, organizations.sources`bucket, organizations.servers`bucket,
               organizations.dashboards, users, mappings
      ensures (users.db, ok) == Founded(old(users.db), org.id, creator)
      ensures Unheld(old(users.db), org.id) && org.id != "" ==>
        && (ok <==> creator.Some?)
        && (if ok then Administers(old(users.db), users.db, org.id, creator.value) else users.db == old(users.db))
      ensures organizations.bucket == if ok then old(organizations.bucket) else old(organizations.bucket) - {org.id}
    {
      if Unheld(users.db, org.id) && org.id != "" { FounderAdministers(users.db, org.id, creator); }
      if creator.None? {
        Undo(org);
        return false;
      }
      var scoped := new OrgUsersStore(users, org.id);
      var added := scoped.Add(creator.value.(roles := [Role(org.id, ADMIN)]));
      if added.Err? {
        Undo(org);
        return false;
      }
      return true;
    }

    /** NewOrganization: adds the organization, then makes the creator its admin. */
    method NewOrganization(org: Orgs.Organization, creator: Option<User>) returns (ok: bool, ghost id: string)
      requires Wired() && organizations.StoresValid()
      modifies organizations, organizations.sources`bucket, organizations.servers`bucket,
               organizations.dashboards, users, mappings
      ensures Orgs.Taken(old(organizations.bucket), org.name) ==>
        !ok && users.db == old(users.db) && organizations.bucket == old(organizations.bucket)
      ensures !Orgs.Taken(old(organizations.bucket), org.name) ==>
        && id !in old(organizations.bucket) && (users.db, ok) == Founded(old(users.db), id, creator)
        && organizations.bucket == if ok then old(organizations.bucket)[id := org.(id := id)]
          else old(organizations.bucket)
      ensures !Orgs.Taken(old(organizations.bucket), org.name)
              && RolesNamed(old(users.db), old(organizations.bucket)) ==>
        && (ok <==> creator.Some?)
        && (if ok then Administers(old(users.db), users.db, id, creator.value) else users.db == old(users.db))
    {
      id := "";
      var res := organizations.Add(org);
      if res.Err? {
        return false, id;
      }
      id := res.value.id;
      if RolesNamed(users.db, old(organizations.bucket)) {
        UnknownIsUnheld(users.db, old(organizations.bucket), id);
      }
      ok := MakeAdmin(res.value, creator);
    }
  }
}
