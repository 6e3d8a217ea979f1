/** The user table (bolt/users.go) and the organization facade over it
    (organizations/users.go): one table for all organizations, in which each facade sees and
    edits only the roles of its own organization. */
module Users {
  import opened Options
  import opened Buckets

  datatype Role = Role(organization: string, name: string)

  datatype User = User(id: nat, name: string, provider: string, scheme: string, superAdmin: bool, roles: seq<Role>)

  datatype Query = ByID(id: nat) | ByName(name: string, provider: string, scheme: string)

  datatype Error = UserNotFound | UserAlreadyExists | InvalidRoles

  datatype Result<+T> = Ok(value: T) | Err(error: Error)

  /** The users bucket and its sequence. */
  datatype DB = DB(table: map<nat, User>, sequence: nat)

  ghost predicate Keyed(db: DB) {
    forall k :: k in db.table ==> db.table[k].id == k && k <= db.sequence
  }

  // ---------------------------------------------------------------- the bolt store

  function Named(q: Query): User -> bool {
    (u: User) => q.ByName? && u.name == q.name && u.provider == q.provider && u.scheme == q.scheme
  }

  function First(us: seq<User>, want: User -> bool): Result<User> {
    if us == [] then Err(UserNotFound) else if want(us[0]) then Ok(us[0]) else First(us[1..], want)
  }

  function Find(db: DB, q: Query): Result<User> {
    match q
    case ByID(id) => if id in db.table then Ok(db.table[id]) else Err(UserNotFound)
    case ByName(_, _, _) => First(Records(db.table), Named(q))
  }

  function NameOf(u: User): Query {
    ByName(u.name, u.provider, u.scheme)
  }

  function StoreAdd(db: DB, u: User): (DB, Result<User>) {
    if Find(db, NameOf(u)).Ok? then (db, Err(UserAlreadyExists))
    else
      var added := u.(id := db.sequence + 1);
      (DB(db.table[added.id := added], added.id), Ok(added))
  }

  function StoreUpdate(db: DB, u: User): (DB, Result<()>) {
    if u.id in db.table then (db.(table := db.table[u.id := u]), Ok(())) else (db, Err(UserNotFound))
  }

  function StoreDelete(db: DB, u: User): (DB, Result<()>) {
    if u.id in db.table then (db.(table := db.table - {u.id}), Ok(())) else (db, Err(UserNotFound))
  }

  class UsersStore {
    var db: DB

    constructor ()
      ensures db == DB(map[], 0)
    {
      db := DB(map[], 0);
    }

    method Get(q: Query) returns (r: Result<User>)
      ensures r == Find(db, q)
    {
      match q
      case ByID(id) => return if id in db.table then Ok(db.table[id]) else Err(UserNotFound);
      case ByName(name, provider, scheme) =>
        var us := Records(db.table);
        for i := 0 to |us|
          invariant First(us, Named(q)) == First(us[i..], Named(q))
        {
          var u := us[i];
          if u.name == name && u.provider == provider && u.scheme == scheme {
            return Ok(u);
          }
        }
        return Err(UserNotFound);
    }

    method Add(u: User) returns (r: Result<User>)
      modifies this
      ensures (db, r) == StoreAdd(old(db), u)
    {
      var existing := Get(NameOf(u));
      if existing.Ok? {
        return Err(UserAlreadyExists);
      }
      var seq' := db.sequence + 1;
      var added := u.(id := seq');
      db := DB(db.table[seq' := added], seq');
      return Ok(added);
    }

    method Update(u: User) returns (r: Result<()>)
      modifies this
      ensures (db, r) == StoreUpdate(old(db), u)
    {
      var existing := Get(ByID(u.id));
      if existing.Err? {
        return Err(existing.error);
      }
      db := db.(table := db.table[u.id := u]);
      return Ok(());
    }

    method Delete(u: User) returns (r: Result<()>)
      modifies this
      ensures (db, r) == StoreDelete(old(db), u)
    {
      var existing := Get(ByID(u.id));
      if existing.Err? {
        return Err(existing.error);
      }
      db := db.(table := db.table - {u.id});
      return Ok(());
    }
  }

  // ---------------------------------------------------------------- the facade, specified

  function In(org: string): Role -> bool {
    (r: Role) => r.organization == org
  }

  function NotIn(org: string): Role -> bool {
    (r: Role) => r.organization != org
  }

  /** validOrganizationRoles: only complete roles of this organization may be written. */
  predicate ValidFor(org: string, roles: seq<Role>) {
    forall r :: r in roles ==> r.organization != "" && r.organization == org && r.name != ""
  }

  /** A user as one organization sees it, and the roles it does not see. */
  function View(u: User, org: string): User {
    u.(roles := Filter(u.roles, In(org)))
  }

  function Elsewhere(u: User, org: string): seq<Role> {
    Filter(u.roles, NotIn(org))
  }

  function OrgGet(db: DB, org: string, q: Query): Result<User> {
    match Find(db, q)
    case Err(e) => Err(e)
    case Ok(u) => if View(u, org).roles == [] then Err(UserNotFound) else Ok(View(u, org))
  }

  function OrgAdd(db: DB, org: string, u: User): (DB, Result<User>) {
    if !ValidFor(org, u.roles) then (db, Err(InvalidRoles))
    else
      match Find(db, NameOf(u))
      case Err(_) => StoreAdd(db, u)
      case Ok(usr) =>
        var roles := Elsewhere(usr, org);
        if |usr.roles| - |roles| > 0 then (db, Err(UserAlreadyExists))
        else
          var (db', r) := StoreUpdate(db, usr.(roles := roles + u.roles, superAdmin := u.superAdmin || usr.superAdmin));
          (db', if r.Ok? then Ok(u.(id := usr.id)) else Err(r.error))
  }

  function OrgUpdate(db: DB, org: string, usr: User): (DB, Result<()>) {
    if !ValidFor(org, usr.roles) then (db, Err(InvalidRoles))
    else
      match Find(db, ByID(usr.id))
      case Err(e) => (db, Err(e))
      case Ok(u) => StoreUpdate(db, usr.(roles := Elsewhere(u, org) + usr.roles))
  }

  function OrgDelete(db: DB, org: string, id: nat): (DB, Result<()>) {
    match Find(db, ByID(id))
    case Err(e) => (db, Err(e))
    case Ok(u) => StoreUpdate(db, u.(roles := Elsewhere(u, org)))
  }

  // ---------------------------------------------------------------- the facade

  class OrgUsersStore {
    const store: UsersStore
    const organization: string

    constructor (store: UsersStore, organization: string)
      ensures this.store == store && this.organization == organization
    {
      this.store, this.organization := store, organization;
    }

    method ValidRoles(roles: seq<Role>) returns (ok: bool)
      ensures ok <==> ValidFor(organization, roles)
    {
      for i := 0 to |roles|
        invariant ValidFor(organization, roles[..i])
      {
        var r := roles[i];
        if r.organization == "" || r.organization != organization || r.name == "" {
          return false;
        }
      }
      assert roles[..|roles|] == roles;
      return true;
    }

    /** `roles := u.Roles[:0]` and the loop that appends what is kept. */
    method FilterRoles(roles: seq<Role>, keep: Role -> bool) returns (kept: seq<Role>)
      ensures kept == Filter(roles, keep)
    {
      var a := new Role[|roles|](i requires 0 <= i < |roles| => roles[i]);
      assert a[..] == roles;
      var n := FilterInPlace(a, keep);
      kept := a[..n];
    }

    method Get(q: Query) returns (r: Result<User>)
      ensures r == OrgGet(store.db, organization, q)
    {
      r := store.Get(q);
      if r.Err? {
        return;
      }
      var usr := r.value;
      var roles := FilterRoles(usr.roles, In(organization));
      if |roles| == 0 {
        return Err(UserNotFound);
      }
      return Ok(usr.(roles := roles));
    }

    method Add(u: User) returns (r: Result<User>)
      modifies store
      ensures (store.db, r) == OrgAdd(old(store.db), organization, u)
    {
      var ok := ValidRoles(u.roles);
      if !ok {
        return Err(InvalidRoles);
      }
      var found := store.Get(NameOf(u));
      if found.Err? {
        r := store.Add(u);
        return;
      }
      var usr := found.value;
      var roles := FilterRoles(usr.roles, NotIn(organization));
      var numRolesInOrganization := |usr.roles| - |roles|;
      if numRolesInOrganization > 0 {
        return Err(UserAlreadyExists);
      }
      usr := usr.(roles := roles + u.roles);
      if u.superAdmin {
        usr := usr.(superAdmin := true);
      }
      var updated := store.Update(usr);
      if updated.Err? {
        return Err(updated.error);
      }
      return Ok(u.(id := usr.id));
    }

    method Delete(usr: User) returns (r: Result<()>)
      modifies store
      ensures (store.db, r) == OrgDelete(old(store.db), organization, usr.id)
    {
      var found := store.Get(ByID(usr.id));
      if found.Err? {
        return Err(found.error);
      }
      var u := found.value;
      var roles := FilterRoles(u.roles, NotIn(organization));
      r := store.Update(u.(roles := roles));
    }

    method Update(usr: User) returns (r: Result<()>)
      modifies store
      ensures (store.db, r) == OrgUpdate(old(store.db), organization, usr)
    {
      var ok := ValidRoles(usr.roles);
      if !ok {
        return Err(InvalidRoles);
      }
      var found := store.Get(ByID(usr.id));
      if found.Err? {
        return Err(found.error);
      }
      var u := found.value;
      var roles := FilterRoles(u.roles, NotIn(organization));
      var user := usr.(roles := roles + usr.roles);
      r := store.Update(user);
    }

    /** All users with a role in the organization, with the roles it sees. */
    method All() returns (us: seq<User>)
      ensures us == Members(Records(store.db.table), organization)
    {
      var usrs := Records(store.db.table);
      var a := new User[|usrs|](i requires 0 <= i < |usrs| => usrs[i]);
      assert a[..] == usrs;
      var n := KeepMembers(a);
      us := a[..n];
    }

    /** `us := usrs[:0]` and the loop that appends every user with a role here. */
    method KeepMembers(a: array<User>) returns (n: nat)
      modifies a
      ensures n <= a.Length && a[..n] == Members(old(a[..]), organization)
    {
      n := 0;
      ghost var was := a[..];
      for i := 0 to a.Length
        invariant n <= i
        invariant a[..n] == Members(was[..i], organization)
        invariant forall j :: i <= j < a.Length ==> a[j] == was[j]
      {
        var roles := FilterRoles(a[i].roles, In(organization));
        MembersSnoc(was, i, organization);
        if |roles| != 0 {
          ghost var kept := a[..n];
          a[n] := a[i].(roles := roles);
          n := n + 1;
          assert a[..n] == kept + [View(was[i], organization)];
        }
      }
      assert was[..a.Length] == was;
    }

    /** The part of an organization's deletion that strips every user of its roles there. */
    method DeleteAll() returns (ok: bool)
      requires Keyed(store.db)
      modifies store
      ensures ok && Keyed(store.db)
      ensures store.db == old(store.db).(table := MapValues(old(store.db.table), Strip(organization)))
    {
      var users := All();
      ghost var was := store.db;
      ghost var ids := Ids(users, (u: User) => u.id);
      MembersCover(was, organization, ids);
      for i := 0 to |users|
        invariant Stripping(was, store.db, organization, ids, i)
      {
        StripNext(was, store.db, organization, ids, i);
        var r := Delete(users[i]);
        if r.Err? {
          return false;
        }
      }
      StripDone(was, store.db, organization, ids);
      return true;
    }
  }

  function Members(us: seq<User>, org: string): seq<User> {
    if us == [] then []
    else
      var n := |us| - 1;
      Members(us[..n], org) + (if View(us[n], org).roles != [] then [View(us[n], org)] else [])
  }

  function Strip(org: string): User -> User {
    (u: User) => u.(roles := Elsewhere(u, org))
  }

  lemma MembersSnoc(us: seq<User>, i: nat, org: string)
    requires i < |us|
    ensures Members(us[..i + 1], org) ==
      Members(us[..i], org) + (if View(us[i], org).roles != [] then [View(us[i], org)] else [])
  {
    assert us[..i + 1][..i] == us[..i];
  }

  lemma {:induction false} MembersOf(us: seq<User>, org: string)
    ensures forall v :: v in Members(us, org) ==> exists u :: u in us && v == View(u, org)
    ensures forall u :: u in us && View(u, org).roles != [] ==> View(u, org) in Members(us, org)
  {
    if us != [] {
      var n := |us| - 1;
      MembersOf(us[..n], org);
      assert us == us[..n] + [us[n]];
    }
  }

  ghost predicate Covers(m: map<nat, User>, org: string, ids: seq<nat>) {
    && (forall k :: k in ids ==> k in m)
    && (forall k :: k in m && View(m[k], org).roles != [] ==> k in ids)
  }

  lemma RecordKeyed(db: DB, u: User)
    requires Keyed(db)
    ensures u in Records(db.table) <==> u.id in db.table && db.table[u.id] == u
  {
    var us, ks := Records(db.table), Ascending(db.table.Keys);
    if u in us {
      var j :| 0 <= j < |us| && us[j] == u;
      assert us[j] == db.table[ks[j]];
    }
    if u.id in db.table && db.table[u.id] == u {
      assert u.id in ks;
      var j :| 0 <= j < |ks| && ks[j] == u.id;
      assert us[j] == u;
    }
  }

  lemma MembersCover(db: DB, org: string, ids: seq<nat>)
    requires Keyed(db) && ids == Ids(Members(Records(db.table), org), (u: User) => u.id)
    ensures Covers(db.table, org, ids)
  {
    var us := Records(db.table);
    var vs := Members(us, org);
    MembersOf(us, org);
    forall k | k in ids ensures k in db.table {
      var i :| 0 <= i < |ids| && ids[i] == k;
      assert vs[i] in vs;
      var u :| u in us && vs[i] == View(u, org);
      RecordKeyed(db, u);
    }
    forall k | k in db.table && View(db.table[k], org).roles != [] ensures k in ids {
      RecordKeyed(db, db.table[k]);
      var v := View(db.table[k], org);
      var i :| 0 <= i < |vs| && vs[i] == v;
      assert ids[i] == k;
    }
  }

  /** Exactly the users listed so far have been stripped; stripping twice changes nothing. */
  ghost predicate StrippedOnly(m: map<nat, User>, now: map<nat, User>, org: string, done: seq<nat>) {
    now.Keys == m.Keys && forall k :: k in m ==> now[k] == if k in done then Strip(org)(m[k]) else m[k]
  }

  lemma StripStep(m: map<nat, User>, now: map<nat, User>, org: string, done: seq<nat>, x: nat)
    requires x in m && StrippedOnly(m, now, org, done)
    ensures StrippedOnly(m, now[x := Strip(org)(now[x])], org, done + [x])
  {
    KeptTwice(m[x].roles, NotIn(org));
    forall k | k in m ensures now[x := Strip(org)(now[x])][k] == if k in done + [x] then Strip(org)(m[k]) else m[k] {
      assert k in done + [x] <==> k in done || k == x;
    }
  }

  ghost predicate Stripping(was: DB, now: DB, org: string, ids: seq<nat>, i: nat) {
    && i <= |ids| && Keyed(now) && now.sequence == was.sequence
    && StrippedOnly(was.table, now.table, org, ids[..i])
  }

  lemma DeleteStrips(db: DB, org: string, id: nat)
    requires Keyed(db) && id in db.table
    ensures OrgDelete(db, org, id) == (db.(table := db.table[id := Strip(org)(db.table[id])]), Ok(()))
  {
  }

  lemma StripNext(was: DB, now: DB, org: string, ids: seq<nat>, i: nat)
    requires i < |ids| && Covers(was.table, org, ids) && Stripping(was, now, org, ids, i)
    ensures var (db, r) := OrgDelete(now, org, ids[i]); r.Ok? && Stripping(was, db, org, ids, i + 1)
  {
    DeleteStrips(now, org, ids[i]);
    StripStep(was.table, now.table, org, ids[..i], ids[i]);
    assert ids[..i + 1] == ids[..i] + [ids[i]];
  }

  lemma StripDone(was: DB, now: DB, org: string, done: seq<nat>)
    requires Covers(was.table, org, done) && Stripping(was, now, org, done, |done|)
    ensures now == was.(table := MapValues(was.table, Strip(org)))
  {
    assert done[..|done|] == done;
    forall k | k in was.table && k !in done ensures Strip(org)(was.table[k]) == was.table[k] {
      NoneHere(was.table[k].roles, org);
    }
    assert now.table == MapValues(was.table, Strip(org));
  }

  // ---------------------------------------------------------------- filtering roles

  lemma {:induction false} KeptTwice(rs: seq<Role>, keep: Role -> bool)
    ensures Filter(Filter(rs, keep), keep) == Filter(rs, keep)
  {
    FilterMembers(rs, keep);
    FilterAll(Filter(rs, keep), keep);
  }

  lemma {:induction false} NoneHere(rs: seq<Role>, org: string)
    ensures Filter(rs, In(org)) == [] <==> Filter(rs, NotIn(org)) == rs
    ensures |Filter(rs, In(org))| + |Filter(rs, NotIn(org))| == |rs|
  {
    if rs != [] {
      var n := |rs| - 1;
      NoneHere(rs[..n], org);
      assert rs == rs[..n] + [rs[n]];
    }
  }

  lemma {:induction false} Disjoint(rs: seq<Role>, org: string)
    ensures Filter(Filter(rs, NotIn(org)), In(org)) == []
  {
    NoneHere(Filter(rs, NotIn(org)), org);
    KeptTwice(rs, NotIn(org));
  }

  /** Another organization's roles are among those kept, in the same order. */
  lemma {:induction false} OtherOrg(rs: seq<Role>, org: string, other: string)
    requires other != org
    ensures Filter(Filter(rs, NotIn(org)), In(other)) == Filter(rs, In(other))
  {
    if rs != [] {
      var n := |rs| - 1;
      OtherOrg(rs[..n], org, other);
      FilterAppend(Filter(rs[..n], NotIn(org)), if rs[n].organization != org then [rs[n]] else [], In(other));
      assert Filter([rs[n]], In(other)) == if rs[n].organization == other then [rs[n]] else [];
    }
  }

  // ---------------------------------------------------------------- the facade is a lens

  /** What was written is read back, as long as it is something: a user without a role in the
      organization is not found. */
  lemma UpdateGet(db: DB, org: string, usr: User)
    requires Keyed(db) && OrgUpdate(db, org, usr).1.Ok?
    ensures var db' := OrgUpdate(db, org, usr).0;
      OrgGet(db', org, ByID(usr.id)) == if usr.roles == [] then Err(UserNotFound) else Ok(usr)
  {
    var u := Find(db, ByID(usr.id)).value;
    FilterAppend(Elsewhere(u, org), usr.roles, In(org));
    Disjoint(u.roles, org);
    FilterAll(usr.roles, In(org));
    assert Filter(Elsewhere(u, org) + usr.roles, In(org)) == usr.roles;
    assert View(usr.(roles := Elsewhere(u, org) + usr.roles), org) == usr;
  }

  lemma DeleteGet(db: DB, org: string, id: nat)
    requires Keyed(db) && OrgDelete(db, org, id).1.Ok?
    ensures OrgGet(OrgDelete(db, org, id).0, org, ByID(id)) == Err(UserNotFound)
  {
    Disjoint(db.table[id].roles, org);
  }

  /** A user added through the facade is read back with exactly the roles given, whether or not
      the table already had the user for another organization. */
  lemma AddGet(db: DB, org: string, u: User)
    requires Keyed(db) && OrgAdd(db, org, u).1.Ok? && u.roles != []
    ensures var (db', r) := OrgAdd(db, org, u);
      && OrgGet(db', org, ByID(r.value.id)).Ok?
      && OrgGet(db', org, ByID(r.value.id)).value.roles == u.roles
  {
    FindKeyed(db, NameOf(u));
    FilterAll(u.roles, In(org));
    if Find(db, NameOf(u)).Ok? { WrittenShows(Find(db, NameOf(u)).value, u.roles, org); }
  }

  /** Roles of the organization behind those elsewhere are what it sees. */
  lemma WrittenShows(u: User, rs: seq<Role>, org: string)
    requires ValidFor(org, rs)
    ensures Filter(Elsewhere(u, org) + rs, In(org)) == rs
  {
    FilterAll(rs, In(org));
    FilterAppend(Elsewhere(u, org), rs, In(org));
    Disjoint(u.roles, org);
  }

  /** The last of two updates wins. */
  lemma UpdateUpdate(db: DB, org: string, a: User, b: User)
    requires Keyed(db) && a.id == b.id && OrgUpdate(db, org, a).1.Ok? && ValidFor(org, b.roles)
    ensures OrgUpdate(OrgUpdate(db, org, a).0, org, b) == OrgUpdate(db, org, b)
  {
    var u := db.table[a.id];
    WrittenKeeps(u, a.roles, org);
    var x, y := OrgUpdate(OrgUpdate(db, org, a).0, org, b).0, OrgUpdate(db, org, b).0;
    assert Elsewhere(a.(roles := Elsewhere(u, org) + a.roles), org) == Elsewhere(u, org);
    assert x.table == y.table;
  }

  /** Writing back what was read keeps every role; the organization's own move to the end. */
  lemma GetUpdate(db: DB, org: string, id: nat)
    requires Keyed(db) && OrgGet(db, org, ByID(id)).Ok?
    requires forall r :: r in db.table[id].roles && r.organization == org ==> org != "" && r.name != ""
    ensures var u := OrgGet(db, org, ByID(id)).value; var (db', r) := OrgUpdate(db, org, u);
      && r == Ok(())
      && db'.table[id] == db.table[id].(roles := Elsewhere(db.table[id], org) + u.roles)
      && multiset(db'.table[id].roles) == multiset(db.table[id].roles)
  {
    var u := View(db.table[id], org);
    assert ValidFor(org, u.roles) by { FilterMembers(db.table[id].roles, In(org)); }
    assert OrgUpdate(db, org, u) == StoreUpdate(db, u.(roles := Elsewhere(db.table[id], org) + u.roles));
    SplitRoles(db.table[id].roles, org);
  }

  lemma {:induction false} FilterCount<T(!new)>(s: seq<T>, keep: T -> bool, x: T)
    ensures multiset(Filter(s, keep))[x] == if keep(x) then multiset(s)[x] else 0
  {
    if s != [] {
      var n := |s| - 1;
      FilterCount(s[..n], keep, x);
      assert s == s[..n] + [s[n]];
      assert Filter(s, keep) == Filter(s[..n], keep) + (if keep(s[n]) then [s[n]] else []);
    }
  }

  lemma SplitRoles(rs: seq<Role>, org: string)
    ensures multiset(Filter(rs, NotIn(org)) + Filter(rs, In(org))) == multiset(rs)
  {
    forall r ensures multiset(Filter(rs, NotIn(org)) + Filter(rs, In(org)))[r] == multiset(rs)[r] {
      FilterCount(rs, In(org), r);
      FilterCount(rs, NotIn(org), r);
    }
  }

  lemma {:induction false} NoneLeft(rs: seq<Role>, org: string)
    requires forall r :: r in rs ==> r.organization == org
    ensures Filter(rs, NotIn(org)) == []
  {
    if rs != [] { NoneLeft(rs[..|rs| - 1], org); }
  }

  lemma {:induction false} FirstIsIn(us: seq<User>, want: User -> bool)
    ensures var r := First(us, want); r.Ok? ==> r.value in us && want(r.value)
    ensures var r := First(us, want); r.Err? ==> r == Err(UserNotFound) && forall u :: u in us ==> !want(u)
  {
    if us != [] { FirstIsIn(us[1..], want); }
  }

  lemma FindKeyed(db: DB, q: Query)
    requires Keyed(db)
    ensures Find(db, q).Ok? ==> Find(db, q).value.id in db.table && db.table[Find(db, q).value.id] == Find(db, q).value
    ensures q.ByName? && Find(db, q).Err? ==> forall k :: k in db.table ==> !Named(q)(db.table[k])
  {
    if q.ByName? {
      FirstIsIn(Records(db.table), Named(q));
      if Find(db, q).Ok? {
        RecordKeyed(db, Find(db, q).value);
      } else {
        forall k | k in db.table ensures !Named(q)(db.table[k]) { RecordKeyed(db, db.table[k]); }
      }
    }
  }

  // ---------------------------------------------------------------- finding a written record again

  lemma {:induction false} FirstReplaced(us: seq<User>, vs: seq<User>, want: User -> bool, was: User, u: User)
    requires |us| == |vs| && First(us, want) == Ok(was) && want(u)
    requires forall i :: 0 <= i < |us| ==> vs[i] == if us[i] == was then u else us[i]
    ensures First(vs, want) == Ok(u)
  {
    if !want(us[0]) {
      FirstIsIn(us[1..], want);
      FirstReplaced(us[1..], vs[1..], want, was, u);
    }
  }

  /** Whoever was found is found after a change that keeps the name. */
  lemma SameFound(db: DB, q: Query, u: User)
    requires Keyed(db) && Find(db, q).Ok? && u.id == Find(db, q).value.id && NameOf(u) == NameOf(Find(db, q).value)
    ensures Find(StoreUpdate(db, u).0, q) == Ok(u)
  {
    FindKeyed(db, q);
    if q.ByName? {
      var db', was := StoreUpdate(db, u).0, Find(db, q).value;
      assert db'.table.Keys == db.table.Keys;
      FirstIsIn(Records(db.table), Named(q));
      FirstReplaced(Records(db.table), Records(db'.table), Named(q), was, u);
    }
  }

  lemma OneNamed(db: DB, q: Query, u: User)
    requires Keyed(db) && q.ByName? && u.id in db.table && db.table[u.id] == u && Named(q)(u)
    requires forall k :: k in db.table && k != u.id ==> !Named(q)(db.table[k])
    ensures Find(db, q) == Ok(u)
  {
    FindKeyed(db, q);
    FirstIsIn(Records(db.table), Named(q));
  }

  /** Whoever was added is found under the name given. */
  lemma AddedFound(db: DB, u: User)
    requires Keyed(db) && Find(db, NameOf(u)).Err?
    ensures Keyed(StoreAdd(db, u).0) && Find(StoreAdd(db, u).0, NameOf(u)) == StoreAdd(db, u).1
  {
    FindKeyed(db, NameOf(u));
    OneNamed(StoreAdd(db, u).0, NameOf(u), u.(id := db.sequence + 1));
  }

  lemma AddFlag(db: DB, org: string, u: User, id: nat)
    requires Keyed(db) && id in db.table
    ensures id in OrgAdd(db, org, u).0.table
    ensures var (db', r) := OrgAdd(db, org, u);
      db'.table[id].superAdmin == (db.table[id].superAdmin || (r.Ok? && r.value.id == id && u.superAdmin))
  {
    FindKeyed(db, NameOf(u));
  }

  /** The flag of a known user after an operation of a facade: an addition may only raise it, and the
      user added has it if it was given or held; an update sets it; a deletion leaves it. */
  lemma FlagAfter(db: DB, org: string, op: Op, id: nat)
    requires Keyed(db) && id in db.table
    ensures id in Apply(db, org, op).table
    ensures var flag, now := db.table[id].superAdmin, Apply(db, org, op).table[id].superAdmin;
      match op
      case Add(u) =>
        var r := OrgAdd(db, org, u).1;
        now == (flag || (r.Ok? && r.value.id == id && u.superAdmin))
      case Update(u) => now == if u.id == id && ValidFor(org, u.roles) then u.superAdmin else flag
      case Delete(_) => now == flag
  {
    if op.Add? { AddFlag(db, org, op.u, id); }
  }

  // ---------------------------------------------------------------- runs through one facade

  datatype Op = Add(u: User) | Update(u: User) | Delete(id: nat)

  function Apply(db: DB, org: string, op: Op): DB {
    match op
    case Add(u) => OrgAdd(db, org, u).0
    case Update(u) => OrgUpdate(db, org, u).0
    case Delete(id) => OrgDelete(db, org, id).0
  }

  function Run(db: DB, org: string, ops: seq<Op>): DB
    decreases |ops|
  {
    if ops == [] then db else Run(Apply(db, org, ops[0]), org, ops[1..])
  }

  /** Nothing outside the organization changed: same users or more, same roles elsewhere in
      the same order. */
  ghost predicate ElsewhereKept(db: DB, db': DB, org: string) {
    forall k :: k in db.table ==> k in db'.table && Elsewhere(db'.table[k], org) == Elsewhere(db.table[k], org)
  }

  lemma AddKeeps(db: DB, org: string, u: User)
    requires Keyed(db)
    ensures Keyed(OrgAdd(db, org, u).0) && ElsewhereKept(db, OrgAdd(db, org, u).0, org)
  {
    FindKeyed(db, NameOf(u));
    if ValidFor(org, u.roles) && Find(db, NameOf(u)).Ok? {
      var usr := Find(db, NameOf(u)).value;
      WrittenKeeps(usr, u.roles, org);
      RecordKeeps(db, usr.(roles := Elsewhere(usr, org) + u.roles, superAdmin := u.superAdmin || usr.superAdmin), org);
    }
  }

  lemma RecordKeeps(db: DB, u: User, org: string)
    requires Keyed(db) && u.id in db.table && Elsewhere(u, org) == Elsewhere(db.table[u.id], org)
    ensures Keyed(StoreUpdate(db, u).0) && ElsewhereKept(db, StoreUpdate(db, u).0, org)
  {
  }

  lemma ApplyKeeps(db: DB, org: string, op: Op)
    requires Keyed(db)
    ensures Keyed(Apply(db, org, op)) && ElsewhereKept(db, Apply(db, org, op), org)
  {
    match op
    case Add(u) => AddKeeps(db, org, u);
    case Update(u) =>
      if ValidFor(org, u.roles) && u.id in db.table { WrittenKeeps(db.table[u.id], u.roles, org); }
    case Delete(id) =>
      if id in db.table { KeptTwice(db.table[id].roles, NotIn(org)); }
  }

  lemma WrittenKeeps(u: User, rs: seq<Role>, org: string)
    requires ValidFor(org, rs)
    ensures Filter(Elsewhere(u, org) + rs, NotIn(org)) == Elsewhere(u, org)
  {
    FilterAppend(Elsewhere(u, org), rs, NotIn(org));
    KeptTwice(u.roles, NotIn(org));
    NoneLeft(rs, org);
  }

  /** Any run of operations through one organization's store leaves what every other
      organization sees of every user unchanged, in order. */
  lemma {:induction false} RunKeepsOthers(db: DB, org: string, ops: seq<Op>)
    requires Keyed(db)
    ensures Keyed(Run(db, org, ops)) && ElsewhereKept(db, Run(db, org, ops), org)
    decreases |ops|
  {
    if ops != [] {
      ApplyKeeps(db, org, ops[0]);
      RunKeepsOthers(Apply(db, org, ops[0]), org, ops[1..]);
    }
  }

  lemma OthersSeeTheSame(db: DB, org: string, ops: seq<Op>, other: string, id: nat)
    requires Keyed(db) && other != org && id in db.table
    ensures id in Run(db, org, ops).table
    ensures View(Run(db, org, ops).table[id], other).roles == View(db.table[id], other).roles
  {
    RunKeepsOthers(db, org, ops);
    OtherOrg(db.table[id].roles, org, other);
    OtherOrg(Run(db, org, ops).table[id].roles, org, other);
  }
}
