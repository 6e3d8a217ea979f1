/** InfluxDB Enterprise: the meta node's users and roles, brought to wanted sets by sending
    differences (enterprise/meta.go, enterprise/users.go). */
module Enterprise {
  import opened Options
  import opened Text
  import P = Permissions

  /** Permissions as they are sent: for each database a list of names. */
  type Permissions = map<string, seq<string>>

  function Items(s: seq<string>): set<string> {
    set x | x in s
  }

  function At(ps: Permissions, scope: string): seq<string> {
    if scope in ps then ps[scope] else []
  }

  // ---------------------------------------------------------------- differences

  /** The elements of `a` that are not in `b`, in order. */
  function Minus(a: seq<string>, b: seq<string>): seq<string> {
    if a == [] then []
    else
      var n := |a| - 1;
      Minus(a[..n], b) + (if a[n] in b then [] else [a[n]])
  }

  lemma {:induction false} MinusItems(a: seq<string>, b: seq<string>)
    ensures Items(Minus(a, b)) == Items(a) - Items(b)
  {
    if a != [] {
      var n := |a| - 1;
      MinusItems(a[..n], b);
      assert a == a[..n] + [a[n]];
      assert Items(a) == Items(a[..n]) + {a[n]};
      assert Items(Minus(a, b)) == Items(Minus(a[..n], b)) + (if a[n] in b then {} else {a[n]});
    }
  }

  method Difference(wants: seq<string>, haves: seq<string>) returns (revoke: seq<string>, add: seq<string>)
    ensures add == Minus(wants, haves) && revoke == Minus(haves, wants)
  {
    revoke, add := [], [];
    for i := 0 to |wants|
      invariant add == Minus(wants[..i], haves)
    {
      assert wants[..i + 1][..i] == wants[..i];
      var found := false;
      for j := 0 to |haves|
        invariant found <==> wants[i] in haves[..j]
      {
        assert haves[..j + 1] == haves[..j] + [haves[j]];
        if wants[i] != haves[j] { continue; }
        found := true;
      }
      assert haves[..|haves|] == haves;
      if !found { add := add + [wants[i]]; }
    }
    assert wants[..|wants|] == wants;
    for i := 0 to |haves|
      invariant revoke == Minus(haves[..i], wants)
    {
      assert haves[..i + 1][..i] == haves[..i];
      var found := false;
      for j := 0 to |wants|
        invariant !found && haves[i] !in wants[..j]
      {
        assert wants[..j + 1] == wants[..j] + [wants[j]];
        if haves[i] != wants[j] { continue; }
        found := true;
        break;
      }
      assert wants[..|wants|] == wants;
      if !found { revoke := revoke + [haves[i]]; }
    }
    assert haves[..|haves|] == haves;
  }

  /** Per database: what is held but not wanted. */
  function Revoked(wants: Permissions, haves: Permissions): Permissions {
    map s | s in haves :: if s in wants then Minus(haves[s], wants[s]) else haves[s]
  }

  /** Per database: what is wanted but not held. */
  function Added(wants: Permissions, haves: Permissions): Permissions {
    map s | s in wants :: if s in haves then Minus(wants[s], haves[s]) else wants[s]
  }

  /** While ranging over the wanted databases, with `left` still to come. */
  ghost predicate Comparing(wants: Permissions, haves: Permissions, left: set<string>, revoke: Permissions,
      add: Permissions) {
    && add == (map s | s in wants && s !in left :: Added(wants, haves)[s])
    && revoke == (map s | s in haves && s in wants && s !in left :: Revoked(wants, haves)[s])
  }

  lemma CompareOne(wants: Permissions, haves: Permissions, left: set<string>, revoke: Permissions, add: Permissions,
      s: string)
    requires Comparing(wants, haves, left, revoke, add) && s in left && s in wants
    ensures if s in haves
      then Comparing(wants, haves, left - {s}, revoke[s := Minus(haves[s], wants[s])],
        add[s := Minus(wants[s], haves[s])])
      else Comparing(wants, haves, left - {s}, revoke, add[s := wants[s]])
  {
    if s in haves {
      assert Comparing(wants, haves, left - {s}, revoke[s := Minus(haves[s], wants[s])],
        add[s := Minus(wants[s], haves[s])]);
    } else {
      assert Comparing(wants, haves, left - {s}, revoke, add[s := wants[s]]);
    }
  }

  method CompareWanted(wants: Permissions, haves: Permissions) returns (revoke: Permissions, add: Permissions)
    ensures Comparing(wants, haves, {}, revoke, add)
  {
    revoke, add := map[], map[];
    var left := wants.Keys;
    while left != {}
      invariant left <= wants.Keys && Comparing(wants, haves, left, revoke, add)
      decreases |left|
    {
      var scope :| scope in left;
      CompareOne(wants, haves, left, revoke, add, scope);
      left := left - {scope};
      if scope in haves {
        var r, a := Difference(wants[scope], haves[scope]);
        revoke, add := revoke[scope := r], add[scope := a];
      } else {
        add := add[scope := wants[scope]];
      }
    }
  }

  /** While ranging over the held databases. */
  ghost predicate Revoking(wants: Permissions, haves: Permissions, left: set<string>, revoke: Permissions) {
    revoke == (map s | s in haves && (s in wants || s !in left) :: Revoked(wants, haves)[s])
  }

  method RevokeUnwanted(wants: Permissions, haves: Permissions, kept: Permissions) returns (revoke: Permissions)
    requires Revoking(wants, haves, haves.Keys, kept)
    ensures Revoking(wants, haves, {}, revoke)
  {
    revoke := kept;
    var left := haves.Keys;
    while left != {}
      invariant left <= haves.Keys && Revoking(wants, haves, left, revoke)
      decreases |left|
    {
      var scope :| scope in left;
      left := left - {scope};
      if scope !in wants { revoke := revoke[scope := haves[scope]]; }
    }
  }

  method PermissionsDifference(wants: Permissions, haves: Permissions) returns (revoke: Permissions, add: Permissions)
    ensures revoke == Revoked(wants, haves) && add == Added(wants, haves)
  {
    revoke, add := CompareWanted(wants, haves);
    revoke := RevokeUnwanted(wants, haves, revoke);
  }

  // ---------------------------------------------------------------- the meta node

  /** What the meta node keeps for a user or a role. */
  type Held = map<string, set<string>>

  function On(held: Held, scope: string): set<string> {
    if scope in held then held[scope] else {}
  }

  function AddPerms(held: Held, ps: Permissions): Held {
    map s | s in held.Keys + ps.Keys :: On(held, s) + Items(At(ps, s))
  }

  function RemovePerms(held: Held, ps: Permissions): Held {
    map s | s in held :: held[s] - Items(At(ps, s))
  }

  /** A list of what is held, in any order. */
  ghost predicate Reports(held: Held, haves: Permissions) {
    forall s :: Items(At(haves, s)) == On(held, s)
  }

  /** Exactly the wanted permissions. */
  ghost predicate Meets(held: Held, wants: Permissions) {
    forall s :: On(held, s) == Items(At(wants, s))
  }

  /** Nothing wanted is revoked and nothing held is added. */
  lemma DifferenceIsMinimal(held: Held, wants: Permissions, haves: Permissions, s: string)
    requires Reports(held, haves)
    ensures Items(At(Revoked(wants, haves), s)) == On(held, s) - Items(At(wants, s))
    ensures Items(At(Added(wants, haves), s)) == Items(At(wants, s)) - On(held, s)
  {
    assert Items(At(haves, s)) == On(held, s);
    MinusItems(At(haves, s), At(wants, s));
    MinusItems(At(wants, s), At(haves, s));
  }

  /** Only wanted permissions are left: after the first step, or at once when it has nothing to send. */
  ghost predicate OnlyWanted(held: Held, wants: Permissions, now: Held) {
    forall s :: On(now, s) == On(held, s) * Items(At(wants, s))
  }

  lemma AddMeets(kept: set<string>, held: set<string>, wanted: set<string>)
    requires kept == held * wanted
    ensures kept + (wanted - held) == wanted
  {
  }

  lemma RevokingLeavesWanted(held: Held, wants: Permissions, haves: Permissions)
    requires Reports(held, haves)
    ensures OnlyWanted(held, wants, RemovePerms(held, Revoked(wants, haves)))
    ensures |Revoked(wants, haves)| == 0 ==> OnlyWanted(held, wants, held)
  {
    var revoke := Revoked(wants, haves);
    forall s
      ensures On(RemovePerms(held, revoke), s) == On(held, s) * Items(At(wants, s))
      ensures |revoke| == 0 ==> On(held, s) == On(held, s) * Items(At(wants, s))
    {
      DifferenceIsMinimal(held, wants, haves, s);
    }
  }

  lemma AddingMeets(held: Held, kept: Held, wants: Permissions, haves: Permissions)
    requires Reports(held, haves) && OnlyWanted(held, wants, kept)
    ensures Meets(AddPerms(kept, Added(wants, haves)), wants)
    ensures |Added(wants, haves)| == 0 ==> Meets(kept, wants)
  {
    var add := Added(wants, haves);
    forall s
      ensures On(AddPerms(kept, add), s) == Items(At(wants, s))
      ensures |add| == 0 ==> On(kept, s) == Items(At(wants, s))
    {
      DifferenceIsMinimal(held, wants, haves, s);
      AddMeets(On(kept, s), On(held, s), Items(At(wants, s)));
    }
  }

  // ---------------------------------------------------------------- roles and their users

  datatype Role = Role(name: string, users: seq<string>)

  function Times(role: Role, users: seq<string>, u: string): seq<Role> {
    if users == [] then []
    else
      var n := |users| - 1;
      Times(role, users[..n], u) + (if users[n] == u then [role] else [])
  }

  /** The roles that list a user, in order. */
  function RolesOf(roles: seq<Role>, u: string): seq<Role> {
    if roles == [] then []
    else
      var n := |roles| - 1;
      RolesOf(roles[..n], u) + Times(roles[n], roles[n].users, u)
  }

  lemma {:induction false} TimesHas(role: Role, users: seq<string>, u: string, r: Role)
    ensures r in Times(role, users, u) <==> r == role && u in users
  {
    if users != [] {
      var n := |users| - 1;
      TimesHas(role, users[..n], u, r);
      assert users == users[..n] + [users[n]];
    }
  }

  /** The roles of a user are the roles the user is in. */
  lemma {:induction false} RolesOfInverse(roles: seq<Role>, u: string, r: Role)
    ensures r in RolesOf(roles, u) <==> r in roles && u in r.users
  {
    if roles != [] {
      var n := |roles| - 1;
      RolesOfInverse(roles[..n], u, r);
      TimesHas(roles[n], roles[n].users, u, r);
      assert roles == roles[..n] + [roles[n]];
    }
  }

  function Got(m: map<string, seq<Role>>, u: string): seq<Role> {
    if u in m then m[u] else []
  }

  /** All roles of `before`, and the first users of the role that follows. */
  ghost predicate ByUser(m: map<string, seq<Role>>, before: seq<Role>, role: Role, users: seq<string>) {
    forall u :: Got(m, u) == RolesOf(before, u) + Times(role, users, u)
  }

  ghost predicate IsInverse(m: map<string, seq<Role>>, roles: seq<Role>) {
    forall u :: Got(m, u) == RolesOf(roles, u)
  }

  lemma NextUser(m: map<string, seq<Role>>, before: seq<Role>, role: Role, j: nat)
    requires j < |role.users| && ByUser(m, before, role, role.users[..j])
    ensures ByUser(m[role.users[j] := Got(m, role.users[j]) + [role]], before, role, role.users[..j + 1])
  {
    var u, now := role.users[j], role.users[..j + 1];
    assert now[..j] == role.users[..j];
    forall v ensures Got(m[u := Got(m, u) + [role]], v) == RolesOf(before, v) + Times(role, now, v) {
      assert Got(m, v) == RolesOf(before, v) + Times(role, role.users[..j], v);
    }
  }

  lemma NextRole(m: map<string, seq<Role>>, roles: seq<Role>, i: nat)
    requires i < |roles|
    ensures IsInverse(m, roles[..i]) ==> ByUser(m, roles[..i], roles[i], roles[i].users[..0])
    ensures ByUser(m, roles[..i], roles[i], roles[i].users[..|roles[i].users|]) ==> IsInverse(m, roles[..i + 1])
  {
    assert roles[..i + 1][..i] == roles[..i] && roles[i].users[..|roles[i].users|] == roles[i].users;
    forall u ensures RolesOf(roles[..i + 1], u) == RolesOf(roles[..i], u) + Times(roles[i], roles[i].users, u) {}
    forall u ensures RolesOf(roles[..i], u) + Times(roles[i], roles[i].users[..0], u) == RolesOf(roles[..i], u) {}
  }

  method UserRoles(roles: seq<Role>) returns (userRoles: map<string, seq<Role>>)
    ensures IsInverse(userRoles, roles)
  {
    userRoles := map[];
    for i := 0 to |roles|
      invariant IsInverse(userRoles, roles[..i])
    {
      NextRole(userRoles, roles, i);
      for j := 0 to |roles[i].users|
        invariant ByUser(userRoles, roles[..i], roles[i], roles[i].users[..j])
      {
        var u := roles[i].users[j];
        NextUser(userRoles, roles[..i], roles[i], j);
        var ur := if u in userRoles then userRoles[u] else [];
        userRoles := userRoles[u := ur + [roles[i]]];
      }
      NextRole(userRoles, roles, i);
    }
    assert roles[..|roles|] == roles;
  }

  // ---------------------------------------------------------------- joining and leaving roles

  datatype RoleState = RoleState(perms: Held, users: set<string>)

  type RoleMap = map<string, RoleState>

  function MemberOf(roles: RoleMap, u: string): set<string> {
    set r | r in roles && u in roles[r].users
  }

  datatype Command = Join(role: string) | Leave(role: string)

  /** The meta node refuses to change a role that it does not have. */
  function Do(roles: RoleMap, u: string, c: Command): RoleMap {
    if c.role !in roles then roles
    else
      var state := roles[c.role];
      roles[c.role := state.(users := if c.Join? then state.users + {u} else state.users - {u})]
  }

  function Run(roles: RoleMap, u: string, cs: seq<Command>): RoleMap {
    if cs == [] then roles else Do(Run(roles, u, cs[..|cs| - 1]), u, cs[|cs| - 1])
  }

  function Joins(names: seq<string>): (cs: seq<Command>)
    ensures |cs| == |names| && forall i :: 0 <= i < |cs| ==> cs[i] == Join(names[i])
  {
    seq(|names|, i requires 0 <= i < |names| => Join(names[i]))
  }

  function Leaves(names: seq<string>): (cs: seq<Command>)
    ensures |cs| == |names| && forall i :: 0 <= i < |cs| ==> cs[i] == Leave(names[i])
  {
    seq(|names|, i requires 0 <= i < |names| => Leave(names[i]))
  }

  /** First into the new roles, then out of the others. */
  function Commands(wants: seq<string>, haves: seq<string>): seq<Command> {
    Joins(Minus(wants, haves)) + Leaves(Minus(haves, wants))
  }

  lemma CommandsHas(wants: seq<string>, haves: seq<string>, c: Command)
    ensures c in Commands(wants, haves) <==>
      if c.Join? then c.role in wants && c.role !in haves else c.role in haves && c.role !in wants
  {
    MinusItems(wants, haves);
    MinusItems(haves, wants);
    assert c.role in Minus(wants, haves) <==> c.role in Items(Minus(wants, haves));
    assert c.role in Minus(haves, wants) <==> c.role in Items(Minus(haves, wants));
    var joins, leaves := Joins(Minus(wants, haves)), Leaves(Minus(haves, wants));
    if c.Join? && c.role in Minus(wants, haves) {
      var i :| 0 <= i < |joins| && Minus(wants, haves)[i] == c.role;
      assert joins[i] == c;
    }
    if c.Leave? && c.role in Minus(haves, wants) {
      var i :| 0 <= i < |leaves| && Minus(haves, wants)[i] == c.role;
      assert leaves[i] == c;
    }
  }

  /** Where a user is after some commands, no role being both joined and left. */
  lemma {:induction false} MemberAfter(roles: RoleMap, u: string, cs: seq<Command>, r: string)
    requires forall c, d :: c in cs && d in cs && c.role == d.role ==> c == d
    ensures Run(roles, u, cs).Keys == roles.Keys
    ensures r in MemberOf(Run(roles, u, cs), u) <==>
      r in roles && if Join(r) in cs then true else if Leave(r) in cs then false else u in roles[r].users
  {
    if cs != [] {
      var n := |cs| - 1;
      assert cs == cs[..n] + [cs[n]];
      MemberAfter(roles, u, cs[..n], r);
      assert Leave(r).role == Join(r).role == r;
    }
  }

  lemma CommandsDiffer(wants: seq<string>, haves: seq<string>, k: nat)
    requires k <= |Commands(wants, haves)|
    ensures var cs := Commands(wants, haves)[..k];
      forall c, d :: c in cs && d in cs && c.role == d.role ==> c == d
  {
    var cs := Commands(wants, haves);
    forall c, d | c in cs[..k] && d in cs[..k] && c.role == d.role ensures c == d {
      CommandsHas(wants, haves, c);
      CommandsHas(wants, haves, d);
    }
  }

  /** However far the update gets, the user stays in every role wanted and held, and is only ever
      in roles that are wanted or were held. */
  lemma KeptThroughout(roles: RoleMap, u: string, wants: seq<string>, haves: seq<string>, k: nat)
    requires Items(haves) == MemberOf(roles, u) && k <= |Commands(wants, haves)|
    ensures var now := MemberOf(Run(roles, u, Commands(wants, haves)[..k]), u);
      Items(wants) * MemberOf(roles, u) <= now <= Items(wants) + MemberOf(roles, u)
  {
    var cs := Commands(wants, haves)[..k];
    CommandsDiffer(wants, haves, k);
    forall r
      ensures r in wants && r in MemberOf(roles, u) ==> r in MemberOf(Run(roles, u, cs), u)
      ensures r in MemberOf(Run(roles, u, cs), u) ==> r in wants || r in MemberOf(roles, u)
    {
      MemberAfter(roles, u, cs, r);
      CommandsHas(wants, haves, Join(r));
      CommandsHas(wants, haves, Leave(r));
      assert r in haves <==> r in Items(haves);
      assert Join(r) in cs ==> Join(r) in Commands(wants, haves);
      assert Leave(r) in cs ==> Leave(r) in Commands(wants, haves);
    }
  }

  /** In the end the user is in the wanted roles, as far as they exist. */
  lemma WantedInTheEnd(roles: RoleMap, u: string, wants: seq<string>, haves: seq<string>)
    requires Items(haves) == MemberOf(roles, u)
    ensures MemberOf(Run(roles, u, Commands(wants, haves)), u) == Items(wants) * roles.Keys
  {
    var cs := Commands(wants, haves);
    CommandsDiffer(wants, haves, |cs|);
    assert cs[..|cs|] == cs;
    forall r ensures r in MemberOf(Run(roles, u, cs), u) <==> r in wants && r in roles {
      MemberAfter(roles, u, cs, r);
      CommandsHas(wants, haves, Join(r));
      CommandsHas(wants, haves, Leave(r));
      assert r in haves <==> r in Items(haves);
    }
  }

  /** Nobody else's roles change, nor the permissions of any role. */
  lemma {:induction false} OthersStay(roles: RoleMap, u: string, cs: seq<Command>, v: string)
    requires v != u
    ensures MemberOf(Run(roles, u, cs), v) == MemberOf(roles, v)
    ensures Run(roles, u, cs).Keys == roles.Keys
    ensures forall r :: r in roles ==> Run(roles, u, cs)[r].perms == roles[r].perms
  {
    if cs != [] {
      var n := |cs| - 1;
      OthersStay(roles, u, cs[..n], v);
      var before, after := Run(roles, u, cs[..n]), Run(roles, u, cs);
      forall r | r in roles ensures v in after[r].users <==> v in before[r].users {}
    }
  }

  // ---------------------------------------------------------------- the two shapes of permissions

  function KeyOf(p: P.Permission): string {
    if p.scope == P.AllScope then "" else p.name
  }

  function ToEnterprise(perms: seq<P.Permission>): Permissions {
    if perms == [] then map[]
    else
      var n := |perms| - 1;
      ToEnterprise(perms[..n])[KeyOf(perms[n]) := perms[n].allowed]
  }

  function ToChronograf(perms: Permissions, db: string): P.Permission {
    if db == "" then P.Permission(P.AllScope, "", At(perms, db)) else P.Permission(P.DBScope, db, At(perms, db))
  }

  function ListOf(perms: Permissions, order: seq<string>): seq<P.Permission> {
    if order == [] then []
    else
      var n := |order| - 1;
      ListOf(perms, order[..n]) + [ToChronograf(perms, order[n])]
  }

  method ConvertToEnterprise(perms: seq<P.Permission>) returns (res: Permissions)
    ensures res == ToEnterprise(perms)
  {
    res := map[];
    for i := 0 to |perms|
      invariant res == ToEnterprise(perms[..i])
    {
      assert perms[..i + 1][..i] == perms[..i];
      if perms[i].scope == P.AllScope {
        res := res["" := perms[i].allowed];
      } else {
        res := res[perms[i].name := perms[i].allowed];
      }
    }
    assert perms[..|perms|] == perms;
  }

  /** Every entry once, in some order. */
  ghost predicate ListsAll(perms: Permissions, list: seq<P.Permission>) {
    exists order :: Ranges(order, perms.Keys) && list == ListOf(perms, order)
  }

  /** An entry of the list: the permissions under the empty key concern all databases, and any other key
      is the name of one. */
  predicate IsEntry(perms: Permissions, p: P.Permission) {
    && p.name in perms && p.allowed == perms[p.name]
    && (p.scope == P.AllScope <==> p.name == "")
  }

  lemma {:induction false} EntriesOf(perms: Permissions, order: seq<string>, p: P.Permission)
    requires forall db :: db in order ==> db in perms
    ensures p in ListOf(perms, order) <==> p.name in order && IsEntry(perms, p)
  {
    if order != [] {
      var n := |order| - 1;
      assert order == order[..n] + [order[n]];
      EntriesOf(perms, order[..n], p);
    }
  }

  lemma AllEntries(perms: Permissions, order: seq<string>, p: P.Permission)
    requires Ranges(order, perms.Keys)
    ensures p in ListOf(perms, order) <==> IsEntry(perms, p)
  {
    RangesOnce(order, perms.Keys);
    assert forall db :: db in order <==> db in multiset(order);
    EntriesOf(perms, order, p);
    assert p.name in perms <==> p.name in perms.Keys;
  }

  method ConvertToChronograf(perms: Permissions) returns (res: seq<P.Permission>)
    ensures ListsAll(perms, res) && ToEnterprise(res) == perms
    ensures forall p :: p in res <==> IsEntry(perms, p)
  {
    res := [];
    ghost var order := [];
    var left := perms.Keys;
    assert perms.Keys - left == {};
    while left != {}
      invariant left <= perms.Keys && Ranges(order, perms.Keys - left) && res == ListOf(perms, order)
      decreases |left|
    {
      var db :| db in left;
      RangesPush(order, perms.Keys - left, db);
      assert perms.Keys - (left - {db}) == perms.Keys - left + {db};
      assert (order + [db])[..|order|] == order;
      if db == "" {
        res := res + [P.Permission(P.AllScope, "", perms[db])];
      } else {
        res := res + [P.Permission(P.DBScope, db, perms[db])];
      }
      order, left := order + [db], left - {db};
    }
    assert perms.Keys - left == perms.Keys;
    RoundTrip(perms, order);
    forall p ensures p in res <==> IsEntry(perms, p) { AllEntries(perms, order, p); }
  }

  /** Converting to the list and back is the identity, in whatever order the map is ranged over. */
  lemma {:induction false} ThereAndBack(perms: Permissions, order: seq<string>, keys: set<string>)
    requires Ranges(order, keys) && keys <= perms.Keys
    ensures ToEnterprise(ListOf(perms, order)) == map db | db in keys :: perms[db]
  {
    if order != [] {
      var n := |order| - 1;
      ThereAndBack(perms, order[..n], keys - {order[n]});
      var list := ListOf(perms, order);
      assert list[..|list| - 1] == ListOf(perms, order[..n]);
    }
  }

  lemma RoundTrip(perms: Permissions, order: seq<string>)
    requires Ranges(order, perms.Keys)
    ensures ToEnterprise(ListOf(perms, order)) == perms
  {
    ThereAndBack(perms, order, perms.Keys);
  }

  // ---------------------------------------------------------------- the client

  datatype Outcome = Done | NotFound | PostFailed

  /** What stands between what was held and what is wanted. */
  ghost predicate Between(before: Held, wants: Permissions, now: Held) {
    forall s :: On(before, s) * Items(At(wants, s)) <= On(now, s) <= On(before, s) + Items(At(wants, s))
  }

  /** One user's permissions set to the wanted ones, or, if a post failed, to something in between. */
  ghost predicate SetFor(was: map<string, Held>, now: map<string, Held>, u: string, wants: Permissions, done: bool) {
    && u in was && u in now && now == was[u := now[u]]
    && Between(was[u], wants, now[u]) && (done ==> Meets(now[u], wants))
  }

  method Report(held: Held) returns (haves: Permissions)
    ensures Reports(held, haves)
  {
    haves := map[];
    var left := held.Keys;
    while left != {}
      invariant left <= held.Keys && haves.Keys == held.Keys - left
      invariant forall s :: s in haves ==> Items(haves[s]) == held[s]
      decreases |left|
    {
      var s :| s in left;
      var list := Enumerate(held[s]);
      assert Items(list) == held[s];
      haves, left := haves[s := list], left - {s};
    }
  }

  /** The common part of SetUserPerms and SetRolePerms; `first` and `second` say which posts succeed. */
  method SetPerms(held: Held, perms: Permissions, first: bool, second: bool) returns (r: Outcome, now: Held)
    ensures r == Done ==> Meets(now, perms)
    ensures Between(held, perms, now)
    ensures r == Done || (r == PostFailed && !(first && second))
  {
    var haves := Report(held);
    var revoke, add := PermissionsDifference(perms, haves);
    RevokingLeavesWanted(held, perms, haves);
    now := held;
    if |revoke| > 0 {
      if !first { return PostFailed, now; }
      now := RemovePerms(held, revoke);
    }
    AddingMeets(held, now, perms, haves);
    if |add| > 0 {
      if !second { return PostFailed, now; }
      now := AddPerms(now, add);
    }
    return Done, now;
  }

  class MetaClient {
    var users: map<string, Held>
    var roles: RoleMap

    method SetUserPerms(name: string, perms: Permissions, first: bool, second: bool) returns (r: Outcome)
      modifies this
      ensures roles == old(roles)
      ensures r == NotFound <==> name !in old(users)
      ensures r == NotFound ==> users == old(users)
      ensures r != NotFound ==> name in users && users == old(users)[name := users[name]]
      ensures r != NotFound ==> Between(old(users)[name], perms, users[name])
      ensures r == Done ==> Meets(users[name], perms)
      ensures r == PostFailed ==> !(first && second)
    {
      if name !in users { return NotFound; }
      var now;
      r, now := SetPerms(users[name], perms, first, second);
      users := users[name := now];
    }

    method SetRolePerms(name: string, perms: Permissions, first: bool, second: bool) returns (r: Outcome)
      modifies this
      ensures users == old(users)
      ensures r == NotFound <==> name !in old(roles)
      ensures r == NotFound ==> roles == old(roles)
      ensures r != NotFound ==>
        name in roles && roles == old(roles)[name := old(roles)[name].(perms := roles[name].perms)]
      ensures r != NotFound ==> Between(old(roles)[name].perms, perms, roles[name].perms)
      ensures r == Done ==> Meets(roles[name].perms, perms)
      ensures r == PostFailed ==> !(first && second)
    {
      if name !in roles { return NotFound; }
      var now;
      r, now := SetPerms(roles[name].perms, perms, first, second);
      roles := roles[name := roles[name].(perms := now)];
    }

    /** Out of the role first, then in. */
    method SetRoleUsers(name: string, wants: seq<string>, first: bool, second: bool) returns (r: Outcome)
      modifies this
      ensures users == old(users)
      ensures r == NotFound <==> name !in old(roles)
      ensures r == NotFound ==> roles == old(roles)
      ensures r != NotFound ==>
        name in roles && roles == old(roles)[name := old(roles)[name].(users := roles[name].users)]
      ensures r != NotFound ==>
        old(roles)[name].users * Items(wants) <= roles[name].users <= old(roles)[name].users + Items(wants)
      ensures r == Done ==> roles[name].users == Items(wants)
      ensures r == PostFailed ==> !(first && second)
    {
      if name !in roles { return NotFound; }
      var state := roles[name];
      var haves := Enumerate(state.users);
      var revoke, add := Difference(wants, haves);
      UsersReached(state.users, wants, haves);
      if |revoke| > 0 {
        if !first { return PostFailed; }
        state := state.(users := state.users - Items(revoke));
        roles := roles[name := state];
      }
      if |add| > 0 {
        if !second { return PostFailed; }
        roles := roles[name := state.(users := state.users + Items(add))];
      }
      return Done;
    }

    /** The roles as the meta node lists them, in any order. */
    method Roles() returns (list: seq<Role>)
      ensures Lists(list, roles, roles.Keys)
    {
      list := [];
      var left := roles.Keys;
      assert roles.Keys - left == {};
      while left != {}
        invariant left <= roles.Keys && Lists(list, roles, roles.Keys - left)
        decreases |left|
      {
        var name :| name in left;
        var us := Enumerate(roles[name].users);
        assert roles.Keys - (left - {name}) == roles.Keys - left + {name};
        list, left := list + [Role(name, us)], left - {name};
      }
      assert roles.Keys - left == roles.Keys;
    }

    /** One post; `up` tells whether the meta node answers. */
    method Send(u: string, c: Command, up: bool) returns (ok: bool)
      modifies this
      ensures users == old(users)
      ensures ok <==> up && c.role in old(roles)
      ensures roles == if ok then Do(old(roles), u, c) else old(roles)
    {
      if !up || c.role !in roles { return false; }
      roles := Do(roles, u, c);
      return true;
    }

    /** Into the new roles, then out of the old ones, stopping at the first post that fails;
        `answers` is the number of posts after which the meta node goes down. */
    method UpdateRoles(u: string, wants: seq<string>, haves: seq<string>, answers: nat) returns (ok: bool, ghost k: nat)
      modifies this
      ensures users == old(users) && k <= |Commands(wants, haves)|
      ensures roles == Run(old(roles), u, Commands(wants, haves)[..k])
      ensures ok <==> k == |Commands(wants, haves)|
    {
      var revoke, add := Difference(wants, haves);
      var cs := Joins(add) + Leaves(revoke);
      k := 0;
      for i := 0 to |cs|
        invariant users == old(users) && k == i && roles == Run(old(roles), u, cs[..i])
      {
        var sent := Send(u, cs[i], i < answers);
        if !sent { return false, k; }
        assert cs[..i + 1][..i] == cs[..i];
        k := i + 1;
      }
      return true, k;
    }

    /** Roles first and then permissions; when the roles cannot be listed nothing is done, and no
        error is reported. */
    method Update(u: string, wantRoles: Option<seq<string>>, wantPerms: Option<seq<P.Permission>>,
        listed: bool, answers: nat, first: bool, second: bool)
      returns (r: Outcome, ghost haves: seq<string>, ghost k: nat)
      modifies this
      ensures wantRoles.Some? && !listed ==> r == Done && users == old(users) && roles == old(roles)
      ensures wantRoles.None? ==> roles == old(roles)
      ensures wantRoles.Some? && listed ==>
        && Items(haves) == MemberOf(old(roles), u) && k <= |Commands(wantRoles.value, haves)|
        && roles == Run(old(roles), u, Commands(wantRoles.value, haves)[..k])
        && (k < |Commands(wantRoles.value, haves)| ==> r == PostFailed && users == old(users))
      ensures wantPerms.None? ==> users == old(users)
      ensures wantPerms.Some? && (wantRoles.None? || (listed && k == |Commands(wantRoles.value, haves)|)) ==>
        && (r == NotFound <==> u !in old(users)) && (r == NotFound ==> users == old(users))
        && (r != NotFound ==> SetFor(old(users), users, u, ToEnterprise(wantPerms.value), r == Done))
        && (first && second ==> r != PostFailed)
    {
      haves, k := [], 0;
      if wantRoles.Some? {
        if !listed { return Done, haves, k; }
        var list := Roles();
        var userRoles := UserRoles(list);
        var have := Names(if u in userRoles then userRoles[u] else []);
        haves := have;
        NamesAreMembership(list, roles, u, have);
        var ok;
        ok, k := UpdateRoles(u, wantRoles.value, have, answers);
        if !ok { return PostFailed, haves, k; }
      }
      if wantPerms.Some? {
        var perms := ConvertToEnterprise(wantPerms.value);
        r := SetUserPerms(u, perms, first, second);
        return r, haves, k;
      }
      return Done, haves, k;
    }
  }

  ghost predicate Lists(list: seq<Role>, roles: RoleMap, done: set<string>)
    requires done <= roles.Keys
  {
    && (forall r :: r in list ==> r.name in done && Items(r.users) == roles[r.name].users)
    && (forall name :: name in done ==> exists r :: r in list && r.name == name)
  }

  lemma UsersReached(users: set<string>, wants: seq<string>, haves: seq<string>)
    requires forall u :: u in haves <==> u in users
    ensures users - Items(Minus(haves, wants)) == users * Items(wants)
    ensures users * Items(wants) + Items(Minus(wants, haves)) == Items(wants)
    ensures Minus(haves, wants) == [] ==> users == users * Items(wants)
    ensures Minus(wants, haves) == [] ==> users * Items(wants) == Items(wants)
  {
    assert Items(haves) == users;
    MinusItems(haves, wants);
    MinusItems(wants, haves);
    assert Items([]) == {};
  }

  function Names(rs: seq<Role>): seq<string> {
    if rs == [] then [] else [rs[0].name] + Names(rs[1..])
  }

  lemma {:induction false} NamesHas(rs: seq<Role>, name: string)
    ensures name in Names(rs) <==> exists r :: r in rs && r.name == name
  {
    if rs != [] {
      NamesHas(rs[1..], name);
      assert rs == [rs[0]] + rs[1..];
    }
  }

  lemma NamesAreMembership(list: seq<Role>, roles: RoleMap, u: string, have: seq<string>)
    requires Lists(list, roles, roles.Keys) && have == Names(RolesOf(list, u))
    ensures Items(have) == MemberOf(roles, u)
  {
    forall name ensures name in have <==> name in MemberOf(roles, u) {
      NamesHas(RolesOf(list, u), name);
      forall r ensures r in RolesOf(list, u) <==> r in list && u in r.users { RolesOfInverse(list, u, r); }
      forall r | r in list
        ensures u in r.users <==> u in roles[r.name].users
      {
        assert u in r.users <==> u in Items(r.users);
      }
    }
  }
}
