/** Organizations (bolt/organizations.go) and mappings (bolt/mapping.go): unique names, the
    default organization, and the deletion that cascades over five stores. */
module Organizations {
  import opened Options
  import opened Buckets
  import opened Text
  import Sources
  import Servers
  import Users

  datatype Organization = Organization(id: string, name: string, defaultRole: string)

  datatype Mapping = Mapping(id: string, organization: string, provider: string, scheme: string,
      providerOrganization: string)

  datatype Error = NotFound | AlreadyExists | CannotDeleteDefault | Incomplete

  datatype Result<+T> = Ok(value: T) | Err(error: Error)

  const DEFAULT_ID := "default"
  const DEFAULT_NAME := "Default"
  const DEFAULT_ROLE := "member"
  const WILDCARD := "*"

  const DEFAULT := Organization(DEFAULT_ID, DEFAULT_NAME, DEFAULT_ROLE)
  const DEFAULT_MAPPING := Mapping(DEFAULT_ID, DEFAULT_ID, WILDCARD, WILDCARD, WILDCARD)

  type Bucket = map<string, Organization>

  ghost predicate NamesUnique(m: Bucket) {
    forall i, j :: i in m && j in m && m[i].name == m[j].name ==> i == j
  }

  /** The ids the store hands out. */
  ghost predicate Issued(id: string, sequence: nat) {
    id == DEFAULT_ID || exists n: nat :: 0 < n <= sequence && id == Decimal(n)
  }

  predicate Taken(m: Bucket, name: string) {
    exists k :: k in m && m[k].name == name
  }

  ghost predicate Lists(ms: seq<Mapping>, m: map<string, Mapping>) {
    && (forall i :: 0 <= i < |ms| ==> ms[i].id in m && m[ms[i].id] == ms[i])
    && (forall k :: k in m ==> m[k] in ms)
    && (forall i, j :: 0 <= i < j < |ms| ==> ms[i].id != ms[j].id)
  }

  class MappingsStore {
    var bucket: map<string, Mapping>
    var sequence: nat

    /** Records sit under their own id, and ids are "default" or numerals of the sequence. */
    ghost predicate Valid()
      reads this
    {
      && (forall k :: k in bucket ==> bucket[k].id == k)
      && (forall k :: k in bucket ==> Issued(k, sequence))
    }

    constructor ()
      ensures Valid() && bucket == map[] && sequence == 0
    {
      bucket, sequence := map[], 0;
    }

    /** All mappings, each once, in the order the bucket yields them. */
    method All() returns (ms: seq<Mapping>)
      requires Valid()
      ensures Lists(ms, bucket)
    {
      ms := [];
      var rest := bucket.Keys;
      while rest != {}
        invariant rest <= bucket.Keys
        invariant Lists(ms, bucket - rest)
        decreases rest
      {
        var k :| k in rest;
        ghost var before := bucket - rest;
        rest := rest - {k};
        assert bucket - rest == before[k := bucket[k]];
        ms := ms + [bucket[k]];
      }
      assert bucket - rest == bucket;
    }

    method Add(m: Mapping) returns (added: Mapping)
      requires Valid()
      modifies this
      ensures Valid() && sequence == old(sequence) + 1
      ensures added == m.(id := Decimal(sequence)) && bucket == old(bucket)[added.id := added]
      ensures added.id !in old(bucket) && added.id != DEFAULT_ID
    {
      FreshID(bucket.Keys, sequence);
      sequence := sequence + 1;
      added := m.(id := Decimal(sequence));
      bucket := bucket[added.id := added];
    }

    method Delete(m: Mapping) returns (r: Result<()>)
      requires Valid()
      modifies this
      ensures Valid() && sequence == old(sequence)
      ensures r == if m.id in old(bucket) then Ok(()) else Err(NotFound)
      ensures bucket == old(bucket) - {m.id}
    {
      if m.id !in bucket {
        assert bucket - {m.id} == bucket;
        return Err(NotFound);
      }
      bucket := bucket - {m.id};
      return Ok(());
    }
  }

  class OrganizationsStore {
    var bucket: Bucket
    var sequence: nat
    const sources: Sources.SourcesStore
    const servers: Servers.ServersStore
    const dashboards: Servers.DashboardsStore
    const users: Users.UsersStore
    const mappings: MappingsStore

    /** Records sit under their own id, and ids are "default" or numerals of the sequence. */
    ghost predicate Valid()
      reads this
    {
      && (forall k :: k in bucket ==> bucket[k].id == k)
      && (forall k :: k in bucket ==> Issued(k, sequence))
    }

    ghost predicate StoresValid()
      reads this, sources, servers, dashboards, users, mappings
    {
      Valid() && sources.Valid() && servers.Valid() && dashboards.Valid() && Users.Keyed(users.db) && mappings.Valid()
    }

    constructor (sources: Sources.SourcesStore, servers: Servers.ServersStore, dashboards: Servers.DashboardsStore,
                 users: Users.UsersStore, mappings: MappingsStore)
      ensures Valid() && bucket == map[] && sequence == 0
      ensures this.sources == sources && this.servers == servers && this.dashboards == dashboards
      ensures this.users == users && this.mappings == mappings
    {
      bucket, sequence := map[], 0;
      this.sources, this.servers, this.dashboards, this.users, this.mappings :=
        sources, servers, dashboards, users, mappings;
    }

    method Get(id: string) returns (r: Result<Organization>)
      ensures r == if id in bucket then Ok(bucket[id]) else Err(NotFound)
    {
      r := if id in bucket then Ok(bucket[id]) else Err(NotFound);
    }

    method GetByName(name: string) returns (r: Result<Organization>)
      ensures r.Ok? <==> Taken(bucket, name)
      ensures r.Ok? ==> r.value.name == name && exists k :: k in bucket && bucket[k] == r.value
      ensures r.Err? ==> r.error == NotFound
    {
      var rest := bucket.Keys;
      while rest != {}
        invariant rest <= bucket.Keys
        invariant forall k :: k in bucket && k !in rest ==> bucket[k].name != name
        decreases rest
      {
        var k :| k in rest;
        if bucket[k].name == name {
          return Ok(bucket[k]);
        }
        rest := rest - {k};
      }
      return Err(NotFound);
    }

    method NameIsUnique(name: string) returns (unique: bool)
      ensures unique <==> !Taken(bucket, name)
    {
      var r := GetByName(name);
      unique := r == Err(NotFound);
    }

    /** Finds or creates the default organization and the mapping that lets everybody in. */
    method CreateDefault()
      requires Valid() && mappings.Valid()
      modifies `bucket, mappings
      ensures Valid() && mappings.Valid()
      ensures bucket == if DEFAULT_ID in old(bucket) then old(bucket) else old(bucket)[DEFAULT_ID := DEFAULT]
      ensures mappings.bucket ==
        if DEFAULT_ID in old(bucket) || DEFAULT_ID in old(mappings.bucket) then old(mappings.bucket)
        else old(mappings.bucket)[DEFAULT_ID := DEFAULT_MAPPING]
      ensures NamesUnique(old(bucket)) ==>
        (NamesUnique(bucket) <==> DEFAULT_ID in old(bucket) || !Taken(old(bucket), DEFAULT_NAME))
    {
      if DEFAULT_ID in bucket {
        return;
      }
      bucket := bucket[DEFAULT_ID := DEFAULT];
      if Taken(old(bucket), DEFAULT_NAME) {
        var k :| k in old(bucket) && old(bucket)[k].name == DEFAULT_NAME;
        assert bucket[k].name == bucket[DEFAULT_ID].name && k != DEFAULT_ID;
      }
      if DEFAULT_ID in mappings.bucket {
        return;
      }
      mappings.bucket := mappings.bucket[DEFAULT_ID := DEFAULT_MAPPING];
    }

    /** The inserting transaction of Add, whatever names there are by then. */
    method Insert(o: Organization) returns (added: Organization)
      requires Valid()
      modifies this
      ensures Valid() && sequence == old(sequence) + 1 && added == o.(id := Decimal(sequence))
      ensures added.id !in old(bucket) && added.id != DEFAULT_ID
      ensures DB(bucket, sequence) == Apply(old(DB(bucket, sequence)), Step.Insert(o))
    {
      FreshID(bucket.Keys, sequence);
      sequence := sequence + 1;
      added := o.(id := Decimal(sequence));
      bucket := bucket[added.id := added];
      assert Issued(added.id, sequence);
    }

    /** Uninterrupted: the check and the insert are two transactions. */
    method Add(o: Organization) returns (r: Result<Organization>)
      requires Valid()
      modifies this
      ensures Valid()
      ensures r.Err? <==> Taken(old(bucket), o.name)
      ensures r.Err? ==> r.error == AlreadyExists && bucket == old(bucket) && sequence == old(sequence)
      ensures r.Ok? ==> sequence == old(sequence) + 1 && r.value == o.(id := Decimal(sequence))
      ensures r.Ok? ==>
        r.value.id !in old(bucket) && r.value.id != DEFAULT_ID && bucket == old(bucket)[r.value.id := r.value]
      ensures NamesUnique(old(bucket)) ==> NamesUnique(bucket)
    {
      var unique := NameIsUnique(o.name);
      if !unique {
        return Err(AlreadyExists);
      }
      var added := Insert(o);
      return Ok(added);
    }

    /** The writing transaction of Update, whatever there is by then. */
    method Replace(o: Organization)
      requires Valid() && Issued(o.id, sequence)
      modifies `bucket
      ensures Valid()
      ensures DB(bucket, sequence) == Apply(old(DB(bucket, sequence)), Step.Replace(o))
    {
      bucket := bucket[o.id := o];
    }

    /** Uninterrupted: the lookup, the check and the write are three transactions. */
    method Update(o: Organization) returns (r: Result<()>)
      requires Valid()
      modifies `bucket
      ensures Valid()
      ensures r == if o.id !in old(bucket) then Err(NotFound)
                   else if o.name != old(bucket)[o.id].name && Taken(old(bucket), o.name) then Err(AlreadyExists)
                   else Ok(())
      ensures bucket == if r.Ok? then old(bucket)[o.id := o] else old(bucket)
      ensures NamesUnique(old(bucket)) ==> NamesUnique(bucket)
    {
      var org := Get(o.id);
      if org.Err? {
        return Err(org.error);
      }
      if o.name != org.value.name {
        var unique := NameIsUnique(o.name);
        if !unique {
          return Err(AlreadyExists);
        }
      }
      Replace(o);
      return Ok(());
    }

    /** Removes the mappings of an organization, in whatever order the bucket yields them. */
    method DeleteMappings(id: string) returns (ok: bool)
      requires mappings.Valid()
      modifies mappings
      ensures mappings.Valid() && ok
      ensures mappings.bucket == MappingsOfOthers(old(mappings.bucket), id)
    {
      var all := mappings.bucket;
      var rest := all.Keys;
      while rest != {}
        invariant mappings.Valid() && rest <= all.Keys
        invariant mappings.bucket == map k | k in all && (k in rest || all[k].organization != id) :: all[k]
        decreases rest
      {
        var k :| k in rest;
        rest := rest - {k};
        var mapping := all[k];
        if mapping.organization == id {
          var r := mappings.Delete(mapping);
          if r.Err? {
            return false;
          }
        }
      }
      return true;
    }

    /** The dependent delete of all resources, store by store. */
    method DeleteResources(id: string) returns (ok: bool)
      requires StoresValid()
      modifies sources`bucket, servers`bucket, dashboards, users, mappings
      ensures StoresValid() && ok
      ensures Sources.Purged(old(sources.bucket), sources.bucket, id)
      ensures servers.bucket == Others(old(servers.bucket), Servers.OwnerOf(id))
      ensures dashboards.bucket == Others(old(dashboards.bucket), Servers.DashboardOf(id))
      ensures users.db == old(users.db).(table := MapValues(old(users.db.table), Users.Strip(id)))
      ensures mappings.bucket == MappingsOfOthers(old(mappings.bucket), id)
    {
      var sourcesStore := new Sources.OrgSourcesStore(sources, id);
      var e := sourcesStore.DeleteAll();
      if e != Sources.Ok {
        return false;
      }
      var serversStore := new Servers.OrgServersStore(servers, id);
      ok := serversStore.DeleteAll();
      if !ok {
        return;
      }
      var dashboardsStore := new Servers.OrgDashboardsStore(dashboards, id);
      ok := dashboardsStore.DeleteAll();
      if !ok {
        return;
      }
      var usersStore := new Users.OrgUsersStore(users, id);
      ok := usersStore.DeleteAll();
      if !ok {
        return;
      }
      ok := DeleteMappings(id);
    }

    /** Deletes an organization and everything that belongs to it. */
    method Delete(o: Organization) returns (r: Result<()>)
      requires StoresValid()
      modifies `bucket, sources`bucket, servers`bucket, dashboards, users, mappings
      ensures StoresValid()
      ensures r == if o.id == DEFAULT_ID then Err(CannotDeleteDefault)
                   else if o.id !in old(bucket) then Err(NotFound) else Ok(())
      ensures r.Err? ==> unchanged(this, sources, servers, dashboards, users, mappings)
      ensures r.Ok? ==> bucket == old(bucket) - {o.id}
      ensures r.Ok? ==> Sources.Purged(old(sources.bucket), sources.bucket, o.id)
      ensures r.Ok? ==> servers.bucket == Others(old(servers.bucket), Servers.OwnerOf(o.id))
      ensures r.Ok? ==> dashboards.bucket == Others(old(dashboards.bucket), Servers.DashboardOf(o.id))
      ensures r.Ok? ==> users.db == old(users.db).(table := MapValues(old(users.db.table), Users.Strip(o.id)))
      ensures r.Ok? ==> mappings.bucket == MappingsOfOthers(old(mappings.bucket), o.id)
    {
      if o.id == DEFAULT_ID {
        return Err(CannotDeleteDefault);
      }
      var found := Get(o.id);
      if found.Err? {
        return Err(found.error);
      }
      bucket := bucket - {o.id};
      var ok := DeleteResources(o.id);
      if !ok {
        return Err(Incomplete);
      }
      return Ok(());
    }
  }

  function MappingsOfOthers(m: map<string, Mapping>, id: string): map<string, Mapping> {
    map k | k in m && m[k].organization != id :: m[k]
  }

  lemma FreshID(ids: set<string>, sequence: nat)
    requires forall k :: k in ids ==> Issued(k, sequence)
    ensures Decimal(sequence + 1) !in ids && Decimal(sequence + 1) != DEFAULT_ID
  {
    var id := Decimal(sequence + 1);
    assert id != DEFAULT_ID by { assert id[0] in id; }
    if id in ids {
      var n: nat :| 0 < n <= sequence && id == Decimal(n);
      DecimalInjective(n, sequence + 1);
    }
  }

  // ---------------------------------------------------------------- interleavings

  datatype DB = DB(bucket: Bucket, sequence: nat)

  /** The writing transactions of Add, Update and Delete. */
  datatype Step = Insert(o: Organization) | Replace(o: Organization) | Remove(id: string)

  function Apply(db: DB, step: Step): DB {
    match step
    case Insert(o) =>
      var id := Decimal(db.sequence + 1);
      DB(db.bucket[id := o.(id := id)], db.sequence + 1)
    case Replace(o) => db.(bucket := db.bucket[o.id := o])
    case Remove(id) => db.(bucket := db.bucket - {id})
  }

  ghost predicate Sound(db: DB) {
    forall k :: k in db.bucket ==> Issued(k, db.sequence)
  }

  /** The name written belongs to another organization. */
  predicate Clashes(db: DB, step: Step) {
    match step
    case Insert(o) => Taken(db.bucket, o.name)
    case Replace(o) => Taken(db.bucket - {o.id}, o.name)
    case Remove(_) => false
  }

  lemma StepKeepsNamesUniqueIff(db: DB, step: Step)
    requires Sound(db) && NamesUnique(db.bucket)
    ensures NamesUnique(Apply(db, step).bucket) <==> !Clashes(db, step)
  {
    var m := Apply(db, step).bucket;
    match step
    case Insert(o) =>
      var id := Decimal(db.sequence + 1);
      FreshID(db.bucket.Keys, db.sequence);
      if Taken(db.bucket, o.name) {
        var k :| k in db.bucket && db.bucket[k].name == o.name;
        assert m[k].name == m[id].name && k != id;
      }
    case Replace(o) =>
      if Taken(db.bucket - {o.id}, o.name) {
        var k :| k in db.bucket - {o.id} && db.bucket[k].name == o.name;
        assert m[k].name == m[o.id].name && k != o.id;
      } else {
        forall k | k in db.bucket && k != o.id ensures db.bucket[k].name != o.name { assert k in db.bucket - {o.id}; }
      }
    case Remove(_) =>
  }

  /** Updates write organizations that the store has handed out. */
  ghost predicate Known(db: DB, step: Step) {
    step.Replace? ==> Issued(step.o.id, db.sequence)
  }

  lemma StepSound(db: DB, step: Step)
    requires Sound(db) && Known(db, step)
    ensures Sound(Apply(db, step))
  {
    if step.Insert? { assert Issued(Decimal(db.sequence + 1), db.sequence + 1); }
  }

  ghost predicate AlwaysUnique(db: DB, steps: seq<Step>)
    decreases |steps|
  {
    NamesUnique(db.bucket) && (steps != [] ==> AlwaysUnique(Apply(db, steps[0]), steps[1..]))
  }

  ghost predicate NeverClashes(db: DB, steps: seq<Step>)
    decreases |steps|
  {
    steps == [] || (!Clashes(db, steps[0]) && NeverClashes(Apply(db, steps[0]), steps[1..]))
  }

  ghost predicate AllKnown(db: DB, steps: seq<Step>)
    decreases |steps|
  {
    steps == [] || (Known(db, steps[0]) && AllKnown(Apply(db, steps[0]), steps[1..]))
  }

  /** Names are unique in every state of an interleaving exactly when no transaction writes a name
      that another organization has by then. */
  lemma {:induction false} InterleavingKeepsNamesIff(db: DB, steps: seq<Step>)
    requires Sound(db) && NamesUnique(db.bucket) && AllKnown(db, steps)
    ensures AlwaysUnique(db, steps) <==> NeverClashes(db, steps)
    decreases |steps|
  {
    if steps != [] {
      StepSound(db, steps[0]);
      StepKeepsNamesUniqueIff(db, steps[0]);
      if !Clashes(db, steps[0]) { InterleavingKeepsNamesIff(Apply(db, steps[0]), steps[1..]); }
    }
  }

  /** Two additions of one name that both looked before either wrote. */
  lemma TwoAddsOneName(db: DB, o: Organization)
    requires Sound(db) && NamesUnique(db.bucket) && !Taken(db.bucket, o.name)
    ensures !NamesUnique(Apply(Apply(db, Insert(o)), Insert(o)).bucket)
  {
    var one := Apply(db, Insert(o));
    StepKeepsNamesUniqueIff(db, Insert(o));
    StepSound(db, Insert(o));
    assert one.bucket[Decimal(db.sequence + 1)].name == o.name;
    StepKeepsNamesUniqueIff(one, Insert(o));
  }

  // ---------------------------------------------------------------- after a deletion

  /** No record of any of the five stores names the organization. */
  ghost predicate NoTrace(org: string, sources: Sources.Bucket, servers: Servers.Bucket,
      dashboards: map<nat, Servers.Dashboard>, users: Users.DB, mappings: map<string, Mapping>) {
    && (forall k :: k in sources ==> sources[k].organization != org)
    && (forall k :: k in servers ==> servers[k].organization != org)
    && (forall k :: k in dashboards ==> dashboards[k].organization != org)
    && (forall k, r :: k in users.table && r in users.table[k].roles ==> r.organization != org)
    && (forall k :: k in mappings ==> mappings[k].organization != org)
  }

  /** What Delete ensures leaves no trace of the organization, every other organization's
      records in place (sources up to the default flag), every role elsewhere in place and in
      order, and a default among the remaining sources if there was one. */
  lemma DeleteLeavesNoTrace(org: string,
                            sources: Sources.Bucket, sources': Sources.Bucket, servers: Servers.Bucket,
                            dashboards: map<nat, Servers.Dashboard>, users: Users.DB, mappings: map<string, Mapping>)
    requires Sources.Purged(sources, sources', org)
    ensures var servers' := Others(servers, Servers.OwnerOf(org));
            var dashboards' := Others(dashboards, Servers.DashboardOf(org));
            var users' := users.(table := MapValues(users.table, Users.Strip(org)));
            var mappings' := MappingsOfOthers(mappings, org);
      && NoTrace(org, sources', servers', dashboards', users', mappings')
      && (forall k :: k in sources && sources[k].organization != org ==>
            k in sources' && sources'[k] == sources[k].(isDefault := sources'[k].isDefault))
      && (forall k :: k in servers && servers[k].organization != org ==> k in servers' && servers'[k] == servers[k])
      && (forall k :: k in dashboards && dashboards[k].organization != org ==>
        k in dashboards' && dashboards'[k] == dashboards[k])
      && (forall k :: k in mappings && mappings[k].organization != org ==>
        k in mappings' && mappings'[k] == mappings[k])
      && (forall k, other :: k in users.table && other != org ==>
            Users.View(users'.table[k], other).roles == Users.View(users.table[k], other).roles)
      && (Sources.OneDefault(sources) ==> Sources.OneDefault(sources'))
  {
    forall k, r | k in users.table && r in Users.Elsewhere(users.table[k], org) ensures r.organization != org {
      FilterMembers(users.table[k].roles, Users.NotIn(org));
    }
    forall k, other | k in users.table && other != org
      ensures Users.View(Users.Strip(org)(users.table[k]), other).roles == Users.View(users.table[k], other).roles
    {
      Users.OtherOrg(users.table[k].roles, org, other);
    }
  }
}
