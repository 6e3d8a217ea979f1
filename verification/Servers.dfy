/** Servers and the one active among them (bolt/servers.go), dashboards (bolt/dashboards.go),
    and the organization facades over both (organizations/servers.go, dashboards.go). */
module Servers {
  import opened Options
  import opened Buckets

  datatype Server = Server(id: nat, name: string, organization: string, active: bool)

  datatype Dashboard = Dashboard(id: nat, name: string, organization: string)

  type Bucket = map<nat, Server>

  ghost predicate Keyed(m: Bucket) {
    forall k :: k in m ==> m[k].id == k
  }

  ghost predicate AtMostOneActive(m: Bucket) {
    forall i, j :: i in m && j in m && m[i].active && m[j].active ==> i == j
  }

  function Deactivated(src: Server): Server {
    src.(active := false)
  }

  function Put(m: Bucket, src: Server): Bucket {
    (if src.active then MapValues(m, Deactivated) else m)[src.id := src]
  }

  class ServersStore {
    var bucket: Bucket
    var sequence: nat

    ghost predicate Valid()
      reads this
    {
      Keyed(bucket) && forall k :: k in bucket ==> k <= sequence
    }

    constructor ()
      ensures Valid() && bucket == map[] && sequence == 0
    {
      bucket, sequence := map[], 0;
    }

    method All() returns (srcs: seq<Server>)
      ensures srcs == Records(bucket)
    {
      srcs := Records(bucket);
    }

    method ResetActiveServer()
      requires Valid()
      modifies `bucket
      ensures bucket == MapValues(old(bucket), Deactivated)
    {
      var srcs := All();
      ghost var was := bucket;
      for i := 0 to |srcs|
        invariant MappedUpTo(was, bucket, Deactivated, Ascending(was.Keys)[..i])
      {
        MapNext(was, bucket, Deactivated, i);
        var other := srcs[i];
        if other.active {
          bucket := bucket[other.id := other.(active := false)];
        }
      }
      MapDone(was, bucket, Deactivated);
    }

    /** A new server is always made the active one. */
    method Add(src0: Server) returns (src: Server)
      requires Valid()
      modifies this
      ensures Valid() && src.id !in old(bucket) && sequence == old(sequence) + 1
      ensures src == src0.(id := sequence, active := true)
      ensures bucket == Put(old(bucket), src)
    {
      sequence := sequence + 1;
      ResetActiveServer();
      src := src0.(id := sequence, active := true);
      bucket := bucket[src.id := src];
    }

    method Update(src: Server) returns (found: bool)
      requires Valid()
      modifies `bucket
      ensures Valid() && found == (src.id in old(bucket))
      ensures bucket == if found then Put(old(bucket), src) else old(bucket)
    {
      if src.id !in bucket {
        return false;
      }
      if src.active {
        ResetActiveServer();
      }
      bucket := bucket[src.id := src];
      return true;
    }

    /** No election takes place: deleting the active server leaves none. */
    method Delete(src: Server)
      requires Valid()
      modifies `bucket
      ensures Valid() && bucket == old(bucket) - {src.id}
    {
      bucket := bucket - {src.id};
    }
  }

  datatype Step = Add(src: Server) | Update(src: Server) | Delete(id: nat)

  datatype DB = DB(bucket: Bucket, sequence: nat)

  function Apply(db: DB, step: Step): DB {
    match step
    case Add(src) => DB(Put(db.bucket, src.(id := db.sequence + 1, active := true)), db.sequence + 1)
    case Update(src) => if src.id in db.bucket then db.(bucket := Put(db.bucket, src)) else db
    case Delete(id) => db.(bucket := db.bucket - {id})
  }

  function Run(db: DB, steps: seq<Step>): DB
    decreases |steps|
  {
    if steps == [] then db else Run(Apply(db, steps[0]), steps[1..])
  }

  /** In every reachable state at most one server is active. */
  lemma {:induction false} OneActive(db: DB, steps: seq<Step>)
    requires Keyed(db.bucket) && AtMostOneActive(db.bucket)
    ensures Keyed(Run(db, steps).bucket) && AtMostOneActive(Run(db, steps).bucket)
    decreases |steps|
  {
    if steps != [] { OneActive(Apply(db, steps[0]), steps[1..]); }
  }

  // ---------------------------------------------------------------- facades

  function OwnerOf(org: string): Server -> bool {
    (d: Server) => d.organization == org
  }

  function ServerID(d: Server): nat {
    d.id
  }

  class OrgServersStore {
    const store: ServersStore
    const organization: string

    constructor (store: ServersStore, organization: string)
      ensures this.store == store && this.organization == organization
    {
      this.store, this.organization := store, organization;
    }

    method All() returns (servers: seq<Server>)
      ensures servers == Filter(Records(store.bucket), OwnerOf(organization))
    {
      var all := store.All();
      var ds := new Server[|all|](i requires 0 <= i < |all| => all[i]);
      assert ds[..] == all;
      var n := FilterInPlace(ds, OwnerOf(organization));
      servers := ds[..n];
    }

    method Delete(d: Server) returns (found: bool)
      requires store.Valid()
      modifies store`bucket
      ensures store.Valid() && found == (d.id in old(store.bucket))
      ensures store.bucket == old(store.bucket) - {d.id}
    {
      if d.id !in store.bucket {
        return false;
      }
      store.Delete(store.bucket[d.id]);
      return true;
    }

    /** The part of an organization's deletion that removes its servers. */
    method DeleteAll() returns (ok: bool)
      requires store.Valid()
      modifies store`bucket
      ensures store.Valid() && ok && store.bucket == Others(old(store.bucket), OwnerOf(organization))
    {
      var servers := All();
      ghost var was := store.bucket;
      RemovingStarts(was, OwnerOf(organization), ServerID);
      for i := 0 to |servers|
        invariant store.Valid()
        invariant Removing(was, store.bucket, OwnerOf(organization), ServerID, servers, i)
      {
        RemovingNext(was, store.bucket, OwnerOf(organization), ServerID, servers, i);
        ok := Delete(servers[i]);
        if !ok {
          return;
        }
      }
      RemovingEnds(was, store.bucket, OwnerOf(organization), ServerID, servers);
      return true;
    }
  }

  function DashboardOf(org: string): Dashboard -> bool {
    (d: Dashboard) => d.organization == org
  }

  function DashboardID(d: Dashboard): nat {
    d.id
  }

  class DashboardsStore {
    var bucket: map<nat, Dashboard>

    ghost predicate Valid()
      reads this
    {
      forall k :: k in bucket ==> bucket[k].id == k
    }

    constructor ()
      ensures Valid() && bucket == map[]
    {
      bucket := map[];
    }

    method Delete(d: Dashboard)
      requires Valid()
      modifies this
      ensures Valid() && bucket == old(bucket) - {d.id}
    {
      bucket := bucket - {d.id};
    }
  }

  class OrgDashboardsStore {
    const store: DashboardsStore
    const organization: string

    constructor (store: DashboardsStore, organization: string)
      ensures this.store == store && this.organization == organization
    {
      this.store, this.organization := store, organization;
    }

    method All() returns (dashboards: seq<Dashboard>)
      ensures dashboards == Filter(Records(store.bucket), DashboardOf(organization))
    {
      var all := Records(store.bucket);
      var ds := new Dashboard[|all|](i requires 0 <= i < |all| => all[i]);
      assert ds[..] == all;
      var n := FilterInPlace(ds, DashboardOf(organization));
      dashboards := ds[..n];
    }

    method DeleteAll() returns (ok: bool)
      requires store.Valid()
      modifies store
      ensures store.Valid() && ok && store.bucket == Others(old(store.bucket), DashboardOf(organization))
    {
      var dashboards := All();
      ghost var was := store.bucket;
      RemovingStarts(was, DashboardOf(organization), DashboardID);
      for i := 0 to |dashboards|
        invariant store.Valid()
        invariant Removing(was, store.bucket, DashboardOf(organization), DashboardID, dashboards, i)
      {
        RemovingNext(was, store.bucket, DashboardOf(organization), DashboardID, dashboards, i);
        if dashboards[i].id !in store.bucket {
          return false;
        }
        store.Delete(dashboards[i]);
      }
      RemovingEnds(was, store.bucket, DashboardOf(organization), DashboardID, dashboards);
      return true;
    }
  }
}
