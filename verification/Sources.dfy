/** Sources and their one default (bolt/sources.go), and the organization facade over them
    (organizations/sources.go). The bucket is a map walked in ascending key order; each
    db.Update is one atomic step. */
module Sources {
  import opened Options
  import opened Buckets

  datatype Source = Source(id: nat, name: string, organization: string, role: string, isDefault: bool)

  datatype Error = Ok | SourceNotFound | DefaultOrganizationMissing

  const VIEWER_ROLE_NAME := "viewer"

  type Bucket = map<nat, Source>

  // ---------------------------------------------------------------- specification

  ghost predicate Keyed(m: Bucket) {
    forall k :: k in m ==> m[k].id == k
  }

  ghost predicate AtMostOneDefault(m: Bucket) {
    forall i, j :: i in m && j in m && m[i].isDefault && m[j].isDefault ==> i == j
  }

  ghost predicate HasDefault(m: Bucket) {
    exists k :: k in m && m[k].isDefault
  }

  /** What the store is for: a non-empty store has exactly one default. */
  ghost predicate OneDefault(m: Bucket) {
    AtMostOneDefault(m) && (m != map[] ==> HasDefault(m))
  }

  function Undefaulted(src: Source): Source {
    src.(isDefault := false)
  }

  /** resetDefaultSource. */
  function Cleared(m: Bucket): Bucket {
    MapValues(m, Undefaulted)
  }

  function Put(m: Bucket, src: Source): Bucket {
    (if src.isDefault then Cleared(m) else m)[src.id := src]
  }

  /** The source setRandomDefault promotes: the first other one, or the target itself. */
  function Elected(m: Bucket, target: nat): nat
    requires target in m
  {
    if m.Keys == {target} then target
    else assert m.Keys - {target} != {}; Least(m.Keys - {target})
  }

  function Deleted(m: Bucket, target: nat): Bucket {
    if target !in m then m
    else (if m[target].isDefault then Put(m, m[Elected(m, target)].(isDefault := true)) else m) - {target}
  }

  // ---------------------------------------------------------------- the store

  class SourcesStore {
    var bucket: Bucket
    var sequence: nat

    /** Records sit under their own id and ids come from the sequence. */
    ghost predicate Valid()
      reads this
    {
      Keyed(bucket) && forall k :: k in bucket ==> k <= sequence
    }

    constructor ()
      ensures Valid() && bucket == map[] && sequence == 0
    {
      bucket, sequence := map[], 0;
    }

    method All() returns (srcs: seq<Source>)
      ensures srcs == Records(bucket)
    {
      srcs := Records(bucket);
    }

    method Get(id: nat) returns (r: Option<Source>)
      ensures r == if id in bucket then Some(bucket[id]) else None
    {
      r := if id in bucket then Some(bucket[id]) else None;
    }

    method ResetDefaultSource()
      requires Valid()
      modifies `bucket
      ensures bucket == Cleared(old(bucket))
    {
      var srcs := All();
      ghost var was := bucket;
      for i := 0 to |srcs|
        invariant MappedUpTo(was, bucket, Undefaulted, Ascending(was.Keys)[..i])
      {
        MapNext(was, bucket, Undefaulted, i);
        var other := srcs[i];
        if other.isDefault {
          bucket := bucket[other.id := other.(isDefault := false)];
        }
      }
      MapDone(was, bucket, Undefaulted);
    }

    /** The transaction of Update: the record must exist; a default displaces all others. */
    method Update(src: Source) returns (err: Error)
      requires Valid()
      modifies `bucket
      ensures Valid()
      ensures err == if src.id in old(bucket) then Ok else SourceNotFound
      ensures bucket == if src.id in old(bucket) then Put(old(bucket), src) else old(bucket)
    {
      if src.id !in bucket {
        return SourceNotFound;
      }
      if src.isDefault {
        ResetDefaultSource();
      }
      bucket := bucket[src.id := src];
      return Ok;
    }

    /** First half of Add, a transaction of its own. */
    method IsEmpty() returns (empty: bool)
      ensures empty <==> bucket == map[]
    {
      var srcs := All();
      empty := |srcs| == 0;
      if bucket != map[] {
        var k :| k in bucket;
        assert k in Ascending(bucket.Keys);
      }
    }

    /** Second half of Add: the inserting transaction. */
    method Insert(src0: Source) returns (src: Source)
      requires Valid()
      modifies this
      ensures Valid() && sequence == old(sequence) + 1
      ensures src == src0.(id := sequence) && src.id !in old(bucket)
      ensures bucket == Put(old(bucket), src)
    {
      sequence := sequence + 1;
      src := src0.(id := sequence);
      if src.isDefault {
        ResetDefaultSource();
      }
      bucket := bucket[src.id := src];
    }

    method Add(src0: Source) returns (src: Source)
      requires Valid()
      modifies this
      ensures Valid() && src.id !in old(bucket)
      ensures src == src0.(id := sequence, isDefault := src0.isDefault || old(bucket) == map[])
      ensures bucket == Put(old(bucket), src)
      ensures OneDefault(old(bucket)) ==> OneDefault(bucket)
    {
      var empty := IsEmpty();
      src := if empty then src0.(isDefault := true) else src0;
      src := Insert(src);
      if AtMostOneDefault(old(bucket)) {
        PutKeeps(old(bucket), src);
      }
    }

    method SetRandomDefault(src: Source) returns (err: Error)
      requires Valid()
      modifies `bucket
      ensures Valid()
      ensures err == if src.id in old(bucket) then Ok else SourceNotFound
      ensures bucket == if src.id in old(bucket) && old(bucket)[src.id].isDefault
                        then Put(old(bucket), old(bucket)[Elected(old(bucket), src.id)].(isDefault := true))
                        else old(bucket)
    {
      if src.id !in bucket {
        return SourceNotFound;
      }
      var target := bucket[src.id];
      if target.isDefault {
        var srcs := All();
        ghost var ks := Ascending(bucket.Keys);
        assert src.id in ks;
        var idx, other := 0, srcs[0];
        while idx < |srcs|
          invariant 0 <= idx <= |srcs|
          invariant idx == 0 ==> other == srcs[0]
          invariant idx > 0 ==> other == srcs[idx - 1]
          invariant forall j :: 0 <= j < idx ==> ks[j] == target.id
        {
          other := srcs[idx];
          if other.id != target.id {
            break;
          }
          idx := idx + 1;
        }
        ElectedIs(bucket, target.id, ks, idx);
        var e := Update(other.(isDefault := true));
      }
      return Ok;
    }

    /** Elect another default if need be, then delete, in one transaction. */
    method Delete(src: Source) returns (err: Error)
      requires Valid()
      modifies `bucket
      ensures Valid()
      ensures err == if src.id in old(bucket) then Ok else SourceNotFound
      ensures bucket == Deleted(old(bucket), src.id)
    {
      err := SetRandomDefault(src);
      if err != Ok {
        return;
      }
      bucket := bucket - {src.id};
    }

    /** Migrate updates every record of a snapshot read at the start, stale flags included. */
    method Migrate(defaultOrg: Option<string>) returns (err: Error)
      requires Valid()
      modifies `bucket
      ensures Valid()
      ensures err == if defaultOrg.Some? then Ok else DefaultOrganizationMissing
      ensures defaultOrg.None? ==> bucket == old(bucket)
      ensures defaultOrg.Some? ==> bucket == Migrated(old(bucket), defaultOrg.value)
      ensures defaultOrg.Some? ==> FilledIn(old(bucket), bucket, defaultOrg.value)
    {
      var sources := All();
      if defaultOrg.None? {
        return DefaultOrganizationMissing;
      }
      ghost var ks, was := Ascending(bucket.Keys), bucket;
      for i := 0 to |sources|
        invariant Valid() && MigratedUpTo(was, bucket, ks[..i], defaultOrg.value)
      {
        Visit(was, i);
        MigrateStep(was, bucket, ks[..i], ks[i], defaultOrg.value);
        var source := sources[i];
        if source.organization == "" {
          source := source.(organization := defaultOrg.value);
        }
        if source.role == "" {
          source := source.(role := VIEWER_ROLE_NAME);
        }
        var e := Update(source);
        if e != Ok {
          return Ok;
        }
      }
      assert ks[..|ks|] == ks;
      MigrateDone(was, bucket, ks, defaultOrg.value);
      MigratedFills(was, defaultOrg.value);
      return Ok;
    }
  }

  /** The facade's view of the store for one organization. */
  class OrgSourcesStore {
    const store: SourcesStore
    const organization: string

    constructor (store: SourcesStore, organization: string)
      ensures this.store == store && this.organization == organization
    {
      this.store, this.organization := store, organization;
    }

    method All() returns (sources: seq<Source>)
      ensures sources == Filter(Records(store.bucket), (d: Source) => d.organization == organization)
    {
      var all := store.All();
      var ds := new Source[|all|](i requires 0 <= i < |all| => all[i]);
      assert ds[..] == all;
      var n := FilterInPlace(ds, (d: Source) => d.organization == organization);
      sources := ds[..n];
    }

    method Delete(d: Source) returns (err: Error)
      requires store.Valid()
      modifies store`bucket
      ensures store.Valid()
      ensures err == if d.id in old(store.bucket) then Ok else SourceNotFound
      ensures store.bucket == Deleted(old(store.bucket), d.id)
    {
      var found := store.Get(d.id);
      if found.None? {
        return SourceNotFound;
      }
      err := store.Delete(found.value);
    }

    /** The part of an organization's deletion that removes its sources. */
    method DeleteAll() returns (err: Error)
      requires store.Valid()
      modifies store`bucket
      ensures store.Valid() && err == Ok
      ensures Purged(old(store.bucket), store.bucket, organization)
    {
      var sources := All();
      ghost var was := store.bucket;
      ghost var ids := Ids(sources, (d: Source) => d.id);
      Selected(was, (d: Source) => d.organization == organization, (d: Source) => d.id);
      for i := 0 to |sources|
        invariant store.Valid()
        invariant store.bucket == DeletedAll(was, ids[..i])
      {
        DeleteNext(was, ids, i);
        err := Delete(sources[i]);
        if err != Ok {
          return;
        }
      }
      assert ids[..|ids|] == ids;
      PurgedByDeletes(was, ids, organization);
      return Ok;
    }
  }

  lemma ElectedIs(m: Bucket, target: nat, ks: seq<nat>, idx: nat)
    requires target in m && ks == Ascending(m.Keys) && idx <= |ks|
    requires forall j :: 0 <= j < idx ==> ks[j] == target
    requires idx < |ks| ==> ks[idx] != target
    ensures idx == |ks| ==> Elected(m, target) == target && idx > 0 && ks[idx - 1] == target
    ensures idx < |ks| ==> Elected(m, target) == ks[idx]
  {
    assert target in ks;
    if idx == |ks| {
      forall k | k in m.Keys ensures k == target { assert k in ks; }
      assert m.Keys == {target};
    } else {
      assert ks[idx] in m.Keys;
      assert m.Keys != {target};
      var e := Least(m.Keys - {target});
      assert e in ks && ks[idx] in m.Keys - {target};
      var j :| 0 <= j < |ks| && ks[j] == e;
      assert j >= idx;
    }
  }

  // ---------------------------------------------------------------- one default

  lemma PutKeeps(m: Bucket, src: Source)
    requires AtMostOneDefault(m)
    ensures AtMostOneDefault(Put(m, src))
    ensures src.isDefault ==> HasDefault(Put(m, src))
    ensures HasDefault(m) && !(src.id in m && m[src.id].isDefault && !src.isDefault) ==> HasDefault(Put(m, src))
  {
    var m' := Put(m, src);
    assert src.id in m' && m'[src.id] == src;
    if HasDefault(m) {
      var k :| k in m && m[k].isDefault;
      assert k in m';
    }
  }

  lemma DeleteKeeps(m: Bucket, target: nat)
    requires Keyed(m) && AtMostOneDefault(m)
    ensures Keyed(Deleted(m, target)) && AtMostOneDefault(Deleted(m, target))
    ensures OneDefault(m) ==> OneDefault(Deleted(m, target))
  {
    if target in m {
      var m' := Deleted(m, target);
      if m[target].isDefault {
        var e := Elected(m, target);
        PutKeeps(m, m[e].(isDefault := true));
        if m' != map[] {
          var k :| k in m';
          assert e in m' && m'[e].isDefault;
        }
      } else if m' != map[] && OneDefault(m) {
        assert m != map[];
        var k :| k in m && m[k].isDefault;
        assert k in m';
      }
    }
  }

  // ---------------------------------------------------------------- runs

  datatype DB = DB(bucket: Bucket, sequence: nat)

  /** The atomic steps. Add is two of them, so an Insert may carry a stale Default flag. */
  datatype Step = Insert(src: Source) | Update(src: Source) | Delete(id: nat)

  function Apply(db: DB, step: Step): DB {
    match step
    case Insert(src) => DB(Put(db.bucket, src.(id := db.sequence + 1)), db.sequence + 1)
    case Update(src) => if src.id in db.bucket then db.(bucket := Put(db.bucket, src)) else db
    case Delete(id) => db.(bucket := Deleted(db.bucket, id))
  }

  function Run(db: DB, steps: seq<Step>): DB
    decreases |steps|
  {
    if steps == [] then db else Run(Apply(db, steps[0]), steps[1..])
  }

  const EMPTY := DB(map[], 0)

  ghost predicate Sound(db: DB) {
    Keyed(db.bucket) && (forall k :: k in db.bucket ==> k <= db.sequence) && AtMostOneDefault(db.bucket)
  }

  /** Under every interleaving of the atomic steps at most one source is the default. */
  lemma {:induction false} AnyInterleaving(db: DB, steps: seq<Step>)
    requires Sound(db)
    ensures Sound(Run(db, steps))
    decreases |steps|
  {
    if steps != [] {
      StepSound(db, steps[0]);
      AnyInterleaving(Apply(db, steps[0]), steps[1..]);
    }
  }

  lemma StepSound(db: DB, step: Step)
    requires Sound(db)
    ensures Sound(Apply(db, step))
  {
    match step
    case Insert(src) => PutKeeps(db.bucket, src.(id := db.sequence + 1));
    case Update(src) => PutKeeps(db.bucket, src);
    case Delete(id) => DeleteKeeps(db.bucket, id);
  }

  /** One call at a time: Add looks at the bucket it inserts into. */
  function Perform(db: DB, call: Step): DB {
    match call
    case Insert(src) => Apply(db, Insert(src.(isDefault := src.isDefault || db.bucket == map[])))
    case _ => Apply(db, call)
  }

  predicate ClearsDefault(db: DB, call: Step) {
    call.Update? && call.src.id in db.bucket && db.bucket[call.src.id].isDefault && !call.src.isDefault
  }

  /** A call keeps "exactly one default unless empty" exactly when it is not an update that
      takes the flag off the default. */
  lemma CallKeepsOneDefault(db: DB, call: Step)
    requires Sound(db) && OneDefault(db.bucket)
    ensures OneDefault(Perform(db, call).bucket) <==> !ClearsDefault(db, call)
  {
    match call
    case Insert(src) =>
      PutKeeps(db.bucket, src.(id := db.sequence + 1, isDefault := src.isDefault || db.bucket == map[]));
    case Update(src) =>
      PutKeeps(db.bucket, src);
      if ClearsDefault(db, call) {
        var m' := Perform(db, call).bucket;
        assert src.id in m';
      }
    case Delete(id) => DeleteKeeps(db.bucket, id);
  }

  function PerformAll(db: DB, calls: seq<Step>): DB
    decreases |calls|
  {
    if calls == [] then db else PerformAll(Perform(db, calls[0]), calls[1..])
  }

  ghost predicate NeverClears(db: DB, calls: seq<Step>)
    decreases |calls|
  {
    calls == [] || (!ClearsDefault(db, calls[0]) && NeverClears(Perform(db, calls[0]), calls[1..]))
  }

  lemma {:induction false} SequentialRun(db: DB, calls: seq<Step>)
    requires Sound(db) && OneDefault(db.bucket) && NeverClears(db, calls)
    ensures Sound(PerformAll(db, calls)) && OneDefault(PerformAll(db, calls).bucket)
    decreases |calls|
  {
    if calls != [] {
      CallKeepsOneDefault(db, calls[0]);
      StepSound(db,
        if calls[0].Insert? then Insert(calls[0].src.(isDefault := calls[0].src.isDefault || db.bucket == map[]))
        else calls[0]);
      SequentialRun(Perform(db, calls[0]), calls[1..]);
    }
  }

  /** The steps after which a non-empty store may be without a default: the insert of a source
      without the flag into an empty bucket, and an update that takes the flag off the default. */
  predicate LosesDefault(db: DB, step: Step) {
    (step.Insert? && !step.src.isDefault && db.bucket == map[]) || ClearsDefault(db, step)
  }

  lemma StepKeepsOneDefault(db: DB, step: Step)
    requires Sound(db) && OneDefault(db.bucket)
    ensures OneDefault(Apply(db, step).bucket) <==> !LosesDefault(db, step)
  {
    if step.Insert? {
      var src := step.src.(id := db.sequence + 1);
      PutKeeps(db.bucket, src);
      assert Apply(db, step).bucket[src.id] == src;
    } else {
      CallKeepsOneDefault(db, step);
    }
  }

  /** Exactly one default, or an empty store, in every state of an interleaving. */
  ghost predicate AlwaysOneDefault(db: DB, steps: seq<Step>)
    decreases |steps|
  {
    OneDefault(db.bucket) && (steps != [] ==> AlwaysOneDefault(Apply(db, steps[0]), steps[1..]))
  }

  ghost predicate NeverLoses(db: DB, steps: seq<Step>)
    decreases |steps|
  {
    steps == [] || (!LosesDefault(db, steps[0]) && NeverLoses(Apply(db, steps[0]), steps[1..]))
  }

  /** An interleaving keeps exactly one default throughout exactly when no step loses it. */
  lemma {:induction false} InterleavingKeepsIff(db: DB, steps: seq<Step>)
    requires Sound(db) && OneDefault(db.bucket)
    ensures AlwaysOneDefault(db, steps) <==> NeverLoses(db, steps)
    ensures NeverLoses(db, steps) ==> OneDefault(Run(db, steps).bucket)
    decreases |steps|
  {
    if steps != [] {
      StepSound(db, steps[0]);
      StepKeepsOneDefault(db, steps[0]);
      if !LosesDefault(db, steps[0]) { InterleavingKeepsIff(Apply(db, steps[0]), steps[1..]); }
    }
  }

  /** Interleaved calls can do worse: an Add that saw a source, a Delete of that source, then
      the Add's insert leave a non-empty store without a default. */
  lemma InterleavingLosesDefault(a: Source, b: Source)
    requires a.isDefault && !b.isDefault
    ensures var m := Run(EMPTY, [Insert(a), Delete(1), Insert(b)]).bucket; m != map[] && !HasDefault(m)
  {
    var db1 := Apply(EMPTY, Insert(a));
    assert db1.bucket == map[1 := a.(id := 1)];
    assert db1.bucket.Keys == {1};
    var db2 := Apply(db1, Delete(1));
    assert db2.bucket == map[] && db2.sequence == 1;
    var db3 := Apply(db2, Insert(b));
    assert 2 in db3.bucket;
    assert [Insert(a), Delete(1), Insert(b)][1..] == [Delete(1), Insert(b)];
    assert [Delete(1), Insert(b)][1..] == [Insert(b)];
    assert [Insert(b)][1..] == [];
    assert Run(db3, []) == db3;
    assert Run(db2, [Insert(b)]) == db3;
    assert Run(db1, [Delete(1), Insert(b)]) == db3;
  }

  // ---------------------------------------------------------------- Migrate

  function Filled(src: Source, org: string): Source {
    src.(organization := if src.organization == "" then org else src.organization,
         role := if src.role == "" then VIEWER_ROLE_NAME else src.role)
  }

  ghost predicate LastDefault(m: Bucket, k: nat) {
    k in m && m[k].isDefault && forall j :: j in m && m[j].isDefault ==> j <= k
  }

  /** Every record is filled in and, however many defaults there were, only the last stays. */
  ghost function Migrated(m: Bucket, org: string): Bucket {
    map k | k in m :: Filled(m[k], org).(isDefault := LastDefault(m, k))
  }

  /** Organizations and roles that were set are kept, and the others are the default ones. */
  ghost predicate FilledIn(m: Bucket, m': Bucket, org: string) {
    m'.Keys == m.Keys && forall k :: k in m ==>
      && m'[k].id == m[k].id && m'[k].name == m[k].name
      && (m[k].organization != "" ==> m'[k].organization == m[k].organization)
      && (m[k].organization == "" ==> m'[k].organization == org)
      && (m[k].role != "" ==> m'[k].role == m[k].role)
      && (m[k].role == "" ==> m'[k].role == "viewer")
  }

  lemma MigratedFills(m: Bucket, org: string)
    ensures FilledIn(m, Migrated(m, org), org)
  {
  }

  /** After the updates of `done`: the last default among them displaced all others. */
  ghost predicate MigratedUpTo(m: Bucket, now: Bucket, done: seq<nat>, org: string) {
    && now.Keys == m.Keys
    && forall k :: k in m ==> now[k] == MigratedRecord(m, done, k, org)
  }

  ghost function MigratedRecord(m: Bucket, done: seq<nat>, k: nat, org: string): Source
    requires k in m
  {
    if k in done then
      Filled(m[k], org).(isDefault := m[k].isDefault && forall l :: l in done && l in m && m[l].isDefault ==> l <= k)
    else
      m[k].(isDefault := m[k].isDefault && forall l :: l in done && l in m ==> !m[l].isDefault)
  }

  lemma MigrateStep(m: Bucket, now: Bucket, done: seq<nat>, x: nat, org: string)
    requires MigratedUpTo(m, now, done, org) && Keyed(m) && x in m && x !in done
    requires forall l :: l in done ==> l < x
    ensures MigratedUpTo(m, Put(now, Filled(m[x], org)), done + [x], org)
  {
    var now' := Put(now, Filled(m[x], org));
    forall k | k in m ensures now'[k] == MigratedRecord(m, done + [x], k, org) {
      assert now[k] == MigratedRecord(m, done, k, org);
      if m[x].isDefault && k != x {
        assert x in done + [x];
      }
    }
  }

  lemma MigrateDone(m: Bucket, now: Bucket, ks: seq<nat>, org: string)
    requires MigratedUpTo(m, now, ks, org) && forall k :: k in ks <==> k in m
    ensures now == Migrated(m, org)
  {
    forall k | k in m ensures now[k] == Migrated(m, org)[k] {
      assert now[k] == MigratedRecord(m, ks, k, org);
    }
  }

  /** Whatever flags the store started with, Migrate leaves at most one default, and one if
      there was one. */
  lemma MigrateElects(m: Bucket, org: string)
    ensures AtMostOneDefault(Migrated(m, org))
    ensures HasDefault(m) <==> HasDefault(Migrated(m, org))
  {
    var m' := Migrated(m, org);
    if HasDefault(m) {
      var ds := set k | k in m && m[k].isDefault;
      var k0 :| k0 in m && m[k0].isDefault;
      assert k0 in ds;
      var k := Greatest(ds);
      forall j | j in m && m[j].isDefault ensures j <= k { assert j in ds; }
      assert LastDefault(m, k);
      assert k in m' && m'[k].isDefault;
    }
  }

  lemma {:induction false} Greatest(s: set<nat>) returns (k: nat)
    requires s != {}
    ensures k in s && forall x :: x in s ==> x <= k
  {
    var x :| x in s;
    if s == {x} {
      k := x;
    } else {
      var l := Greatest(s - {x});
      k := if l > x then l else x;
      forall y | y in s ensures y <= k { assert y == x || y in s - {x}; }
    }
  }

  // ---------------------------------------------------------------- deleting an organization's sources

  function DeletedAll(m: Bucket, ids: seq<nat>): Bucket {
    if ids == [] then m else Deleted(DeletedAll(m, ids[..|ids| - 1]), ids[|ids| - 1])
  }

  /** r is m without the records `gone`; only default flags may have changed. */
  ghost predicate Reduced(m: Bucket, r: Bucket, gone: seq<nat>) {
    && Keyed(r)
    && (forall k :: k in r <==> k in m && k !in gone)
    && (forall k :: k in r ==> r[k] == m[k].(isDefault := r[k].isDefault))
    && (AtMostOneDefault(m) ==> AtMostOneDefault(r))
    && (OneDefault(m) ==> OneDefault(r))
    && ((forall k :: k in gone && k in m ==> !m[k].isDefault) ==> forall k :: k in r ==> r[k] == m[k])
  }

  lemma ReducedStep(m: Bucket, r: Bucket, gone: seq<nat>, id: nat)
    requires Reduced(m, r, gone)
    ensures Reduced(m, Deleted(r, id), gone + [id])
  {
    var r' := Deleted(r, id);
    if AtMostOneDefault(r) { DeleteKeeps(r, id); }
    forall k ensures k in r' <==> k in m && k !in gone + [id] { }
    if (forall k :: k in gone + [id] && k in m ==> !m[k].isDefault) {
      assert forall k :: k in gone ==> k in gone + [id];
      assert id in gone + [id];
      assert id in r ==> !r[id].isDefault;
    }
  }

  /** Deletions one after the other, with a new default elected (perhaps a source that goes
      later) whenever the default goes. */
  lemma {:induction false} DeletedAllFacts(m: Bucket, ids: seq<nat>)
    requires Keyed(m)
    ensures Reduced(m, DeletedAll(m, ids), ids)
  {
    if ids != [] {
      var n := |ids| - 1;
      DeletedAllFacts(m, ids[..n]);
      ReducedStep(m, DeletedAll(m, ids[..n]), ids[..n], ids[n]);
      assert ids == ids[..n] + [ids[n]];
    }
  }

  lemma DeleteNext(m: Bucket, ids: seq<nat>, i: nat)
    requires Keyed(m) && i < |ids| && (forall k :: k in ids ==> k in m) && Distinct(ids)
    ensures ids[i] in DeletedAll(m, ids[..i])
    ensures DeletedAll(m, ids[..i + 1]) == Deleted(DeletedAll(m, ids[..i]), ids[i])
  {
    DeletedAllFacts(m, ids[..i]);
    assert ids[..i + 1][..i] == ids[..i] && ids[i] !in ids[..i];
  }

  /** No source of the organization is left; the others are there, unchanged but for the
      default flag, which moves only if the default was deleted, and survives. */
  ghost predicate Purged(m: Bucket, r: Bucket, org: string) {
    && (forall k :: k in r <==> k in m && m[k].organization != org)
    && (forall k :: k in r ==> r[k] == m[k].(isDefault := r[k].isDefault))
    && (AtMostOneDefault(m) ==> AtMostOneDefault(r))
    && (OneDefault(m) ==> OneDefault(r))
    && ((forall k :: k in m && m[k].organization == org ==> !m[k].isDefault) ==> forall k :: k in r ==> r[k] == m[k])
  }

  lemma PurgedByDeletes(m: Bucket, ids: seq<nat>, org: string)
    requires Keyed(m) && forall k :: k in ids <==> k in m && m[k].organization == org
    ensures Purged(m, DeletedAll(m, ids), org)
  {
    DeletedAllFacts(m, ids);
  }
}
