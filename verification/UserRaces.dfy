/** Interleaved calls on the user table: the facades (organizations/users.go) read a user, compute what to
    write and write it in transactions of their own, and so does the check for a user of the same name
    before an insertion (bolt/users.go). */
module UserRaces {
  import opened Options
  import opened Buckets
  import opened Users

  // ---------------------------------------------------------------- facades of several organizations

  /** What a facade has decided to write. */
  datatype Plan = Plan(org: string, record: User)

  /** The state of the table, and the plans of the calls under way. */
  datatype State = State(db: DB, plans: map<nat, Plan>)

  /** The transactions of a call: it reads the user and makes its plan, checks that the user is still
      there, and writes. */
  datatype Event = Begin(call: nat, org: string, op: Op) | Check(call: nat) | Finish(call: nat)

  /** The first transaction of a call that changes a known user. */
  function Planned(db: DB, org: string, op: Op): Option<Plan> {
    match op
    case Add(u) =>
      if !ValidFor(org, u.roles) || Find(db, NameOf(u)).Err? then None
      else
        var usr := Find(db, NameOf(u)).value;
        if |usr.roles| - |Elsewhere(usr, org)| > 0 then None
        else Some(Plan(org, usr.(roles := Elsewhere(usr, org) + u.roles, superAdmin := u.superAdmin || usr.superAdmin)))
    case Update(u) =>
      if !ValidFor(org, u.roles) || u.id !in db.table then None
      else Some(Plan(org, u.(roles := Elsewhere(db.table[u.id], org) + u.roles)))
    case Delete(id) =>
      if id !in db.table then None else Some(Plan(org, db.table[id].(roles := Elsewhere(db.table[id], org))))
  }

  function Put(db: DB, u: User): DB {
    db.(table := db.table[u.id := u])
  }

  function Do(s: State, e: Event): State {
    match e
    case Begin(c, org, op) =>
      var plan := Planned(s.db, org, op);
      s.(plans := if plan.Some? then s.plans[c := plan.value] else s.plans - {c})
    case Check(c) =>
      if c in s.plans && s.plans[c].record.id !in s.db.table then s.(plans := s.plans - {c}) else s
    case Finish(c) =>
      if c in s.plans then State(Put(s.db, s.plans[c].record), s.plans - {c}) else s
  }

  function Run(s: State, es: seq<Event>): State
    decreases |es|
  {
    if es == [] then s else Run(Do(s, es[0]), es[1..])
  }

  lemma RunThree(s: State, a: Event, b: Event, c: Event)
    ensures Run(s, [a, b, c]) == Do(Do(Do(s, a), b), c)
  {
    assert [a, b, c][1..] == [b, c] && [b, c][1..] == [c] && [c][1..] == [];
    assert Run(Do(Do(s, a), b), [c]) == Run(Do(Do(Do(s, a), b), c), []);
  }

  /** Without interruption the transactions are the call. */
  lemma AloneIsTheCall(s: State, c: nat, org: string, op: Op)
    requires Keyed(s.db) && (op.Add? ==> Find(s.db, NameOf(op.u)).Ok?)
    ensures Run(s, [Begin(c, org, op), Check(c), Finish(c)]).db == Apply(s.db, org, op)
  {
    var s1 := Do(s, Begin(c, org, op));
    var s2 := Do(s1, Check(c));
    RunThree(s, Begin(c, org, op), Check(c), Finish(c));
    if op.Add? { FindKeyed(s.db, NameOf(op.u)); }
  }

  /** The other organizations' roles of the user have changed since they were read. */
  predicate Stale(db: DB, plan: Plan) {
    plan.record.id !in db.table || Elsewhere(db.table[plan.record.id], plan.org) != Elsewhere(plan.record, plan.org)
  }

  /** Other organizations see the same users, with the same roles in the same order. */
  ghost predicate OthersKept(db: DB, db': DB, org: string) {
    db'.table.Keys == db.table.Keys
    && forall k :: k in db.table ==> Elsewhere(db'.table[k], org) == Elsewhere(db.table[k], org)
  }

  lemma PutKeepsIff(db: DB, plan: Plan)
    ensures OthersKept(db, Put(db, plan.record), plan.org) <==> !Stale(db, plan)
  {
    var u := plan.record;
    assert Put(db, u).table[u.id] == u;
    if u.id in db.table { assert Put(db, u).table.Keys == db.table.Keys; }
  }

  /** A call overwrites what other organizations have written in between. */
  predicate Overwrites(s: State, e: Event) {
    e.Finish? && e.call in s.plans && Stale(s.db, s.plans[e.call])
  }

  /** An event changes nothing for the organizations that it is not a call of. */
  ghost predicate OthersSeeNothing(s: State, e: Event) {
    match e
    case Finish(c) => c in s.plans ==> OthersKept(s.db, Do(s, e).db, s.plans[c].org)
    case _ => Do(s, e).db == s.db
  }

  ghost predicate AlwaysUnseen(s: State, es: seq<Event>)
    decreases |es|
  {
    es == [] || (OthersSeeNothing(s, es[0]) && AlwaysUnseen(Do(s, es[0]), es[1..]))
  }

  ghost predicate NeverOverwrites(s: State, es: seq<Event>)
    decreases |es|
  {
    es == [] || (!Overwrites(s, es[0]) && NeverOverwrites(Do(s, es[0]), es[1..]))
  }

  /** In an interleaving every organization's view of every user changes by its own calls only, exactly
      when no call writes roles of other organizations that have changed since it read them. */
  lemma {:induction false} InterleavingKeepsIff(s: State, es: seq<Event>)
    ensures AlwaysUnseen(s, es) <==> NeverOverwrites(s, es)
    decreases |es|
  {
    if es != [] {
      if es[0].Finish? && es[0].call in s.plans { PutKeepsIff(s.db, s.plans[es[0].call]); }
      InterleavingKeepsIff(Do(s, es[0]), es[1..]);
    }
  }

  /** A plan is up to date when it is made, and only another call's write of the same user changes that. */
  lemma FreshPlan(db: DB, org: string, op: Op)
    requires Keyed(db) && Planned(db, org, op).Some?
    ensures !Stale(db, Planned(db, org, op).value) && Planned(db, org, op).value.org == org
  {
    match op
    case Add(u) =>
      FindKeyed(db, NameOf(u));
      WrittenKeeps(Find(db, NameOf(u)).value, u.roles, org);
    case Update(u) => WrittenKeeps(db.table[u.id], u.roles, org);
    case Delete(id) => KeptTwice(db.table[id].roles, NotIn(org));
  }

  lemma StaleByOthersOnly(s: State, c: nat, e: Event)
    requires c in s.plans && !Stale(s.db, s.plans[c])
    requires c in Do(s, e).plans && Do(s, e).plans[c] == s.plans[c] && Stale(Do(s, e).db, s.plans[c])
    ensures e.Finish? && e.call != c && e.call in s.plans && s.plans[e.call].record.id == s.plans[c].record.id
  {
  }

  /** Two organizations remove one user at a time: the first removal is undone by the second. */
  lemma RemovalLost(db: DB, id: nat, a: string, b: string)
    requires Keyed(db) && id in db.table && a != b && View(db.table[id], a).roles != []
    ensures var end := Run(State(db, map[]),
      [Begin(1, a, Delete(id)), Begin(2, b, Delete(id)), Finish(1), Finish(2)]).db;
      id in end.table && View(end.table[id], a).roles == View(db.table[id], a).roles
  {
    var u := db.table[id];
    var p, q := Plan(a, u.(roles := Elsewhere(u, a))), Plan(b, u.(roles := Elsewhere(u, b)));
    var s1 := Do(State(db, map[]), Begin(1, a, Delete(id)));
    var s2 := Do(s1, Begin(2, b, Delete(id)));
    var s3 := Do(s2, Finish(1));
    assert s1 == State(db, map[1 := p]) && s2 == State(db, map[1 := p, 2 := q]);
    assert s3 == State(Put(db, p.record), map[2 := q]);
    assert Do(s3, Finish(2)).db.table[id] == q.record;
    var es := [Begin(2, b, Delete(id)), Finish(1), Finish(2)];
    RunThree(s1, es[0], es[1], es[2]);
    assert ([Begin(1, a, Delete(id))] + es)[1..] == es;
    assert [Begin(1, a, Delete(id)), Begin(2, b, Delete(id)), Finish(1), Finish(2)] == [Begin(1, a, Delete(id))] + es;
    OtherOrg(u.roles, b, a);
  }

  // ---------------------------------------------------------------- users of one name

  predicate SameName(u: User, v: User) {
    u.name == v.name && u.provider == v.provider && u.scheme == v.scheme
  }

  predicate Taken(table: map<nat, User>, u: User) {
    exists k :: k in table && SameName(table[k], u)
  }

  ghost predicate NamesUnique(db: DB) {
    forall j, k :: j in db.table && k in db.table && SameName(db.table[j], db.table[k]) ==> j == k
  }

  /** The transactions that write: the one that inserts, whatever users there are by then, the one that
      updates and the one that deletes. */
  datatype Step = Insert(u: User) | Write(u: User) | Remove(id: nat)

  function After(db: DB, step: Step): DB {
    match step
    case Insert(u) => DB(db.table[db.sequence + 1 := u.(id := db.sequence + 1)], db.sequence + 1)
    case Write(u) => Put(db, u)
    case Remove(id) => db.(table := db.table - {id})
  }

  /** Updates write users that the store has handed out. */
  predicate Known(db: DB, step: Step) {
    step.Write? ==> step.u.id <= db.sequence
  }

  lemma AfterKeyed(db: DB, step: Step)
    requires Keyed(db) && Known(db, step)
    ensures Keyed(After(db, step))
  {
  }

  /** The name written belongs to another user. */
  predicate Clashes(db: DB, step: Step) {
    match step
    case Insert(u) => Taken(db.table, u)
    case Write(u) => Taken(db.table - {u.id}, u)
    case Remove(_) => false
  }

  lemma NoNameTwice(db: DB, step: Step, j: nat, k: nat)
    requires Keyed(db) && !Clashes(db, step) && !step.Remove?
    requires k in After(db, step).table && j == (if step.Insert? then db.sequence + 1 else step.u.id) && k != j
    ensures !SameName(After(db, step).table[j], After(db, step).table[k])
  {
    var others := if step.Write? then db.table - {step.u.id} else db.table;
    assert k in others && After(db, step).table[k] == others[k];
  }

  lemma StepKeepsNamesIff(db: DB, step: Step)
    requires Keyed(db) && NamesUnique(db)
    ensures NamesUnique(After(db, step)) <==> !Clashes(db, step)
  {
    var t := After(db, step).table;
    if Clashes(db, step) {
      var others := if step.Write? then db.table - {step.u.id} else db.table;
      var k :| k in others && SameName(others[k], step.u);
      var id := if step.Insert? then db.sequence + 1 else step.u.id;
      assert k in t && id in t && k != id && SameName(t[k], t[id]);
    } else {
      forall j, k | j in t && k in t && SameName(t[j], t[k]) ensures j == k {
        if !step.Remove? {
          var id := if step.Insert? then db.sequence + 1 else step.u.id;
          if j == id && k != id { NoNameTwice(db, step, j, k); }
          if k == id && j != id { NoNameTwice(db, step, k, j); }
        }
      }
    }
  }

  ghost predicate AllKnown(db: DB, steps: seq<Step>)
    decreases |steps|
  {
    steps == [] || (Known(db, steps[0]) && AllKnown(After(db, steps[0]), steps[1..]))
  }

  ghost predicate AlwaysUnique(db: DB, steps: seq<Step>)
    decreases |steps|
  {
    NamesUnique(db) && (steps == [] || AlwaysUnique(After(db, steps[0]), steps[1..]))
  }

  ghost predicate NeverClashes(db: DB, steps: seq<Step>)
    decreases |steps|
  {
    steps == [] || (!Clashes(db, steps[0]) && NeverClashes(After(db, steps[0]), steps[1..]))
  }

  /** Name, provider and scheme tell users apart in every state of an interleaving exactly when no
      transaction writes those that another user has by then. */
  lemma {:induction false} InterleavingKeepsNamesIff(db: DB, steps: seq<Step>)
    requires Keyed(db) && NamesUnique(db) && AllKnown(db, steps)
    ensures AlwaysUnique(db, steps) <==> NeverClashes(db, steps)
    decreases |steps|
  {
    if steps != [] {
      StepKeepsNamesIff(db, steps[0]);
      AfterKeyed(db, steps[0]);
      if !Clashes(db, steps[0]) { InterleavingKeepsNamesIff(After(db, steps[0]), steps[1..]); }
    }
  }

  /** An uninterrupted addition inserts only where it does not clash. */
  lemma AddChecks(db: DB, u: User)
    requires Keyed(db)
    ensures StoreAdd(db, u).1.Err? <==> Clashes(db, Insert(u))
    ensures StoreAdd(db, u).0 == if Clashes(db, Insert(u)) then db else After(db, Insert(u))
  {
    FindKeyed(db, NameOf(u));
    if Find(db, NameOf(u)).Ok? {
      var v := Find(db, NameOf(u)).value;
      FirstIsIn(Records(db.table), Named(NameOf(u)));
      assert SameName(db.table[v.id], u);
    } else {
      forall k | k in db.table ensures !SameName(db.table[k], u) { assert !Named(NameOf(u))(db.table[k]); }
    }
  }

  /** Two first logins that both looked before either wrote: one user twice. */
  lemma TwoLoginsOneName(db: DB, u: User)
    requires Keyed(db) && NamesUnique(db) && !Taken(db.table, u)
    ensures !Clashes(db, Insert(u)) && !NamesUnique(After(After(db, Insert(u)), Insert(u)))
  {
    var once := After(db, Insert(u));
    AfterKeyed(db, Insert(u));
    StepKeepsNamesIff(db, Insert(u));
    assert SameName(once.table[db.sequence + 1], u);
    StepKeepsNamesIff(once, Insert(u));
  }
}
