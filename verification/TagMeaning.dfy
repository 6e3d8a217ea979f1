/** What a condition means, and what the tags that `Convert` collects from it (influx/query.go) mean
    to `whereFilter` (kapacitor/vars.go). */
module TagMeaning {
  import opened TagLogic

  /** The value of a tag in a point, and the truth of the time ranges. */
  type Point = string -> string

  predicate Holds(f: TagFilter, p: Point) {
    if f.op == "==" then p(f.tag) == f.value else p(f.tag) != f.value
  }

  predicate Eval(e: Expr, p: Point, time: Expr -> bool) {
    match e
    case Paren(i) => Eval(i, p, time)
    case Binary(op, l, r) =>
      var tf := IsTagFilter(e);
      if IsTimeRange(e) then time(e)
      else if tf.Filter? then Holds(tf.tf, p)
      else if op == OR then Eval(l, p, time) || Eval(r, p, time)
      else Eval(l, p, time) && Eval(r, p, time)
    case _ => false
  }

  /** The tags as whereFilter prints them: for every tag one of its values is met. */
  ghost predicate Reads(tags: Tags, operator: string, p: Point) {
    forall t :: t in tags ==> ReadsTag(tags[t], operator, t, p)
  }

  ghost predicate ReadsTag(values: seq<string>, operator: string, t: string, p: Point) {
    exists v :: v in values && Holds(TagFilter(operator, t, v), p)
  }

  predicate TimesHold(e: Expr, time: Expr -> bool) {
    match e
    case Paren(i) => TimesHold(i, time)
    case Binary(op, l, r) =>
      if IsTimeRange(e) then time(e)
      else if IsTagFilter(e).Filter? then true
      else TimesHold(l, time) && TimesHold(r, time)
    case _ => true
  }

  /** One or more filters on a single tag, joined by OR. */
  predicate Group(e: Expr, tag: string) {
    match e
    case Paren(i) => Group(i, tag)
    case Binary(op, l, r) =>
      var tf := IsTagFilter(e);
      if IsTimeRange(e) then false
      else if tf.Filter? then tf.tf.tag == tag
      else op == OR && Group(l, tag) && Group(r, tag)
    case _ => false
  }

  ghost predicate IsGroup(e: Expr) {
    exists tag :: Group(e, tag)
  }

  /** AND of time ranges and of groups on pairwise different tags. */
  ghost predicate Shape(e: Expr) {
    match e
    case Paren(i) => Shape(i)
    case Binary(op, l, r) =>
      IsTimeRange(e) || IsGroup(e) ||
      (IsTagFilter(e).NotFilter? && op == AND && Shape(l) && Shape(r) && TagSet(Filters(l)) !! TagSet(Filters(r)))
    case _ => false
  }

  /** `Reads` on the list of filters: every filter's tag has a filter that holds. */
  ghost predicate Covered(fs: seq<TagFilter>, p: Point) {
    forall f :: f in fs ==> Met(fs, f.tag, p)
  }

  ghost predicate Met(fs: seq<TagFilter>, t: string, p: Point) {
    exists g :: g in fs && g.tag == t && Holds(g, p)
  }

  lemma {:induction false} GroupMeaning(e: Expr, tag: string, p: Point, time: Expr -> bool)
    requires Group(e, tag)
    ensures Filters(e) != [] && (forall f :: f in Filters(e) ==> f.tag == tag)
    ensures Eval(e, p, time) <==> exists g :: g in Filters(e) && Holds(g, p)
    ensures TimesHold(e, time)
  {
    if e.Paren? {
      GroupMeaning(e.inner, tag, p, time);
    } else if IsTagFilter(e).Filter? {
      assert Filters(e)[0] in Filters(e);
    } else {
      GroupMeaning(e.lhs, tag, p, time);
      GroupMeaning(e.rhs, tag, p, time);
      assert Filters(e) == Filters(e.lhs) + Filters(e.rhs);
      assert forall g :: g in Filters(e) <==> g in Filters(e.lhs) || g in Filters(e.rhs);
    }
  }

  lemma CoveredJoin(a: seq<TagFilter>, b: seq<TagFilter>, p: Point)
    requires TagSet(a) !! TagSet(b)
    ensures Covered(a + b, p) <==> Covered(a, p) && Covered(b, p)
  {
    assert forall f :: f in a + b <==> f in a || f in b;
    forall f, g | f in a && g in b ensures f.tag != g.tag {
      assert f.tag in TagSet(a) && g.tag in TagSet(b);
    }
    forall f | f in a ensures Met(a + b, f.tag, p) <==> Met(a, f.tag, p) { }
    forall f | f in b ensures Met(a + b, f.tag, p) <==> Met(b, f.tag, p) { }
    forall f | f in a || f in b ensures f in a + b { }
  }

  lemma {:induction false} ShapeMeaning(e: Expr, p: Point, time: Expr -> bool)
    requires Shape(e)
    ensures Eval(e, p, time) <==> TimesHold(e, time) && Covered(Filters(e), p)
  {
    if e.Paren? {
      ShapeMeaning(e.inner, p, time);
    } else if IsTimeRange(e) {
      LeafFilters(e);
    } else if IsGroup(e) {
      var tag :| Group(e, tag);
      GroupMeaning(e, tag, p, time);
      assert Filters(e)[0] in Filters(e);
    } else {
      ShapeMeaning(e.lhs, p, time);
      ShapeMeaning(e.rhs, p, time);
      CoveredJoin(Filters(e.lhs), Filters(e.rhs), p);
    }
  }

  lemma {:induction false} ValuesOfMembers(fs: seq<TagFilter>, tag: string)
    ensures forall v :: v in ValuesOf(fs, tag) <==> exists f :: f in fs && f.tag == tag && f.value == v
  {
    if fs != [] {
      var n := |fs| - 1;
      ValuesOfMembers(fs[..n], tag);
      assert fs == fs[..n] + [fs[n]];
    }
  }

  lemma MetIsRead(fs: seq<TagFilter>, values: seq<string>, operator: string, t: string, p: Point)
    requires (forall f :: f in fs ==> f.op == operator) && values == ValuesOf(fs, t)
    ensures Met(fs, t, p) <==> ReadsTag(values, operator, t, p)
  {
    ValuesOfMembers(fs, t);
    if Met(fs, t, p) {
      var g :| g in fs && g.tag == t && Holds(g, p);
      assert g.value in values && g == TagFilter(operator, t, g.value);
    }
    if ReadsTag(values, operator, t, p) {
      var v :| v in values && Holds(TagFilter(operator, t, v), p);
      var f :| f in fs && f.tag == t && f.value == v;
      assert f == TagFilter(operator, t, v);
    }
  }

  lemma CoveredIsReads(fs: seq<TagFilter>, tags: Tags, operator: string, p: Point)
    requires (forall f :: f in fs ==> f.op == operator) && Collected(fs, tags)
    ensures Covered(fs, p) <==> Reads(tags, operator, p)
  {
    forall t | t in tags ensures Met(fs, t, p) <==> ReadsTag(tags[t], operator, t, p) {
      MetIsRead(fs, tags[t], operator, t, p);
    }
    if Covered(fs, p) {
      forall t | t in tags ensures ReadsTag(tags[t], operator, t, p) {
        assert t in TagSet(fs);
        var f :| f in fs && f.tag == t;
        assert Met(fs, f.tag, p);
      }
    }
    if Reads(tags, operator, p) {
      forall f | f in fs ensures Met(fs, f.tag, p) { assert f.tag in TagSet(fs); }
    }
  }

  /** For a condition of this shape the collected tags, read as whereFilter reads them, mean
      what the condition meant, under either operator. */
  lemma CollectedTagsMeanTheCondition(e: Expr, tags: Tags, operator: string, p: Point, time: Expr -> bool)
    requires Shape(e) && IsTagLogic(e).Accepted?
    requires forall f :: f in Filters(e) ==> f.op == operator
    requires Collected(IsTagLogic(e).filters, tags)
    ensures Eval(e, p, time) <==> TimesHold(e, time) && Reads(tags, operator, p)
  {
    AcceptsGrammar(e);
    ShapeMeaning(e, p, time);
    CoveredIsReads(Filters(e), tags, operator, p);
  }

  // ---------------------------------------------------------------- what is lost

  /** The collected tags mean the condition, whatever the point and the time. */
  ghost predicate Kept(e: Expr, tags: Tags, operator: string) {
    forall p: Point, time: Expr -> bool :: Agrees(e, tags, operator, p, time)
  }

  ghost predicate Agrees(e: Expr, tags: Tags, operator: string, p: Point, time: Expr -> bool) {
    Eval(e, p, time) <==> TimesHold(e, time) && Reads(tags, operator, p)
  }

  predicate Meets(operator: string, value: string, x: string) {
    if operator == "==" then x == value else x != value
  }

  /** Whether a value of the tag satisfies a group with these values. */
  predicate Any(operator: string, values: set<string>, x: string) {
    exists v :: v in values && Meets(operator, v, x)
  }

  function ValueSet(fs: seq<TagFilter>): set<string> {
    set f | f in fs :: f.value
  }

  predicate Joint(op: Op, x: bool, y: bool) {
    if op == OR then x || y else x && y
  }

  lemma GroupIsAny(e: Expr, tag: string, operator: string, p: Point, time: Expr -> bool)
    requires Group(e, tag) && forall f :: f in Filters(e) ==> f.op == operator
    ensures Eval(e, p, time) <==> Any(operator, ValueSet(Filters(e)), p(tag))
    ensures Covered(Filters(e), p) <==> Eval(e, p, time)
    ensures TimesHold(e, time) && TagSet(Filters(e)) == {tag} && ValueSet(Filters(e)) != {}
  {
    var fs := Filters(e);
    GroupMeaning(e, tag, p, time);
    assert fs[0] in fs && fs[0].tag in TagSet(fs) && fs[0].value in ValueSet(fs);
    if Eval(e, p, time) {
      var g :| g in fs && Holds(g, p);
      assert g.value in ValueSet(fs) && Meets(operator, g.value, p(tag));
    }
    if Any(operator, ValueSet(fs), p(tag)) {
      var v :| v in ValueSet(fs) && Meets(operator, v, p(tag));
      var g :| g in fs && g.value == v;
      assert Holds(g, p);
    }
    if Covered(fs, p) { assert Met(fs, fs[0].tag, p); }
  }

  /** A connective over a group on `a` and a group on `b`, and what Convert collects from it. */
  ghost predicate TwoGroupsOf(e: Expr, a: string, b: string, tags: Tags, operator: string) {
    && e.Binary? && (e.op == AND || e.op == OR)
    && Group(e.lhs, a) && Group(e.rhs, b)
    && (operator == "==" || operator == "!=")
    && (forall f :: f in Filters(e) ==> f.op == operator)
    && Collected(Filters(e), tags)
  }

  /** Two groups under a connective: on two tags both have to be met, on one tag either. */
  lemma TwoGroups(e: Expr, a: string, b: string, tags: Tags, operator: string, p: Point, time: Expr -> bool)
    requires TwoGroupsOf(e, a, b, tags, operator)
    ensures var x, y := Any(operator, ValueSet(Filters(e.lhs)), p(a)), Any(operator, ValueSet(Filters(e.rhs)), p(b));
      Agrees(e, tags, operator, p, time) <==> (Joint(e.op, x, y) <==> Joint(if a == b then OR else AND, x, y))
  {
    var fl, fr := Filters(e.lhs), Filters(e.rhs);
    assert !IsTimeRange(e) && IsTagFilter(e).NotFilter?;
    assert Filters(e) == fl + fr && forall f :: f in fl || f in fr ==> f in fl + fr;
    GroupIsAny(e.lhs, a, operator, p, time);
    GroupIsAny(e.rhs, b, operator, p, time);
    CoveredIsReads(fl + fr, tags, operator, p);
    if a != b {
      CoveredJoin(fl, fr, p);
    } else {
      CoveredOne(fl, fr, a, p);
    }
  }

  lemma CoveredOne(x: seq<TagFilter>, y: seq<TagFilter>, tag: string, p: Point)
    requires TagSet(x) == TagSet(y) == {tag}
    ensures Covered(x + y, p) <==> Covered(x, p) || Covered(y, p)
  {
    var f :| f in x && f.tag == tag;
    var g :| g in y && g.tag == tag;
    forall h | h in x || h in y ensures h in x + y && h.tag == tag {
      assert h in x ==> h.tag in TagSet(x);
      assert h in y ==> h.tag in TagSet(y);
    }
    assert Met(x + y, tag, p) <==> Met(x, tag, p) || Met(y, tag, p);
    assert f in x + y;
  }

  /** A negated group with two values is met by everything. */
  predicate AlwaysMet(operator: string, values: set<string>) {
    operator == "!=" && exists v, w :: v in values && w in values && v != w
  }

  lemma AnyIs(operator: string, values: set<string>, x: string)
    requires values != {} && (operator == "==" || operator == "!=")
    ensures operator == "==" ==> (Any(operator, values, x) <==> x in values)
    ensures operator == "!=" ==> (Any(operator, values, x) <==> AlwaysMet(operator, values) || values != {x})
  {
    var v :| v in values;
    if operator == "==" {
      assert x in values ==> Meets(operator, x, x);
    } else if AlwaysMet(operator, values) {
      var y, z :| y in values && z in values && y != z;
      assert Meets(operator, y, x) || Meets(operator, z, x);
    } else {
      assert values == {v};
      assert v != x ==> Meets(operator, v, x);
    }
  }

  lemma {:induction false} LongerThanAll(values: set<string>) returns (n: nat)
    ensures forall v :: v in values ==> |v| < n
  {
    n := 0;
    if values != {} {
      var v :| v in values;
      n := LongerThanAll(values - {v});
      n := if |v| < n then n else |v| + 1;
    }
  }

  lemma Fresh(values: set<string>) returns (x: string)
    ensures x !in values
  {
    var n := LongerThanAll(values);
    x := seq(n, i => 'x');
  }

  /** On two tags one group can be met while the other is not. */
  lemma Apart(operator: string, v: set<string>, w: set<string>) returns (x: string, y: string)
    requires v != {} && w != {} && (operator == "==" || operator == "!=")
    requires !(AlwaysMet(operator, v) && AlwaysMet(operator, w))
    ensures Any(operator, v, x) != Any(operator, w, y)
  {
    x, y :| x in v && y in w;
    if operator == "==" || AlwaysMet(operator, v) {
      if operator == "==" { y := Fresh(w); }
    } else {
      assert v == {x};
      y := Fresh(w);
    }
    AnyIs(operator, v, x);
    AnyIs(operator, w, y);
    if AlwaysMet(operator, v) { assert w == {y}; }
  }

  /** On one tag groups with different values are met by different values. */
  lemma Differ(operator: string, v: set<string>, w: set<string>) returns (x: string)
    requires v != {} && w != {} && v != w && (operator == "==" || operator == "!=")
    requires !(AlwaysMet(operator, v) && AlwaysMet(operator, w))
    ensures Any(operator, v, x) != Any(operator, w, x)
  {
    if operator == "==" {
      x :| x in v + w && !(x in v && x in w);
    } else if AlwaysMet(operator, v) {
      x :| x in w;
      assert w == {x};
    } else {
      x :| x in v;
      assert v == {x};
    }
    AnyIs(operator, v, x);
    AnyIs(operator, w, x);
  }

  /** AND on two tags and OR on one tag are kept; anything else only if both groups say the same. */
  predicate MeaningKept(op: Op, oneTag: bool, operator: string, v: set<string>, w: set<string>) {
    || op == (if oneTag then OR else AND)
    || (oneTag && v == w)
    || (AlwaysMet(operator, v) && AlwaysMet(operator, w))
  }

  lemma TwoGroupsKeptIff(e: Expr, a: string, b: string, tags: Tags, operator: string)
    requires TwoGroupsOf(e, a, b, tags, operator)
    ensures Kept(e, tags, operator) <==>
      MeaningKept(e.op, a == b, operator, ValueSet(Filters(e.lhs)), ValueSet(Filters(e.rhs)))
  {
    var v, w := ValueSet(Filters(e.lhs)), ValueSet(Filters(e.rhs));
    GroupsOfTwo(e, a, b, tags, operator);
    if MeaningKept(e.op, a == b, operator, v, w) {
      forall p: Point, time: Expr -> bool ensures Agrees(e, tags, operator, p, time) {
        TwoGroups(e, a, b, tags, operator, p, time);
        AnyIs(operator, v, p(a));
        AnyIs(operator, w, p(b));
      }
    } else {
      var p: Point := t => "";
      if a == b {
        var x := Differ(operator, v, w);
        p := t => x;
      } else {
        var x, y := Apart(operator, v, w);
        p := t => if t == a then x else y;
      }
      TwoGroups(e, a, b, tags, operator, p, _ => true);
      assert !Agrees(e, tags, operator, p, _ => true);
    }
  }

  lemma GroupsOfTwo(e: Expr, a: string, b: string, tags: Tags, operator: string)
    requires TwoGroupsOf(e, a, b, tags, operator)
    ensures ValueSet(Filters(e.lhs)) != {} && ValueSet(Filters(e.rhs)) != {}
  {
    var fl, fr := Filters(e.lhs), Filters(e.rhs);
    assert !IsTimeRange(e) && IsTagFilter(e).NotFilter?;
    assert Filters(e) == fl + fr && forall f :: f in fl || f in fr ==> f in fl + fr;
    GroupIsAny(e.lhs, a, operator, t => "", _ => true);
    GroupIsAny(e.rhs, b, operator, t => "", _ => true);
  }

  lemma {:induction false} TimeRangeMeaning(e: Expr, p: Point, time: Expr -> bool, constant: bool)
    requires IsTimeRange(e)
    ensures Eval(e, p, time) <==> TimesHold(e, time)
    ensures (forall t :: time(t) == constant) ==> Eval(e, p, time) == constant
    ensures Filters(e) == []
  {
    if e.Paren? { TimeRangeMeaning(e.inner, p, time, constant); }
  }

  /** A time range beside a group: an AND is kept, an OR never. */
  lemma TimeRangeKeptIff(e: Expr, tag: string, tags: Tags, operator: string)
    requires e.Binary? && (e.op == AND || e.op == OR)
    requires (IsTimeRange(e.lhs) && Group(e.rhs, tag)) || (Group(e.lhs, tag) && IsTimeRange(e.rhs))
    requires (forall f :: f in Filters(e) ==> f.op == operator) && Collected(Filters(e), tags)
    ensures Kept(e, tags, operator) <==> e.op == AND
  {
    var (t, g) := if IsTimeRange(e.lhs) && Group(e.rhs, tag) then (e.lhs, e.rhs) else (e.rhs, e.lhs);
    assert !IsTimeRange(e) && IsTagFilter(e).NotFilter?;
    TimeRangeMeaning(t, x => "", _ => true, true);
    assert Filters(e) == Filters(g);
    if e.op == AND {
      forall p: Point, time: Expr -> bool ensures Agrees(e, tags, operator, p, time) {
        TimeRangeMeaning(t, p, time, true);
        GroupIsAny(g, tag, operator, p, time);
        CoveredIsReads(Filters(e), tags, operator, p);
      }
    } else {
      var p, never := t => "", (x: Expr) => false;
      GroupIsAny(g, tag, operator, p, never);
      var f :| f in Filters(g);
      var x := Fresh({f.value});
      p := s => if operator == "==" then f.value else x;
      GroupIsAny(g, tag, operator, p, never);
      assert Meets(operator, f.value, p(tag));
      TimeRangeMeaning(t, p, never, false);
      assert !Agrees(e, tags, operator, p, never);
    }
  }

  /** Connectives, however nested, over time ranges and groups on pairwise different tags. */
  ghost predicate Tree(e: Expr, operator: string) {
    match e
    case Paren(i) => Tree(i, operator)
    case Binary(op, l, r) =>
      || IsTimeRange(e)
      || (IsGroup(e) && !AlwaysMet(operator, ValueSet(Filters(e))))
      || ((op == AND || op == OR) && Tree(l, operator) && Tree(r, operator)
          && TagSet(Filters(l)) !! TagSet(Filters(r)) && (op == OR ==> Filters(l) + Filters(r) != []))
    case _ => false
  }

  ghost predicate Conjunctive(e: Expr) {
    match e
    case Paren(i) => Conjunctive(i)
    case Binary(op, l, r) => IsTimeRange(e) || IsGroup(e) || (op == AND && Conjunctive(l) && Conjunctive(r))
    case _ => false
  }

  lemma {:induction false} ConjunctiveHasShape(e: Expr, operator: string)
    requires Tree(e, operator) && Conjunctive(e)
    ensures Shape(e)
  {
    if e.Paren? {
      ConjunctiveHasShape(e.inner, operator);
    } else if !IsTimeRange(e) && !IsGroup(e) {
      ConjunctiveHasShape(e.lhs, operator);
      ConjunctiveHasShape(e.rhs, operator);
    }
  }

  const ANY_TIME: Expr -> bool := e => true

  lemma {:induction false} OnlyItsTags(e: Expr, p: Point, q: Point)
    requires forall t :: t in TagSet(Filters(e)) ==> p(t) == q(t)
    ensures Eval(e, p, ANY_TIME) <==> Eval(e, q, ANY_TIME)
    ensures Covered(Filters(e), p) <==> Covered(Filters(e), q)
  {
    var fs := Filters(e);
    assert forall f :: f in fs ==> f.tag in TagSet(fs);
    assert forall f :: f in fs ==> (Holds(f, p) <==> Holds(f, q));
    assert forall t :: Met(fs, t, p) <==> Met(fs, t, q);
    if e.Paren? {
      OnlyItsTags(e.inner, p, q);
    } else if e.Binary? && !IsTimeRange(e) {
      if IsTagFilter(e).Filter? {
        assert IsTagFilter(e).tf in fs;
      } else {
        TagsOfBoth(e);
        OnlyItsTags(e.lhs, p, q);
        OnlyItsTags(e.rhs, p, q);
      }
    }
  }

  lemma TagsOfBoth(e: Expr)
    requires e.Binary? && !IsTimeRange(e) && !IsTagFilter(e).Filter?
    ensures TagSet(Filters(e)) == TagSet(Filters(e.lhs)) + TagSet(Filters(e.rhs))
  {
    assert forall f :: f in Filters(e) <==> f in Filters(e.lhs) || f in Filters(e.rhs);
  }

  /** A point that is `p` on the tags of `a` and `q` on those of `b`. */
  lemma Combined(a: Expr, b: Expr, p: Point, q: Point) returns (both: Point)
    requires TagSet(Filters(a)) !! TagSet(Filters(b))
    ensures Eval(a, both, ANY_TIME) <==> Eval(a, p, ANY_TIME)
    ensures Eval(b, both, ANY_TIME) <==> Eval(b, q, ANY_TIME)
    ensures Covered(Filters(a) + Filters(b), both) <==> Covered(Filters(a), p) && Covered(Filters(b), q)
  {
    both := t => if t in TagSet(Filters(a)) then p(t) else q(t);
    OnlyItsTags(a, both, p);
    OnlyItsTags(b, both, q);
    CoveredJoin(Filters(a), Filters(b), both);
  }

  /** A group can be met and can be unmet. */
  lemma GroupVaries(e: Expr, operator: string) returns (met: Point, unmet: Point)
    requires IsGroup(e) && !AlwaysMet(operator, ValueSet(Filters(e)))
    requires (operator == "==" || operator == "!=") && forall f :: f in Filters(e) ==> f.op == operator
    ensures Eval(e, met, ANY_TIME) && Covered(Filters(e), met)
    ensures Filters(e) != [] && !Covered(Filters(e), unmet)
  {
    var tag :| Group(e, tag);
    var values := ValueSet(Filters(e));
    GroupIsAny(e, tag, operator, t => "", ANY_TIME);
    var x :| x in values;
    var y := Fresh(values);
    var yes, no := if operator == "==" then x else y, if operator == "==" then y else x;
    met, unmet := t => yes, t => no;
    AnyIs(operator, values, yes);
    AnyIs(operator, values, no);
    assert operator == "!=" ==> values == {x};
    GroupIsAny(e, tag, operator, met, ANY_TIME);
    GroupIsAny(e, tag, operator, unmet, ANY_TIME);
  }

  ghost predicate OneOp(e: Expr, operator: string) {
    (operator == "==" || operator == "!=") && forall f :: f in Filters(e) ==> f.op == operator
  }

  lemma OneOpOfBoth(e: Expr, operator: string)
    requires e.Binary? && !IsTimeRange(e) && !IsTagFilter(e).Filter? && OneOp(e, operator)
    ensures OneOp(e.lhs, operator) && OneOp(e.rhs, operator)
  {
    assert forall f :: f in Filters(e.lhs) || f in Filters(e.rhs) ==> f in Filters(e);
  }

  lemma {:induction false} CanBeMet(e: Expr, operator: string) returns (p: Point)
    requires Tree(e, operator) && OneOp(e, operator)
    ensures Eval(e, p, ANY_TIME) && Covered(Filters(e), p)
  {
    p := t => "";
    if e.Paren? {
      p := CanBeMet(e.inner, operator);
    } else if IsTimeRange(e) {
      TimeRangeMeaning(e, p, ANY_TIME, true);
    } else if IsGroup(e) && !AlwaysMet(operator, ValueSet(Filters(e))) {
      var unmet;
      p, unmet := GroupVaries(e, operator);
    } else {
      OneOpOfBoth(e, operator);
      var pl := CanBeMet(e.lhs, operator);
      var pr := CanBeMet(e.rhs, operator);
      p := Combined(e.lhs, e.rhs, pl, pr);
    }
  }

  lemma {:induction false} CanBeUnmet(e: Expr, operator: string) returns (p: Point)
    requires Tree(e, operator) && OneOp(e, operator) && Filters(e) != []
    ensures !Covered(Filters(e), p)
  {
    if e.Paren? {
      p := CanBeUnmet(e.inner, operator);
    } else if IsGroup(e) && !AlwaysMet(operator, ValueSet(Filters(e))) {
      var met;
      met, p := GroupVaries(e, operator);
    } else {
      OneOpOfBoth(e, operator);
      if Filters(e.lhs) != [] {
        p := CanBeUnmet(e.lhs, operator);
      } else {
        p := CanBeUnmet(e.rhs, operator);
      }
      CoveredJoin(Filters(e.lhs), Filters(e.rhs), p);
    }
  }

  lemma {:induction false} CanBeLost(e: Expr, operator: string) returns (p: Point)
    requires Tree(e, operator) && OneOp(e, operator) && !Conjunctive(e)
    ensures Eval(e, p, ANY_TIME) && !Covered(Filters(e), p)
  {
    if e.Paren? {
      p := CanBeLost(e.inner, operator);
    } else {
      OneOpOfBoth(e, operator);
      var pl, pr;
      if e.op == OR && Filters(e.lhs) != [] {
        pl := CanBeUnmet(e.lhs, operator);
        pr := CanBeMet(e.rhs, operator);
      } else if e.op == OR {
        pl := CanBeMet(e.lhs, operator);
        pr := CanBeUnmet(e.rhs, operator);
      } else if !Conjunctive(e.lhs) {
        pl := CanBeLost(e.lhs, operator);
        pr := CanBeMet(e.rhs, operator);
      } else {
        pl := CanBeMet(e.lhs, operator);
        pr := CanBeLost(e.rhs, operator);
      }
      p := Combined(e.lhs, e.rhs, pl, pr);
    }
  }

  lemma {:induction false} GroupWellFormed(e: Expr, tag: string)
    requires Group(e, tag)
    ensures WellFormed(e)
  {
    if e.Paren? {
      GroupWellFormed(e.inner, tag);
    } else if !IsTagFilter(e).Filter? {
      GroupWellFormed(e.lhs, tag);
      GroupWellFormed(e.rhs, tag);
    }
  }

  lemma {:induction false} TreeWellFormed(e: Expr, operator: string)
    requires Tree(e, operator)
    ensures WellFormed(e)
  {
    if e.Paren? {
      TreeWellFormed(e.inner, operator);
    } else if IsGroup(e) {
      var tag :| Group(e, tag);
      GroupWellFormed(e, tag);
    } else if !IsTimeRange(e) {
      TreeWellFormed(e.lhs, operator);
      TreeWellFormed(e.rhs, operator);
    }
  }

  /** Convert collects tags from all of these. */
  lemma TreeAccepted(e: Expr, operator: string)
    requires Reduced(e) && Tree(e, operator) && OneOp(e, operator)
    ensures IsTagLogic(e) == Accepted(Filters(e))
  {
    TreeWellFormed(e, operator);
    LogicNeverPanics(e);
    AcceptsGrammar(e);
  }

  /** However deep the condition: the collected tags mean it if and only if no OR joins different
      tags, or a tag and a time range. */
  lemma TreeKeptIff(e: Expr, tags: Tags, operator: string)
    requires Tree(e, operator) && OneOp(e, operator) && Collected(Filters(e), tags)
    ensures Kept(e, tags, operator) <==> Conjunctive(e)
  {
    if Conjunctive(e) {
      ConjunctiveHasShape(e, operator);
      forall p: Point, time: Expr -> bool ensures Agrees(e, tags, operator, p, time) {
        ShapeMeaning(e, p, time);
        CoveredIsReads(Filters(e), tags, operator, p);
      }
    } else {
      var p := CanBeLost(e, operator);
      CoveredIsReads(Filters(e), tags, operator, p);
      assert !Agrees(e, tags, operator, p, ANY_TIME);
    }
  }

  // ---------------------------------------------------------------- any condition

  /** The point with every value that the condition does not speak of replaced by one other value. */
  function Restricted(p: Point, values: set<string>, other: string): Point {
    t => if p(t) in values then p(t) else other
  }

  ghost predicate Few(p: Point, values: set<string>, other: string) {
    forall t :: p(t) in values || p(t) == other
  }

  lemma {:induction false} SameEval(e: Expr, p: Point, values: set<string>, other: string, time: Expr -> bool)
    requires other !in values && forall f :: f in Filters(e) ==> f.value in values
    ensures Eval(e, p, time) <==> Eval(e, Restricted(p, values, other), time)
  {
    if e.Paren? {
      SameEval(e.inner, p, values, other, time);
    } else if e.Binary? && !IsTimeRange(e) {
      if IsTagFilter(e).Filter? {
        assert IsTagFilter(e).tf in Filters(e);
      } else {
        assert forall f :: f in Filters(e.lhs) || f in Filters(e.rhs) ==> f in Filters(e);
        SameEval(e.lhs, p, values, other, time);
        SameEval(e.rhs, p, values, other, time);
      }
    }
  }

  lemma SameCovered(fs: seq<TagFilter>, p: Point, values: set<string>, other: string)
    requires other !in values && forall f :: f in fs ==> f.value in values
    ensures Covered(fs, p) <==> Covered(fs, Restricted(p, values, other))
  {
    var q := Restricted(p, values, other);
    forall t ensures Met(fs, t, p) <==> Met(fs, t, q) {
      assert forall f :: f in fs ==> (Holds(f, p) <==> Holds(f, q));
    }
  }

  lemma SameReads(fs: seq<TagFilter>, tags: Tags, operator: string, p: Point, values: set<string>, other: string)
    requires (forall f :: f in fs ==> f.op == operator) && Collected(fs, tags)
    requires other !in values && forall f :: f in fs ==> f.value in values
    ensures Reads(tags, operator, p) <==> Reads(tags, operator, Restricted(p, values, other))
  {
    SameCovered(fs, p, values, other);
    CoveredIsReads(fs, tags, operator, p);
    CoveredIsReads(fs, tags, operator, Restricted(p, values, other));
  }

  lemma FewAgree(e: Expr, tags: Tags, operator: string, p: Point, values: set<string>, other: string,
      time: Expr -> bool)
    requires OneOp(e, operator) && Collected(Filters(e), tags)
    requires values == ValueSet(Filters(e)) && other !in values
    ensures Agrees(e, tags, operator, p, time) <==> Agrees(e, tags, operator, Restricted(p, values, other), time)
  {
    assert forall f :: f in Filters(e) ==> f.value in values;
    SameEval(e, p, values, other, time);
    SameReads(Filters(e), tags, operator, p, values, other);
  }

  /** For any condition, however its tags are spread: the collected tags mean it if and only if they do so
      on the points made of the condition's own values and one other value. */
  lemma KeptByFewPoints(e: Expr, tags: Tags, operator: string, other: string)
    requires OneOp(e, operator) && Collected(Filters(e), tags) && other !in ValueSet(Filters(e))
    ensures Kept(e, tags, operator) <==>
      forall p: Point, time: Expr -> bool :: Few(p, ValueSet(Filters(e)), other) ==> Agrees(e, tags, operator, p, time)
  {
    var values := ValueSet(Filters(e));
    if forall p: Point, time: Expr -> bool :: Few(p, values, other) ==> Agrees(e, tags, operator, p, time) {
      forall p: Point, time: Expr -> bool ensures Agrees(e, tags, operator, p, time) {
        FewAgree(e, tags, operator, p, values, other, time);
        assert Few(Restricted(p, values, other), values, other);
      }
    }
  }

  // ---------------------------------------------------------------- conditions that lose their meaning

  function Compare(op: Op, tag: string, value: string): Expr {
    Binary(op, VarRef(tag), StringLiteral(value))
  }

  lemma CompareIsFilter(op: Op, tag: string, value: string)
    requires op == EQ || op == NEQ
    ensures var e, f := Compare(op, tag, value), TagFilter(if op == EQ then "==" else "!=", tag, value);
      IsTagFilter(e) == Filter(f) && !IsTimeRange(e) && Filters(e) == [f] && Group(e, tag) && Reduced(e)
  {
  }

  /** Two comparisons under a connective are accepted, whatever their tags. */
  lemma PairAccepted(op: Op, cmp: Op, a: string, x: string, b: string, y: string, operator: string)
    requires (op == AND || op == OR) && (cmp == EQ || cmp == NEQ) && operator == (if cmp == EQ then "==" else "!=")
    ensures IsTagLogic(Binary(op, Compare(cmp, a, x), Compare(cmp, b, y))) ==
      Accepted([TagFilter(operator, a, x), TagFilter(operator, b, y)])
  {
    var e := Binary(op, Compare(cmp, a, x), Compare(cmp, b, y));
    CompareIsFilter(cmp, a, x);
    CompareIsFilter(cmp, b, y);
    assert !IsTimeRange(e) && IsTagFilter(e) == NotFilter && Reduced(e);
    LogicNeverPanics(e);
    AcceptsGrammar(e);
    assert Filters(e) == [TagFilter(operator, a, x)] + [TagFilter(operator, b, y)];
  }

  lemma CollectedOne(f: TagFilter)
    ensures Collected([f], map[f.tag := [f.value]])
  {
    assert [f][..0] == [];
    assert ValuesOf([f], f.tag) == ValuesOf([], f.tag) + [f.value];
  }

  lemma CollectedPair(f: TagFilter, g: TagFilter)
    requires f.tag != g.tag
    ensures Collected([f, g], map[f.tag := [f.value], g.tag := [g.value]])
  {
    CollectedOne(f);
    CollectStep([f], g, map[f.tag := [f.value]]);
    assert [f] + [g] == [f, g];
  }

  lemma CollectedTwice(f: TagFilter, g: TagFilter)
    requires f.tag == g.tag
    ensures Collected([f, g], map[f.tag := [f.value, g.value]])
  {
    CollectedOne(f);
    CollectStep([f], g, map[f.tag := [f.value]]);
    assert [f] + [g] == [f, g] && [f.value] + [g.value] == [f.value, g.value];
    assert map[f.tag := [f.value]][f.tag := [f.value, g.value]] == map[f.tag := [f.value, g.value]];
  }

  /** `a = 'x' OR b = 'y'` on two tags: only the conjunction is left. */
  lemma DisjunctionOverTagsIsLost(a: string, x: string, b: string, y: string)
    requires a != b
    ensures var e := Binary(OR, Compare(EQ, a, x), Compare(EQ, b, y));
      && IsTagLogic(e) == Accepted([TagFilter("==", a, x), TagFilter("==", b, y)])
      && !Kept(e, map[a := [x], b := [y]], "==")
  {
    var e, f, g := Binary(OR, Compare(EQ, a, x), Compare(EQ, b, y)), TagFilter("==", a, x), TagFilter("==", b, y);
    PairAccepted(OR, EQ, a, x, b, y, "==");
    CompareIsFilter(EQ, a, x);
    CompareIsFilter(EQ, b, y);
    CollectedPair(f, g);
    assert !IsTimeRange(e) && IsTagFilter(e) == NotFilter;
    assert Filters(e) == [f, g];
    TwoGroupsKeptIff(e, a, b, map[a := [x], b := [y]], "==");
  }

  lemma EitherIsRead(tags: Tags, a: string, x: string, y: string, p: Point)
    requires x != y && tags == map[a := [x, y]]
    ensures Reads(tags, "!=", p)
  {
    assert x in tags[a] && y in tags[a];
    assert Holds(TagFilter("!=", a, x), p) || Holds(TagFilter("!=", a, y), p);
  }

  lemma SingleValues(f: TagFilter, g: TagFilter)
    requires f.value != g.value
    ensures ValueSet([f]) == {f.value} && ValueSet([g]) == {g.value} && {f.value} != {g.value}
  {
    assert f.value in {f.value} && f.value !in {g.value};
  }

  /** `a != 'x' AND a != 'y'`: the tags are read as an OR that is met by every point. */
  lemma NeitherValueIsLost(a: string, x: string, y: string, p: Point)
    requires x != y
    ensures var e := Binary(AND, Compare(NEQ, a, x), Compare(NEQ, a, y));
      && IsTagLogic(e) == Accepted([TagFilter("!=", a, x), TagFilter("!=", a, y)])
      && !Kept(e, map[a := [x, y]], "!=") && Reads(map[a := [x, y]], "!=", p)
  {
    var e, f, g := Binary(AND, Compare(NEQ, a, x), Compare(NEQ, a, y)), TagFilter("!=", a, x), TagFilter("!=", a, y);
    PairAccepted(AND, NEQ, a, x, a, y, "!=");
    CompareIsFilter(NEQ, a, x);
    CompareIsFilter(NEQ, a, y);
    EitherIsRead(map[a := [x, y]], a, x, y, p);
    CollectedTwice(f, g);
    assert !IsTimeRange(e) && IsTagFilter(e) == NotFilter;
    assert Filters(e) == [f, g];
    SingleValues(f, g);
    TwoGroupsKeptIff(e, a, a, map[a := [x, y]], "!=");
  }

  /** `time > now() OR a = 'x'`: the OR with the time range is dropped. */
  lemma DisjunctionWithTimeIsLost(a: string, x: string)
    ensures var e := Binary(OR, Binary(GT, VarRef("time"), Call("now", [])), Compare(EQ, a, x));
      && IsTagLogic(e) == Accepted([TagFilter("==", a, x)]) && !Kept(e, map[a := [x]], "==")
  {
    var t, f := Binary(GT, VarRef("time"), Call("now", [])), TagFilter("==", a, x);
    var e := Binary(OR, t, Compare(EQ, a, x));
    assert Lower("time") == "time" && Lower("now") == "now";
    assert IsTime(t.lhs) && IsNow(t.rhs) && IsPreviousTime(t.rhs) && IsTimeRange(t);
    CompareIsFilter(EQ, a, x);
    assert !IsTimeRange(e) && IsTagFilter(e) == NotFilter && IsTagFilter(t) == NotFilter;
    assert Filters(e) == [] + [f] == [f];
    CollectedOne(f);
    TimeRangeKeptIff(e, a, map[a := [x]], "==");
  }
}
