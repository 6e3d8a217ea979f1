/** The where filter of an alert rule: kapacitor/vars.go prints the tags of a query as a lambda,
    kapacitor/ast.go reads them back from the lambda with the regular expression
    (?U)"(.*)"\s+(==|!=)\s+'(.*)'. */
module WhereFilters {
  import opened Options
  import opened TagLogic
  import opened Text

  datatype QueryConfig = QueryConfig(tags: map<string, seq<string>>, areTagsAccepted: bool)

  datatype WhereFilter = WhereFilter(tagValues: map<string, seq<string>>, operator: string)

  // ---------------------------------------------------------------- the printer

  function Operator(accepted: bool): string {
    if accepted then "==" else "!="
  }

  /** What follows the tag in one comparison. */
  function Comparison(op: string, value: string): string {
    "\" " + op + " '" + value + "'"
  }

  function Item(tag: string, op: string, value: string): string {
    "\"" + tag + Comparison(op, value)
  }

  function Inner(tag: string, op: string, values: seq<string>): seq<string> {
    if values == [] then [] else [Item(tag, op, values[0])] + Inner(tag, op, values[1..])
  }

  function Group(q: QueryConfig): string -> string {
    tag => if tag in q.tags then "(" + Join(Inner(tag, Operator(q.areTagsAccepted), q.tags[tag]), " OR ") + ")" else ""
  }

  /** The expression of the lambda, for one order of the tags. */
  function Lambda(q: QueryConfig, order: seq<string>): string {
    if order == [] then "TRUE" else Join(SortStrings(Map(order, Group(q))), " AND ")
  }

  lemma OneText(q: QueryConfig, order: seq<string>, other: seq<string>)
    requires Ranges(order, q.tags.Keys) && Ranges(other, q.tags.Keys)
    ensures Lambda(q, order) == Lambda(q, other)
  {
    OneSorting(order, other, q.tags.Keys, Group(q));
  }

  lemma InnerPush(tag: string, op: string, values: seq<string>, v: string)
    ensures Inner(tag, op, values + [v]) == Inner(tag, op, values) + [Item(tag, op, v)]
  {
    if values == [] {
      assert values + [v] == [v];
    } else {
      assert (values + [v])[1..] == values[1..] + [v];
    }
  }

  method PrintGroup(q: QueryConfig, tag: string) returns (group: string)
    requires tag in q.tags
    ensures group == Group(q)(tag)
  {
    var operator := "==";
    if !q.areTagsAccepted { operator := "!="; }
    var inner := [];
    var values := q.tags[tag];
    for i := 0 to |values|
      invariant inner == Inner(tag, operator, values[..i])
    {
      InnerPush(tag, operator, values[..i], values[i]);
      assert values[..i + 1] == values[..i] + [values[i]];
      inner := inner + [Item(tag, operator, values[i])];
    }
    assert values[..|values|] == values;
    group := "(" + Join(inner, " OR ") + ")";
  }

  /** `left` are the tags still to come. */
  ghost predicate Gathered(q: QueryConfig, outer: seq<string>, order: seq<string>, left: set<string>) {
    left <= q.tags.Keys && Ranges(order, q.tags.Keys - left) && |outer| == |order| && outer == Map(order, Group(q))
  }

  lemma GatherOne(q: QueryConfig, outer: seq<string>, order: seq<string>, left: set<string>, tag: string)
    requires Gathered(q, outer, order, left) && tag in left
    ensures Gathered(q, outer + [Group(q)(tag)], order + [tag], left - {tag})
  {
    RangesPush(order, q.tags.Keys - left, tag);
    assert q.tags.Keys - (left - {tag}) == q.tags.Keys - left + {tag};
    MapPush(order, tag, Group(q));
  }

  /** The group of every tag once, in some order. */
  ghost predicate AllGathered(q: QueryConfig, outer: seq<string>) {
    exists order :: Gathered(q, outer, order, {})
  }

  /** The groups, in the order in which Go happens to range over the tags. */
  method PrintGroups(q: QueryConfig) returns (outer: seq<string>)
    ensures AllGathered(q, outer)
  {
    outer := [];
    ghost var order := [];
    var left := q.tags.Keys;
    assert q.tags.Keys - left == {};
    while left != {}
      invariant Gathered(q, outer, order, left)
      decreases |left|
    {
      var tag :| tag in left;
      var group := PrintGroup(q, tag);
      GatherOne(q, outer, order, left, tag);
      outer, order, left := outer + [group], order + [tag], left - {tag};
    }
  }

  /** Whatever the order, one text. */
  method PrintWhereFilter(q: Option<QueryConfig>) returns (text: string)
    ensures q.None? ==> text == "lambda: TRUE"
    ensures q.Some? ==> forall order :: Ranges(order, q.value.tags.Keys) ==> text == "lambda: " + Lambda(q.value, order)
  {
    text := "lambda: TRUE";
    if q.Some? {
      var outer := PrintGroups(q.value);
      ghost var order :| Gathered(q.value, outer, order, {});
      assert q.value.tags.Keys - {} == q.value.tags.Keys;
      if |outer| > 0 { text := "lambda: " + Join(SortStrings(outer), " AND "); }
      forall other | Ranges(other, q.value.tags.Keys) ensures text == "lambda: " + Lambda(q.value, other) {
        OneText(q.value, order, other);
      }
    }
  }

  // ---------------------------------------------------------------- the regular expression

  /** \s */
  predicate IsSpace(c: char) {
    c == ' ' || c == '\t' || c == '\n' || c == '\U{0c}' || c == '\r'
  }

  function Unspaced(s: string): (r: string)
    ensures |r| <= |s|
  {
    if s != [] && IsSpace(s[0]) then Unspaced(s[1..]) else s
  }

  /** \s+ before something that is no space: all the spaces have to be taken. */
  function Spaces(s: string): (r: Option<string>)
    ensures r.Some? ==> |r.value| < |s|
  {
    if s != [] && IsSpace(s[0]) then Some(Unspaced(s)) else None
  }

  /** \s+(==|!=)\s+' : the operator and the text after the quote. */
  function Opening(s: string): (r: Option<(string, string)>)
    ensures r.Some? ==> |r.value.1| < |s|
  {
    var a := Spaces(s);
    if a.None? || |a.value| < 2 || a.value[..2] !in ["==", "!="] then None else
    var b := Spaces(a.value[2..]);
    if b.None? || b.value == [] || b.value[0] != '\'' then None else
    Some((a.value[..2], b.value[1..]))
  }

  /** (.*)' taking as little as possible. */
  function ReadValue(s: string): (r: Option<(string, string)>)
    ensures r.Some? ==> |r.value.1| < |s|
  {
    if s == [] || s[0] == '\n' then None
    else if s[0] == '\'' then Some(("", s[1..]))
    else
      var r := ReadValue(s[1..]);
      if r.Some? then Some(([s[0]] + r.value.0, r.value.1)) else None
  }

  function AfterTag(s: string): (r: Option<(string, string, string)>)
    ensures r.Some? ==> |r.value.2| < |s|
  {
    var o := Opening(s);
    if o.None? then None else
    var v := ReadValue(o.value.1);
    if v.None? then None else Some((o.value.0, v.value.0, v.value.1))
  }

  /** (.*)" taking as little as the rest of the expression allows. */
  function ReadTag(s: string): (r: Option<(TagFilter, string)>)
    ensures r.Some? ==> |r.value.1| < |s|
  {
    if s == [] || s[0] == '\n' then None
    else if s[0] == '"' && AfterTag(s[1..]).Some? then
      var m := AfterTag(s[1..]).value;
      Some((TagFilter(m.0, "", m.1), m.2))
    else
      var r := ReadTag(s[1..]);
      if r.Some? then Some((r.value.0.(tag := [s[0]] + r.value.0.tag), r.value.1)) else None
  }

  /** FindAllStringSubmatch: the leftmost match, then the matches after it. */
  function FindAll(s: string): seq<TagFilter>
    decreases |s|
  {
    if s == [] then []
    else if s[0] == '"' && ReadTag(s[1..]).Some? then
      var m := ReadTag(s[1..]).value;
      [m.0] + FindAll(m.1)
    else FindAll(s[1..])
  }

  // ---------------------------------------------------------------- the reader

  ghost predicate Reads(lambda: string, r: Option<WhereFilter>) {
    var ms := FindAll(lambda);
    if lambda == "TRUE" then r == Some(WhereFilter(map[], ""))
    else if r.None? then |Ops(ms)| != 1 || !(Ops(ms) <= {"==", "!="})
    else
      var f := r.value;
      Ops(ms) == {f.operator} && f.operator in ["==", "!="] && Collected(ms, f.tagValues)
  }

  lemma OneReading(lambda: string, a: Option<WhereFilter>, b: Option<WhereFilter>)
    requires Reads(lambda, a) && Reads(lambda, b)
    ensures a == b
  {
    if lambda != "TRUE" && a.Some? && b.Some? {
      assert a.value.operator in {b.value.operator};
      assert a.value.tagValues == b.value.tagValues;
    }
  }

  lemma Singleton(s: set<string>, x: string)
    requires x in s && |s| == 1
    ensures s == {x}
  {
    assert |s - {x}| == 0;
  }

  /** Tags and values are gathered by the same loop as in the reading of a query. */
  method ReadWhereFilter(lambda: string) returns (r: Option<WhereFilter>)
    ensures Reads(lambda, r)
  {
    if lambda == "TRUE" { return Some(WhereFilter(map[], "")); }
    var tagValues: map<string, seq<string>>, opSet: set<string> := map[], {};
    var ms := FindAll(lambda);
    for i := 0 to |ms|
      invariant Collected(ms[..i], tagValues) && opSet == Ops(ms[..i])
    {
      assert ms[..i + 1] == ms[..i] + [ms[i]];
      CollectStep(ms[..i], ms[i], tagValues);
      var values := if ms[i].tag in tagValues then tagValues[ms[i].tag] else [];
      opSet := opSet + {ms[i].op};
      tagValues := tagValues[ms[i].tag := values + [ms[i].value]];
    }
    assert ms[..|ms|] == ms;
    if |opSet| != 1 { return None; }
    var op :| op in opSet;
    Singleton(opSet, op);
    if op != "==" && op != "!=" { return None; }
    return Some(WhereFilter(tagValues, op));
  }

  // ---------------------------------------------------------------- reading one comparison

  /** No newline, and nowhere a quote followed by what opens a comparison. */
  predicate CleanTag(t: string) {
    t == [] || (t[0] != '\n' && (t[0] == '"' ==> Opening(t[1..]).None?) && CleanTag(t[1..]))
  }

  predicate CleanValue(v: string) {
    '\n' !in v && '\'' !in v
  }

  lemma {:induction false} UnspacedAppend(u: string, w: string)
    requires w != [] && !IsSpace(w[0])
    ensures Unspaced(u + w) == Unspaced(u) + w
  {
    if u == [] {
      assert u + w == w;
    } else {
      assert (u + w)[1..] == u[1..] + w;
      UnspacedAppend(u[1..], w);
    }
  }

  lemma SpacesAppend(u: string, w: string)
    requires w != [] && !IsSpace(w[0])
    ensures Spaces(u + w) == if Spaces(u).None? then None else Some(Spaces(u).value + w)
  {
    UnspacedAppend(u, w);
    if u == [] { assert u + w == w; }
  }

  /** Whether a comparison opens is settled before the next double quote. */
  lemma OpeningAppend(u: string, w: string)
    requires w != [] && w[0] == '"'
    ensures Opening(u + w) == if Opening(u).None? then None else Some((Opening(u).value.0, Opening(u).value.1 + w))
  {
    SpacesAppend(u, w);
    if Spaces(u).Some? {
      var a := Spaces(u).value;
      if |a| < 2 {
        assert |a + w| >= 2 ==> (a + w)[..2][|a|] == '"';
      } else {
        assert (a + w)[..2] == a[..2] && (a + w)[2..] == a[2..] + w;
        SpacesAppend(a[2..], w);
        if Spaces(a[2..]).Some? && Spaces(a[2..]).value != [] {
          var b := Spaces(a[2..]).value;
          assert (b + w)[1..] == b[1..] + w;
        }
      }
    }
  }

  lemma {:induction false} ReadValueOf(v: string, w: string)
    requires CleanValue(v)
    ensures ReadValue(v + "'" + w) == Some((v, w))
  {
    var s := v + "'" + w;
    if v == [] {
      assert s[1..] == w;
    } else {
      assert s[1..] == v[1..] + "'" + w && v[0] in v;
      ReadValueOf(v[1..], w);
      assert [v[0]] + v[1..] == v;
    }
  }

  lemma AfterTagOf(op: string, v: string, w: string)
    requires CleanValue(v) && op in ["==", "!="]
    ensures AfterTag(" " + op + " '" + v + "'" + w) == Some((op, v, w))
  {
    var s := " " + op + " '" + v + "'" + w;
    assert s[1..] == op + " '" + v + "'" + w;
    var t := s[1..];
    assert !IsSpace(t[0]) && Unspaced(t) == t;
    assert Spaces(s) == Some(t) && t[..2] == op && t[2..] == " '" + v + "'" + w;
    var u := t[2..];
    assert u[1..] == "'" + v + "'" + w;
    assert Unspaced(u[1..]) == u[1..];
    assert Spaces(u) == Some(u[1..]) && u[1..][1..] == v + "'" + w;
    ReadValueOf(v, w);
  }

  lemma {:induction false} ReadTagOf(t: string, op: string, v: string, w: string)
    requires CleanTag(t) && CleanValue(v) && op in ["==", "!="]
    ensures ReadTag(t + Comparison(op, v) + w) == Some((TagFilter(op, t, v), w))
  {
    var s := t + Comparison(op, v) + w;
    if t == [] {
      assert s[0] == '"' && s[1..] == " " + op + " '" + v + "'" + w;
      AfterTagOf(op, v, w);
    } else {
      assert s[1..] == t[1..] + Comparison(op, v) + w;
      assert s[1..] == t[1..] + (Comparison(op, v) + w);
      OpeningAppend(t[1..], Comparison(op, v) + w);
      ReadTagOf(t[1..], op, v, w);
      assert [t[0]] + t[1..] == t;
    }
  }

  // ---------------------------------------------------------------- reading the whole text

  function Items(q: QueryConfig, tag: string, values: seq<string>): seq<TagFilter> {
    if values == [] then []
    else [TagFilter(Operator(q.areTagsAccepted), tag, values[0])] + Items(q, tag, values[1..])
  }

  predicate CleanGroup(tag: string, values: seq<string>) {
    (values != [] ==> CleanTag(tag)) && forall v :: v in values ==> CleanValue(v)
  }

  /** What the reader needs of the tags and values: a condition the printer could check. */
  predicate Clean(q: QueryConfig) {
    forall t :: t in q.tags ==> CleanGroup(t, q.tags[t])
  }

  lemma {:induction false} FindSkips(sep: string, w: string)
    requires '"' !in sep
    ensures FindAll(sep + w) == FindAll(w)
  {
    if sep == [] {
      assert sep + w == w;
    } else {
      assert (sep + w)[1..] == sep[1..] + w && sep[0] in sep;
      FindSkips(sep[1..], w);
    }
  }

  lemma FindItem(tag: string, op: string, v: string, w: string)
    requires CleanTag(tag) && CleanValue(v) && op in ["==", "!="]
    ensures FindAll(Item(tag, op, v) + w) == [TagFilter(op, tag, v)] + FindAll(w)
  {
    var s := Item(tag, op, v) + w;
    assert s[1..] == tag + Comparison(op, v) + w;
    ReadTagOf(tag, op, v, w);
  }

  lemma InnerMore(tag: string, op: string, values: seq<string>, w: string)
    requires |values| > 1
    ensures Join(Inner(tag, op, values), " OR ") + w ==
      Item(tag, op, values[0]) + (" OR " + (Join(Inner(tag, op, values[1..]), " OR ") + w))
  {
    assert Inner(tag, op, values)[1..] == Inner(tag, op, values[1..]);
  }

  lemma {:induction false} FindInner(q: QueryConfig, tag: string, values: seq<string>, w: string)
    requires CleanGroup(tag, values)
    ensures FindAll(Join(Inner(tag, Operator(q.areTagsAccepted), values), " OR ") + w) ==
      Items(q, tag, values) + FindAll(w)
  {
    var op := Operator(q.areTagsAccepted);
    if values == [] {
      assert Join(Inner(tag, op, values), " OR ") + w == w;
    } else if |values| == 1 {
      assert Inner(tag, op, values) == [Item(tag, op, values[0])];
      FindItem(tag, op, values[0], w);
    } else {
      var more := Join(Inner(tag, op, values[1..]), " OR ");
      InnerMore(tag, op, values, w);
      FindItem(tag, op, values[0], " OR " + (more + w));
      FindSkips(" OR ", more + w);
      FindInner(q, tag, values[1..], w);
    }
  }

  lemma FindGroup(q: QueryConfig, tag: string, w: string)
    requires tag in q.tags && CleanGroup(tag, q.tags[tag])
    ensures FindAll(Group(q)(tag) + w) == Items(q, tag, q.tags[tag]) + FindAll(w)
  {
    var inner := Join(Inner(tag, Operator(q.areTagsAccepted), q.tags[tag]), " OR ");
    assert Group(q)(tag) + w == "(" + (inner + (")" + w));
    FindSkips("(", inner + (")" + w));
    FindInner(q, tag, q.tags[tag], ")" + w);
    FindSkips(")", w);
  }

  predicate Known(q: QueryConfig, order: seq<string>) {
    order == [] || (order[0] in q.tags && Known(q, order[1..]))
  }

  function AllItems(q: QueryConfig, order: seq<string>): seq<TagFilter>
    requires Known(q, order)
  {
    if order == [] then [] else Items(q, order[0], q.tags[order[0]]) + AllItems(q, order[1..])
  }

  lemma MoreGroups(q: QueryConfig, order: seq<string>)
    requires |order| > 1
    ensures Join(Map(order, Group(q)), " AND ") ==
      Group(q)(order[0]) + (" AND " + Join(Map(order[1..], Group(q)), " AND "))
  {
    var group, more := Group(q)(order[0]), Join(Map(order[1..], Group(q)), " AND ");
    assert Map(order, Group(q))[1..] == Map(order[1..], Group(q));
    assert group + " AND " + more == group + (" AND " + more);
  }

  lemma {:induction false} FindGroups(q: QueryConfig, order: seq<string>)
    requires Clean(q) && Known(q, order)
    ensures FindAll(Join(Map(order, Group(q)), " AND ")) == AllItems(q, order)
  {
    if |order| == 1 {
      FindGroup(q, order[0], "");
      assert order == [order[0]] && Group(q)(order[0]) + "" == Group(q)(order[0]);
      assert AllItems(q, order[1..]) == [];
    } else if order != [] {
      var more := Join(Map(order[1..], Group(q)), " AND ");
      MoreGroups(q, order);
      FindGroups(q, order[1..]);
      FindGroup(q, order[0], " AND " + more);
      FindSkips(" AND ", more);
    }
  }

  // ---------------------------------------------------------------- what has been gathered

  lemma {:induction false} ValuesOfBoth(a: seq<TagFilter>, b: seq<TagFilter>, tag: string)
    ensures ValuesOf(a + b, tag) == ValuesOf(a, tag) + ValuesOf(b, tag)
  {
    if b == [] {
      assert a + b == a;
    } else {
      var n := |b| - 1;
      assert (a + b)[..|a| + n] == a + b[..n];
      ValuesOfBoth(a, b[..n], tag);
    }
  }

  lemma {:induction false} ItemsOf(q: QueryConfig, tag: string, values: seq<string>, t: string)
    ensures ValuesOf(Items(q, tag, values), t) == if t == tag then values else []
  {
    if values != [] {
      var f := TagFilter(Operator(q.areTagsAccepted), tag, values[0]);
      ItemsOf(q, tag, values[1..], t);
      ValuesOfBoth([f], Items(q, tag, values[1..]), t);
      assert t == tag ==> values == [values[0]] + values[1..];
    }
  }

  lemma {:induction false} ItemsOp(q: QueryConfig, tag: string, values: seq<string>, f: TagFilter)
    requires f in Items(q, tag, values)
    ensures f.op == Operator(q.areTagsAccepted)
  {
    if f in Items(q, tag, values[1..]) { ItemsOp(q, tag, values[1..], f); }
  }

  predicate Distinct(order: seq<string>) {
    order == [] || (order[0] !in order[1..] && Distinct(order[1..]))
  }

  lemma {:induction false} AllItemsOf(q: QueryConfig, order: seq<string>, t: string)
    requires Known(q, order) && Distinct(order)
    ensures ValuesOf(AllItems(q, order), t) == if t in order && t in q.tags then q.tags[t] else []
  {
    if order != [] {
      var k, rest := order[0], order[1..];
      assert order == [k] + rest;
      AllItemsOf(q, rest, t);
      ItemsOf(q, k, q.tags[k], t);
      ValuesOfBoth(Items(q, k, q.tags[k]), AllItems(q, rest), t);
    }
  }

  lemma {:induction false} AllItemsOp(q: QueryConfig, order: seq<string>, f: TagFilter)
    requires Known(q, order) && f in AllItems(q, order)
    ensures f.op == Operator(q.areTagsAccepted)
  {
    if f in Items(q, order[0], q.tags[order[0]]) {
      ItemsOp(q, order[0], q.tags[order[0]], f);
    } else {
      AllItemsOp(q, order[1..], f);
    }
  }

  lemma {:induction false} HasValue(fs: seq<TagFilter>, f: TagFilter)
    requires f in fs
    ensures f.value in ValuesOf(fs, f.tag)
  {
    var n := |fs| - 1;
    if f != fs[n] {
      assert fs == fs[..n] + [fs[n]];
      HasValue(fs[..n], f);
    }
  }

  lemma {:induction false} ValueFrom(fs: seq<TagFilter>, tag: string, v: string)
    requires v in ValuesOf(fs, tag)
    ensures exists f :: f in fs && f.tag == tag && f.value == v
  {
    var n := |fs| - 1;
    if v in ValuesOf(fs[..n], tag) {
      ValueFrom(fs[..n], tag, v);
    } else {
      assert fs[n] in fs;
    }
  }

  // ---------------------------------------------------------------- clean tags and values are read back

  lemma {:induction false} DistinctFrom(order: seq<string>)
    requires forall k :: multiset(order)[k] <= 1
    ensures Distinct(order)
  {
    if order != [] {
      var rest := order[1..];
      assert order == [order[0]] + rest;
      assert multiset(order) == multiset{order[0]} + multiset(rest);
      forall k ensures multiset(rest)[k] <= 1 { assert multiset(rest)[k] <= multiset(order)[k]; }
      assert multiset(rest)[order[0]] == multiset(order)[order[0]] - 1;
      DistinctFrom(rest);
    }
  }

  lemma {:induction false} KnownFrom(q: QueryConfig, order: seq<string>)
    requires forall k :: k in order ==> k in q.tags
    ensures Known(q, order)
  {
    if order != [] { KnownFrom(q, order[1..]); }
  }

  /** The sorted groups are the groups of the tags in some order. */
  lemma SortedOrder(q: QueryConfig, order: seq<string>) returns (sorted: seq<string>)
    requires Ranges(order, q.tags.Keys)
    ensures Known(q, sorted) && Distinct(sorted)
    ensures forall t :: t in sorted <==> t in q.tags
    ensures order != [] ==> sorted != [] && Lambda(q, order) == Join(Map(sorted, Group(q)), " AND ")
    ensures order == [] <==> q.tags == map[]
  {
    sorted := SortedKeys(order, q.tags.Keys, Group(q));
    DistinctFrom(sorted);
    KnownFrom(q, sorted);
    assert q.tags.Keys == {} <==> q.tags == map[];
  }

  lemma ParenthesisFirst(q: QueryConfig, sorted: seq<string>)
    requires sorted != [] && Known(q, sorted)
    ensures Join(Map(sorted, Group(q)), " AND ") != "TRUE"
  {
    assert Join(Map(sorted, Group(q)), " AND ")[0] == Group(q)(sorted[0])[0] == '(';
  }

  function Kept(q: QueryConfig): map<string, seq<string>> {
    map t | t in q.tags && q.tags[t] != [] :: q.tags[t]
  }

  /** What should come back: tags with values, the values in order, and the operator. */
  function Wanted(q: QueryConfig): Option<WhereFilter> {
    if q.tags == map[] then Some(WhereFilter(map[], ""))
    else if Kept(q) == map[] then None
    else Some(WhereFilter(Kept(q), Operator(q.areTagsAccepted)))
  }

  lemma ItemsCollected(q: QueryConfig, sorted: seq<string>)
    requires Known(q, sorted) && Distinct(sorted) && forall t :: t in sorted <==> t in q.tags
    ensures Collected(AllItems(q, sorted), Kept(q))
  {
    var ms := AllItems(q, sorted);
    forall t ensures t in TagSet(ms) <==> t in Kept(q) {
      AllItemsOf(q, sorted, t);
      if t in TagSet(ms) {
        var f :| f in ms && f.tag == t;
        HasValue(ms, f);
      } else {
        NoValues(ms, t);
      }
    }
    forall t | t in Kept(q) ensures Kept(q)[t] == ValuesOf(ms, t) { AllItemsOf(q, sorted, t); }
    assert Kept(q).Keys == TagSet(ms);
  }

  lemma CleanIsReadBack(q: QueryConfig, order: seq<string>)
    requires Clean(q) && Ranges(order, q.tags.Keys)
    ensures Reads(Lambda(q, order), Wanted(q))
  {
    var sorted := SortedOrder(q, order);
    if order != [] {
      ParenthesisFirst(q, sorted);
      FindGroups(q, sorted);
      ItemsCollected(q, sorted);
      var ms, op := AllItems(q, sorted), Operator(q.areTagsAccepted);
      forall f | f in ms ensures f.op == op { AllItemsOp(q, sorted, f); }
      if Kept(q) == map[] {
        assert TagSet(ms) == {} && forall f :: f in ms ==> f.tag in TagSet(ms);
        assert Ops(ms) == {};
      } else {
        var t :| t in Kept(q);
        assert t in TagSet(ms);
        assert Ops(ms) == {op};
      }
    }
  }

  // ---------------------------------------------------------------- and only those

  lemma {:induction false} ReadValueClean(s: string)
    ensures ReadValue(s).Some? ==> CleanValue(ReadValue(s).value.0) && '\'' in s
    ensures '\n' !in s && '\'' in s ==> ReadValue(s).Some?
  {
    if s != [] {
      ReadValueClean(s[1..]);
      assert s == [s[0]] + s[1..];
    }
  }

  lemma {:induction false} UnspacedSuffix(s: string, c: char)
    requires c in Unspaced(s)
    ensures c in s
  {
    if s != [] && IsSpace(s[0]) { UnspacedSuffix(s[1..], c); }
  }

  lemma OpeningSuffix(s: string, c: char)
    requires Opening(s).Some? && c in Opening(s).value.1
    ensures c in s
  {
    var a := Unspaced(s);
    var b := Unspaced(a[2..]);
    assert b[1..] == Opening(s).value.1;
    UnspacedSuffix(a[2..], c);
    UnspacedSuffix(s, c);
  }

  lemma AfterTagQuote(s: string)
    requires AfterTag(s).Some?
    ensures '\'' in s && CleanValue(AfterTag(s).value.1)
  {
    ReadValueClean(Opening(s).value.1);
    OpeningSuffix(s, '\'');
  }

  /** Between a quote inside a tag and the end of the match, no comparison opens. */
  lemma NoneOpens(t: string, w: string)
    requires AfterTag(t + "\"" + w).None? && '\n' !in t && '\n' !in w && '\'' in w
    ensures Opening(t).None?
  {
    assert t + "\"" + w == t + ("\"" + w);
    OpeningAppend(t, "\"" + w);
    if Opening(t).Some? {
      var rest := Opening(t).value.1 + ("\"" + w);
      forall c | c in Opening(t).value.1 ensures c in t { OpeningSuffix(t, c); }
      ReadValueClean(rest);
      assert false;
    }
  }

  /** A tag that is read ends at a quote behind which a comparison follows. */
  lemma {:induction false} ReadTagEnds(s: string) returns (w: string)
    requires ReadTag(s).Some?
    ensures s == ReadTag(s).value.0.tag + ("\"" + w) && AfterTag(w).Some?
    ensures '\n' !in ReadTag(s).value.0.tag && CleanValue(ReadTag(s).value.0.value)
  {
    if s[0] == '"' && AfterTag(s[1..]).Some? {
      w := s[1..];
      AfterTagQuote(w);
    } else {
      w := ReadTagEnds(s[1..]);
      assert s == [s[0]] + s[1..];
    }
  }

  lemma {:induction false} ReadTagClean(s: string)
    requires ReadTag(s).Some? && '\n' !in s
    ensures CleanTag(ReadTag(s).value.0.tag)
  {
    if s[0] != '"' || AfterTag(s[1..]).None? {
      ReadTagClean(s[1..]);
      if s[0] == '"' {
        var w := ReadTagEnds(s[1..]);
        AfterTagQuote(w);
        var t := ReadTag(s[1..]).value.0.tag;
        assert t + ("\"" + w) == t + "\"" + w;
        assert forall c :: c in w ==> c in s[1..];
        NoneOpens(t, w);
      }
    }
  }

  lemma {:induction false} ReadTagSuffix(s: string, c: char)
    requires ReadTag(s).Some? && c in ReadTag(s).value.1
    ensures c in s
  {
    if s[0] == '"' && AfterTag(s[1..]).Some? {
      ReadValueSuffix(Opening(s[1..]).value.1, c);
      OpeningSuffix(s[1..], c);
    } else {
      ReadTagSuffix(s[1..], c);
    }
  }

  lemma {:induction false} ReadValueSuffix(s: string, c: char)
    requires ReadValue(s).Some? && c in ReadValue(s).value.1
    ensures c in s
  {
    if s[0] != '\'' { ReadValueSuffix(s[1..], c); }
  }

  lemma {:induction false} FoundAreClean(s: string, f: TagFilter)
    requires f in FindAll(s)
    ensures '\n' !in f.tag && CleanValue(f.value)
    ensures '\n' !in s ==> CleanTag(f.tag)
    decreases |s|
  {
    if s[0] == '"' && ReadTag(s[1..]).Some? {
      var _ := ReadTagEnds(s[1..]);
      if '\n' !in s { ReadTagClean(s[1..]); }
      var m := ReadTag(s[1..]).value;
      if f != m.0 {
        if '\n' in m.1 { ReadTagSuffix(s[1..], '\n'); }
        FoundAreClean(m.1, f);
      }
    } else {
      FoundAreClean(s[1..], f);
    }
  }

  predicate OneLiner(tag: string, values: seq<string>) {
    (values != [] ==> '\n' !in tag) && forall v :: v in values ==> '\n' !in v
  }

  lemma {:induction false} OneLineInner(tag: string, accepted: bool, values: seq<string>)
    requires OneLiner(tag, values)
    ensures '\n' !in Join(Inner(tag, Operator(accepted), values), " OR ")
  {
    if values != [] {
      assert values[0] in values && '\n' !in Item(tag, Operator(accepted), values[0]);
      assert OneLiner(tag, values[1..]);
      OneLineInner(tag, accepted, values[1..]);
      assert Inner(tag, Operator(accepted), values)[1..] == Inner(tag, Operator(accepted), values[1..]);
    }
  }

  ghost predicate OneLiners(q: QueryConfig) {
    forall t :: t in q.tags ==> OneLiner(t, q.tags[t])
  }

  lemma OneLineGroup(q: QueryConfig, t: string)
    requires OneLiners(q) && t in q.tags
    ensures '\n' !in Group(q)(t)
  {
    OneLineInner(t, q.areTagsAccepted, q.tags[t]);
  }

  lemma {:induction false} OneLine(q: QueryConfig, order: seq<string>)
    requires OneLiners(q) && Known(q, order)
    ensures '\n' !in Join(Map(order, Group(q)), " AND ")
  {
    if order != [] {
      OneLineGroup(q, order[0]);
      OneLine(q, order[1..]);
      assert Map(order, Group(q))[1..] == Map(order[1..], Group(q));
    }
  }

  lemma OnlyCleanIsReadBack(q: QueryConfig, order: seq<string>)
    requires Ranges(order, q.tags.Keys) && Reads(Lambda(q, order), Wanted(q))
    ensures Clean(q)
  {
    var sorted := SortedOrder(q, order);
    if Kept(q) == map[] {
      forall t | t in q.tags ensures CleanGroup(t, q.tags[t]) { assert t !in Kept(q); }
    } else {
      ParenthesisFirst(q, sorted);
      var text := Lambda(q, order);
      var ms := FindAll(text);
      assert Collected(ms, Kept(q));
      forall t | t in q.tags && q.tags[t] != [] ensures ValuesOf(ms, t) == q.tags[t] { assert t in Kept(q); }
      FoundGroups(q, text);
      OneLine(q, sorted);
    }
  }

  lemma FoundGroups(q: QueryConfig, text: string)
    requires forall t :: t in q.tags && q.tags[t] != [] ==> ValuesOf(FindAll(text), t) == q.tags[t]
    ensures OneLiners(q)
    ensures '\n' !in text ==> Clean(q)
  {
    forall t | t in q.tags ensures OneLiner(t, q.tags[t]) && ('\n' !in text ==> CleanGroup(t, q.tags[t])) {
      if q.tags[t] != [] { AllFound(text, t, q.tags[t]); }
    }
  }

  lemma AllFound(text: string, tag: string, values: seq<string>)
    requires values != [] && ValuesOf(FindAll(text), tag) == values
    ensures '\n' !in tag && forall v :: v in values ==> CleanValue(v)
    ensures '\n' !in text ==> CleanTag(tag)
  {
    assert values[0] in values;
    forall v | v in values
      ensures CleanValue(v) && '\n' !in tag && ('\n' !in text ==> CleanTag(tag))
    {
      ValueFrom(FindAll(text), tag, v);
      var f :| f in FindAll(text) && f.tag == tag && f.value == v;
      FoundAreClean(text, f);
    }
  }

  /** Reading the printed lambda gives back the tags that have values, their values in order and
      the operator, exactly when no tag or value could be mistaken for the text around it. */
  lemma ReadBackIffClean(q: QueryConfig, order: seq<string>)
    requires Ranges(order, q.tags.Keys)
    ensures Reads(Lambda(q, order), Wanted(q)) <==> Clean(q)
  {
    if Clean(q) { CleanIsReadBack(q, order); }
    if Reads(Lambda(q, order), Wanted(q)) { OnlyCleanIsReadBack(q, order); }
  }

  /** The promised case: no double quote in tags, no single quote in values, no newline. */
  lemma {:induction false} NoQuoteIsClean(tag: string)
    requires '"' !in tag && '\n' !in tag
    ensures CleanTag(tag)
  {
    if tag != [] {
      assert tag[0] in tag;
      NoQuoteIsClean(tag[1..]);
    }
  }

  lemma PrintedThenRead(q: QueryConfig, order: seq<string>, r: Option<WhereFilter>)
    requires Ranges(order, q.tags.Keys) && q.tags != map[] && forall t :: t in q.tags ==> q.tags[t] != []
    requires forall t :: t in q.tags ==> '"' !in t && '\n' !in t && forall v :: v in q.tags[t] ==> CleanValue(v)
    requires Reads(Lambda(q, order), r)
    ensures r == Some(WhereFilter(q.tags, Operator(q.areTagsAccepted)))
  {
    forall t | t in q.tags ensures CleanGroup(t, q.tags[t]) { NoQuoteIsClean(t); }
    CleanIsReadBack(q, order);
    assert Kept(q) == q.tags;
    OneReading(Lambda(q, order), r, Wanted(q));
  }
}