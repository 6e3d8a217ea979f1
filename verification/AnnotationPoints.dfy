/** Annotations as points of InfluxDB (influx/annotations.go): what is written for an annotation and
    for its deletion, and what InfluxDB keeps of it when it reads the line (influx/influx.go). */
module AnnotationPoints {
  import opened Options
  import opened Text
  import L = LineProtocol

  datatype Annotation = Annotation(id: string, start: int, end: int, text: string, tags: map<string, string>)

  /** InfluxDB keeps one row for every set of tags and time. */
  datatype Key = Key(tags: map<string, string>, time: int)

  datatype Row = Row(deleted: bool, start: int, modified: int, text: string)

  datatype Point = Point(key: Key, row: Row)

  const BLACKLIST: set<string> :=
    {"deleted", "start_time", "startTime", "end_time", "endTime", "modified_time_ns", "text", "type", "id"}

  const MEASUREMENT := "annotations"

  /** No tag of these names is kept. */
  const RESERVED: set<string> := BLACKLIST + {"time"}

  predicate ValidTagKey(key: string) {
    key !in BLACKLIST
  }

  predicate Quoted(s: string) {
    '"' in s
  }

  /** What the handlers accept; they generate the id. */
  predicate ValidAnnotation(a: Annotation) {
    L.CleanName(a.id) && !Quoted(a.id) && forall t :: t in a.tags ==> ValidTagKey(t)
  }

  // ---------------------------------------------------------------- points

  /** Tags without a value are not written (influx/lineprotocol.go). */
  function WithValues(tags: map<string, string>): map<string, string> {
    map t | t in tags && tags[t] != "" :: tags[t]
  }

  function KeyOf(a: Annotation): Key {
    Key(WithValues(map["id" := a.id] + a.tags), a.end)
  }

  function ToPoint(a: Annotation, now: int): Point {
    Point(KeyOf(a), Row(false, a.start, now, a.text))
  }

  function ToDeletedPoint(a: Annotation, now: int): Point {
    Point(KeyOf(a), Row(true, 0, now, ""))
  }

  predicate WellKeyed(k: Key) {
    && "id" in k.tags
    && (forall t :: t in k.tags ==> k.tags[t] != "" && t != "time" && (t == "id" || ValidTagKey(t)))
  }

  function AnnotationOf(k: Key, row: Row): Annotation
    requires "id" in k.tags
  {
    Annotation(k.tags["id"], row.start, k.time, row.text, k.tags - {"id"})
  }

  function IdOf(k: Key): string {
    if "id" in k.tags then k.tags["id"] else ""
  }

  /** What a point holds of an annotation. */
  function Normal(a: Annotation): Annotation {
    a.(tags := WithValues(a.tags))
  }

  lemma PointBack(a: Annotation, now: int)
    requires ValidAnnotation(a)
    ensures IdOf(KeyOf(a)) == a.id && KeyOf(a).tags - {"id"} == WithValues(a.tags)
    ensures "id" in KeyOf(a).tags && AnnotationOf(ToPoint(a, now).key, ToPoint(a, now).row) == Normal(a)
  {
    assert "id" !in a.tags by { assert "id" in BLACKLIST; }
    assert KeyOf(a).tags - {"id"} == WithValues(a.tags);
  }

  lemma KeyBack(k: Key, row: Row)
    requires WellKeyed(k)
    ensures KeyOf(AnnotationOf(k, row)) == k
  {
    assert WithValues(map["id" := k.tags["id"]] + (k.tags - {"id"})) == k.tags;
  }

  // ---------------------------------------------------------------- the line and what is read from it

  function Fields(row: Row): map<string, L.Field> {
    map["deleted" := L.Bool(row.deleted), "start_time" := L.Integer(row.start),
        "modified_time_ns" := L.Integer(row.modified), "text" := L.Str(row.text)]
  }

  function ToLine(p: Point): L.Point {
    L.Point(MEASUREMENT, p.key.tags, Fields(p.row), p.key.time)
  }

  function MapOf<T>(pairs: seq<(string, T)>): map<string, T> {
    if pairs == [] then map[]
    else
      var n := |pairs| - 1;
      MapOf(pairs[..n])[pairs[n].0 := pairs[n].1]
  }

  function RowIn(fields: map<string, L.Field>): Option<Row> {
    if "deleted" in fields && fields["deleted"].Bool? && "start_time" in fields && fields["start_time"].Integer?
       && "modified_time_ns" in fields && fields["modified_time_ns"].Integer? && "text" in fields && fields["text"].Str?
    then Some(Row(fields["deleted"].b, fields["start_time"].n, fields["modified_time_ns"].n, fields["text"].s))
    else None
  }

  /** What InfluxDB keeps of a line, if it accepts it: a point without a timestamp gets the server's,
      and no tag is named time. */
  function Received(line: Option<L.Parsed>, stamp: int): Option<Point> {
    match line
    case None => None
    case Some(q) =>
      var tags, row := MapOf(q.tags), RowIn(MapOf(q.fields));
      if row.None? || "time" in tags then None
      else Some(Point(Key(tags, if q.time == 0 then stamp else q.time), row.value))
  }

  ghost predicate ReadsAs(p: L.Point, q: Option<L.Parsed>) {
    exists text :: L.Prints(p, text) && q == L.ReadLine(L.Reference, text)
  }

  /** What InfluxDB reads in the line of a point. */
  ghost function Read(p: L.Point): (q: Option<L.Parsed>)
    ensures ReadsAs(p, q)
  {
    L.TheLinePrints(p);
    assert ReadsAs(p, L.ReadLine(L.Reference, L.TheLine(p)));
    var q :| ReadsAs(p, q);
    q
  }

  lemma ReadIs(p: L.Point, text: string)
    requires L.Prints(p, text)
    ensures Read(p) == L.ReadLine(L.Reference, text)
  {
    var other :| L.Prints(p, other) && Read(p) == L.ReadLine(L.Reference, other);
    L.PrintsTheLine(p, text);
    L.PrintsTheLine(p, other);
  }

  ghost function Kept(p: Point, stamp: int): Option<Point> {
    Received(Read(ToLine(p)), stamp)
  }

  /** A write of the client: the line protocol, sent to a server whose clock shows `stamp`. */
  method Send(p: Point, stamp: int) returns (kept: Option<Point>)
    ensures kept == Kept(p, stamp)
  {
    var line := L.ToLineProtocol(ToLine(p));
    assert |MEASUREMENT| > 0 && "text" in Fields(p.row);
    assert line.Err? ==> line.error == L.MeasurementRequired || line.error == L.FieldRequired;
    ReadIs(ToLine(p), line.text);
    kept := Received(L.ReadLine(L.Reference, line.text), stamp);
  }

  lemma {:induction false} MapOfHas<T>(pairs: seq<(string, T)>, k: string)
    ensures k in MapOf(pairs) ==> (k, MapOf(pairs)[k]) in pairs
    ensures (exists x :: x in pairs && x.0 == k) ==> k in MapOf(pairs)
  {
    if pairs != [] {
      var n := |pairs| - 1;
      MapOfHas(pairs[..n], k);
      assert pairs == pairs[..n] + [pairs[n]];
    }
  }

  // ---------------------------------------------------------------- renamed tags

  type Renaming = string -> string

  ghost predicate Injective(f: Renaming) {
    forall s, t :: f(s) == f(t) ==> s == t
  }

  /** Keys and values, renamed. */
  ghost function Renamed(tags: map<string, string>, f: Renaming): map<string, string>
    decreases |tags|
  {
    if tags == map[] then map[]
    else
      var k :| k in tags;
      Renamed(tags - {k}, f)[f(k) := f(tags[k])]
  }

  lemma {:induction false} RenamedHas(tags: map<string, string>, f: Renaming, k: string)
    requires Injective(f) && k in tags
    ensures f(k) in Renamed(tags, f) && Renamed(tags, f)[f(k)] == f(tags[k])
    decreases |tags|
  {
    var j :| j in tags && Renamed(tags, f) == Renamed(tags - {j}, f)[f(j) := f(tags[j])];
    if k != j { RenamedHas(tags - {j}, f, k); }
  }

  lemma {:induction false} RenamedOnly(tags: map<string, string>, f: Renaming, x: string) returns (k: string)
    requires x in Renamed(tags, f)
    ensures k in tags && f(k) == x
    decreases |tags|
  {
    k :| k in tags && Renamed(tags, f) == Renamed(tags - {k}, f)[f(k) := f(tags[k])];
    if f(k) != x { k := RenamedOnly(tags - {k}, f, x); }
  }

  lemma RenamedIs(tags: map<string, string>, f: Renaming, m: map<string, string>)
    requires Injective(f)
    requires forall k :: k in tags ==> f(k) in m && m[f(k)] == f(tags[k])
    requires forall x :: x in m ==> exists k :: k in tags && f(k) == x
    ensures Renamed(tags, f) == m
  {
    forall x | x in m ensures x in Renamed(tags, f) && Renamed(tags, f)[x] == m[x] {
      var k :| k in tags && f(k) == x;
      RenamedHas(tags, f, k);
    }
    forall x | x in Renamed(tags, f) ensures x in m { var k := RenamedOnly(tags, f, x); }
  }

  lemma RenamedSame(tags: map<string, string>, f: Renaming)
    requires Injective(f) && forall k :: k in tags ==> f(k) == k && f(tags[k]) == tags[k]
    ensures Renamed(tags, f) == tags
  {
    RenamedIs(tags, f, tags);
  }

  lemma RenamedWithout(tags: map<string, string>, f: Renaming, x: string)
    requires Injective(f) && f(x) == x
    ensures Renamed(tags, f) - {x} == Renamed(tags - {x}, f)
  {
    var m := Renamed(tags, f) - {x};
    forall k | k in tags - {x} ensures f(k) in m && m[f(k)] == f((tags - {x})[k]) { RenamedHas(tags, f, k); }
    forall y | y in m ensures exists k :: k in tags - {x} && f(k) == y {
      var k := RenamedOnly(tags, f, y);
      assert k in tags - {x} && f(k) == y;
    }
    RenamedIs(tags - {x}, f, m);
  }

  /** The renamed pairs, once collected. */
  lemma RenamedPairs(tags: map<string, string>, f: Renaming, pairs: seq<(string, string)>)
    requires Injective(f) && L.Items(pairs) == set k | k in tags :: (f(k), f(tags[k]))
    ensures MapOf(pairs) == Renamed(tags, f)
  {
    var m := MapOf(pairs);
    forall x | x in m ensures exists k :: k in tags && f(k) == x && m[x] == f(tags[k]) {
      MapOfHas(pairs, x);
      assert (x, m[x]) in L.Items(pairs);
    }
    forall k | k in tags ensures f(k) in m && m[f(k)] == f(tags[k]) {
      assert (f(k), f(tags[k])) in L.Items(pairs);
      MapOfHas(pairs, f(k));
    }
    RenamedIs(tags, f, m);
  }

  // ---------------------------------------------------------------- what is kept of a point

  /** A name as InfluxDB reads it: with a backslash before every double quote. */
  const SEEN: Renaming := s => L.Seen(L.Reference, s)

  /** The tags as InfluxDB reads them. */
  ghost function SeenMap(tags: map<string, string>): map<string, string> {
    Renamed(tags, SEEN)
  }

  ghost function SeenKey(k: Key, stamp: int): Key {
    Key(SeenMap(k.tags), if k.time == 0 then stamp else k.time)
  }

  ghost predicate CleanTags(tags: map<string, string>) {
    forall k :: k in tags ==> L.CleanName(k) && L.CleanName(tags[k])
  }

  ghost predicate Unquoted(tags: map<string, string>) {
    forall k :: k in tags ==> !Quoted(k) && !Quoted(tags[k])
  }

  lemma SeenIsInjective()
    ensures Injective(SEEN)
  {
    forall s, t | SEEN(s) == SEEN(t) ensures s == t { L.SeenInjective(s, t); }
  }

  /** A name without a quote is seen as itself, and only it is. */
  lemma SeenPlain(k: string, x: string)
    requires !Quoted(x)
    ensures SEEN(k) == x <==> k == x
  {
    L.QuotesStayEscaped(x);
    if SEEN(k) == x { L.SeenInjective(k, x); }
  }

  lemma SeenHas(tags: map<string, string>, x: string)
    requires !Quoted(x)
    ensures x in SeenMap(tags) <==> x in tags
    ensures x in tags ==> SeenMap(tags)[x] == SEEN(tags[x])
  {
    SeenIsInjective();
    SeenPlain(x, x);
    if x in tags { RenamedHas(tags, SEEN, x); }
    if x in SeenMap(tags) {
      var k := RenamedOnly(tags, SEEN, x);
      SeenPlain(k, x);
    }
  }

  lemma SeenUnquoted(tags: map<string, string>)
    requires Unquoted(tags)
    ensures SeenMap(tags) == tags
  {
    SeenIsInjective();
    forall k | k in tags ensures SEEN(k) == k && SEEN(tags[k]) == tags[k] {
      SeenPlain(k, k);
      SeenPlain(tags[k], tags[k]);
    }
    RenamedSame(tags, SEEN);
  }

  function Pairs(tags: map<string, string>): set<(string, string)> {
    set k | k in tags :: (k, tags[k])
  }

  predicate QuotedPair(t: (string, string)) {
    Quoted(t.0) || Quoted(t.1)
  }

  /** Tags that grow when they are read are not what was written. */
  lemma SeenQuoted(tags: map<string, string>)
    requires SeenMap(tags) == tags
    ensures Unquoted(tags)
  {
    SeenIsInjective();
    var size := (t: (string, string)) => |t.0| + |t.1|;
    var image := (t: (string, string)) => (SEEN(t.0), SEEN(t.1));
    forall t | t in Pairs(tags) && QuotedPair(t)
      ensures image(t) in Pairs(tags) && QuotedPair(image(t)) && size(image(t)) > size(t)
    {
      RenamedHas(tags, SEEN, t.0);
      L.QuotesStayEscaped(t.0);
      L.QuotesStayEscaped(t.1);
    }
    L.NoneGrows(Pairs(tags), size, QuotedPair, image);
    forall k | k in tags ensures !Quoted(k) && !Quoted(tags[k]) {
      assert (k, tags[k]) in Pairs(tags);
      assert !QuotedPair((k, tags[k]));
    }
  }

  lemma FieldAt(row: Row, pairs: seq<(string, L.Field)>, k: string)
    requires L.Items(pairs) == set j | j in Fields(row) :: (SEEN(j), Fields(row)[j])
    requires k in Fields(row) && !Quoted(k)
    ensures k in MapOf(pairs) && MapOf(pairs)[k] == Fields(row)[k]
  {
    SeenPlain(k, k);
    assert (SEEN(k), Fields(row)[k]) in L.Items(pairs);
    MapOfHas(pairs, k);
    assert (k, MapOf(pairs)[k]) in L.Items(pairs);
    var j :| j in Fields(row) && (k, MapOf(pairs)[k]) == (SEEN(j), Fields(row)[j]);
    SeenPlain(j, k);
  }

  lemma PairsAreFields(row: Row, pairs: seq<(string, L.Field)>)
    requires L.Items(pairs) == set j | j in Fields(row) :: (SEEN(j), Fields(row)[j])
    ensures RowIn(MapOf(pairs)) == Some(row)
  {
    FieldAt(row, pairs, "deleted");
    FieldAt(row, pairs, "start_time");
    FieldAt(row, pairs, "modified_time_ns");
    FieldAt(row, pairs, "text");
  }

  lemma LineIsClean(p: Point)
    requires CleanTags(p.key.tags)
    ensures L.Clean(ToLine(p)) && L.TagKeys(ToLine(p)) == p.key.tags.Keys &&
      L.FieldKeys(ToLine(p)) == Fields(p.row).Keys
  {
    assert forall k :: k in Fields(p.row) ==> L.CleanName(k);
  }

  lemma ParsedBack(p: L.Point) returns (q: L.Parsed)
    requires L.Clean(p) && L.TagKeys(p) == p.tags.Keys && L.FieldKeys(p) == p.fields.Keys && p.fields != map[]
    ensures Read(p) == Some(q) && q.time == p.time
    ensures L.Items(q.tags) == set k | k in p.tags :: (SEEN(k), SEEN(p.tags[k]))
    ensures L.Items(q.fields) == set k | k in p.fields :: (SEEN(k), p.fields[k])
  {
    q := L.ReadTheLine(L.Reference, p);
    L.TheLinePrints(p);
    ReadIs(p, L.TheLine(p));
    SameTags(p.tags);
    SameFields(p.fields);
  }

  lemma SameTags(tags: map<string, string>)
    ensures (set k | k in tags :: (L.Seen(L.Reference, k), L.Seen(L.Reference, tags[k])))
         == (set k | k in tags :: (SEEN(k), SEEN(tags[k])))
  {
  }

  lemma SameFields(fields: map<string, L.Field>)
    ensures (set k | k in fields :: (L.Seen(L.Reference, k), fields[k])) ==
      (set k | k in fields :: (SEEN(k), fields[k]))
  {
  }

  lemma ParsedIsKept(p: Point, q: L.Parsed, stamp: int)
    requires "time" !in p.key.tags && q.time == p.key.time
    requires L.Items(q.tags) == set k | k in p.key.tags :: (SEEN(k), SEEN(p.key.tags[k]))
    requires L.Items(q.fields) == set k | k in Fields(p.row) :: (SEEN(k), Fields(p.row)[k])
    ensures Received(Some(q), stamp) == Some(Point(SeenKey(p.key, stamp), p.row))
  {
    SeenIsInjective();
    RenamedPairs(p.key.tags, SEEN, q.tags);
    PairsAreFields(p.row, q.fields);
    SeenHas(p.key.tags, "time");
  }

  /** A point with clean names is kept, under the names as they are seen. */
  lemma CleanIsKept(p: Point, stamp: int)
    requires CleanTags(p.key.tags) && "time" !in p.key.tags
    ensures Kept(p, stamp) == Some(Point(SeenKey(p.key, stamp), p.row))
  {
    LineIsClean(p);
    assert "text" in Fields(p.row);
    var q := ParsedBack(ToLine(p));
    ParsedIsKept(p, q, stamp);
  }

  lemma ReceivedIsClean(text: string, stamp: int)
    requires Received(L.ReadLine(L.Reference, text), stamp).Some? && stamp != 0
    ensures var k := Received(L.ReadLine(L.Reference, text), stamp).value.key;
      CleanTags(k.tags) && "time" !in k.tags && k.time != 0
  {
    var q := L.ReadLine(L.Reference, text).value;
    var tags := MapOf(q.tags);
    forall k | k in tags ensures L.CleanName(k) && L.CleanName(tags[k]) {
      MapOfHas(q.tags, k);
      L.LineTagsAreClean(L.Reference, text, (k, tags[k]));
    }
  }

  /** Whatever was written: only clean tags and a time are kept. */
  lemma KeptIsClean(p: Point, stamp: int)
    requires Kept(p, stamp).Some? && stamp != 0
    ensures var k := Kept(p, stamp).value.key; CleanTags(k.tags) && "time" !in k.tags && k.time != 0
  {
    var text :| L.Prints(ToLine(p), text) && Read(ToLine(p)) == L.ReadLine(L.Reference, text);
    ReceivedIsClean(text, stamp);
  }

  /** The point is kept under its own key. */
  ghost predicate KeptInPlace(p: Point, stamp: int) {
    Kept(p, stamp).Some? && Kept(p, stamp).value.key == p.key
  }

  /** What is kept is what was written exactly when the tags are clean and without double quotes, none
      is named time, and there is a time. */
  lemma KeptAsWrittenIff(p: Point, stamp: int)
    requires stamp != 0
    ensures KeptInPlace(p, stamp)
       <==> CleanTags(p.key.tags) && Unquoted(p.key.tags) && "time" !in p.key.tags && p.key.time != 0
    ensures KeptInPlace(p, stamp) ==> Kept(p, stamp) == Some(p)
  {
    var k := p.key;
    if KeptInPlace(p, stamp) { KeptIsClean(p, stamp); }
    if CleanTags(k.tags) && "time" !in k.tags && k.time != 0 {
      CleanIsKept(p, stamp);
      SameWhenUnquoted(k, stamp);
    }
  }

  lemma SameWhenUnquoted(k: Key, stamp: int)
    requires k.time != 0
    ensures SeenKey(k, stamp) == k <==> Unquoted(k.tags)
  {
    if Unquoted(k.tags) { SeenUnquoted(k.tags); }
    if SeenMap(k.tags) == k.tags { SeenQuoted(k.tags); }
  }

  // ---------------------------------------------------------------- what is kept of an annotation

  /** Tags that InfluxDB accepts, and an end that is printed. */
  ghost predicate Storable(a: Annotation) {
    && ValidAnnotation(a) && a.end != 0
    && CleanTags(WithValues(a.tags)) && "time" !in WithValues(a.tags)
  }

  /** What comes back as it was written. */
  ghost predicate Printable(a: Annotation) {
    Storable(a) && Unquoted(WithValues(a.tags))
  }

  /** A row's key, read from a line. */
  ghost predicate CleanKey(k: Key) {
    WellKeyed(k) && CleanTags(k.tags) && !Quoted(k.tags["id"]) && k.time != 0
  }

  /** An annotation as it comes back. */
  ghost function AsKept(a: Annotation): Annotation {
    a.(tags := SeenMap(WithValues(a.tags)))
  }

  ghost function KeptKey(a: Annotation): Key {
    SeenKey(KeyOf(a), 0)
  }

  lemma SeenTagIsClean(k: Key, x: string)
    requires WellKeyed(k) && CleanTags(k.tags) && x in SeenMap(k.tags)
    ensures var v := SeenMap(k.tags)[x];
      L.CleanName(x) && L.CleanName(v) && v != "" && x != "time" && (x == "id" || ValidTagKey(x))
  {
    var t := RenamedOnly(k.tags, SEEN, x);
    SeenIsInjective();
    RenamedHas(k.tags, SEEN, t);
    L.SeenClean(L.Reference, t);
    L.SeenClean(L.Reference, k.tags[t]);
    if x in RESERVED {
      ReservedUnquoted(x);
      SeenPlain(t, x);
    }
  }

  lemma ReservedUnquoted(x: string)
    requires x in RESERVED
    ensures !Quoted(x)
  {
  }

  lemma SeenKeyIsClean(k: Key, stamp: int)
    requires WellKeyed(k) && CleanTags(k.tags) && !Quoted(k.tags["id"]) && stamp != 0
    ensures CleanKey(SeenKey(k, stamp)) && IdOf(SeenKey(k, stamp)) == IdOf(k)
  {
    SeenHas(k.tags, "id");
    SeenPlain(k.tags["id"], k.tags["id"]);
    forall x | x in SeenMap(k.tags)
      ensures var v := SeenMap(k.tags)[x];
        L.CleanName(x) && L.CleanName(v) && v != "" && x != "time" && (x == "id" || ValidTagKey(x))
    {
      SeenTagIsClean(k, x);
    }
  }

  lemma KeyIsClean(a: Annotation)
    requires ValidAnnotation(a) && CleanTags(WithValues(a.tags)) && "time" !in WithValues(a.tags)
    ensures WellKeyed(KeyOf(a)) && CleanTags(KeyOf(a).tags) && KeyOf(a).tags["id"] == a.id && "time" !in KeyOf(a).tags
  {
    PointBack(a, 0);
    assert L.CleanName("id");
    assert forall t :: t in KeyOf(a).tags && t != "id" ==> t in WithValues(a.tags);
  }

  lemma StorableKey(a: Annotation)
    requires Storable(a)
    ensures CleanKey(KeptKey(a)) && IdOf(KeptKey(a)) == a.id
  {
    KeyIsClean(a);
    SeenKeyAnyStamp(KeyOf(a), 1, 0);
    SeenKeyIsClean(KeyOf(a), 1);
  }

  lemma StorableShown(a: Annotation, row: Row)
    requires Storable(a) && row.start == a.start && row.text == a.text
    ensures IdOf(KeptKey(a)) == a.id && "id" in KeptKey(a).tags && AnnotationOf(KeptKey(a), row) == AsKept(a)
  {
    StorableKey(a);
    PointBack(a, 0);
    KeptTags(KeyOf(a), WithValues(a.tags));
  }

  /** A storable annotation is kept, and read back with its quotes behind backslashes. */
  lemma StorableIsKept(a: Annotation, now: int, stamp: int)
    requires Storable(a)
    ensures Kept(ToPoint(a, now), stamp) == Some(Point(KeptKey(a), Row(false, a.start, now, a.text)))
  {
    KeyIsClean(a);
    CleanIsKept(ToPoint(a, now), stamp);
    SeenKeyAnyStamp(KeyOf(a), stamp, 0);
  }

  lemma SeenKeyAnyStamp(k: Key, stamp: int, other: int)
    requires k.time != 0
    ensures SeenKey(k, stamp) == SeenKey(k, other)
  {
  }

  lemma KeptTags(k: Key, tags: map<string, string>)
    requires k.tags - {"id"} == tags
    ensures SeenMap(k.tags) - {"id"} == SeenMap(tags)
  {
    SeenIsInjective();
    SeenPlain("id", "id");
    RenamedWithout(k.tags, SEEN, "id");
  }

  lemma TagsOfKey(a: Annotation)
    requires ValidAnnotation(a)
    ensures var tags, values := KeyOf(a).tags, WithValues(a.tags);
      && (CleanTags(tags) <==> CleanTags(values)) && (Unquoted(tags) <==> Unquoted(values))
      && ("time" in tags <==> "time" in values)
  {
    PointBack(a, 0);
    var tags, values := KeyOf(a).tags, WithValues(a.tags);
    assert forall t :: t in values ==> t in tags && tags[t] == values[t];
    assert forall t :: t in tags && t != "id" ==> t in values;
    assert L.CleanName("id") && !Quoted("id");
  }

  /** An annotation comes back as it was written exactly when it is printable. */
  lemma PrintableIff(a: Annotation, now: int, stamp: int)
    requires ValidAnnotation(a) && stamp != 0
    ensures KeptInPlace(ToPoint(a, now), stamp) <==> Printable(a)
    ensures Printable(a) ==> Kept(ToPoint(a, now), stamp) == Some(ToPoint(a, now))
  {
    KeptAsWrittenIff(ToPoint(a, now), stamp);
    TagsOfKey(a);
  }

  lemma PrintableUnchanged(a: Annotation)
    requires Printable(a)
    ensures AsKept(a) == Normal(a) && KeptKey(a) == KeyOf(a)
  {
    SeenUnquoted(WithValues(a.tags));
    TagsOfKey(a);
    SameWhenUnquoted(KeyOf(a), 0);
  }

  lemma TagsAndId(k: Key, tags: map<string, string>)
    requires "id" in k.tags && !Quoted(k.tags["id"]) && tags == k.tags - {"id"}
    ensures Unquoted(k.tags) <==> Unquoted(tags)
  {
    assert !Quoted("id");
    assert forall t :: t in k.tags && t != "id" ==> t in tags && tags[t] == k.tags[t];
  }

  /** The deleting point of a row carries the row's own key exactly when no tag holds a double quote. */
  lemma DeletingKey(k: Key, row: Row, now: int, stamp: int) returns (hit: Key)
    requires CleanKey(k)
    ensures Kept(ToDeletedPoint(AnnotationOf(k, row), now), stamp) == Some(Point(hit, Row(true, 0, now, "")))
    ensures CleanKey(hit) && IdOf(hit) == IdOf(k) && hit.time == k.time
    ensures hit == k <==> Unquoted(AnnotationOf(k, row).tags)
  {
    hit := SeenKey(k, stamp);
    KeyBack(k, row);
    CleanIsKept(ToDeletedPoint(AnnotationOf(k, row), now), stamp);
    SeenKeyAnyStamp(k, stamp, 1);
    SeenKeyIsClean(k, 1);
    SameWhenUnquoted(k, stamp);
    TagsAndId(k, AnnotationOf(k, row).tags);
  }
}
