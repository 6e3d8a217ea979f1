/** Annotations kept as InfluxDB points (influx/annotations.go): reading rows back, merging the
    rows of one id, and adding, updating and deleting by writing points. */
module Annotations {
  import opened Options
  import opened Text
  import opened AnnotationPoints
  import L = LineProtocol

  type DB = map<Key, Row>

  function Put(db: DB, p: Point): DB {
    db[p.key := p.row]
  }

  /** A write that InfluxDB may refuse. */
  function PutKept(db: DB, kept: Option<Point>): DB {
    if kept.Some? then Put(db, kept.value) else db
  }

  // ---------------------------------------------------------------- rows of a query result

  datatype Cell = Number(n: int) | Txt(s: string) | Other

  datatype Series = Series(columns: seq<string>, values: seq<seq<Cell>>)

  datatype Tracked = Tracked(anno: Annotation, modTime: int)

  /** The last column of the name. */
  function Index(columns: seq<string>, name: string): (i: Option<nat>)
    ensures i.Some? ==> i.value < |columns| && columns[i.value] == name
    ensures i.None? ==> name !in columns
  {
    if columns == [] then None
    else
      var n := |columns| - 1;
      if columns[n] == name then Some(n) else Index(columns[..n], name)
  }

  function Int64(v: seq<Cell>, i: Option<nat>): Option<int> {
    if i.Some? && i.value < |v| && v[i.value].Number? then Some(v[i.value].n) else None
  }

  function Str(v: seq<Cell>, i: Option<nat>): Option<string> {
    if i.Some? && i.value < |v| && v[i.value].Txt? then Some(v[i.value].s) else None
  }

  /** Every column with text in it whose name may be a tag. */
  function TagsIn(columns: seq<string>, v: seq<Cell>): map<string, string>
    requires |v| <= |columns|
  {
    if v == [] then map[]
    else
      var n := |v| - 1;
      var tags := TagsIn(columns, v[..n]);
      if ValidTagKey(columns[n]) && v[n].Txt? then tags[columns[n] := v[n].s] else tags
  }

  function Decode(columns: seq<string>, v: seq<Cell>): Option<Tracked>
    requires |v| <= |columns|
  {
    var end, start := Int64(v, Index(columns, "time")), Int64(v, Index(columns, "start_time"));
    var modified := Int64(v, Index(columns, "modified_time_ns"));
    var text, id := Str(v, Index(columns, "text")), Str(v, Index(columns, "id"));
    if end.None? || start.None? || modified.None? || text.None? || id.None? then None
    else Some(Tracked(Annotation(id.value, start.value, end.value, text.value, TagsIn(columns, v)), modified.value))
  }

  function Find(columnIndex: map<string, nat>, name: string): Option<nat> {
    if name in columnIndex then Some(columnIndex[name]) else None
  }

  ghost predicate Indexes(columns: seq<string>, columnIndex: map<string, nat>) {
    forall name :: Find(columnIndex, name) == Index(columns, name)
  }

  method IndexColumns(columns: seq<string>) returns (columnIndex: map<string, nat>)
    ensures Indexes(columns, columnIndex)
  {
    columnIndex := map[];
    for i := 0 to |columns|
      invariant Indexes(columns[..i], columnIndex)
    {
      assert columns[..i + 1][..i] == columns[..i];
      columnIndex := columnIndex[columns[i] := i];
    }
    assert columns[..|columns|] == columns;
  }

  method CollectTags(columns: seq<string>, v: seq<Cell>) returns (tags: map<string, string>)
    requires |v| <= |columns|
    ensures tags == TagsIn(columns, v)
  {
    tags := map[];
    for i := 0 to |v|
      invariant tags == TagsIn(columns, v[..i])
    {
      assert v[..i + 1][..i] == v[..i];
      var key := columns[i];
      if ValidTagKey(key) && v[i].Txt? { tags := tags[key := v[i].s]; }
    }
    assert v[..|v|] == v;
  }

  method DecodeRow(columnIndex: map<string, nat>, columns: seq<string>, v: seq<Cell>) returns (r: Option<Tracked>)
    requires |v| <= |columns| && Indexes(columns, columnIndex)
    ensures r == Decode(columns, v)
  {
    var end := Int64(v, Find(columnIndex, "time"));
    if end.None? { return None; }
    var start := Int64(v, Find(columnIndex, "start_time"));
    if start.None? { return None; }
    var modified := Int64(v, Find(columnIndex, "modified_time_ns"));
    if modified.None? { return None; }
    var text := Str(v, Find(columnIndex, "text"));
    if text.None? { return None; }
    var id := Str(v, Find(columnIndex, "id"));
    if id.None? { return None; }
    var tags := CollectTags(columns, v);
    return Some(Tracked(Annotation(id.value, start.value, end.value, text.value, tags), modified.value));
  }

  // ---------------------------------------------------------------- merging the rows of one id

  type Merged = map<string, Tracked>

  function Latest(m: Merged, t: Tracked): Merged {
    if t.anno.id !in m || t.modTime > m[t.anno.id].modTime then m[t.anno.id := t] else m
  }

  function Merge(m: Merged, ts: seq<Tracked>): Merged {
    if ts == [] then m
    else
      var n := |ts| - 1;
      Latest(Merge(m, ts[..n]), ts[n])
  }

  /** The rows of all series in order, or nothing when one of them cannot be read. */
  function DecodeAll(columns: seq<string>, values: seq<seq<Cell>>): Option<seq<Tracked>>
    requires Fits(columns, values)
  {
    if values == [] then Some([])
    else
      var n := |values| - 1;
      var ts, t := DecodeAll(columns, values[..n]), Decode(columns, values[n]);
      if ts.None? || t.None? then None else Some(ts.value + [t.value])
  }

  predicate Aligned(series: seq<Series>) {
    forall s :: s in series ==> Fits(s.columns, s.values)
  }

  function DecodeSeries(series: seq<Series>): Option<seq<Tracked>>
    requires Aligned(series)
  {
    if series == [] then Some([])
    else
      var n := |series| - 1;
      assert series[n] in series && Aligned(series[..n]);
      var ts, t := DecodeSeries(series[..n]), DecodeAll(series[n].columns, series[n].values);
      if ts.None? || t.None? then None else Some(ts.value + t.value)
  }

  lemma MergeMore(m: Merged, ts: seq<Tracked>, t: Tracked)
    ensures Merge(m, ts + [t]) == Latest(Merge(m, ts), t)
  {
    assert (ts + [t])[..|ts|] == ts;
  }

  lemma {:induction false} MergeAll(m: Merged, ts: seq<Tracked>, more: seq<Tracked>)
    ensures Merge(m, ts + more) == Merge(Merge(m, ts), more)
  {
    if more == [] {
      assert ts + more == ts;
    } else {
      var n := |more| - 1;
      MergeAll(m, ts, more[..n]);
      assert ts + more == ts + more[..n] + [more[n]];
      MergeMore(m, ts + more[..n], more[n]);
    }
  }

  lemma {:induction false} DecodeStops(columns: seq<string>, values: seq<seq<Cell>>, i: nat)
    requires i < |values| && Fits(columns, values) && Decode(columns, values[i]).None?
    ensures DecodeAll(columns, values).None?
  {
    var n := |values| - 1;
    if i < n { DecodeStops(columns, values[..n], i); }
  }

  predicate Fits(columns: seq<string>, values: seq<seq<Cell>>) {
    forall i :: 0 <= i < |values| ==> |values[i]| <= |columns|
  }

  ghost predicate Through(annos: Merged, columns: seq<string>, values: seq<seq<Cell>>, m: Merged)
    requires Fits(columns, values)
  {
    DecodeAll(columns, values).Some? && m == Merge(annos, DecodeAll(columns, values).value)
  }

  lemma ThroughRow(annos: Merged, columns: seq<string>, values: seq<seq<Cell>>, i: nat, m: Merged)
    requires Fits(columns, values) && i < |values| && Through(annos, columns, values[..i], m)
    ensures var t := Decode(columns, values[i]);
      if t.Some? then Through(annos, columns, values[..i + 1], Latest(m, t.value))
      else DecodeAll(columns, values).None?
  {
    assert values[..i + 1][..i] == values[..i];
    if Decode(columns, values[i]).Some? {
      MergeMore(annos, DecodeAll(columns, values[..i]).value, Decode(columns, values[i]).value);
    } else {
      DecodeStops(columns, values, i);
    }
  }

  method MergeSeries(annos: Merged, s: Series) returns (r: Option<Merged>)
    requires Fits(s.columns, s.values)
    ensures r.Some? ==> Through(annos, s.columns, s.values, r.value)
    ensures r.None? <==> DecodeAll(s.columns, s.values).None?
  {
    var columnIndex := IndexColumns(s.columns);
    var m := annos;
    for i := 0 to |s.values|
      invariant Through(annos, s.columns, s.values[..i], m)
    {
      ThroughRow(annos, s.columns, s.values, i, m);
      var t := DecodeRow(columnIndex, s.columns, s.values[i]);
      if t.None? { return None; }
      var id := t.value.anno.id;
      if id !in m || t.value.modTime > m[id].modTime { m := m[id := t.value]; }
    }
    assert s.values[..|s.values|] == s.values;
    return Some(m);
  }

  lemma {:induction false} SeriesStops(series: seq<Series>, i: nat)
    requires Aligned(series) && i < |series| && series[i] in series &&
      DecodeAll(series[i].columns, series[i].values).None?
    ensures DecodeSeries(series).None?
  {
    var n := |series| - 1;
    if i < n {
      assert series[..n][i] == series[i];
      SeriesStops(series[..n], i);
    }
  }

  /** influxResults.Annotations before the final sorting. */
  method Annotations(series: seq<Series>) returns (r: Option<Merged>)
    requires Aligned(series)
    ensures var ts := DecodeSeries(series); r == if ts.None? then None else Some(Merge(map[], ts.value))
  {
    var annos: Merged := map[];
    for i := 0 to |series|
      invariant var ts := DecodeSeries(series[..i]); ts.Some? && annos == Merge(map[], ts.value)
    {
      var u := series[i];
      assert series[..i + 1][..i] == series[..i] && u in series;
      var m := MergeSeries(annos, u);
      if m.None? {
        SeriesStops(series, i);
        return None;
      }
      MergeAll(map[], DecodeSeries(series[..i]).value, DecodeAll(u.columns, u.values).value);
      annos := m.value;
    }
    assert series[..|series|] == series;
    return Some(annos);
  }

  // ---------------------------------------------------------------- what a query returns

  /** InfluxDB has a value for every column; a tag the row does not have is null. */
  function CellOf(column: string, k: Key, row: Row): Cell {
    if column == "time" then Number(k.time)
    else if column == "start_time" then Number(row.start)
    else if column == "modified_time_ns" then Number(row.modified)
    else if column == "text" then Txt(row.text)
    else if column in k.tags then Txt(k.tags[column])
    else Other
  }

  function CellsOf(columns: seq<string>, k: Key, row: Row): seq<Cell> {
    seq(|columns|, i requires 0 <= i < |columns| => CellOf(columns[i], k, row))
  }

  const FIELDS: set<string> := {"time", "start_time", "modified_time_ns", "text", "id"}

  /** The columns of a query that selects everything, in any order. */
  ghost predicate Describes(columns: seq<string>, k: Key) {
    (forall f :: f in FIELDS ==> f in columns) && forall t :: t in k.tags ==> t in columns
  }

  lemma {:induction false} TagsBack(columns: seq<string>, k: Key, row: Row, n: nat)
    requires WellKeyed(k) && n <= |columns|
    ensures TagsIn(columns, CellsOf(columns, k, row)[..n]) ==
      map t | t in k.tags && t in columns[..n] && t != "id" :: k.tags[t]
  {
    if n > 0 {
      TagsBack(columns, k, row, n - 1);
      var c := columns[n - 1];
      assert CellsOf(columns, k, row)[..n][..n - 1] == CellsOf(columns, k, row)[..n - 1];
      assert columns[..n] == columns[..n - 1] + [c];
      assert ValidTagKey(c) && CellOf(c, k, row).Txt? <==> c in k.tags && c != "id";
    }
  }

  /** A stored annotation is read back from its row. */
  lemma RowBack(columns: seq<string>, k: Key, row: Row)
    requires WellKeyed(k) && Describes(columns, k)
    ensures Decode(columns, CellsOf(columns, k, row)) == Some(Tracked(AnnotationOf(k, row), row.modified))
  {
    var cells := CellsOf(columns, k, row);
    TagsBack(columns, k, row, |columns|);
    assert cells[..|columns|] == cells && columns[..|columns|] == columns;
    forall f | f in FIELDS ensures var i := Index(columns, f); i.Some? && cells[i.value] == CellOf(f, k, row) {}
    assert "time" in FIELDS && "start_time" in FIELDS && "modified_time_ns" in FIELDS && "text" in FIELDS &&
      "id" in FIELDS;
    assert (map t | t in k.tags && t in columns && t != "id" :: k.tags[t]) == k.tags - {"id"};
  }

  predicate Stored(db: DB, keys: seq<Key>) {
    forall i :: 0 <= i < |keys| ==> keys[i] in db && WellKeyed(keys[i])
  }

  function Track(db: DB, k: Key): Tracked
    requires k in db && WellKeyed(k)
  {
    Tracked(AnnotationOf(k, db[k]), db[k].modified)
  }

  function RowsOf(columns: seq<string>, db: DB, keys: seq<Key>): (rows: seq<seq<Cell>>)
    requires Stored(db, keys)
    ensures Fits(columns, rows)
  {
    if keys == [] then []
    else
      var n := |keys| - 1;
      RowsOf(columns, db, keys[..n]) + [CellsOf(columns, keys[n], db[keys[n]])]
  }

  function TrackedOf(db: DB, keys: seq<Key>): seq<Tracked>
    requires Stored(db, keys)
  {
    if keys == [] then []
    else
      var n := |keys| - 1;
      TrackedOf(db, keys[..n]) + [Track(db, keys[n])]
  }

  lemma {:induction false} RowsBack(columns: seq<string>, db: DB, keys: seq<Key>)
    requires Stored(db, keys) && forall i :: 0 <= i < |keys| ==> Describes(columns, keys[i])
    ensures DecodeAll(columns, RowsOf(columns, db, keys)) == Some(TrackedOf(db, keys))
  {
    if keys != [] {
      var n := |keys| - 1;
      var rows := RowsOf(columns, db, keys[..n]);
      RowsBack(columns, db, keys[..n]);
      RowBack(columns, keys[n], db[keys[n]]);
      assert (rows + [CellsOf(columns, keys[n], db[keys[n]])])[..|rows|] == rows;
    }
  }

  // ---------------------------------------------------------------- what the rows show

  /** For every id one record, modified last; whatever the order of the rows. */
  ghost predicate KeepsLatest(m: Merged, ts: seq<Tracked>) {
    && (forall id :: id in m ==> m[id].anno.id == id && m[id] in ts)
    && (forall t :: t in ts ==> t.anno.id in m && t.modTime <= m[t.anno.id].modTime)
  }

  lemma {:induction false} MergeKeepsLatest(ts: seq<Tracked>)
    ensures KeepsLatest(Merge(map[], ts), ts)
  {
    if ts != [] {
      var n := |ts| - 1;
      MergeKeepsLatest(ts[..n]);
      assert ts == ts[..n] + [ts[n]];
    }
  }

  function Live(db: DB): set<Key> {
    set k | k in db && !db[k].deleted
  }

  ghost predicate IsLatest(db: DB, rows: set<Key>, id: string, k: Key)
    requires rows <= db.Keys
  {
    k in rows && IdOf(k) == id && forall j :: j in rows && IdOf(j) == id ==> db[j].modified <= db[k].modified
  }

  /** The annotation that the rows show for an id. */
  ghost predicate Shows(db: DB, rows: set<Key>, id: string, a: Option<Annotation>)
    requires rows <= db.Keys
  {
    match a
    case None => forall k :: k in rows ==> IdOf(k) != id
    case Some(anno) => exists k :: IsLatest(db, rows, id, k) && "id" in k.tags && AnnotationOf(k, db[k]) == anno
  }

  ghost predicate Current(db: DB, id: string, a: Option<Annotation>) {
    Shows(db, Live(db), id, a)
  }

  /** Every row was read from a line, and modified before now, at a time of its own. */
  ghost predicate Valid(db: DB, now: int) {
    && (forall k :: k in db ==> CleanKey(k) && db[k].modified < now)
    && (forall j, k :: j in db && k in db && db[j].modified == db[k].modified ==> j == k)
  }

  function Shown(m: Merged, id: string): Option<Annotation> {
    if id in m then Some(m[id].anno) else None
  }

  lemma {:induction false} TrackedAt(db: DB, keys: seq<Key>, t: Tracked) returns (k: Key)
    requires Stored(db, keys) && t in TrackedOf(db, keys)
    ensures k in keys && k in db && WellKeyed(k) && t == Track(db, k)
  {
    var n := |keys| - 1;
    if t == Track(db, keys[n]) {
      k := keys[n];
    } else {
      k := TrackedAt(db, keys[..n], t);
    }
  }

  lemma {:induction false} TrackedIn(db: DB, keys: seq<Key>, k: Key)
    requires Stored(db, keys) && k in keys
    ensures k in db && WellKeyed(k) && Track(db, k) in TrackedOf(db, keys)
  {
    var n := |keys| - 1;
    if k != keys[n] { TrackedIn(db, keys[..n], k); }
  }

  lemma MergeShows(db: DB, keys: seq<Key>, rows: set<Key>, id: string)
    requires Stored(db, keys) && (forall k :: k in keys <==> k in rows) && rows <= db.Keys
    ensures Shows(db, rows, id, Shown(Merge(map[], TrackedOf(db, keys)), id))
  {
    var ts := TrackedOf(db, keys);
    var m := Merge(map[], ts);
    MergeKeepsLatest(ts);
    forall k | k in rows ensures IdOf(k) in m && db[k].modified <= m[IdOf(k)].modTime { TrackedIn(db, keys, k); }
    if id in m {
      var k := TrackedAt(db, keys, m[id]);
      assert IsLatest(db, rows, id, k);
    }
  }

  // ---------------------------------------------------------------- single writes

  /** A write leaves every other id as it was. */
  lemma OthersUnchanged(db: DB, p: Point, id: string, a: Option<Annotation>)
    requires IdOf(p.key) != id
    ensures Current(Put(db, p), id, a) <==> Current(db, id, a)
  {
    var db' := Put(db, p);
    assert forall k :: IdOf(k) == id ==> (k in Live(db') <==> k in Live(db)) && (k in db ==> db'[k] == db[k]);
    assert forall k :: IsLatest(db', Live(db'), id, k) <==> IsLatest(db, Live(db), id, k);
  }

  lemma WriteIsValid(db: DB, now: int, p: Point)
    requires Valid(db, now) && CleanKey(p.key) && p.row.modified >= now
    ensures Valid(Put(db, p), p.row.modified + 1)
  {
  }

  /** Deleting a row that is not the latest of its id changes nothing that is shown. */
  lemma DeletingOlder(db: DB, now: int, k: Key, p: Point, id: string)
    requires Valid(db, now) && CleanKey(p.key) && p.row.deleted && p.row.modified >= now
    requires IsLatest(db, Live(db), id, k) && p.key != k
    ensures Current(Put(db, p), id, Some(AnnotationOf(k, db[k])))
  {
    assert IsLatest(Put(db, p), Live(Put(db, p)), id, k);
  }

  // ---------------------------------------------------------------- additions

  function AddedRow(a: Annotation, now: int): Row {
    Row(false, a.start, now, a.text)
  }

  /** Add and the first write of Update; the server's clock shows `stamp`. */
  ghost function AfterAdd(db: DB, a: Annotation, now: int, stamp: int): DB {
    PutKept(db, Kept(ToPoint(a, now), stamp))
  }

  /** The row that a storable annotation is kept in. */
  lemma AddKeeps(db: DB, a: Annotation, now: int, stamp: int) returns (k: Key)
    requires Storable(a)
    ensures k == KeptKey(a) && CleanKey(k) && IdOf(k) == a.id && k.time == a.end
    ensures Kept(ToPoint(a, now), stamp) == Some(Point(k, AddedRow(a, now)))
    ensures AfterAdd(db, a, now, stamp) == db[k := AddedRow(a, now)]
    ensures AnnotationOf(k, AddedRow(a, now)) == AsKept(a)
  {
    k := KeptKey(a);
    StorableKey(a);
    StorableIsKept(a, now, stamp);
    StorableShown(a, AddedRow(a, now));
  }

  lemma NewestIsShown(db: DB, now: int, k: Key, row: Row)
    requires Valid(db, now) && CleanKey(k) && row.modified == now && !row.deleted
    ensures var db' := db[k := row];
      && Valid(db', now + 1) && IsLatest(db', Live(db'), IdOf(k), k)
      && Current(db', IdOf(k), Some(AnnotationOf(k, row)))
  {
    WriteIsValid(db, now, Point(k, row));
    assert IsLatest(db[k := row], Live(db[k := row]), IdOf(k), k);
  }

  /** A storable annotation is shown as it is kept, whatever rows an earlier failure has left. */
  lemma AddIsShown(db: DB, now: int, a: Annotation, stamp: int)
    requires Valid(db, now) && Storable(a)
    ensures Valid(AfterAdd(db, a, now, stamp), now + 1)
    ensures Current(AfterAdd(db, a, now, stamp), a.id, Some(AsKept(a)))
  {
    var k := AddKeeps(db, a, now, stamp);
    NewestIsShown(db, now, k, AddedRow(a, now));
  }

  lemma AddLeavesOthers(db: DB, a: Annotation, now: int, stamp: int, id: string, r: Option<Annotation>)
    requires Storable(a) && id != a.id
    ensures Current(AfterAdd(db, a, now, stamp), id, r) <==> Current(db, id, r)
  {
    var k := AddKeeps(db, a, now, stamp);
    OthersUnchanged(db, Point(k, AddedRow(a, now)), id, r);
  }

  // ---------------------------------------------------------------- deletions

  ghost function AfterDelete(db: DB, cur: Annotation, now: int, stamp: int): DB {
    PutKept(db, Kept(ToDeletedPoint(cur, now), stamp))
  }

  /** The row that an annotation was read from. */
  lemma RowOf(db: DB, id: string, cur: Annotation) returns (k: Key)
    requires (forall j :: j in db ==> CleanKey(j)) && Current(db, id, Some(cur))
    ensures IsLatest(db, Live(db), id, k) && CleanKey(k) && AnnotationOf(k, db[k]) == cur && KeyOf(cur) == k
  {
    k :| IsLatest(db, Live(db), id, k) && "id" in k.tags && AnnotationOf(k, db[k]) == cur;
    KeyBack(k, db[k]);
  }

  function DeletedRow(now: int): Row {
    Row(true, 0, now, "")
  }

  /** The deleting point of the row that is shown. */
  lemma DeletingPoint(db: DB, id: string, cur: Annotation, now: int, stamp: int) returns (k: Key, hit: Key)
    requires (forall j :: j in db ==> CleanKey(j)) && Current(db, id, Some(cur))
    ensures CleanKey(k) && IsLatest(db, Live(db), id, k) && AnnotationOf(k, db[k]) == cur && KeyOf(cur) == k
    ensures CleanKey(hit) && IdOf(hit) == id && hit.time == cur.end && (hit == k <==> Unquoted(cur.tags))
    ensures Kept(ToDeletedPoint(cur, now), stamp) == Some(Point(hit, DeletedRow(now)))
  {
    k := RowOf(db, id, cur);
    hit := DeletingKey(k, db[k], now, stamp);
  }

  lemma DeletedWith(db: DB, cur: Annotation, now: int, stamp: int, p: Point)
    requires Kept(ToDeletedPoint(cur, now), stamp) == Some(p)
    ensures AfterDelete(db, cur, now, stamp) == db[p.key := p.row]
  {
  }

  /** The deleting point hits the row it was read from exactly when no tag of it is quoted. */
  lemma DeleteHits(db: DB, id: string, cur: Annotation, now: int, stamp: int) returns (k: Key, hit: Key)
    requires (forall j :: j in db ==> CleanKey(j)) && Current(db, id, Some(cur))
    ensures CleanKey(k) && IsLatest(db, Live(db), id, k) && AnnotationOf(k, db[k]) == cur && KeyOf(cur) == k
    ensures CleanKey(hit) && IdOf(hit) == id && hit.time == cur.end
    ensures AfterDelete(db, cur, now, stamp) == db[hit := DeletedRow(now)]
    ensures hit == k <==> Unquoted(cur.tags)
  {
    k, hit := DeletingPoint(db, id, cur, now, stamp);
    DeletedWith(db, cur, now, stamp, Point(hit, DeletedRow(now)));
  }

  function LiveRows(db: DB, id: string): set<Key> {
    set k | k in Live(db) && IdOf(k) == id
  }

  /** A deleted row in the place of some row of the id, the latest or another one. */
  lemma DeletedRowRemovesIff(db: DB, id: string, k: Key, hit: Key, row: Row)
    requires IsLatest(db, Live(db), id, k) && IdOf(hit) == id && row.deleted
    ensures Current(db[hit := row], id, None) <==> |LiveRows(db, id)| == 1 && hit == k
  {
    var left := Live(db[hit := row]);
    assert k in LiveRows(db, id);
    LastRow(LiveRows(db, id), k);
    assert forall j :: j in LiveRows(db, id) && j != hit ==> j in left && IdOf(j) == id;
    assert forall j :: j in left && IdOf(j) == id ==> j in LiveRows(db, id) && j != hit;
  }

  /** A deletion makes the id not found exactly when it had one live row and no tag of it is quoted. */
  lemma DeleteRemovesIff(db: DB, now: int, id: string, cur: Annotation, stamp: int)
    requires Valid(db, now) && Current(db, id, Some(cur))
    ensures Valid(AfterDelete(db, cur, now, stamp), now + 1)
    ensures Current(AfterDelete(db, cur, now, stamp), id, None) <==>
      |LiveRows(db, id)| == 1 && Unquoted(cur.tags)
  {
    var k, hit := DeleteHits(db, id, cur, now, stamp);
    WriteIsValid(db, now, Point(hit, DeletedRow(now)));
    DeletedRowRemovesIff(db, id, k, hit, DeletedRow(now));
  }

  /** A quoted annotation is still shown after its deletion. */
  lemma QuotedStays(db: DB, now: int, id: string, cur: Annotation, stamp: int)
    requires Valid(db, now) && Current(db, id, Some(cur)) && !Unquoted(cur.tags)
    ensures Current(AfterDelete(db, cur, now, stamp), id, Some(cur))
  {
    var k, hit := DeleteHits(db, id, cur, now, stamp);
    DeletingOlder(db, now, k, Point(hit, DeletedRow(now)), id);
  }

  lemma LastRow(s: set<Key>, k: Key)
    requires k in s
    ensures |s| == 1 <==> forall j :: j in s ==> j == k
  {
    if |s| == 1 {
      assert |s - {k}| == 0;
      forall j | j in s ensures j == k { assert j !in s - {k}; }
    }
    if forall j :: j in s ==> j == k { assert s == {k}; }
  }

  lemma DeleteLeavesOthers(db: DB, now: int, id: string, cur: Annotation, stamp: int, other: string,
      r: Option<Annotation>)
    requires Valid(db, now) && Current(db, id, Some(cur)) && other != id
    ensures Current(AfterDelete(db, cur, now, stamp), other, r) <==> Current(db, other, r)
  {
    var k, hit := DeleteHits(db, id, cur, now, stamp);
    OthersUnchanged(db, Point(hit, DeletedRow(now)), other, r);
  }

  /** What an annotation under a new id has to be like: after Add it is shown as it was written and
      Delete removes it, exactly when its tags are clean, unquoted and none of them is named time, and
      it does not end at the zero of Unix time. */
  lemma ShownAndDeletableIff(db: DB, now: int, a: Annotation, stamp: int)
    requires Valid(db, now) && ValidAnnotation(a) && stamp != 0 && NewId(db, a.id)
    ensures Printable(a) <==>
      && Current(AfterAdd(db, a, now, stamp), a.id, Some(Normal(a)))
      && Current(AfterDelete(AfterAdd(db, a, now, stamp), Normal(a), now + 1, stamp), a.id, None)
  {
    if Printable(a) {
      PrintableDeleted(db, now, a, stamp);
    } else if Current(AfterAdd(db, a, now, stamp), a.id, Some(Normal(a))) {
      ShownMeansKept(db, now, a, stamp);
    }
  }

  ghost predicate NewId(db: DB, id: string) {
    forall k :: k in db ==> IdOf(k) != id
  }

  lemma PrintableDeleted(db: DB, now: int, a: Annotation, stamp: int)
    requires Valid(db, now) && Printable(a) && NewId(db, a.id)
    ensures var added := AfterAdd(db, a, now, stamp);
      Current(added, a.id, Some(Normal(a))) && Current(AfterDelete(added, Normal(a), now + 1, stamp), a.id, None)
  {
    var k := AddKeeps(db, a, now, stamp);
    PrintableUnchanged(a);
    AddIsShown(db, now, a, stamp);
    DeleteRemovesIff(AfterAdd(db, a, now, stamp), now + 1, a.id, Normal(a), stamp);
    OnlyRow(db, k, AddedRow(a, now));
  }

  lemma OnlyRow(db: DB, k: Key, row: Row)
    requires NewId(db, IdOf(k)) && !row.deleted
    ensures |LiveRows(db[k := row], IdOf(k))| == 1
  {
    assert LiveRows(db[k := row], IdOf(k)) == {k};
  }

  /** Under a new id only what was kept in place is shown as it was written. */
  lemma ShownMeansKept(db: DB, now: int, a: Annotation, stamp: int)
    requires ValidAnnotation(a) && stamp != 0 && NewId(db, a.id)
    requires Current(AfterAdd(db, a, now, stamp), a.id, Some(Normal(a)))
    ensures Printable(a)
  {
    var kept := Kept(ToPoint(a, now), stamp);
    ShownIsWritten(db, a, kept);
    PointBack(a, now);
    PrintableIff(a, now, stamp);
  }

  lemma ShownIsWritten(db: DB, a: Annotation, kept: Option<Point>)
    requires ValidAnnotation(a) && NewId(db, a.id) && Current(PutKept(db, kept), a.id, Some(Normal(a)))
    ensures kept.Some? && kept.value.key == KeyOf(a)
  {
    var db' := PutKept(db, kept);
    var k :| IsLatest(db', Live(db'), a.id, k) && "id" in k.tags && AnnotationOf(k, db'[k]) == Normal(a);
    assert k !in db;
    SameKey(k, a);
  }

  lemma SameKey(k: Key, a: Annotation)
    requires ValidAnnotation(a) && "id" in k.tags && k.tags["id"] == a.id && k.time == a.end
    requires k.tags - {"id"} == WithValues(a.tags)
    ensures k == KeyOf(a)
  {
    PointBack(a, 0);
    assert forall t :: t in k.tags && t != "id" ==> t in k.tags - {"id"};
    assert forall t :: t in KeyOf(a).tags && t != "id" ==> t in KeyOf(a).tags - {"id"};
    assert k.tags == KeyOf(a).tags;
  }

  /** The smallest such annotation: its one tag comes back with a backslash, and deleting it puts the
      deleted row beside it. */
  lemma QuotedTag(id: string, end: int, now: int, stamp: int)
    requires L.CleanName(id) && !Quoted(id) && end != 0
    ensures var a, b := Annotation(id, 0, end, "", map["k" := "\""]), Annotation(id, 0, end, "", map["k" := "\\\""]);
      var added := AfterAdd(map[], a, now, stamp);
      && Storable(a) && !Printable(a) && AsKept(a) == b && Current(added, id, Some(b))
      && Current(AfterDelete(added, b, now + 1, stamp), id, Some(b))
  {
    var tags, seen := map["k" := "\""], map["k" := "\\\""];
    var a := Annotation(id, 0, end, "", tags);
    assert WithValues(tags) == tags && ValidTagKey("k") && L.CleanName("k") && L.CleanName("\"");
    assert Quoted(tags["k"]) && Quoted(seen["k"]);
    OneTagSeen("k", "\"", "\\\"");
    AddIsShown(map[], now, a, stamp);
    QuotedStays(AfterAdd(map[], a, now, stamp), now + 1, id, AsKept(a), stamp);
  }

  lemma OneTagSeen(k: string, v: string, x: string)
    requires !Quoted(k) && L.Seen(L.Reference, v) == x
    ensures SeenMap(map[k := v]) == map[k := x]
  {
    SeenHas(map[k := v], k);
    SeenIsInjective();
    forall y | y in SeenMap(map[k := v]) ensures y == k {
      var j := RenamedOnly(map[k := v], SEEN, y);
      SeenPlain(k, k);
    }
  }

  // ---------------------------------------------------------------- updates

  /** Update, whose second write may fail. */
  ghost function AfterUpdate(db: DB, cur: Annotation, a: Annotation, now: int, now2: int, stamp: int,
      finished: bool): DB
  {
    var kept := Kept(ToPoint(a, now), stamp);
    var written := PutKept(db, kept);
    if kept.Some? && cur.end != a.end && finished then AfterDelete(written, cur, now2, stamp) else written
  }

  lemma UpdatedWith(db: DB, cur: Annotation, a: Annotation, now: int, now2: int, stamp: int, finished: bool,
      p: Point, d: Point)
    requires Kept(ToPoint(a, now), stamp) == Some(p) && Kept(ToDeletedPoint(cur, now2), stamp) == Some(d)
    ensures AfterUpdate(db, cur, a, now, now2, stamp, finished) ==
      if cur.end != a.end && finished then Put(Put(db, p), d) else Put(db, p)
  {
    if cur.end != a.end && finished { DeletedWith(Put(db, p), cur, now2, stamp, d); }
  }

  /** The rows after an update: with the old end, the deleted row is never in the place of the new one. */
  lemma UpdateRows(db: DB, cur: Annotation, a: Annotation, now: int, now2: int, stamp: int, finished: bool)
    returns (k: Key, hit: Key)
    requires Valid(db, now) && Storable(a) && Current(db, a.id, Some(cur))
    ensures CleanKey(k) && IdOf(k) == a.id && k.time == a.end && AnnotationOf(k, AddedRow(a, now)) == AsKept(a)
    ensures CleanKey(hit) && IdOf(hit) == a.id && hit.time == cur.end
    ensures AfterUpdate(db, cur, a, now, now2, stamp, finished) ==
      if cur.end != a.end && finished then db[k := AddedRow(a, now)][hit := DeletedRow(now2)]
      else db[k := AddedRow(a, now)]
  {
    k := AddKeeps(db, a, now, stamp);
    var row;
    row, hit := DeletingPoint(db, a.id, cur, now2, stamp);
    UpdatedWith(db, cur, a, now, now2, stamp, finished, Point(k, AddedRow(a, now)), Point(hit, DeletedRow(now2)));
  }

  lemma UpdateIsShown(db: DB, cur: Annotation, a: Annotation, now: int, now2: int, stamp: int, finished: bool)
    requires Valid(db, now) && now < now2 && Storable(a) && Current(db, a.id, Some(cur))
    ensures Valid(AfterUpdate(db, cur, a, now, now2, stamp, finished), now2 + 1)
    ensures Current(AfterUpdate(db, cur, a, now, now2, stamp, finished), a.id, Some(AsKept(a)))
  {
    var k, hit := UpdateRows(db, cur, a, now, now2, stamp, finished);
    NewestIsShown(db, now, k, AddedRow(a, now));
    if cur.end != a.end && finished {
      var added := db[k := AddedRow(a, now)];
      WriteIsValid(added, now + 1, Point(hit, DeletedRow(now2)));
      DeletingOlder(added, now + 1, k, Point(hit, DeletedRow(now2)), a.id);
    }
  }

  lemma UpdateLeavesOthers(db: DB, cur: Annotation, a: Annotation, now: int, now2: int, stamp: int, finished: bool,
      id: string, r: Option<Annotation>)
    requires Storable(a) && Current(db, a.id, Some(cur)) && Valid(db, now) && id != a.id
    ensures Current(AfterUpdate(db, cur, a, now, now2, stamp, finished), id, r) <==> Current(db, id, r)
  {
    var k, hit := UpdateRows(db, cur, a, now, now2, stamp, finished);
    OthersUnchanged(db, Point(k, AddedRow(a, now)), id, r);
    OthersUnchanged(db[k := AddedRow(a, now)], Point(hit, DeletedRow(now2)), id, r);
  }

  /** Changing the tags and then deleting brings the annotation back with its old tags: the update
      deletes the previous row only when the time has changed. */
  lemma RetaggedThenDeleted(a: Annotation, b: Annotation, now: int, stamp: int)
    requires Storable(a) && Printable(b) && a.id == b.id && a.end == b.end && AsKept(a).tags != Normal(b).tags
    ensures var added := AfterAdd(map[], a, now, stamp);
      var updated := AfterUpdate(added, AsKept(a), b, now + 1, now + 2, stamp, true);
      && Current(updated, a.id, Some(Normal(b)))
      && Current(AfterDelete(updated, Normal(b), now + 3, stamp), a.id, Some(AsKept(a)))
  {
    var added := AfterAdd(map[], a, now, stamp);
    var k := AddKeeps(map[], a, now, stamp);
    AddIsShown(map[], now, a, stamp);
    var j, hit := UpdateRows(added, AsKept(a), b, now + 1, now + 2, stamp, true);
    UpdateIsShown(added, AsKept(a), b, now + 1, now + 2, stamp, true);
    PrintableUnchanged(b);
    OldRowIsBack(k, AddedRow(a, now), j, AddedRow(b, now + 1), now + 3, stamp);
  }

  lemma OldRowIsBack(k: Key, older: Row, j: Key, newer: Row, now: int, stamp: int)
    requires CleanKey(j) && CleanKey(k) && IdOf(j) == IdOf(k) && j != k && Unquoted(AnnotationOf(j, newer).tags)
    requires older.modified < newer.modified && !older.deleted && !newer.deleted
    ensures Current(AfterDelete(map[k := older][j := newer], AnnotationOf(j, newer), now, stamp), IdOf(k),
                    Some(AnnotationOf(k, older)))
  {
    var db := map[k := older][j := newer];
    var hit := DeletingKey(j, newer, now, stamp);
    DeletedWith(db, AnnotationOf(j, newer), now, stamp, Point(hit, DeletedRow(now)));
    OlderIsLatest(k, older, j, db[j := DeletedRow(now)]);
  }

  lemma OlderIsLatest(k: Key, older: Row, j: Key, db: DB)
    requires "id" in k.tags && db.Keys == {k, j} && j != k && db[k] == older && !older.deleted && db[j].deleted
    ensures Current(db, IdOf(k), Some(AnnotationOf(k, older)))
  {
    assert IsLatest(db, Live(db), IdOf(k), k);
  }

  // ---------------------------------------------------------------- whole runs

  datatype Op = Add(a: Annotation) | Update(a: Annotation, finished: bool) | Delete(id: string)

  /** One operation, writing at `now` and perhaps at now + 1. */
  ghost predicate Step(db: DB, op: Op, now: int, stamp: int, db': DB) {
    match op
    case Add(a) => Storable(a) && db' == AfterAdd(db, a, now, stamp)
    case Update(a, finished) =>
      Storable(a)
      && ((Current(db, a.id, None) && db' == db)
          || exists cur :: Current(db, a.id, Some(cur))
                           && db' == AfterUpdate(db, cur, a, now, now + 1, stamp, finished))
    case Delete(id) =>
      (Current(db, id, None) && db' == db)
      || exists cur :: Current(db, id, Some(cur)) && (Unquoted(cur.tags) ==> |LiveRows(db, id)| == 1)
                       && db' == AfterDelete(db, cur, now, stamp)
  }

  /** What an operation makes of what is shown under an id; a quoted annotation cannot be deleted. */
  ghost function Follows(op: Op, id: string, before: Option<Annotation>): Option<Annotation> {
    match op
    case Add(a) => if a.id == id then Some(AsKept(a)) else before
    case Update(a, _) => if a.id == id && before.Some? then Some(AsKept(a)) else before
    case Delete(i) => if i == id && before.Some? && Unquoted(before.value.tags) then None else before
  }

  /** What a reader of the operations expects to find under an id. */
  ghost function LastWritten(ops: seq<Op>, id: string): Option<Annotation> {
    if ops == [] then None
    else
      var n := |ops| - 1;
      Follows(ops[n], id, LastWritten(ops[..n], id))
  }

  /** Operations one after the other on an empty database, at increasing times. */
  ghost predicate Run(dbs: seq<DB>, ops: seq<Op>, times: seq<int>, stamps: seq<int>) {
    && |dbs| == |ops| + 1 == |times| == |stamps| && dbs[0] == map[]
    && forall i :: 0 <= i < |ops| ==>
         Step(dbs[i], ops[i], times[i], stamps[i], dbs[i + 1]) && times[i] + 2 <= times[i + 1]
  }

  /** No id shows two things. */
  lemma CurrentIsOne(db: DB, now: int, id: string, a: Option<Annotation>, b: Option<Annotation>)
    requires Valid(db, now) && Current(db, id, a) && Current(db, id, b)
    ensures a == b
  {
    if a.Some? && b.Some? {
      var j :| IsLatest(db, Live(db), id, j) && "id" in j.tags && AnnotationOf(j, db[j]) == a.value;
      var k :| IsLatest(db, Live(db), id, k) && "id" in k.tags && AnnotationOf(k, db[k]) == b.value;
      assert db[j].modified == db[k].modified;
    }
  }

  lemma DeleteShows(db: DB, i: string, now: int, stamp: int, db': DB, id: string, before: Option<Annotation>)
    requires Valid(db, now) && Step(db, Delete(i), now, stamp, db') && Current(db, id, before)
    ensures Valid(db', now + 2) && Current(db', id, Follows(Delete(i), id, before))
  {
    if Current(db, i, None) && db' == db {
      if i == id { CurrentIsOne(db, now, id, before, None); }
    } else {
      var cur :| Current(db, i, Some(cur)) && (Unquoted(cur.tags) ==> |LiveRows(db, i)| == 1)
                 && db' == AfterDelete(db, cur, now, stamp);
      DeleteRemovesIff(db, now, i, cur, stamp);
      if i != id {
        DeleteLeavesOthers(db, now, i, cur, stamp, id, before);
      } else {
        CurrentIsOne(db, now, id, before, Some(cur));
        if !Unquoted(cur.tags) { QuotedStays(db, now, id, cur, stamp); }
      }
    }
  }

  lemma StepShows(db: DB, op: Op, now: int, stamp: int, db': DB, id: string, before: Option<Annotation>)
    requires Valid(db, now) && Step(db, op, now, stamp, db') && Current(db, id, before)
    ensures Valid(db', now + 2) && Current(db', id, Follows(op, id, before))
  {
    match op
    case Add(a) =>
      AddIsShown(db, now, a, stamp);
      if a.id != id { AddLeavesOthers(db, a, now, stamp, id, before); }
    case Update(a, finished) =>
      if Current(db, a.id, None) && db' == db {
        if a.id == id { CurrentIsOne(db, now, id, before, None); }
      } else {
        var cur :| Current(db, a.id, Some(cur)) && db' == AfterUpdate(db, cur, a, now, now + 1, stamp, finished);
        UpdateIsShown(db, cur, a, now, now + 1, stamp, finished);
        if a.id != id {
          UpdateLeavesOthers(db, cur, a, now, now + 1, stamp, finished, id, before);
        } else {
          CurrentIsOne(db, now, id, before, Some(cur));
        }
      }
    case Delete(i) => DeleteShows(db, i, now, stamp, db', id, before);
  }

  /** After any run, whichever updates stopped halfway, every id shows what was last written. */
  lemma {:induction false} RunShowsLastWritten(dbs: seq<DB>, ops: seq<Op>, times: seq<int>, stamps: seq<int>,
      id: string)
    requires Run(dbs, ops, times, stamps)
    ensures Valid(dbs[|ops|], times[|ops|])
    ensures Current(dbs[|ops|], id, LastWritten(ops, id))
    decreases |ops|
  {
    if ops != [] {
      var n := |ops| - 1;
      RunShowsLastWritten(dbs[..n + 1], ops[..n], times[..n + 1], stamps[..n + 1], id);
      assert Step(dbs[n], ops[n], times[n], stamps[n], dbs[n + 1]);
      StepShows(dbs[n], ops[n], times[n], stamps[n], dbs[n + 1], id, LastWritten(ops[..n], id));
    }
  }

  // ---------------------------------------------------------------- the store

  /** A filter on tags: what InfluxDB evaluates on a row. */
  type Condition = (Key, Row) -> bool

  predicate Admitted(filters: seq<Condition>, k: Key, row: Row) {
    forall i :: 0 <= i < |filters| ==> filters[i](k, row)
  }

  function Window(db: DB, start: int, stop: int, filters: seq<Condition>): set<Key> {
    set k | k in Live(db) && start <= k.time && db[k].start <= stop && Admitted(filters, k, db[k])
  }

  /** A listing shows the current version of an id exactly when its latest row is in the window and
      passes every filter. */
  lemma WindowShowsCurrentIff(db: DB, now: int, start: int, stop: int, filters: seq<Condition>,
      id: string, k: Key, a: Option<Annotation>)
    requires Valid(db, now) && IsLatest(db, Live(db), id, k) && Shows(db, Window(db, start, stop, filters), id, a)
    ensures a == Some(AnnotationOf(k, db[k])) <==> k in Window(db, start, stop, filters)
  {
    var rows := Window(db, start, stop, filters);
    if k in rows {
      assert IsLatest(db, rows, id, k);
    } else if a.Some? {
      var j :| IsLatest(db, rows, id, j) && "id" in j.tags && AnnotationOf(j, db[j]) == a.value;
      KeyBack(j, db[j]);
      KeyBack(k, db[k]);
    }
  }

  predicate Within(t: int, from: int, to: int) {
    from <= t <= to
  }

  /** A row to be listed: some moment lies both in its annotation and between the bounds, and every filter
      holds on it. */
  ghost predicate Sought(k: Key, row: Row, start: int, stop: int, filters: seq<Condition>) {
    && (exists t :: Within(t, row.start, k.time) && Within(t, start, stop))
    && (forall i :: 0 <= i < |filters| ==> filters[i](k, row))
  }

  /** A live row that does not end before it starts. */
  predicate Proper(db: DB, id: string, k: Key) {
    k in db && !db[k].deleted && "id" in k.tags && k.tags["id"] == id && db[k].start <= k.time
  }

  lemma SoughtIff(db: DB, id: string, k: Key, start: int, stop: int, filters: seq<Condition>)
    requires Proper(db, id, k) && start <= stop
    ensures k in Window(db, start, stop, filters) <==> Sought(k, db[k], start, stop, filters)
  {
    if k in Window(db, start, stop, filters) {
      var t := if start <= db[k].start then db[k].start else start;
      assert Within(t, db[k].start, k.time) && Within(t, start, stop);
    }
  }

  /** A row of the id that a listing may show: live, and to be listed. */
  ghost predicate ShownFrom(db: DB, id: string, k: Key, start: int, stop: int, filters: seq<Condition>, a: Annotation) {
    && k in db && !db[k].deleted && "id" in k.tags && k.tags["id"] == id && AnnotationOf(k, db[k]) == a
    && (db[k].start <= k.time ==> Sought(k, db[k], start, stop, filters))
  }

  /** What a listing shows under an id: a version whose own row is to be listed, and one if there is such
      a row; the current version exactly when its row is to be listed. */
  ghost predicate Listed(db: DB, start: int, stop: int, filters: seq<Condition>, id: string, a: Option<Annotation>) {
    && (a.Some? ==> exists k :: ShownFrom(db, id, k, start, stop, filters, a.value))
    && (forall k :: Proper(db, id, k) && Sought(k, db[k], start, stop, filters) ==> a.Some?)
    && (forall k :: Proper(db, id, k) && IsLatest(db, Live(db), id, k) ==>
          (a == Some(AnnotationOf(k, db[k])) <==> Sought(k, db[k], start, stop, filters)))
  }

  /** Over bounds in order, a listing shows what overlaps them. */
  lemma ListsWhatOverlaps(db: DB, now: int, start: int, stop: int, filters: seq<Condition>, id: string,
      a: Option<Annotation>)
    requires Valid(db, now) && start <= stop && Shows(db, Window(db, start, stop, filters), id, a)
    ensures Listed(db, start, stop, filters, id, a)
  {
    var rows := Window(db, start, stop, filters);
    if a.Some? {
      var k :| IsLatest(db, rows, id, k) && "id" in k.tags && AnnotationOf(k, db[k]) == a.value;
      if db[k].start <= k.time { SoughtIff(db, id, k, start, stop, filters); }
      assert ShownFrom(db, id, k, start, stop, filters, a.value);
    }
    forall k | Proper(db, id, k) && Sought(k, db[k], start, stop, filters) ensures a.Some? {
      SoughtIff(db, id, k, start, stop, filters);
    }
    forall k | Proper(db, id, k) && IsLatest(db, Live(db), id, k)
      ensures a == Some(AnnotationOf(k, db[k])) <==> Sought(k, db[k], start, stop, filters)
    {
      SoughtIff(db, id, k, start, stop, filters);
      WindowShowsCurrentIff(db, now, start, stop, filters, id, k, a);
    }
  }

  ghost predicate AllShown(db: DB, start: int, stop: int, filters: seq<Condition>, res: map<string, Annotation>) {
    forall id :: Shows(db, Window(db, start, stop, filters), id, if id in res then Some(res[id]) else None)
  }

  ghost predicate AllListed(db: DB, start: int, stop: int, filters: seq<Condition>, res: map<string, Annotation>) {
    forall id :: Listed(db, start, stop, filters, id, if id in res then Some(res[id]) else None)
  }

  lemma ShownIsListed(db: DB, now: int, start: int, stop: int, filters: seq<Condition>, res: map<string, Annotation>)
    requires Valid(db, now) && start <= stop && AllShown(db, start, stop, filters, res)
    ensures AllListed(db, start, stop, filters, res)
  {
    forall id ensures Listed(db, start, stop, filters, id, if id in res then Some(res[id]) else None) {
      ListsWhatOverlaps(db, now, start, stop, filters, id, if id in res then Some(res[id]) else None);
    }
  }

  /** An annotation of 140 to 150 is listed from 100 to 200. */
  lemma ListedInside(k: Key, text: string)
    requires WellKeyed(k) && k.time == 150
    ensures var row := Row(false, 140, 0, text);
      && Shows(map[k := row], Window(map[k := row], 100, 200, []), IdOf(k), Some(AnnotationOf(k, row)))
      && Shows(map[k := row], Window(map[k := row], 1000, 100, []), IdOf(k), None)
  {
    var row := Row(false, 140, 0, text);
    assert IsLatest(map[k := row], Window(map[k := row], 100, 200, []), IdOf(k), k);
  }

  datatype Outcome = Done | NotFound | WriteFailed

  ghost predicate Answers(db: DB, rows: set<Key>, series: seq<Series>, keys: seq<Key>) {
    && Aligned(series) && Stored(db, keys) && (forall k :: k in keys <==> k in rows)
    && DecodeSeries(series) == Some(TrackedOf(db, keys))
  }

  lemma OneSeries(db: DB, rows: set<Key>, columns: seq<string>, keys: seq<Key>)
    requires rows <= db.Keys && (forall k :: k in rows ==> WellKeyed(k) && Describes(columns, k))
    requires forall k :: k in keys <==> k in rows
    ensures Stored(db, keys) && Answers(db, rows, [Series(columns, RowsOf(columns, db, keys))], keys)
  {
    assert forall i :: 0 <= i < |keys| ==> keys[i] in rows;
    RowsBack(columns, db, keys);
    var series := [Series(columns, RowsOf(columns, db, keys))];
    assert series[..0] == [] && [] + TrackedOf(db, keys) == TrackedOf(db, keys);
  }

  function ColumnsOf(rows: set<Key>): set<string> {
    FIELDS + {"deleted"} + set k, t | k in rows && t in k.tags :: t
  }

  ghost predicate Answered(db: DB, rows: set<Key>, series: seq<Series>) {
    exists keys :: Answers(db, rows, series, keys)
  }

  /** The answer of InfluxDB: columns and rows in an order of its own. */
  method Select(db: DB, rows: set<Key>) returns (series: seq<Series>)
    requires rows <= db.Keys && forall k :: k in rows ==> WellKeyed(k)
    ensures Answered(db, rows, series)
  {
    if rows == {} {
      assert Answers(db, rows, [], []);
      return [];
    }
    var columns := Enumerate(ColumnsOf(rows));
    var order := Enumerate(rows);
    OneSeries(db, rows, columns, order);
    return [Series(columns, RowsOf(columns, db, order))];
  }

  class AnnotationStore {
    var db: DB

    /** All annotations of a window, by id; the order of the list is left open. */
    method All(start: int, stop: int, filters: seq<Condition>) returns (res: map<string, Annotation>)
      requires forall k :: k in db ==> WellKeyed(k)
      ensures AllShown(db, start, stop, filters, res)
      ensures forall now :: Valid(db, now) && start <= stop ==> AllListed(db, start, stop, filters, res)
    {
      var rows := Window(db, start, stop, filters);
      var series := Select(db, rows);
      ghost var keys :| Answers(db, rows, series, keys);
      var annos := Annotations(series);
      var m := annos.value;
      res := map id | id in m :: m[id].anno;
      forall id ensures Shows(db, rows, id, if id in res then Some(res[id]) else None) {
        MergeShows(db, keys, rows, id);
      }
      forall now | Valid(db, now) && start <= stop ensures AllListed(db, start, stop, filters, res) {
        ShownIsListed(db, now, start, stop, filters, res);
      }
    }

    method Get(id: string) returns (r: Option<Annotation>)
      requires forall k :: k in db ==> WellKeyed(k)
      ensures Current(db, id, r)
    {
      var series := Select(db, LiveRows(db, id));
      ghost var keys :| Answers(db, LiveRows(db, id), series, keys);
      var annos := Annotations(series);
      MergeShows(db, keys, LiveRows(db, id), id);
      r := if id in annos.value then Some(annos.value[id].anno) else None;
    }

    /** A write of the client, to a server whose clock shows `stamp`; `up` tells whether it answers. */
    method Write(p: Point, stamp: int, up: bool) returns (ok: bool)
      modifies this
      ensures ok <==> up && Kept(p, stamp).Some?
      ensures db == if ok then PutKept(old(db), Kept(p, stamp)) else old(db)
    {
      var kept := Send(p, stamp);
      if !up || kept.None? { return false; }
      db := Put(db, kept.value);
      return true;
    }

    method Add(a: Annotation, now: int, stamp: int, up: bool) returns (r: Outcome)
      requires Valid(db, now) && ValidAnnotation(a)
      modifies this
      ensures r == if up && Kept(ToPoint(a, now), stamp).Some? then Done else WriteFailed
      ensures db == if r == Done then AfterAdd(old(db), a, now, stamp) else old(db)
      ensures Storable(a) ==> Valid(db, now + 1) && (up ==> r == Done && Current(db, a.id, Some(AsKept(a))))
    {
      var ok := Write(ToPoint(a, now), stamp, up);
      if Storable(a) {
        StorableIsKept(a, now, stamp);
        AddIsShown(old(db), now, a, stamp);
      }
      return if ok then Done else WriteFailed;
    }

    /** `first` and `second` say which of the writes are answered. */
    method Update(a: Annotation, now: int, now2: int, stamp: int, first: bool, second: bool)
      returns (r: Outcome, ghost cur: Annotation)
      requires Valid(db, now) && now < now2 && ValidAnnotation(a)
      modifies this
      ensures r == NotFound <==> old(Current(db, a.id, None))
      ensures r == NotFound || !first ==> db == old(db)
      ensures r != NotFound ==> old(Current(db, a.id, Some(cur)))
      ensures r != NotFound && first ==> db == AfterUpdate(old(db), cur, a, now, now2, stamp, second)
      ensures r == Done ==> first && (second || cur.end == a.end) && Kept(ToPoint(a, now), stamp).Some?
      ensures Storable(a) ==> Valid(db, now2 + 1)
      ensures Storable(a) && r != NotFound && first ==> Current(db, a.id, Some(AsKept(a)))
    {
      var found := Get(a.id);
      cur := a;
      if found.None? { return NotFound, cur; }
      cur := found.value;
      if Storable(a) { UpdateIsShown(db, cur, a, now, now2, stamp, second); }
      var ok := Write(ToPoint(a, now), stamp, first);
      if !ok { return WriteFailed, cur; }
      if found.value.end != a.end {
        ok := Write(ToDeletedPoint(found.value, now2), stamp, second);
        if !ok { return WriteFailed, cur; }
      }
      return Done, cur;
    }

    method Delete(id: string, now: int, stamp: int, up: bool) returns (r: Outcome, ghost cur: Annotation)
      requires Valid(db, now)
      modifies this
      ensures r == NotFound <==> old(Current(db, id, None))
      ensures r != Done ==> db == old(db)
      ensures r != NotFound ==> old(Current(db, id, Some(cur))) && r == (if up then Done else WriteFailed)
      ensures r == Done ==> db == AfterDelete(old(db), cur, now, stamp)
      ensures r == Done ==> (Current(db, id, None) <==> |LiveRows(old(db), id)| == 1 && Unquoted(cur.tags))
      ensures Valid(db, now + 1)
    {
      var found := Get(id);
      cur := Annotation(id, 0, 0, "", map[]);
      if found.None? { return NotFound, cur; }
      cur := found.value;
      DeleteRemovesIff(db, now, id, cur, stamp);
      ghost var k, hit := DeletingPoint(db, id, cur, now, stamp);
      var ok := Write(ToDeletedPoint(found.value, now), stamp, up);
      if !ok { return WriteFailed, cur; }
      return Done, cur;
    }
  }
}
