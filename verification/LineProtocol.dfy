/** Line protocol (influx/lineprotocol.go): the printer of points, and a reader that follows the
    escaping rules of InfluxDB's line protocol. */
module LineProtocol {
  import opened Options
  import opened Text

  /** A float carries the text that %f prints for it; other Go types are not printed. */
  datatype Field = Integer(n: int) | Unsigned(u: nat) | Float(text: string) | Str(s: string) | Bool(b: bool)
      | Unsupported

  datatype Point = Point(measurement: string, tags: map<string, string>, fields: map<string, Field>, time: int)

  datatype Error = MeasurementRequired | FieldRequired

  datatype Result = Ok(text: string) | Err(error: Error)

  // ---------------------------------------------------------------- escaping

  const MEASUREMENT: set<char> := {',', ' '}
  const NAMES: set<char> := {',', '"', ' ', '='}
  const STRINGS: set<char> := {'"', '\\'}

  /** strings.NewReplacer from each of the characters to itself behind a backslash. */
  function Escape(s: string, special: set<char>): string {
    if s == [] then []
    else (if s[0] in special then ['\\', s[0]] else [s[0]]) + Escape(s[1..], special)
  }

  // ---------------------------------------------------------------- the printer

  /** Tags without a value are left out. */
  function TagKeys(p: Point): set<string> {
    set k | k in p.tags && p.tags[k] != ""
  }

  function FieldKeys(p: Point): set<string> {
    set k | k in p.fields && !p.fields[k].Unsupported?
  }

  function Shown(f: Field): string {
    match f
    case Integer(n) => Signed(n) + "i"
    case Unsigned(u) => Decimal(u) + "u"
    case Float(text) => text
    case Str(s) => "\"" + Escape(s, STRINGS) + "\""
    case Bool(b) => if b then "true" else "false"
    case Unsupported => ""
  }

  function TagText(p: Point): string -> string {
    k => if k in p.tags then Escape(k, NAMES) + "=" + Escape(p.tags[k], NAMES) else ""
  }

  function FieldText(p: Point): string -> string {
    k => if k in p.fields then Escape(k, NAMES) + "=" + Shown(p.fields[k]) else ""
  }

  function Stamp(time: int): string {
    if time == 0 then "" else " " + Signed(time)
  }

  function TagsPart(tags: seq<string>): string {
    if tags == [] then "" else "," + Join(SortStrings(tags), ",")
  }

  function Assembled(p: Point, tags: seq<string>, fields: seq<string>): string {
    Escape(p.measurement, MEASUREMENT) + TagsPart(tags) + " " + Join(SortStrings(fields), ",") + Stamp(p.time)
  }

  /** The line for one order of the tags and one of the fields. */
  function Line(p: Point, tags: seq<string>, fields: seq<string>): string {
    Assembled(p, Map(tags, TagText(p)), Map(fields, FieldText(p)))
  }

  ghost predicate Prints(p: Point, text: string) {
    forall tags, fields :: Ranges(tags, TagKeys(p)) && Ranges(fields, FieldKeys(p)) ==> text == Line(p, tags, fields)
  }

  /** The line, whatever the order. */
  ghost function TheLine(p: Point): string {
    Line(p, AnOrder(TagKeys(p)), AnOrder(FieldKeys(p)))
  }

  /** `left` are the keys still to come. */
  ghost predicate Gathered(f: string -> string, texts: seq<string>, order: seq<string>, keys: set<string>,
      left: set<string>) {
    Ranges(order, keys - left) && |texts| == |order| && texts == Map(order, f)
  }

  lemma GatherOne(f: string -> string, texts: seq<string>, order: seq<string>, keys: set<string>, left: set<string>,
      k: string)
    requires Gathered(f, texts, order, keys, left) && k in left
    ensures k in keys ==> Gathered(f, texts + [f(k)], order + [k], keys, left - {k})
    ensures k !in keys ==> Gathered(f, texts, order, keys, left - {k})
  {
    if k in keys {
      RangesPush(order, keys - left, k);
      assert keys - (left - {k}) == keys - left + {k};
      MapPush(order, k, f);
    } else {
      assert keys - (left - {k}) == keys - left;
    }
  }

  /** The text of every key once, in some order. */
  ghost predicate AllGathered(f: string -> string, texts: seq<string>, keys: set<string>) {
    exists order :: Gathered(f, texts, order, keys, {})
  }

  method GatherTags(p: Point) returns (tags: seq<string>)
    ensures AllGathered(TagText(p), tags, TagKeys(p))
  {
    tags := [];
    ghost var order := [];
    var left := p.tags.Keys;
    assert TagKeys(p) - left == {};
    while left != {}
      invariant left <= p.tags.Keys
      invariant Gathered(TagText(p), tags, order, TagKeys(p), left)
      decreases |left|
    {
      var tag :| tag in left;
      GatherOne(TagText(p), tags, order, TagKeys(p), left, tag);
      var value := p.tags[tag];
      if value != "" {
        tags, order := tags + [Escape(tag, NAMES) + "=" + Escape(value, NAMES)], order + [tag];
      }
      left := left - {tag};
    }
  }

  method GatherFields(p: Point) returns (fields: seq<string>)
    ensures AllGathered(FieldText(p), fields, FieldKeys(p))
  {
    fields := [];
    ghost var order := [];
    var left := p.fields.Keys;
    assert FieldKeys(p) - left == {};
    while left != {}
      invariant left <= p.fields.Keys
      invariant Gathered(FieldText(p), fields, order, FieldKeys(p), left)
      decreases |left|
    {
      var field :| field in left;
      GatherOne(FieldText(p), fields, order, FieldKeys(p), left, field);
      var format := "";
      if !p.fields[field].Unsupported? {
        format := Escape(field, NAMES) + "=" + Shown(p.fields[field]);
      }
      if format != "" {
        fields, order := fields + [format], order + [field];
      }
      left := left - {field};
    }
  }

  lemma OneLine(p: Point, tags: seq<string>, fields: seq<string>)
    requires AllGathered(TagText(p), tags, TagKeys(p)) && AllGathered(FieldText(p), fields, FieldKeys(p))
    ensures Prints(p, Assembled(p, tags, fields))
  {
    var ts :| Gathered(TagText(p), tags, ts, TagKeys(p), {});
    var fs :| Gathered(FieldText(p), fields, fs, FieldKeys(p), {});
    assert TagKeys(p) - {} == TagKeys(p) && FieldKeys(p) - {} == FieldKeys(p);
    forall ts', fs' | Ranges(ts', TagKeys(p)) && Ranges(fs', FieldKeys(p))
      ensures Assembled(p, tags, fields) == Line(p, ts', fs')
    {
      OneSorting(ts, ts', TagKeys(p), TagText(p));
      OneSorting(fs, fs', FieldKeys(p), FieldText(p));
    }
  }

  lemma PrintsTheLine(p: Point, text: string)
    requires Prints(p, text)
    ensures text == TheLine(p)
  {
    assert Ranges(AnOrder(TagKeys(p)), TagKeys(p)) && Ranges(AnOrder(FieldKeys(p)), FieldKeys(p));
  }

  lemma TheLinePrints(p: Point)
    ensures Prints(p, TheLine(p))
  {
    forall ts, fs | Ranges(ts, TagKeys(p)) && Ranges(fs, FieldKeys(p)) ensures TheLine(p) == Line(p, ts, fs) {
      OneSorting(ts, AnOrder(TagKeys(p)), TagKeys(p), TagText(p));
      OneSorting(fs, AnOrder(FieldKeys(p)), FieldKeys(p), FieldText(p));
    }
  }

  /** What is joined behind the measurement. */
  method Assemble(measurement: string, tags: seq<string>, fields: seq<string>, time: int) returns (lp: string)
    ensures lp == measurement + TagsPart(tags) + " " + Join(SortStrings(fields), ",") + Stamp(time)
  {
    lp := measurement;
    if |tags| > 0 { lp := lp + ("," + Join(SortStrings(tags), ",")); }
    assert lp == measurement + TagsPart(tags);
    lp := lp + " " + Join(SortStrings(fields), ",");
    if time != 0 { lp := lp + (" " + Signed(time)); }
  }

  /** The same line in whatever order Go ranges over the tags and the fields. */
  method ToLineProtocol(p: Point) returns (r: Result)
    ensures r == Err(MeasurementRequired) <==> p.measurement == ""
    ensures r == Err(FieldRequired) <==> p.measurement != "" && p.fields == map[]
    ensures r.Ok? ==> Prints(p, r.text)
  {
    var measurement := Escape(p.measurement, MEASUREMENT);
    if |measurement| == 0 { return Err(MeasurementRequired); }
    if |p.fields| == 0 { return Err(FieldRequired); }
    var tags := GatherTags(p);
    var fields := GatherFields(p);
    OneLine(p, tags, fields);
    var lp := Assemble(measurement, tags, fields, p.time);
    return Ok(lp);
  }

  // ---------------------------------------------------------------- the reader

  /** InfluxDB itself undoes backslashes before commas, equals signs and spaces only; the printer
      also puts them before double quotes. */
  datatype Reader = UndoesQuotes | Reference

  function Undone(r: Reader): set<char> {
    if r.UndoesQuotes? then NAMES else {',', ' ', '='}
  }

  /** How a name appears to a reader. */
  function Seen(r: Reader, s: string): string {
    if r.UndoesQuotes? then s else Escape(s, {'"'})
  }

  /** Up to the first of `stops` that is not behind a backslash; the stop is left in the rest. */
  function ReadToken(s: string, special: set<char>, stops: set<char>): (r: Option<(string, string)>)
    ensures r.Some? ==> |r.value.1| <= |s| && r.value.1 != [] && r.value.1[0] in stops
    decreases |s|
  {
    if s == [] then None
    else if s[0] == '\\' && |s| >= 2 && s[1] in special then
      var r := ReadToken(s[2..], special, stops);
      if r.Some? then Some(([s[1]] + r.value.0, r.value.1)) else None
    else if s[0] in stops then Some(([], s))
    else
      var r := ReadToken(s[1..], special, stops);
      if r.Some? then Some(([s[0]] + r.value.0, r.value.1)) else None
  }

  /** A name is not empty and on one line. */
  function ReadName(s: string, special: set<char>, stops: set<char>): (r: Option<(string, string)>)
    ensures r.Some? ==> |r.value.1| <= |s| && r.value.1 != [] && r.value.1[0] in stops
  {
    var r := ReadToken(s, special, stops);
    if r.Some? && r.value.0 != "" && '\n' !in r.value.0 then r else None
  }

  const SEPARATORS: set<char> := {',', ' ', '='}

  /** key=value, up to a comma or a space. */
  function ReadTag(r: Reader, s: string): (t: Option<((string, string), string)>)
    ensures t.Some? ==> |t.value.1| < |s| && t.value.1 != [] && t.value.1[0] in {',', ' '}
  {
    var key := ReadName(s, Undone(r), SEPARATORS);
    if key.None? || key.value.1[0] != '=' then None else
    var value := ReadName(key.value.1[1..], Undone(r), SEPARATORS);
    if value.None? || value.value.1[0] == '=' then None else
    Some(((key.value.0, value.value.0), value.value.1))
  }

  /** Tags, each behind a comma, and the text behind the space after them. */
  function ReadTags(r: Reader, s: string): Option<(seq<(string, string)>, string)>
    decreases |s|
  {
    if s == [] then None
    else if s[0] == ' ' then Some(([], s[1..]))
    else if s[0] != ',' then None
    else
      var tag := ReadTag(r, s[1..]);
      if tag.None? then None else
      var more := ReadTags(r, tag.value.1);
      if more.None? then None else Some(([tag.value.0] + more.value.0, more.value.1))
  }

  /** Up to a comma, a space or the end. */
  function ReadPlain(s: string): (r: (string, string))
    ensures |r.1| <= |s| && s == r.0 + r.1
  {
    if s == [] || s[0] == ',' || s[0] == ' ' then ([], s)
    else
      var r := ReadPlain(s[1..]);
      assert s == [s[0]] + s[1..];
      ([s[0]] + r.0, r.1)
  }

  predicate IsFloat(s: string) {
    '.' in s && forall c :: c in s ==> IsDigit(c) || c == '.' || c == '-'
  }

  function ReadNumber(s: string): Option<Field> {
    if s == "true" then Some(Bool(true))
    else if s == "false" then Some(Bool(false))
    else if s == "" then None
    else
      var body, last := s[..|s| - 1], s[|s| - 1];
      if last == 'i' && IsSigned(body) then Some(Integer(ReadSigned(body)))
      else if last == 'u' && IsSigned(body) && body[0] != '-' then Some(Unsigned(ReadDecimal(body)))
      else if IsFloat(s) then Some(Float(s))
      else None
  }

  function ReadValue(s: string): (r: Option<(Field, string)>)
    ensures r.Some? ==> |r.value.1| <= |s|
  {
    if s != [] && s[0] == '"' then
      var str := ReadToken(s[1..], STRINGS, {'"'});
      if str.None? then None else Some((Str(str.value.0), str.value.1[1..]))
    else
      var plain := ReadPlain(s);
      var f := ReadNumber(plain.0);
      if f.None? then None else Some((f.value, plain.1))
  }

  function ReadField(r: Reader, s: string): (f: Option<((string, Field), string)>)
    ensures f.Some? ==> |f.value.1| < |s|
  {
    var key := ReadName(s, Undone(r), SEPARATORS);
    if key.None? || key.value.1[0] != '=' then None else
    var value := ReadValue(key.value.1[1..]);
    if value.None? then None else Some(((key.value.0, value.value.0), value.value.1))
  }

  /** Fields with commas between them; what remains is empty or starts with a space. */
  function ReadFields(r: Reader, s: string): Option<(seq<(string, Field)>, string)>
    decreases |s|
  {
    var field := ReadField(r, s);
    if field.None? then None
    else if field.value.1 == "" || field.value.1[0] == ' ' then Some(([field.value.0], field.value.1))
    else if field.value.1[0] != ',' then None
    else
      var more := ReadFields(r, field.value.1[1..]);
      if more.None? then None else Some(([field.value.0] + more.value.0, more.value.1))
  }

  function ReadStamp(s: string): Option<int> {
    if s == "" then Some(0)
    else if s[0] == ' ' && IsSigned(s[1..]) then Some(ReadSigned(s[1..]))
    else None
  }

  datatype Parsed = Parsed(measurement: string, tags: seq<(string, string)>, fields: seq<(string, Field)>, time: int)

  function ReadParts(r: Reader, measurement: string, s: string): Option<Parsed> {
    var tags := ReadTags(r, s);
    if tags.None? then None else
    var fields := ReadFields(r, tags.value.1);
    if fields.None? then None else
    var time := ReadStamp(fields.value.1);
    if time.None? then None else
    Some(Parsed(measurement, tags.value.0, fields.value.0, time.value))
  }

  function ReadLine(r: Reader, s: string): Option<Parsed> {
    var m := ReadName(s, MEASUREMENT, MEASUREMENT);
    if m.None? then None else ReadParts(r, m.value.0, m.value.1)
  }

  // ---------------------------------------------------------------- reading one name

  /** What a name needs: some text, on one line, with no backslash before the separator. */
  predicate CleanName(s: string) {
    s != [] && '\n' !in s && s[|s| - 1] != '\\'
  }

  lemma PlainHead(c: char, more: string, special: set<char>, stops: set<char>)
    requires c !in stops && (c == '\\' && more != [] ==> more[0] !in special)
    ensures var r := ReadToken(more, special, stops);
      ReadToken([c] + more, special, stops) == if r.Some? then Some(([c] + r.value.0, r.value.1)) else None
  {
    assert ([c] + more)[1..] == more;
  }

  lemma EscapedHead(c: char, more: string, special: set<char>, stops: set<char>)
    requires c in special
    ensures var r := ReadToken(more, special, stops);
      ReadToken(['\\', c] + more, special, stops) == if r.Some? then Some(([c] + r.value.0, r.value.1)) else None
  {
    assert (['\\', c] + more)[2..] == more;
  }

  lemma {:induction false} TokenBack(s: string, special: set<char>, stops: set<char>, w: string)
    requires stops <= special && '\\' !in stops && w != [] && w[0] in stops
    requires '\\' in special || (s != [] ==> s[|s| - 1] != '\\')
    ensures ReadToken(Escape(s, special) + w, special, stops) == Some((s, w))
  {
    if s == [] {
      assert Escape(s, special) + w == w;
    } else {
      var c, rest := s[0], Escape(s[1..], special);
      TokenBack(s[1..], special, stops, w);
      assert [c] + s[1..] == s;
      if c in special {
        EscapedHead(c, rest + w, special, stops);
        Grouped(['\\', c], rest, w);
      } else {
        PlainHead(c, rest + w, special, stops);
        Grouped([c], rest, w);
      }
    }
  }

  lemma Grouped(a: string, b: string, c: string)
    ensures a + b + c == a + (b + c)
  {
  }

  lemma {:induction false} EscapeTwice(s: string)
    ensures Escape(s, NAMES) == Escape(Escape(s, {'"'}), {',', ' ', '='})
  {
    if s != [] {
      EscapeTwice(s[1..]);
      var rest := Escape(s[1..], {'"'});
      if s[0] == '"' {
        assert (['\\', '"'] + rest)[1..] == ['"'] + rest && (['"'] + rest)[1..] == rest;
      } else {
        assert ([s[0]] + rest)[1..] == rest;
      }
    }
  }

  lemma {:induction false} EscapeKeeps(s: string)
    requires s != []
    ensures var t := Escape(s, {'"'}); t != [] && t[|t| - 1] == s[|s| - 1] && ('\n' in t <==> '\n' in s)
  {
    if |s| > 1 {
      EscapeKeeps(s[1..]);
      assert s == [s[0]] + s[1..];
    } else {
      assert Escape(s[1..], {'"'}) == [] && s == [s[0]];
    }
  }

  lemma SeenClean(r: Reader, s: string)
    ensures CleanName(Seen(r, s)) <==> CleanName(s)
  {
    if s != [] { EscapeKeeps(s); }
  }

  lemma NameBack(r: Reader, s: string, w: string)
    requires CleanName(s) && w != [] && w[0] in SEPARATORS
    ensures ReadName(Escape(s, NAMES) + w, Undone(r), SEPARATORS) == Some((Seen(r, s), w))
  {
    EscapeTwice(s);
    SeenClean(r, s);
    TokenBack(Seen(r, s), Undone(r), SEPARATORS, w);
  }

  // ---------------------------------------------------------------- reading the tags

  predicate CleanTag(p: Point, k: string) {
    k in p.tags && CleanName(k) && CleanName(p.tags[k])
  }

  predicate CleanTags(p: Point, ks: seq<string>) {
    ks == [] || (CleanTag(p, ks[0]) && CleanTags(p, ks[1..]))
  }

  function SeenTag(r: Reader, p: Point, k: string): (string, string)
    requires CleanTag(p, k)
  {
    (Seen(r, k), Seen(r, p.tags[k]))
  }

  lemma Behind(c: char, s: string)
    ensures ([c] + s)[1..] == s
  {
  }

  lemma TagBack(r: Reader, k: string, v: string, w: string)
    requires CleanName(k) && CleanName(v) && w != [] && w[0] in {',', ' '}
    ensures ReadTag(r, Escape(k, NAMES) + "=" + Escape(v, NAMES) + w) == Some(((Seen(r, k), Seen(r, v)), w))
  {
    var value := Escape(v, NAMES) + w;
    assert Escape(k, NAMES) + "=" + Escape(v, NAMES) + w == Escape(k, NAMES) + ("=" + value);
    Behind('=', value);
    NameBack(r, k, "=" + value);
    NameBack(r, v, w);
  }

  lemma TagsStep(r: Reader, text: string, more: string, tag: (string, string), tags: seq<(string, string)>, w: string)
    requires ReadTag(r, text + more) == Some((tag, more)) && ReadTags(r, more) == Some((tags, w))
    ensures ReadTags(r, "," + (text + more)) == Some(([tag] + tags, w))
  {
    Behind(',', text + more);
  }

  function SeenTags(r: Reader, p: Point, ks: seq<string>): seq<(string, string)>
    requires CleanTags(p, ks)
  {
    if ks == [] then [] else [SeenTag(r, p, ks[0])] + SeenTags(r, p, ks[1..])
  }

  /** The texts with a comma before each. */
  function Commas(f: string -> string, ks: seq<string>): string {
    if ks == [] then "" else "," + (f(ks[0]) + Commas(f, ks[1..]))
  }

  lemma {:induction false} JoinedByCommas(f: string -> string, ks: seq<string>)
    requires ks != []
    ensures "," + Joined(f, ks) == Commas(f, ks)
  {
    if |ks| == 1 {
      assert Commas(f, ks[1..]) == "";
      assert f(ks[0]) + "" == f(ks[0]);
    } else {
      JoinedByCommas(f, ks[1..]);
    }
  }

  /** strings.Join of the texts. */
  function Joined(f: string -> string, ks: seq<string>): string
    requires ks != []
  {
    if |ks| == 1 then f(ks[0]) else f(ks[0]) + ("," + Joined(f, ks[1..]))
  }

  lemma {:induction false} JoinedIsJoin(f: string -> string, ks: seq<string>)
    requires ks != []
    ensures Join(Map(ks, f), ",") == Joined(f, ks)
  {
    assert Map(ks, f)[1..] == Map(ks[1..], f);
    if |ks| == 1 {
      assert Map(ks, f) == [f(ks[0])];
    } else {
      JoinedIsJoin(f, ks[1..]);
      var rest := Join(Map(ks[1..], f), ",");
      assert f(ks[0]) + "," + rest == f(ks[0]) + ("," + rest);
    }
  }

  lemma {:induction false} TagsBack(r: Reader, p: Point, ks: seq<string>, w: string)
    requires CleanTags(p, ks)
    ensures ReadTags(r, Commas(TagText(p), ks) + (" " + w)) == Some((SeenTags(r, p, ks), w))
  {
    if ks == [] {
      Behind(' ', w);
      assert Commas(TagText(p), ks) + (" " + w) == " " + w;
    } else {
      var text, commas := TagText(p)(ks[0]), Commas(TagText(p), ks[1..]);
      var more := commas + (" " + w);
      assert "," + (text + commas) + (" " + w) == "," + (text + more);
      TagBack(r, ks[0], p.tags[ks[0]], more);
      TagsBack(r, p, ks[1..], w);
      TagsStep(r, text, more, SeenTag(r, p, ks[0]), SeenTags(r, p, ks[1..]), w);
    }
  }

  // ---------------------------------------------------------------- reading the fields

  predicate CleanField(p: Point, k: string) {
    k in p.fields && CleanName(k) && !p.fields[k].Unsupported? && (p.fields[k].Float? ==> IsFloat(p.fields[k].text))
  }

  predicate CleanFields(p: Point, ks: seq<string>) {
    ks == [] || (CleanField(p, ks[0]) && CleanFields(p, ks[1..]))
  }

  predicate Ends(w: string) {
    w == "" || w[0] == ',' || w[0] == ' '
  }

  lemma {:induction false} PlainBack(s: string, w: string)
    requires Ends(w) && ',' !in s && ' ' !in s
    ensures ReadPlain(s + w) == (s, w)
  {
    if s == [] {
      assert s + w == w;
    } else {
      assert s[0] in s && (s + w)[1..] == s[1..] + w && [s[0]] + s[1..] == s;
      PlainBack(s[1..], w);
    }
  }

  /** Not a string, and without separators. */
  predicate Bare(s: string) {
    s != "" && s[0] != '"' && ',' !in s && ' ' !in s
  }

  lemma IntegerBack(n: int)
    ensures Bare(Signed(n) + "i") && ReadNumber(Signed(n) + "i") == Some(Integer(n))
  {
    var s := Signed(n);
    SignedRoundTrip(n);
    assert (s + "i")[..|s|] == s && s[0] in s && |s + "i"| == |s| + 1;
    assert (s + "i")[|s|] == 'i';
  }

  lemma UnsignedBack(u: nat)
    ensures Bare(Decimal(u) + "u") && ReadNumber(Decimal(u) + "u") == Some(Unsigned(u))
  {
    var s := Decimal(u);
    DecimalRoundTrip(u);
    assert (s + "u")[..|s|] == s && s[0] in s && |s + "u"| == |s| + 1;
    assert (s + "u")[|s|] == 'u';
    assert IsDigit(s[0]) && IsSigned(s);
  }

  lemma FloatBack(text: string)
    requires IsFloat(text)
    ensures Bare(text) && ReadNumber(text) == Some(Float(text))
  {
    assert text[0] in text && text[|text| - 1] in text;
  }

  lemma NumberBack(f: Field)
    requires f.Integer? || f.Unsigned? || f.Bool? || (f.Float? && IsFloat(f.text))
    ensures Bare(Shown(f)) && ReadNumber(Shown(f)) == Some(f)
  {
    match f
    case Integer(n) => IntegerBack(n);
    case Unsigned(u) => UnsignedBack(u);
    case Float(text) => FloatBack(text);
    case Bool(b) =>
  }

  lemma StrBack(s: string, w: string)
    ensures ReadValue(Shown(Str(s)) + w) == Some((Str(s), w))
  {
    var body := Escape(s, STRINGS) + ("\"" + w);
    assert Shown(Str(s)) + w == "\"" + body;
    Behind('"', body);
    Behind('"', w);
    TokenBack(s, STRINGS, {'"'}, "\"" + w);
  }

  lemma ShownBack(f: Field, w: string)
    requires !f.Unsupported? && (f.Float? ==> IsFloat(f.text)) && Ends(w)
    ensures ReadValue(Shown(f) + w) == Some((f, w))
  {
    if f.Str? {
      StrBack(f.s, w);
    } else {
      NumberBack(f);
      PlainBack(Shown(f), w);
    }
  }

  lemma FieldStep(r: Reader, s: string, k: string, value: string, f: Field, w: string)
    requires ReadName(s, Undone(r), SEPARATORS) == Some((k, "=" + value)) && ReadValue(value) == Some((f, w))
    ensures ReadField(r, s) == Some(((k, f), w))
  {
    Behind('=', value);
  }

  lemma FieldBack(r: Reader, k: string, f: Field, w: string)
    requires CleanName(k) && !f.Unsupported? && (f.Float? ==> IsFloat(f.text)) && Ends(w)
    ensures ReadField(r, Escape(k, NAMES) + "=" + Shown(f) + w) == Some(((Seen(r, k), f), w))
  {
    var value := Shown(f) + w;
    assert Escape(k, NAMES) + "=" + Shown(f) + w == Escape(k, NAMES) + ("=" + value);
    NameBack(r, k, "=" + value);
    ShownBack(f, w);
    FieldStep(r, Escape(k, NAMES) + ("=" + value), Seen(r, k), value, f, w);
  }

  function SeenField(r: Reader, p: Point, k: string): (string, Field)
    requires CleanField(p, k)
  {
    (Seen(r, k), p.fields[k])
  }

  function SeenFields(r: Reader, p: Point, ks: seq<string>): seq<(string, Field)>
    requires CleanFields(p, ks)
  {
    if ks == [] then [] else [SeenField(r, p, ks[0])] + SeenFields(r, p, ks[1..])
  }

  lemma FieldTextBack(r: Reader, p: Point, k: string, w: string)
    requires CleanField(p, k) && Ends(w)
    ensures ReadField(r, FieldText(p)(k) + w) == Some((SeenField(r, p, k), w))
  {
    FieldBack(r, k, p.fields[k], w);
  }

  lemma LastField(r: Reader, p: Point, k: string, w: string)
    requires CleanField(p, k) && (w == "" || w[0] == ' ')
    ensures ReadFields(r, FieldText(p)(k) + w) == Some(([SeenField(r, p, k)], w))
  {
    FieldTextBack(r, p, k, w);
  }

  lemma FirstField(r: Reader, p: Point, k: string, joined: string, fields: seq<(string, Field)>, w: string)
    requires CleanField(p, k) && ReadFields(r, joined + w) == Some((fields, w))
    ensures ReadFields(r, FieldText(p)(k) + ("," + joined) + w) == Some(([SeenField(r, p, k)] + fields, w))
  {
    var text := FieldText(p)(k);
    Grouped(text, "," + joined, w);
    Grouped(",", joined, w);
    FieldTextBack(r, p, k, "," + (joined + w));
    FieldsStep(r, text + ("," + (joined + w)), SeenField(r, p, k), joined + w, fields, w);
  }

  lemma FieldsStep(r: Reader, s: string, field: (string, Field), more: string, fields: seq<(string, Field)>, w: string)
    requires ReadField(r, s) == Some((field, "," + more)) && ReadFields(r, more) == Some((fields, w))
    ensures ReadFields(r, s) == Some(([field] + fields, w))
  {
    Behind(',', more);
  }

  lemma {:induction false} FieldsBack(r: Reader, p: Point, ks: seq<string>, w: string)
    requires ks != [] && CleanFields(p, ks) && (w == "" || w[0] == ' ')
    ensures ReadFields(r, Joined(FieldText(p), ks) + w) == Some((SeenFields(r, p, ks), w))
  {
    if |ks| == 1 {
      assert ks[1..] == [] && SeenFields(r, p, ks[1..]) == [];
      assert SeenFields(r, p, ks) == [SeenField(r, p, ks[0])];
      LastField(r, p, ks[0], w);
    } else {
      FieldsBack(r, p, ks[1..], w);
      FirstField(r, p, ks[0], Joined(FieldText(p), ks[1..]), SeenFields(r, p, ks[1..]), w);
    }
  }

  lemma StampBack(time: int)
    ensures Stamp(time) == "" || Stamp(time)[0] == ' '
    ensures ReadStamp(Stamp(time)) == Some(time)
  {
    if time != 0 {
      SignedRoundTrip(time);
      assert Stamp(time)[1..] == Signed(time);
    }
  }

  // ---------------------------------------------------------------- reading the whole line

  predicate Clean(p: Point) {
    && CleanName(p.measurement)
    && (forall k :: k in TagKeys(p) ==> CleanTag(p, k))
    && (forall k :: k in FieldKeys(p) ==> CleanField(p, k))
  }

  lemma {:induction false} AllClean(p: Point, ts: seq<string>, fs: seq<string>)
    requires Clean(p) && (forall k :: k in ts ==> k in TagKeys(p)) && (forall k :: k in fs ==> k in FieldKeys(p))
    ensures CleanTags(p, ts) && CleanFields(p, fs)
  {
    if ts != [] {
      assert ts[0] in ts && forall k :: k in ts[1..] ==> k in ts;
      AllClean(p, ts[1..], fs);
    } else if fs != [] {
      assert fs[0] in fs && forall k :: k in fs[1..] ==> k in fs;
      AllClean(p, ts, fs[1..]);
    }
  }

  function FieldsPart(p: Point, fs: seq<string>): string {
    if fs == [] then "" else Joined(FieldText(p), fs)
  }

  /** The line, from left to right, once its orders are known. */
  function Nested(p: Point, ts: seq<string>, fs: seq<string>): string {
    Escape(p.measurement, MEASUREMENT) + (Commas(TagText(p), ts) + (" " + (FieldsPart(p, fs) + Stamp(p.time))))
  }

  lemma MeasurementBack(r: Reader, m: string, w: string)
    requires CleanName(m) && w != [] && w[0] in MEASUREMENT
    ensures ReadLine(r, Escape(m, MEASUREMENT) + w) == ReadParts(r, m, w)
  {
    TokenBack(m, MEASUREMENT, MEASUREMENT, w);
  }

  lemma PartsBack(r: Reader, p: Point, ts: seq<string>, fs: seq<string>)
    requires CleanName(p.measurement) && CleanTags(p, ts) && CleanFields(p, fs) && fs != []
    ensures ReadLine(r, Nested(p, ts, fs)) ==
      Some(Parsed(p.measurement, SeenTags(r, p, ts), SeenFields(r, p, fs), p.time))
  {
    var fields := FieldsPart(p, fs) + Stamp(p.time);
    MeasurementBack(r, p.measurement, Commas(TagText(p), ts) + (" " + fields));
    TagsBack(r, p, ts, fields);
    StampBack(p.time);
    FieldsBack(r, p, fs, Stamp(p.time));
  }

  function Items<T>(s: seq<T>): set<T> {
    set x | x in s
  }

  /** What a reader sees of a point: measurement, time, every tag that has a value and every field of
      a supported type, once, under the names as the reader sees them. */
  ghost predicate SeenAs(r: Reader, p: Point, q: Parsed) {
    && q.measurement == p.measurement && q.time == p.time
    && Items(q.tags) == (set k | k in TagKeys(p) :: (Seen(r, k), Seen(r, p.tags[k])))
    && |q.tags| == |TagKeys(p)|
    && Items(q.fields) == (set k | k in FieldKeys(p) :: (Seen(r, k), p.fields[k]))
    && |q.fields| == |FieldKeys(p)|
  }

  lemma {:induction false} SeenTagsItems(r: Reader, p: Point, ts: seq<string>)
    requires CleanTags(p, ts)
    ensures Items(SeenTags(r, p, ts)) == (set k | k in ts && k in p.tags :: (Seen(r, k), Seen(r, p.tags[k])))
    ensures |SeenTags(r, p, ts)| == |ts|
  {
    if ts != [] {
      SeenTagsItems(r, p, ts[1..]);
      assert Items(SeenTags(r, p, ts)) == {SeenTag(r, p, ts[0])} + Items(SeenTags(r, p, ts[1..]));
      assert ts == [ts[0]] + ts[1..];
    }
  }

  lemma {:induction false} SeenFieldsItems(r: Reader, p: Point, fs: seq<string>)
    requires CleanFields(p, fs)
    ensures Items(SeenFields(r, p, fs)) == (set k | k in fs && k in p.fields :: (Seen(r, k), p.fields[k]))
    ensures |SeenFields(r, p, fs)| == |fs|
  {
    if fs != [] {
      SeenFieldsItems(r, p, fs[1..]);
      assert Items(SeenFields(r, p, fs)) == {SeenField(r, p, fs[0])} + Items(SeenFields(r, p, fs[1..]));
      assert fs == [fs[0]] + fs[1..];
    }
  }

  lemma Regrouped(m: string, t: string, f: string, w: string)
    ensures m + t + " " + f + w == m + (t + (" " + (f + w)))
  {
  }

  lemma SortedLine(p: Point, tags: seq<string>, fields: seq<string>) returns (ts: seq<string>, fs: seq<string>)
    requires Ranges(tags, TagKeys(p)) && Ranges(fields, FieldKeys(p))
    ensures multiset(ts) == multiset(TagKeys(p)) && multiset(fs) == multiset(FieldKeys(p))
    ensures forall k :: k in ts <==> k in TagKeys(p)
    ensures forall k :: k in fs <==> k in FieldKeys(p)
    ensures Line(p, tags, fields) == Nested(p, ts, fs)
  {
    ts := SortedKeys(tags, TagKeys(p), TagText(p));
    fs := SortedKeys(fields, FieldKeys(p), FieldText(p));
    PartOfTags(TagText(p), tags, ts);
    PartOfFields(p, fields, fs);
    Regrouped(Escape(p.measurement, MEASUREMENT), Commas(TagText(p), ts), FieldsPart(p, fs), Stamp(p.time));
  }

  lemma PartOfFields(p: Point, fields: seq<string>, fs: seq<string>)
    requires Map(fs, FieldText(p)) == SortStrings(Map(fields, FieldText(p)))
    ensures Join(SortStrings(Map(fields, FieldText(p))), ",") == FieldsPart(p, fs)
  {
    if fs != [] { JoinedIsJoin(FieldText(p), fs); }
  }

  lemma PartOfTags(f: string -> string, tags: seq<string>, ts: seq<string>)
    requires Map(ts, f) == SortStrings(Map(tags, f)) && |ts| == |tags|
    ensures TagsPart(Map(tags, f)) == Commas(f, ts)
  {
    if ts != [] {
      JoinedIsJoin(f, ts);
      JoinedByCommas(f, ts);
    }
  }

  lemma TagsSeen(r: Reader, p: Point, ts: seq<string>)
    requires CleanTags(p, ts) && multiset(ts) == multiset(TagKeys(p)) && forall k :: k in ts <==> k in TagKeys(p)
    ensures Items(SeenTags(r, p, ts)) == (set k | k in TagKeys(p) :: (Seen(r, k), Seen(r, p.tags[k])))
    ensures |SeenTags(r, p, ts)| == |TagKeys(p)|
  {
    SeenTagsItems(r, p, ts);
    SizeOf(ts, TagKeys(p));
  }

  lemma FieldsSeen(r: Reader, p: Point, fs: seq<string>)
    requires CleanFields(p, fs) && multiset(fs) == multiset(FieldKeys(p)) && forall k :: k in fs <==> k in FieldKeys(p)
    ensures Items(SeenFields(r, p, fs)) == (set k | k in FieldKeys(p) :: (Seen(r, k), p.fields[k]))
    ensures |SeenFields(r, p, fs)| == |FieldKeys(p)|
  {
    SeenFieldsItems(r, p, fs);
    SizeOf(fs, FieldKeys(p));
  }

  lemma CleanIsSeen(r: Reader, p: Point, tags: seq<string>, fields: seq<string>)
    requires Ranges(tags, TagKeys(p)) && Ranges(fields, FieldKeys(p)) && FieldKeys(p) != {} && Clean(p)
    ensures var q := ReadLine(r, Line(p, tags, fields)); q.Some? && SeenAs(r, p, q.value)
  {
    var ts, fs := SortedLine(p, tags, fields);
    AllClean(p, ts, fs);
    PartsBack(r, p, ts, fs);
    TagsSeen(r, p, ts);
    FieldsSeen(r, p, fs);
  }

  /** The line of a clean point of which everything is printed. */
  lemma ReadTheLine(r: Reader, p: Point) returns (q: Parsed)
    requires Clean(p) && TagKeys(p) == p.tags.Keys && FieldKeys(p) == p.fields.Keys && p.fields != map[]
    ensures ReadLine(r, TheLine(p)) == Some(q) && q.time == p.time
    ensures Items(q.tags) == set k | k in p.tags :: (Seen(r, k), Seen(r, p.tags[k]))
    ensures Items(q.fields) == set k | k in p.fields :: (Seen(r, k), p.fields[k])
  {
    CleanIsSeen(r, p, AnOrder(TagKeys(p)), AnOrder(FieldKeys(p)));
    q := ReadLine(r, TheLine(p)).value;
  }

  lemma SizeOf(ks: seq<string>, keys: set<string>)
    requires multiset(ks) == multiset(keys)
    ensures |ks| == |keys|
  {
    assert |multiset(ks)| == |multiset(keys)|;
  }

  // ---------------------------------------------------------------- only clean points are recovered

  lemma {:induction false} TokenEnds(s: string, special: set<char>, stops: set<char>)
    requires stops <= special && '\\' !in special && ReadToken(s, special, stops).Some?
    ensures var t := ReadToken(s, special, stops).value.0; t != [] ==> t[|t| - 1] != '\\'
    decreases |s|
  {
    if s[0] == '\\' && |s| >= 2 && s[1] in special {
      TokenEnds(s[2..], special, stops);
    } else if s[0] !in stops {
      TokenEnds(s[1..], special, stops);
    }
  }

  lemma NamesAreClean(s: string, special: set<char>, stops: set<char>)
    requires stops <= special && '\\' !in special && ReadName(s, special, stops).Some?
    ensures CleanName(ReadName(s, special, stops).value.0)
  {
    TokenEnds(s, special, stops);
  }

  lemma {:induction false} TagsAreClean(r: Reader, s: string, t: (string, string))
    requires ReadTags(r, s).Some? && t in ReadTags(r, s).value.0
    ensures CleanName(t.0) && CleanName(t.1)
    decreases |s|
  {
    var key := ReadName(s[1..], Undone(r), SEPARATORS);
    NamesAreClean(s[1..], Undone(r), SEPARATORS);
    NamesAreClean(key.value.1[1..], Undone(r), SEPARATORS);
    var tag := ReadTag(r, s[1..]).value;
    if t != tag.0 { TagsAreClean(r, tag.1, t); }
  }

  lemma ReadFloats(s: string)
    requires ReadValue(s).Some?
    ensures var f := ReadValue(s).value.0; !f.Unsupported? && (f.Float? ==> IsFloat(f.text))
  {
  }

  lemma {:induction false} FieldsAreClean(r: Reader, s: string, f: (string, Field))
    requires ReadFields(r, s).Some? && f in ReadFields(r, s).value.0
    ensures CleanName(f.0) && (f.1.Float? ==> IsFloat(f.1.text))
    decreases |s|
  {
    var field := ReadField(r, s).value;
    if f == field.0 {
      NamesAreClean(s, Undone(r), SEPARATORS);
      ReadFloats(ReadName(s, Undone(r), SEPARATORS).value.1[1..]);
    } else {
      FieldsAreClean(r, field.1[1..], f);
    }
  }

  /** The point itself: measurement, time, every tag that has a value and every field of a supported
      type, once. */
  ghost predicate Exactly(p: Point, q: Parsed) {
    && q.measurement == p.measurement && q.time == p.time
    && Items(q.tags) == TagPairs(p) && |q.tags| == |TagKeys(p)|
    && Items(q.fields) == FieldPairs(p) && |q.fields| == |FieldKeys(p)|
  }

  function TagPairs(p: Point): set<(string, string)> {
    set k | k in TagKeys(p) :: (k, p.tags[k])
  }

  function FieldPairs(p: Point): set<(string, Field)> {
    set k | k in FieldKeys(p) :: (k, p.fields[k])
  }

  ghost predicate Recovered(r: Reader, p: Point, text: string) {
    ReadLine(r, text).Some? && Exactly(p, ReadLine(r, text).value)
  }

  lemma LineTagsAreClean(r: Reader, text: string, t: (string, string))
    requires ReadLine(r, text).Some? && t in ReadLine(r, text).value.tags
    ensures CleanName(t.0) && CleanName(t.1)
  {
    TagsAreClean(r, ReadName(text, MEASUREMENT, MEASUREMENT).value.1, t);
  }

  lemma OnlyCleanIsRecovered(r: Reader, p: Point, text: string)
    requires Recovered(r, p, text)
    ensures Clean(p)
  {
    var q := ReadLine(r, text).value;
    NamesAreClean(text, MEASUREMENT, MEASUREMENT);
    var s := ReadName(text, MEASUREMENT, MEASUREMENT).value.1;
    forall k | k in TagKeys(p) ensures CleanTag(p, k) {
      assert (k, p.tags[k]) in Items(q.tags);
      LineTagsAreClean(r, text, (k, p.tags[k]));
    }
    forall k | k in FieldKeys(p) ensures CleanField(p, k) {
      assert (k, p.fields[k]) in Items(q.fields);
      FieldsAreClean(r, ReadTags(r, s).value.1, (k, p.fields[k]));
    }
  }

  // ---------------------------------------------------------------- double quotes

  /** InfluxDB's own rules leave the backslash before a double quote in names. */
  lemma {:induction false} QuotesStayEscaped(s: string)
    ensures Seen(Reference, s) == s <==> '"' !in s
    ensures |Seen(Reference, s)| >= |s| && ('"' in s ==> '"' in Seen(Reference, s) && |Seen(Reference, s)| > |s|)
  {
    if s != [] {
      QuotesStayEscaped(s[1..]);
      assert s == [s[0]] + s[1..];
    }
  }

  /** Different names are seen differently. */
  lemma {:induction false} SeenInjective(s: string, t: string)
    requires Seen(Reference, s) == Seen(Reference, t)
    ensures s == t
  {
    NoQuoteFirst(s);
    NoQuoteFirst(t);
    if s != [] && t != [] {
      NoQuoteFirst(s[1..]);
      NoQuoteFirst(t[1..]);
      var a, b := Seen(Reference, s), Seen(Reference, t);
      var x, y := Seen(Reference, s[1..]), Seen(Reference, t[1..]);
      assert a[|a| - |x|..] == x && b[|b| - |y|..] == y;
      SeenInjective(s[1..], t[1..]);
      assert s == [s[0]] + s[1..] && t == [t[0]] + t[1..];
    }
  }

  lemma NoQuoteFirst(s: string)
    ensures var a := Seen(Reference, s); (a == [] <==> s == []) && (a != [] ==> a[0] != '"')
  {
  }

  /** No tag key, tag value or field key with a double quote. */
  ghost predicate Unquoted(p: Point) {
    && (forall t :: t in TagPairs(p) ==> !QuotedTag(t))
    && (forall f :: f in FieldPairs(p) ==> !QuotedField(f))
  }

  predicate QuotedTag(t: (string, string)) {
    '"' in t.0 || '"' in t.1
  }

  predicate QuotedField(f: (string, Field)) {
    '"' in f.0
  }

  /** A largest element among those with a property. */
  lemma {:induction false} Largest<T>(s: set<T>, size: T -> nat, has: T -> bool) returns (x: T)
    requires exists y :: y in s && has(y)
    ensures x in s && has(x) && forall y :: y in s && has(y) ==> size(y) <= size(x)
  {
    x :| x in s && has(x);
    var rest := s - {x};
    if exists y :: y in rest && has(y) {
      var z := Largest(rest, size, has);
      if size(z) > size(x) { x := z; }
    }
  }

  /** In a finite set nothing has a larger image with the same property in the set. */
  lemma NoneGrows<T>(s: set<T>, size: T -> nat, has: T -> bool, image: T -> T)
    requires forall y :: y in s && has(y) ==> image(y) in s && has(image(y)) && size(image(y)) > size(y)
    ensures forall y :: y in s ==> !has(y)
  {
    if exists y :: y in s && has(y) {
      var x := Largest(s, size, has);
      var larger := image(x);
    }
  }

  /** Names that grow when they are read cannot all come back: the longest of them is missing. */
  lemma QuotedTagsChange(p: Point)
    requires (set k | k in TagKeys(p) :: (Seen(Reference, k), Seen(Reference, p.tags[k]))) == TagPairs(p)
    ensures forall t :: t in TagPairs(p) ==> !QuotedTag(t)
  {
    var size := (t: (string, string)) => |t.0| + |t.1|;
    var image := (t: (string, string)) => (Seen(Reference, t.0), Seen(Reference, t.1));
    forall t | t in TagPairs(p) && QuotedTag(t)
      ensures image(t) in TagPairs(p) && QuotedTag(image(t)) && size(image(t)) > size(t)
    {
      QuotesStayEscaped(t.0);
      QuotesStayEscaped(t.1);
    }
    NoneGrows(TagPairs(p), size, QuotedTag, image);
  }

  lemma QuotedFieldsChange(p: Point)
    requires (set k | k in FieldKeys(p) :: (Seen(Reference, k), p.fields[k])) == FieldPairs(p)
    ensures forall f :: f in FieldPairs(p) ==> !QuotedField(f)
  {
    var size := (f: (string, Field)) => |f.0|;
    var image := (f: (string, Field)) => (Seen(Reference, f.0), f.1);
    forall f | f in FieldPairs(p) && QuotedField(f)
      ensures image(f) in FieldPairs(p) && QuotedField(image(f)) && size(image(f)) > size(f)
    {
      QuotesStayEscaped(f.0);
    }
    NoneGrows(FieldPairs(p), size, QuotedField, image);
  }

  lemma UnquotedUnchanged(p: Point)
    requires Unquoted(p)
    ensures (set k | k in TagKeys(p) :: (Seen(Reference, k), Seen(Reference, p.tags[k]))) == TagPairs(p)
    ensures (set k | k in FieldKeys(p) :: (Seen(Reference, k), p.fields[k])) == FieldPairs(p)
  {
    forall k | k in TagKeys(p) ensures Seen(Reference, k) == k && Seen(Reference, p.tags[k]) == p.tags[k] {
      assert (k, p.tags[k]) in TagPairs(p);
      QuotesStayEscaped(k);
      QuotesStayEscaped(p.tags[k]);
    }
    forall k | k in FieldKeys(p) ensures Seen(Reference, k) == k {
      assert (k, p.fields[k]) in FieldPairs(p);
      QuotesStayEscaped(k);
    }
  }

  lemma SeenExactlyIff(r: Reader, p: Point, q: Parsed)
    requires SeenAs(r, p, q)
    ensures Exactly(p, q) <==> (r.Reference? ==> Unquoted(p))
  {
    if r.UndoesQuotes? {
      assert (set k | k in TagKeys(p) :: (Seen(r, k), Seen(r, p.tags[k]))) == TagPairs(p);
      assert (set k | k in FieldKeys(p) :: (Seen(r, k), p.fields[k])) == FieldPairs(p);
    } else if Unquoted(p) {
      UnquotedUnchanged(p);
    } else if Exactly(p, q) {
      QuotedTagsChange(p);
      QuotedFieldsChange(p);
    }
  }

  /** A line with at least one field gives its point back exactly when every name is there, on one
      line and without a backslash at its end; and, under InfluxDB's own rules, when no tag key, tag
      value or field key holds a double quote. */
  lemma RecoveredIffClean(r: Reader, p: Point, tags: seq<string>, fields: seq<string>)
    requires Ranges(tags, TagKeys(p)) && Ranges(fields, FieldKeys(p)) && FieldKeys(p) != {}
    ensures Recovered(r, p, Line(p, tags, fields)) <==> Clean(p) && (r.Reference? ==> Unquoted(p))
  {
    var text := Line(p, tags, fields);
    if Recovered(r, p, text) { OnlyCleanIsRecovered(r, p, text); }
    if Clean(p) {
      CleanIsSeen(r, p, tags, fields);
      SeenExactlyIff(r, p, ReadLine(r, text).value);
    }
  }

  lemma NoFields(r: Reader, p: Point, ts: seq<string>)
    requires CleanName(p.measurement) && CleanTags(p, ts)
    ensures ReadLine(r, Nested(p, ts, [])).None?
  {
    assert "" + Stamp(p.time) == Stamp(p.time);
    MeasurementBack(r, p.measurement, Commas(TagText(p), ts) + (" " + Stamp(p.time)));
    TagsBack(r, p, ts, Stamp(p.time));
    NoName(r, Stamp(p.time));
  }

  /** A timestamp has no name. */
  lemma NoName(r: Reader, s: string)
    requires s == "" || s[0] == ' '
    ensures ReadFields(r, s).None?
  {
  }

  /** Fields of unsupported types only: a line is printed without an error, and cannot be read. */
  lemma NothingToRead(r: Reader, p: Point, tags: seq<string>, fields: seq<string>)
    requires Ranges(tags, TagKeys(p)) && Ranges(fields, FieldKeys(p)) && FieldKeys(p) == {} && Clean(p)
    ensures ReadLine(r, Line(p, tags, fields)).None?
  {
    var ts, fs := SortedLine(p, tags, fields);
    SizeOf(fs, FieldKeys(p));
    AllClean(p, ts, fs);
    NoFields(r, p, ts);
  }
}
