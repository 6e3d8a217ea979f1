/** What the text of a where filter means: the expressions of TICKscript that kapacitor/vars.go prints,
    with the lexical rules and the precedence of the vendored parser
    (vendor/github.com/influxdata/kapacitor/tick/ast/lex.go and parser.go). */
module LambdaText {
  import opened Options
  import opened Text
  import opened TagLogic
  import opened WhereFilters
  import TagMeaning

  datatype Cond = True | Compare(tag: string, op: string, value: string) | And(l: Cond, r: Cond) | Or(l: Cond, r: Cond)

  predicate Holds(c: Cond, p: TagMeaning.Point) {
    match c
    case True => true
    case Compare(tag, op, value) => if op == "==" then p(tag) == value else p(tag) != value
    case And(l, r) => Holds(l, p) && Holds(r, p)
    case Or(l, r) => Holds(l, p) || Holds(r, p)
  }

  // ---------------------------------------------------------------- the parser

  /** Up to the quote; a backslash before a quote is left out and the quote kept. */
  function ReadQuoted(s: string, quote: char): (r: Option<(string, string)>)
    ensures r.Some? ==> |r.value.1| < |s|
    decreases |s|
  {
    if s == [] then None
    else if s[0] == '\\' && |s| >= 2 && s[1] == quote then
      var r := ReadQuoted(s[2..], quote);
      if r.Some? then Some(([quote] + r.value.0, r.value.1)) else None
    else if s[0] == quote then Some(([], s[1..]))
    else
      var r := ReadQuoted(s[1..], quote);
      if r.Some? then Some(([s[0]] + r.value.0, r.value.1)) else None
  }

  predicate Begins(s: string, word: string) {
    |word| <= |s| && s[..|word|] == word
  }

  /** What follows a word, after the spaces before it. */
  function AfterWord(s: string, word: string): (r: Option<string>)
    ensures r.Some? && word != [] ==> |r.value| < |s|
  {
    var t := Unspaced(s);
    if Begins(t, word) then Some(t[|word|..]) else None
  }

  /** An operator and a text, behind the name of a tag; texts in triple quotes are not read. */
  function ReadComparison(tag: string, s: string): (r: Option<(Cond, string)>)
    ensures r.Some? ==> |r.value.1| < |s|
  {
    var equal, unequal := AfterWord(s, "=="), AfterWord(s, "!=");
    if equal.None? && unequal.None? then None else
    var text := AfterWord(if equal.Some? then equal.value else unequal.value, "'");
    if text.None? || Begins(text.value, "''") then None else
    var value := ReadQuoted(text.value, '\'');
    if value.None? then None
    else Some((Compare(tag, if equal.Some? then "==" else "!=", value.value.0), value.value.1))
  }

  function ReadPrimary(s: string): (r: Option<(Cond, string)>)
    ensures r.Some? ==> |r.value.1| < |s|
    decreases |s|, 0
  {
    if AfterWord(s, "(").Some? then
      var inner := ReadOr(AfterWord(s, "(").value);
      if inner.None? then None else
      var rest := AfterWord(inner.value.1, ")");
      if rest.None? then None else Some((inner.value.0, rest.value))
    else if AfterWord(s, "TRUE").Some? then Some((True, AfterWord(s, "TRUE").value))
    else if AfterWord(s, "\"").Some? then
      var tag := ReadQuoted(AfterWord(s, "\"").value, '"');
      if tag.None? then None else ReadComparison(tag.value.0, tag.value.1)
    else None
  }

  /** AND binds more tightly than OR. */
  function ReadAnd(s: string): (r: Option<(Cond, string)>)
    ensures r.Some? ==> |r.value.1| < |s|
    decreases |s|, 1
  {
    var first := ReadPrimary(s);
    if first.None? || AfterWord(first.value.1, "AND").None? then first else
    var more := ReadAnd(AfterWord(first.value.1, "AND").value);
    if more.None? then None else Some((And(first.value.0, more.value.0), more.value.1))
  }

  function ReadOr(s: string): (r: Option<(Cond, string)>)
    ensures r.Some? ==> |r.value.1| < |s|
    decreases |s|, 2
  {
    var first := ReadAnd(s);
    if first.None? || AfterWord(first.value.1, "OR").None? then first else
    var more := ReadOr(AfterWord(first.value.1, "OR").value);
    if more.None? then None else Some((Or(first.value.0, more.value.0), more.value.1))
  }

  /** `lambda:` and an expression that takes the whole text. */
  function ReadLambda(s: string): Option<Cond> {
    var body := AfterWord(s, "lambda:");
    if body.None? then None else
    var c := ReadOr(body.value);
    if c.Some? && Unspaced(c.value.1) == "" then Some(c.value.0) else None
  }

  // ---------------------------------------------------------------- reading what is printed

  /** A name without its quote, and without a backslash before the closing one. */
  predicate PlainName(s: string, quote: char) {
    quote !in s && (s != [] ==> s[|s| - 1] != '\\')
  }

  lemma {:induction false} QuotedBack(s: string, quote: char, w: string)
    requires PlainName(s, quote) && quote != '\\'
    ensures ReadQuoted(s + [quote] + w, quote) == Some((s, w))
  {
    var t := s + [quote] + w;
    if s == [] {
      assert t == [quote] + w && t[1..] == w;
    } else {
      assert t[1..] == s[1..] + [quote] + w && s[0] in s && t[0] == s[0];
      assert |s| >= 2 ==> t[1] == s[1] && s[1] in s;
      QuotedBack(s[1..], quote, w);
      assert [s[0]] + s[1..] == s;
    }
  }

  /** A word behind no space or one. */
  lemma WordBack(word: string, w: string)
    requires word != [] && !IsSpace(word[0])
    ensures AfterWord(word + w, word) == Some(w) && AfterWord([' '] + (word + w), word) == Some(w)
  {
    var t := word + w;
    assert t[0] == word[0] && Unspaced(t) == t && ([' '] + t)[1..] == t;
    assert Unspaced([' '] + t) == Unspaced(t);
    assert t[..|word|] == word && t[|word|..] == w;
  }

  /** Another word is not there. */
  lemma OtherWord(s: string, word: string)
    requires word != [] && (s == [] || (!IsSpace(s[0]) && s[0] != word[0]))
    ensures AfterWord(s, word) == None && AfterWord([' '] + s, word) == None
  {
    assert ([' '] + s)[1..] == s && Unspaced(s) == s;
    assert Unspaced([' '] + s) == Unspaced(s);
    assert |word| <= |s| ==> s[..|word|][0] == s[0];
  }

  lemma Nested(a: string, b: string, c: string)
    ensures a + b + c == a + (b + c)
  {
  }

  lemma ComparisonBack(tag: string, op: string, v: string, w: string)
    requires op in ["==", "!="] && PlainName(v, '\'') && !Begins(w, "'")
    ensures ReadComparison(tag, " " + (op + (" " + ("'" + (v + "'" + w))))) == Some((Compare(tag, op, v), w))
  {
    var text := v + "'" + w;
    var behind := " " + ("'" + text);
    WordBack(op, behind);
    WordBack("'", text);
    if op == "!=" { OtherWord(op + behind, "=="); } else { OtherWord(op + behind, "!="); }
    QuotedBack(v, '\'', w);
    assert v + "'" + w == v + ['\''] + w;
    NotTriple(v, w);
  }

  lemma NotTriple(v: string, w: string)
    requires PlainName(v, '\'') && !Begins(w, "'")
    ensures !Begins(v + "'" + w, "''")
  {
    var text := v + "'" + w;
    if v == [] {
      assert text == "'" + w;
      assert w != [] ==> w[0] != '\'' by { assert w != [] ==> w[..1] == [w[0]]; }
      assert |text| >= 2 ==> text[..2][1] == w[0];
    } else {
      assert v[0] in v && text[0] == v[0];
      assert |text| >= 2 ==> text[..2][0] == v[0];
    }
  }

  lemma ItemText(tag: string, op: string, v: string, w: string)
    ensures Item(tag, op, v) + w == "\"" + (tag + "\"" + (" " + (op + (" " + ("'" + (v + "'" + w))))))
  {
    var text := v + "'" + w;
    assert Item(tag, op, v) + w == "\"" + tag + "\" " + op + " '" + v + "'" + w;
    assert "\" " == "\"" + " " && " '" == " " + "'";
  }

  lemma ItemBack(tag: string, op: string, v: string, w: string)
    requires op in ["==", "!="] && PlainName(tag, '"') && PlainName(v, '\'') && !Begins(w, "'")
    ensures ReadPrimary(Item(tag, op, v) + w) == Some((Compare(tag, op, v), w))
  {
    var behind := " " + (op + (" " + ("'" + (v + "'" + w))));
    var named := tag + "\"" + behind;
    ItemText(tag, op, v, w);
    OtherWord("\"" + named, "(");
    OtherWord("\"" + named, "TRUE");
    WordBack("\"", named);
    QuotedBack(tag, '"', behind);
    assert tag + "\"" + behind == tag + ['"'] + behind;
    ComparisonBack(tag, op, v, w);
  }

  // ---------------------------------------------------------------- one group

  predicate PlainGroup(tag: string, values: seq<string>) {
    PlainName(tag, '"') && forall v :: v in values ==> PlainName(v, '\'')
  }

  /** The comparisons of one tag, joined by OR. */
  function Any(tag: string, op: string, values: seq<string>): Cond
    requires values != []
  {
    if |values| == 1 then Compare(tag, op, values[0]) else Or(Compare(tag, op, values[0]), Any(tag, op, values[1..]))
  }

  lemma {:induction false} AnyHolds(tag: string, op: string, values: seq<string>, p: TagMeaning.Point)
    requires values != []
    ensures Holds(Any(tag, op, values), p) <==> TagMeaning.ReadsTag(values, op, tag, p)
  {
    var f := TagFilter(op, tag, values[0]);
    assert values == [values[0]] + values[1..];
    if |values| > 1 { AnyHolds(tag, op, values[1..], p); }
    if TagMeaning.Holds(f, p) {
      assert values[0] in values && TagMeaning.ReadsTag(values, op, tag, p);
    } else if TagMeaning.ReadsTag(values, op, tag, p) {
      var v :| v in values && TagMeaning.Holds(TagFilter(op, tag, v), p);
      assert v in values[1..];
    }
    if |values| > 1 && TagMeaning.ReadsTag(values[1..], op, tag, p) {
      var v :| v in values[1..] && TagMeaning.Holds(TagFilter(op, tag, v), p);
      assert v in values;
    }
  }

  /** What may stand behind a comparison in a group. */
  predicate Closes(w: string) {
    w != [] && w[0] == ')'
  }

  lemma ClosedWord(w: string, word: string)
    requires Closes(w) && word != [] && word[0] != ')'
    ensures AfterWord(w, word).None? && !Begins(w, "'")
  {
    OtherWord(w, word);
    assert w[..1][0] == w[0];
  }

  lemma OrText(text: string, more: string, w: string)
    ensures text + " OR " + more + w == text + (" " + ("OR" + (" " + (more + w))))
  {
    assert " OR " == " " + "OR" + " ";
  }

  lemma LeadingSpace(s: string)
    ensures Unspaced(" " + s) == Unspaced(s)
    ensures ReadPrimary(" " + s) == ReadPrimary(s) && ReadAnd(" " + s) == ReadAnd(s) && ReadOr(" " + s) == ReadOr(s)
  {
    assert (" " + s)[1..] == s;
  }

  /** A condition and OR before another. */
  lemma OrBack(s: string, c: Cond, more: string, d: Cond, w: string)
    requires ReadPrimary(s) == Some((c, " " + ("OR" + (" " + more)))) && ReadOr(more) == Some((d, w))
    ensures ReadOr(s) == Some((Or(c, d), w))
  {
    var behind := "OR" + (" " + more);
    OtherWord(behind, "AND");
    WordBack("OR", " " + more);
    LeadingSpace(more);
  }

  lemma {:induction false} InnerBack(tag: string, op: string, values: seq<string>, w: string)
    requires values != [] && PlainGroup(tag, values) && op in ["==", "!="] && Closes(w)
    ensures ReadOr(Join(Inner(tag, op, values), " OR ") + w) == Some((Any(tag, op, values), w))
  {
    assert values[0] in values;
    if |values| == 1 {
      assert Inner(tag, op, values) == [Item(tag, op, values[0])];
      ClosedWord(w, "AND");
      ClosedWord(w, "OR");
      ItemBack(tag, op, values[0], w);
    } else {
      var more := Join(Inner(tag, op, values[1..]), " OR ");
      var behind := " " + ("OR" + (" " + (more + w)));
      InnerBack(tag, op, values[1..], w);
      assert Inner(tag, op, values)[1..] == Inner(tag, op, values[1..]);
      OrText(Item(tag, op, values[0]), more, w);
      ItemBack(tag, op, values[0], behind);
      OrBack(Item(tag, op, values[0]) + behind, Compare(tag, op, values[0]), more + w, Any(tag, op, values[1..]), w);
    }
  }

  lemma GroupBack(q: QueryConfig, tag: string, w: string)
    requires tag in q.tags && q.tags[tag] != [] && PlainGroup(tag, q.tags[tag])
    ensures ReadPrimary(Group(q)(tag) + w) == Some((Any(tag, Operator(q.areTagsAccepted), q.tags[tag]), w))
  {
    var inner := Join(Inner(tag, Operator(q.areTagsAccepted), q.tags[tag]), " OR ");
    assert Group(q)(tag) + w == "(" + (inner + (")" + w));
    WordBack("(", inner + (")" + w));
    InnerBack(tag, Operator(q.areTagsAccepted), q.tags[tag], ")" + w);
    WordBack(")", w);
  }

  /** A tag without a value leaves a pair of parentheses that holds no condition. */
  lemma EmptyGroupUnread(q: QueryConfig, tag: string, w: string)
    requires tag in q.tags && q.tags[tag] == []
    ensures ReadPrimary(Group(q)(tag) + w).None?
  {
    var rest := ")" + w;
    assert Join(Inner(tag, Operator(q.areTagsAccepted), q.tags[tag]), " OR ") == "";
    assert Group(q)(tag) == "(" + ")";
    assert Group(q)(tag) + w == "(" + rest;
    WordBack("(", rest);
    OtherWord(rest, "(");
    OtherWord(rest, "TRUE");
    OtherWord(rest, "\"");
    assert ReadPrimary(rest).None? && ReadAnd(rest).None? && ReadOr(rest).None?;
  }

  // ---------------------------------------------------------------- all groups

  /** The groups, joined by AND. */
  function All(q: QueryConfig, order: seq<string>): Cond
    requires order != [] && forall t :: t in order ==> t in q.tags && q.tags[t] != []
  {
    var c := Any(order[0], Operator(q.areTagsAccepted), q.tags[order[0]]);
    if |order| == 1 then c else And(c, All(q, order[1..]))
  }

  predicate Plain(q: QueryConfig) {
    forall t :: t in q.tags ==> PlainGroup(t, q.tags[t])
  }

  lemma {:induction false} AllHolds(q: QueryConfig, order: seq<string>, p: TagMeaning.Point)
    requires order != [] && forall t :: t in order ==> t in q.tags && q.tags[t] != []
    ensures Holds(All(q, order), p) <==>
      forall t :: t in order ==> TagMeaning.ReadsTag(q.tags[t], Operator(q.areTagsAccepted), t, p)
  {
    AnyHolds(order[0], Operator(q.areTagsAccepted), q.tags[order[0]], p);
    assert order == [order[0]] + order[1..];
    if |order| > 1 { AllHolds(q, order[1..], p); }
  }

  lemma AndText(text: string, more: string)
    ensures text + (" AND " + more) == text + (" " + ("AND" + (" " + more)))
  {
    assert " AND " == " " + "AND" + " ";
  }

  lemma AndBack(s: string, c: Cond, more: string, d: Option<(Cond, string)>)
    requires ReadPrimary(s) == Some((c, " " + ("AND" + (" " + more)))) && ReadAnd(more) == d
    ensures ReadAnd(s) == if d.Some? then Some((And(c, d.value.0), d.value.1)) else None
  {
    WordBack("AND", " " + more);
    LeadingSpace(more);
  }

  lemma {:induction false} GroupsBack(q: QueryConfig, order: seq<string>)
    requires Plain(q) && order != [] && forall t :: t in order ==> t in q.tags
    ensures ReadAnd(Join(Map(order, Group(q)), " AND ")) ==
      if exists t :: t in order && q.tags[t] == [] then None else Some((All(q, order), ""))
  {
    var t, group := order[0], Group(q)(order[0]);
    assert t in order;
    if |order| == 1 {
      assert order == [t] && Map(order, Group(q)) == [group] && group + "" == group;
      if q.tags[t] == [] { EmptyGroupUnread(q, t, ""); } else { GroupBack(q, t, ""); }
      OtherWord("", "AND");
    } else {
      var more := Join(Map(order[1..], Group(q)), " AND ");
      MoreGroups(q, order);
      AndText(group, more);
      assert order == [t] + order[1..];
      GroupsBack(q, order[1..]);
      if q.tags[t] == [] {
        EmptyGroupUnread(q, t, " " + ("AND" + (" " + more)));
      } else {
        var behind := " " + ("AND" + (" " + more));
        GroupBack(q, t, behind);
        AndBack(group + behind, Any(t, Operator(q.areTagsAccepted), q.tags[t]), more, ReadAnd(more));
      }
    }
  }

  lemma LambdaPrefix(text: string)
    ensures AfterWord("lambda: " + text, "lambda:") == Some(" " + text)
  {
    assert "lambda: " + text == "lambda:" + (" " + text);
    WordBack("lambda:", " " + text);
  }

  lemma ReadsWhole(text: string, c: Option<Cond>)
    requires ReadAnd(text) == (if c.Some? then Some((c.value, "")) else None)
    ensures ReadLambda("lambda: " + text) == c
  {
    LambdaPrefix(text);
    LeadingSpace(text);
    OtherWord("", "OR");
  }

  /** The text is a condition exactly when every tag has a value, and then the condition holds of a point
      exactly when the tags do. */
  lemma MeaningOfText(q: QueryConfig, order: seq<string>)
    requires Plain(q) && Ranges(order, q.tags.Keys)
    ensures var c := ReadLambda("lambda: " + Lambda(q, order));
      && (c.Some? <==> forall t :: t in q.tags ==> q.tags[t] != [])
      && (c.Some? ==> forall p: TagMeaning.Point ::
            Holds(c.value, p) <==> TagMeaning.Reads(q.tags, if q.areTagsAccepted then "==" else "!=", p))
  {
    var sorted := SortedOrder(q, order);
    if order == [] {
      assert Lambda(q, order) == "TRUE" && "lambda: " + "TRUE" == "lambda: TRUE";
      TrueBack();
    } else {
      GroupsBack(q, sorted);
      var wanted := if exists t :: t in sorted && q.tags[t] == [] then None else Some(All(q, sorted));
      ReadsWhole(Lambda(q, order), wanted);
      if wanted.Some? {
        forall p: TagMeaning.Point
          ensures Holds(wanted.value, p) <==> TagMeaning.Reads(q.tags, Operator(q.areTagsAccepted), p)
        {
          AllHolds(q, sorted, p);
        }
      }
    }
  }

  lemma TrueBack()
    ensures ReadLambda("lambda: TRUE") == Some(True)
  {
    assert "TRUE" + "" == "TRUE";
    WordBack("TRUE", "");
    OtherWord("TRUE", "(");
    OtherWord("", "AND");
    ReadsWhole("TRUE", Some(True));
  }
}
