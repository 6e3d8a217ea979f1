/** Conditions of InfluxQL queries (influx/query.go): what the reduction passes on, which
    ones `isTagLogic` accepts and what `Convert` collects from them. */
module TagLogic {

  import opened Options

  datatype Op = AND | OR | EQ | NEQ | LT | LTE | GT | GTE | SUB | OtherOp

  /** The expression forms the analysis and the reduction tell apart; `OtherExpr` is every other. */
  datatype Expr =
    | Paren(inner: Expr)
    | Binary(op: Op, lhs: Expr, rhs: Expr)
    | VarRef(val: string)
    | StringLiteral(text: string)
    | DurationLiteral(dur: int)
    | BooleanLiteral(truth: bool)
    | Call(name: string, args: seq<Expr>)
    | OtherExpr

  datatype TagFilter = TagFilter(op: string, tag: string, value: string)

  /** `Panics`: the code dereferences a nil node. */
  datatype FilterResult = NotFilter | Filter(tf: TagFilter) | FilterPanics

  datatype Logic = Rejected | Accepted(filters: seq<TagFilter>) | Panics

  // ---------------------------------------------------------------- the code

  function LowerChar(c: char): char {
    if 'A' <= c <= 'Z' then (c as int + 32) as char else if c == '\U{0130}' then 'i' else c
  }

  function Lower(s: string): string {
    seq(|s|, i requires 0 <= i < |s| => LowerChar(s[i]))
  }

  predicate IsTime(e: Expr) {
    match e case Paren(i) => IsTime(i) case VarRef(v) => Lower(v) == "time" case _ => false
  }

  predicate IsNow(e: Expr) {
    match e case Paren(i) => IsNow(i) case Call(n, args) => Lower(n) == "now" && |args| == 0 case _ => false
  }

  predicate IsDuration(e: Expr) {
    match e case Paren(i) => IsDuration(i) case DurationLiteral(_) => true case _ => false
  }

  predicate IsPreviousTime(e: Expr) {
    match e
    case Paren(i) => IsPreviousTime(i)
    case Binary(op, l, r) => (IsNow(l) || IsNow(r)) && op == SUB && (IsDuration(l) || IsDuration(r))
    case _ => IsNow(e)
  }

  predicate IsTimeRange(e: Expr) {
    match e
    case Paren(i) => IsTimeRange(i)
    case Binary(op, l, r) =>
      && (IsTime(l) || IsTime(r))
      && (op == LT || op == LTE || op == GT || op == GTE)
      && (IsPreviousTime(l) || IsPreviousTime(r))
    case _ => false
  }

  predicate IsVarRef(e: Expr) {
    match e case Paren(i) => IsVarRef(i) case VarRef(_) => true case _ => false
  }

  predicate IsString(e: Expr) {
    match e case Paren(i) => IsString(i) case StringLiteral(_) => true case _ => false
  }

  function IsTagFilter(e: Expr): FilterResult {
    match e
    case Paren(i) => IsTagFilter(i)
    case Binary(op, l, r) =>
      if op != EQ && op != NEQ then NotFilter
      else if !((IsString(l) || IsString(r)) && (IsVarRef(l) || IsVarRef(r))) then NotFilter
      else
        var (t, v) := if IsVarRef(l) then (l, r) else (r, l);
        if !t.VarRef? || !v.StringLiteral? then FilterPanics
        else Filter(TagFilter(if op == EQ then "==" else "!=", t.val, v.text))
    case _ => NotFilter
  }

  function Ops(fs: seq<TagFilter>): set<string> {
    set f | f in fs :: f.op
  }

  function IsTagLogic(e: Expr): Logic
    decreases e, 1
  {
    var tf := IsTagFilter(e);
    if e.Paren? then IsTagLogic(e.inner)
    else if IsTimeRange(e) then Accepted([])
    else if tf.FilterPanics? then Panics
    else if tf.Filter? then Accepted([tf.tf])
    else if e.Binary? then Connective(e)
    else Rejected
  }

  /** What isTagLogic does with a binary expression that is not a leaf. */
  function Connective(e: Expr): Logic
    requires e.Binary?
    decreases e, 0
  {
    var lhs, rhs := IsTagFilter(e.lhs), IsTagFilter(e.rhs);
    if lhs.FilterPanics? || rhs.FilterPanics? then Panics
    else if lhs.Filter? && rhs.Filter? && lhs.tf.tag == rhs.tf.tag && lhs.tf.op == rhs.tf.op && e.op == OR then
      Accepted([lhs.tf, rhs.tf])
    else if e.op != AND && e.op != OR then Rejected
    else if (IsTimeRange(e.lhs) || IsTimeRange(e.rhs)) && (lhs.Filter? || rhs.Filter?) then
      Accepted([if lhs.Filter? then lhs.tf else rhs.tf])
    else Joined(IsTagLogic(e.lhs), IsTagLogic(e.rhs))
  }

  /** Both sides have to be tag logic, under one operator. */
  function Joined(a: Logic, b: Logic): Logic {
    if a.Panics? || b.Panics? then Panics
    else if a.Rejected? || b.Rejected? then Rejected
    else if |Ops(a.filters) + Ops(b.filters)| > 1 then Rejected
    else Accepted(a.filters + b.filters)
  }

  // ---------------------------------------------------------------- what Convert passes on

  type Literal = e: Expr | !e.Paren? && !e.Binary? witness OtherExpr

  /** What an operator gives for two operands of which the left one is a literal, if anything. */
  type Evaluator = (Op, Expr, Expr) -> Option<Literal>

  function ReducedBinary(op: Op, l: Expr, r: Expr, evaluate: Evaluator): Expr {
    if op == AND && (l == BooleanLiteral(false) || r == BooleanLiteral(false)) then BooleanLiteral(false)
    else if op == AND && l == BooleanLiteral(true) then r
    else if op == AND && r == BooleanLiteral(true) then l
    else if op == OR && (l == BooleanLiteral(true) || r == BooleanLiteral(true)) then BooleanLiteral(true)
    else if op == OR && l == BooleanLiteral(false) then r
    else if op == OR && r == BooleanLiteral(false) then l
    else if l.Paren? || l.Binary? || l.VarRef? || l.Call? then Binary(op, l, r)
    else match evaluate(op, l, r) case Some(literal) => literal case None => Binary(op, l, r)
  }

  function Reduction(e: Expr, evaluate: Evaluator): Expr {
    match e
    case Binary(op, l, r) => ReducedBinary(op, Reduction(l, evaluate), Reduction(r, evaluate), evaluate)
    case Call(n, args) => Call(n, seq(|args|, i requires 0 <= i < |args| => Reduction(args[i], evaluate)))
    case Paren(i) => var r := Reduction(i, evaluate); if r.Binary? then Paren(r) else r
    case _ => e
  }

  /** influxql.Reduce: parentheses on top are removed. */
  function Reduce(e: Expr, evaluate: Evaluator): Expr {
    var r := Reduction(e, evaluate);
    if r.Paren? then r.inner else r
  }

  /** Parentheses hold binary expressions only. */
  predicate Reduced(e: Expr) {
    match e
    case Paren(i) => i.Binary? && Reduced(i)
    case Binary(op, l, r) => Reduced(l) && Reduced(r)
    case _ => true
  }

  lemma {:induction false} ReductionReduces(e: Expr, evaluate: Evaluator)
    ensures Reduced(Reduction(e, evaluate))
  {
    match e
    case Binary(op, l, r) =>
      ReductionReduces(l, evaluate);
      ReductionReduces(r, evaluate);
    case Paren(i) => ReductionReduces(i, evaluate);
    case _ =>
  }

  /** A truth of expressions that parentheses, literals and connectives determine, that depends on the
      parts of everything else only by what they reduce to, and that evaluation respects. */
  ghost predicate Sensible(truth: Expr -> bool, evaluate: Evaluator) {
    && (forall i :: truth(Paren(i)) == truth(i)) && (forall b :: truth(BooleanLiteral(b)) == b)
    && (forall l, r :: truth(Binary(AND, l, r)) == (truth(l) && truth(r)))
    && (forall l, r :: truth(Binary(OR, l, r)) == (truth(l) || truth(r)))
    && (forall op, l, r :: op != AND && op != OR ==>
          truth(Binary(op, l, r)) == truth(Binary(op, Reduction(l, evaluate), Reduction(r, evaluate))))
    && (forall n, args :: truth(Call(n, args)) == truth(Reduction(Call(n, args), evaluate)))
    && (forall op, l, r :: evaluate(op, l, r).Some? ==> truth(Binary(op, l, r)) == truth(evaluate(op, l, r).value))
  }

  /** One of them: every other condition is false, and no literals are evaluated. */
  function Plainly(e: Expr): bool {
    match e
    case Paren(i) => Plainly(i)
    case BooleanLiteral(b) => b
    case Binary(op, l, r) => if op == AND then Plainly(l) && Plainly(r) else op == OR && (Plainly(l) || Plainly(r))
    case _ => false
  }

  lemma PlainlyIsSensible()
    ensures Sensible(Plainly, (op, l, r) => None)
  {
  }

  lemma BinaryKeepsMeaning(op: Op, l: Expr, r: Expr, evaluate: Evaluator, truth: Expr -> bool)
    requires Sensible(truth, evaluate)
    ensures truth(ReducedBinary(op, l, r, evaluate)) == truth(Binary(op, l, r))
  {
  }

  /** The reduction keeps every such truth. */
  lemma {:induction false} ReductionKeepsMeaning(e: Expr, evaluate: Evaluator, truth: Expr -> bool)
    requires Sensible(truth, evaluate)
    ensures truth(Reduction(e, evaluate)) == truth(e) && truth(Reduce(e, evaluate)) == truth(e)
  {
    match e
    case Binary(op, l, r) =>
      ReductionKeepsMeaning(l, evaluate, truth);
      ReductionKeepsMeaning(r, evaluate, truth);
      BinaryKeepsMeaning(op, Reduction(l, evaluate), Reduction(r, evaluate), evaluate, truth);
    case Paren(i) => ReductionKeepsMeaning(i, evaluate, truth);
    case _ =>
    assert truth(Reduction(e, evaluate)) == truth(e);
  }

  lemma {:induction false} FilterNeverPanics(e: Expr)
    requires Reduced(e)
    ensures !IsTagFilter(e).FilterPanics?
  {
    if e.Paren? {
      FilterNeverPanics(e.inner);
    } else if e.Binary? {
      OperandsStandPlain(e.lhs);
      OperandsStandPlain(e.rhs);
    }
  }

  lemma OperandsStandPlain(e: Expr)
    requires Reduced(e)
    ensures (IsVarRef(e) ==> e.VarRef?) && (IsString(e) ==> e.StringLiteral?)
  {
    if e.Paren? { assert !IsVarRef(e.inner) && !IsString(e.inner); }
  }

  lemma {:induction false} LogicNeverPanics(e: Expr)
    requires Reduced(e)
    ensures !IsTagLogic(e).Panics?
  {
    FilterNeverPanics(e);
    if e.Paren? {
      LogicNeverPanics(e.inner);
    } else if e.Binary? {
      FilterNeverPanics(e.lhs);
      FilterNeverPanics(e.rhs);
      LogicNeverPanics(e.lhs);
      LogicNeverPanics(e.rhs);
    }
  }

  // ---------------------------------------------------------------- the leaves, up to parentheses

  /** An expression without the parentheses around it. */
  function Bare(e: Expr): Expr {
    match e case Paren(i) => Bare(i) case _ => e
  }

  /** The word in any mixture of upper and lower case; a dotted capital I counts as one. */
  predicate Spells(name: string, word: seq<set<char>>) {
    |name| == |word| && forall i :: 0 <= i < |name| ==> name[i] in word[i]
  }

  const TIME_WORD: seq<set<char>> := [{'t', 'T'}, {'i', 'I', '\U{0130}'}, {'m', 'M'}, {'e', 'E'}]
  const NOW_WORD: seq<set<char>> := [{'n', 'N'}, {'o', 'O'}, {'w', 'W'}]

  /** `time` */
  predicate TimeColumn(e: Expr) {
    Bare(e).VarRef? && Spells(Bare(e).val, TIME_WORD)
  }

  /** `now()` */
  predicate NowCall(e: Expr) {
    Bare(e).Call? && Spells(Bare(e).name, NOW_WORD) && Bare(e).args == []
  }

  predicate Duration(e: Expr) {
    Bare(e).DurationLiteral?
  }

  /** `now()`, or `now()` and a duration with a minus between them, in either order. */
  predicate Moment(e: Expr) {
    || NowCall(e)
    || (var b := Bare(e);
        b.Binary? && b.op == SUB && ((NowCall(b.lhs) && Duration(b.rhs)) || (Duration(b.lhs) && NowCall(b.rhs))))
  }

  /** An ordering comparison of `time` with a moment, in either order. */
  predicate TimeComparison(e: Expr) {
    var b := Bare(e);
    && b.Binary? && b.op in {LT, LTE, GT, GTE}
    && ((TimeColumn(b.lhs) && Moment(b.rhs)) || (Moment(b.lhs) && TimeColumn(b.rhs)))
  }

  lemma LowerSpells(name: string)
    ensures Lower(name) == "time" <==> Spells(name, TIME_WORD)
    ensures Lower(name) == "now" <==> Spells(name, NOW_WORD)
  {
    if |name| == 4 {
      assert Lower(name) == [LowerChar(name[0]), LowerChar(name[1]), LowerChar(name[2]), LowerChar(name[3])];
    }
    if |name| == 3 { assert Lower(name) == [LowerChar(name[0]), LowerChar(name[1]), LowerChar(name[2])]; }
  }

  lemma {:induction false} WordLeaves(e: Expr)
    ensures IsTime(e) <==> TimeColumn(e)
    ensures IsNow(e) <==> NowCall(e)
    ensures IsDuration(e) <==> Duration(e)
  {
    match e
    case Paren(i) => WordLeaves(i);
    case VarRef(v) => LowerSpells(v);
    case Call(n, args) => LowerSpells(n);
    case _ =>
  }

  lemma {:induction false} PreviousTimeIff(e: Expr)
    ensures IsPreviousTime(e) <==> Moment(e)
  {
    match e
    case Paren(i) => PreviousTimeIff(i);
    case Binary(op, l, r) =>
      WordLeaves(l);
      WordLeaves(r);
    case _ => WordLeaves(e);
  }

  /** What counts as a time range, and nothing else does. */
  lemma {:induction false} TimeRangeIff(e: Expr)
    ensures IsTimeRange(e) <==> TimeComparison(e)
  {
    match e
    case Paren(i) => TimeRangeIff(i);
    case Binary(op, l, r) =>
      WordLeaves(l);
      WordLeaves(r);
      PreviousTimeIff(l);
      PreviousTimeIff(r);
    case _ =>
  }

  /** A time range is accepted and no filter is taken from it. */
  lemma {:induction false} TimeRangeAccepted(e: Expr)
    requires TimeComparison(e)
    ensures IsTagLogic(e) == Accepted([])
  {
    TimeRangeIff(e);
    if e.Paren? { TimeRangeAccepted(e.inner); }
  }

  /** `time > now() - d` and `now() - d < TIME`. */
  lemma RecentTimes(d: int)
    ensures var ago := Binary(SUB, Call("now", []), DurationLiteral(d));
      && IsTagLogic(Binary(GT, VarRef("time"), ago)) == Accepted([])
      && IsTagLogic(Paren(Binary(LT, Paren(ago), VarRef("TIME")))) == Accepted([])
  {
    var ago := Binary(SUB, Call("now", []), DurationLiteral(d));
    assert NowCall(ago.lhs) && Duration(ago.rhs) && Moment(ago) && Bare(Paren(ago)) == ago && Moment(Paren(ago));
    TimeRangeAccepted(Binary(GT, VarRef("time"), ago));
    var e := Binary(LT, Paren(ago), VarRef("TIME"));
    assert Bare(Paren(e)) == e;
    TimeRangeAccepted(Paren(e));
  }

  /** A tag and a text with = or != between them, in either order. */
  predicate TagComparison(e: Expr) {
    var b := Bare(e);
    && b.Binary? && (b.op == EQ || b.op == NEQ)
    && ((Bare(b.lhs).VarRef? && Bare(b.rhs).StringLiteral?) || (Bare(b.lhs).StringLiteral? && Bare(b.rhs).VarRef?))
  }

  /** Neither operand stands in parentheses. */
  predicate PlainOperands(e: Expr) {
    var b := Bare(e);
    b.Binary? && !b.lhs.Paren? && !b.rhs.Paren?
  }

  /** What a comparison of a tag says. */
  function ComparisonOf(e: Expr): TagFilter
    requires TagComparison(e)
  {
    var b := Bare(e);
    var l, r := Bare(b.lhs), Bare(b.rhs);
    TagFilter(if b.op == EQ then "==" else "!=", if l.VarRef? then l.val else r.val,
              if l.VarRef? then r.text else l.text)
  }

  lemma {:induction false} OperandLeaves(e: Expr)
    ensures IsVarRef(e) <==> Bare(e).VarRef?
    ensures IsString(e) <==> Bare(e).StringLiteral?
  {
    if e.Paren? { OperandLeaves(e.inner); }
  }

  /** What counts as a tag filter, which one it is, and when its nil node is met. */
  lemma {:induction false} TagFilterIff(e: Expr)
    ensures IsTagFilter(e) ==
      if !TagComparison(e) then NotFilter else if PlainOperands(e) then Filter(ComparisonOf(e)) else FilterPanics
  {
    match e
    case Paren(i) => TagFilterIff(i);
    case Binary(op, l, r) =>
      OperandLeaves(l);
      OperandLeaves(r);
    case _ =>
  }

  // ---------------------------------------------------------------- the grammar

  /** Connectives are AND and OR, and every leaf is a time range or a tag filter. */
  predicate WellFormed(e: Expr) {
    match e
    case Paren(i) => WellFormed(i)
    case Binary(op, l, r) =>
      IsTimeRange(e) || IsTagFilter(e).Filter? || ((op == AND || op == OR) && WellFormed(l) && WellFormed(r))
    case _ => false
  }

  /** The tag filters of an expression, in order. */
  function Filters(e: Expr): seq<TagFilter> {
    match e
    case Paren(i) => Filters(i)
    case Binary(op, l, r) =>
      var tf := IsTagFilter(e);
      if IsTimeRange(e) then [] else if tf.Filter? then [tf.tf] else Filters(l) + Filters(r)
    case _ => []
  }

  predicate OneOperator(fs: seq<TagFilter>) {
    forall f, g :: f in fs && g in fs ==> f.op == g.op
  }

  lemma AtMostOneOp(fs: seq<TagFilter>)
    ensures |Ops(fs)| <= 1 <==> OneOperator(fs)
  {
    var ops := Ops(fs);
    if fs == [] {
      assert ops == {};
    } else {
      var x := fs[0].op;
      assert x in ops;
      if OneOperator(fs) {
        assert ops == {x};
      } else {
        var f, g :| f in fs && g in fs && f.op != g.op;
        assert {f.op, g.op} <= ops;
        SubsetSize({f.op, g.op}, ops);
      }
    }
  }

  lemma {:induction false} SubsetSize(a: set<string>, b: set<string>)
    requires a <= b
    ensures |a| <= |b|
  {
    if a != {} {
      var x :| x in a;
      SubsetSize(a - {x}, b - {x});
    }
  }

  lemma {:induction false} LeafFilters(e: Expr)
    ensures IsTimeRange(e) ==> WellFormed(e) && Filters(e) == [] && IsTagFilter(e).NotFilter?
    ensures IsTagFilter(e).Filter? ==> WellFormed(e) && Filters(e) == [IsTagFilter(e).tf]
  {
    if e.Paren? { LeafFilters(e.inner); }
  }

  /** The clean verdict: the grammar, and one operator. */
  function Judged(wellFormed: bool, fs: seq<TagFilter>): Logic {
    if wellFormed && OneOperator(fs) then Accepted(fs) else Rejected
  }

  /** Unless it meets a nil node, the analysis with its fast paths accepts exactly the grammar,
      with all tag filters under one operator, and returns the tag filters in order. */
  lemma {:induction false} AcceptsGrammar(e: Expr)
    ensures IsTagLogic(e).Panics? || IsTagLogic(e) == Judged(WellFormed(e), Filters(e))
    decreases e, 1
  {
    if e.Paren? {
      AcceptsGrammar(e.inner);
    } else if !IsTimeRange(e) && IsTagFilter(e).NotFilter? && e.Binary? {
      ConnectiveAccepts(e);
    }
  }

  /** On what Convert passes on it never meets one: the verdict is the grammar's for every condition. */
  lemma ConvertSeesGrammar(e: Expr, evaluate: Evaluator)
    ensures var r := Reduce(e, evaluate); IsTagLogic(r) == Judged(WellFormed(r), Filters(r))
  {
    var r := Reduce(e, evaluate);
    ReductionReduces(e, evaluate);
    LogicNeverPanics(r);
    AcceptsGrammar(r);
  }

  ghost predicate ConnectiveRight(e: Expr)
    requires e.Binary?
  {
    Connective(e) ==
      Judged((e.op == AND || e.op == OR) && WellFormed(e.lhs) && WellFormed(e.rhs), Filters(e.lhs) + Filters(e.rhs))
  }

  predicate FastPath(e: Expr)
    requires e.Binary?
  {
    var lhs, rhs := IsTagFilter(e.lhs), IsTagFilter(e.rhs);
    || (lhs.Filter? && rhs.Filter? && lhs.tf.tag == rhs.tf.tag && lhs.tf.op == rhs.tf.op && e.op == OR)
    || ((e.op == AND || e.op == OR) && (IsTimeRange(e.lhs) || IsTimeRange(e.rhs)) && (lhs.Filter? || rhs.Filter?))
  }

  /** The shortcuts for two filters on one tag and for a filter beside a time range. */
  lemma FastPathRight(e: Expr)
    requires e.Binary? && FastPath(e)
    ensures Connective(e).Panics? || ConnectiveRight(e)
  {
    LeafFilters(e.lhs);
    LeafFilters(e.rhs);
    var lhs, rhs := IsTagFilter(e.lhs), IsTagFilter(e.rhs);
    assert Filters(e.lhs) + Filters(e.rhs) ==
      if lhs.Filter? && rhs.Filter? then [lhs.tf, rhs.tf] else [if lhs.Filter? then lhs.tf else rhs.tf];
  }

  lemma {:induction false} ConnectiveAccepts(e: Expr)
    requires e.Binary?
    ensures Connective(e).Panics? || ConnectiveRight(e)
    decreases e, 0
  {
    if FastPath(e) {
      FastPathRight(e);
    } else {
      AcceptsGrammar(e.lhs);
      AcceptsGrammar(e.rhs);
      JoinedRight(WellFormed(e.lhs), Filters(e.lhs), WellFormed(e.rhs), Filters(e.rhs));
    }
  }

  lemma JoinedRight(wa: bool, a: seq<TagFilter>, wb: bool, b: seq<TagFilter>)
    ensures Joined(Judged(wa, a), Judged(wb, b)) == Judged(wa && wb, a + b)
  {
    JoinedOps(a, b);
  }

  lemma JoinedOps(a: seq<TagFilter>, b: seq<TagFilter>)
    ensures |Ops(a) + Ops(b)| <= 1 <==> OneOperator(a + b)
    ensures OneOperator(a + b) ==> OneOperator(a) && OneOperator(b)
  {
    assert Ops(a) + Ops(b) == Ops(a + b);
    AtMostOneOp(a + b);
    assert forall f :: f in a || f in b ==> f in a + b;
  }

  /** The reduction is needed: parentheses around an operand would lead to a nil node. */
  lemma ParenthesisedOperandPanics(tag: string, value: string, evaluate: Evaluator)
    ensures var e := Binary(EQ, Paren(VarRef(tag)), StringLiteral(value));
      && IsTagLogic(e) == Panics
      && IsTagLogic(Reduce(e, evaluate)) == Accepted([TagFilter("==", tag, value)])
  {
    var v, r := VarRef(tag), StringLiteral(value);
    var l := Paren(v);
    var e, plain := Binary(EQ, l, r), Binary(EQ, v, r);
    assert IsVarRef(v) && IsVarRef(l) && IsString(r) && !IsTimeRange(e) && !IsTimeRange(plain);
    assert IsTagFilter(e) == FilterPanics;
    assert IsTagFilter(plain) == Filter(TagFilter("==", tag, value));
    FilterReduces(v, r, evaluate);
  }

  lemma FilterReduces(v: Expr, r: Expr, evaluate: Evaluator)
    requires v.VarRef? && r.StringLiteral?
    ensures Reduce(Binary(EQ, Paren(v), r), evaluate) == Binary(EQ, v, r)
  {
    assert Reduction(v, evaluate) == v && Reduction(r, evaluate) == r;
    assert Reduction(Paren(v), evaluate) == v;
    assert ReducedBinary(EQ, v, r, evaluate) == Binary(EQ, v, r);
    assert Reduction(Binary(EQ, Paren(v), r), evaluate) == Binary(EQ, v, r);
  }

  // ---------------------------------------------------------------- collecting tags

  type Tags = map<string, seq<string>>

  /** The values collected for a tag, in order. */
  function ValuesOf(fs: seq<TagFilter>, tag: string): seq<string> {
    if fs == [] then []
    else
      var n := |fs| - 1;
      ValuesOf(fs[..n], tag) + (if fs[n].tag == tag then [fs[n].value] else [])
  }

  function TagSet(fs: seq<TagFilter>): set<string> {
    set f | f in fs :: f.tag
  }

  ghost predicate Collected(fs: seq<TagFilter>, tags: Tags) {
    tags.Keys == TagSet(fs) && forall t :: t in tags ==> tags[t] == ValuesOf(fs, t)
  }

  lemma {:induction false} NoValues(fs: seq<TagFilter>, tag: string)
    requires tag !in TagSet(fs)
    ensures ValuesOf(fs, tag) == []
  {
    if fs != [] {
      var n := |fs| - 1;
      assert fs[n] in fs && fs[n].tag in TagSet(fs);
      assert TagSet(fs[..n]) <= TagSet(fs);
      NoValues(fs[..n], tag);
    }
  }

  function WithValue(tags: Tags, f: TagFilter): Tags {
    tags[f.tag := (if f.tag in tags then tags[f.tag] else []) + [f.value]]
  }

  lemma CollectStep(fs: seq<TagFilter>, f: TagFilter, tags: Tags)
    requires Collected(fs, tags)
    ensures Collected(fs + [f], WithValue(tags, f))
  {
    var now := fs + [f];
    assert now[..|fs|] == fs && now[|fs|] == f;
    if f.tag !in tags { NoValues(fs, f.tag); }
    assert TagSet(now) == TagSet(fs) + {f.tag};
  }

  /** The part of Convert that fills in Tags; `ok` is false where it would fall back to the raw
      query because of mixed operators. */
  method CollectTags(logic: seq<TagFilter>) returns (tags: Tags, areTagsAccepted: bool, ok: bool)
    ensures Collected(logic, tags)
    ensures ok <==> OneOperator(logic)
    ensures ok ==> (areTagsAccepted <==> exists f :: f in logic && f.op == "==")
  {
    tags := map[];
    var ops: set<string> := {};
    for i := 0 to |logic|
      invariant Collected(logic[..i], tags) && ops == Ops(logic[..i])
    {
      var l := logic[i];
      assert logic[..i + 1] == logic[..i] + [l];
      CollectStep(logic[..i], l, tags);
      var values := if l.tag in tags then tags[l.tag] else [];
      ops := ops + {l.op};
      tags := tags[l.tag := values + [l.value]];
    }
    assert logic[..|logic|] == logic;
    AtMostOneOp(logic);
    areTagsAccepted, ok := false, true;
    if |logic| > 0 {
      assert logic[0].op in ops;
      if |ops| != 1 {
        assert |ops| > 0;
        return tags, false, false;
      }
      areTagsAccepted := "==" in ops;
    }
  }

  /** After isTagLogic the mixed-operator check never fires. */
  lemma MixedOperatorsNeverReachConvert(e: Expr)
    requires IsTagLogic(e).Accepted?
    ensures OneOperator(IsTagLogic(e).filters)
  {
    AcceptsGrammar(e);
  }
}
