/** The streaming URL rewriter (server/url_prefixer.go).

    The handler slides a window as long as the longest attribute over its input and writes
    every matched attribute followed by the prefix. `Serve` is that byte-at-a-time loop, for any
    bytes behind the window in its buffer; `Respond` is a short recursion over the input without
    window, source or counters, and `Rewrite` the part of it that only looks at the input; a
    `Parse` of the input is a declarative account of what was matched; `RewriteAll` is the
    replacement of every attribute that the handler's documentation speaks of. */
module UrlPrefixer {
  import opened Octets

  const CHUNK_SIZE: nat := 512

  datatype Prefixer = Prefixer(prefix: Bytes, attrs: seq<Bytes>)

  /** `Overrun`: a target longer than the subject was reached. */
  datatype MatchResult = NoMatch | Matched(attr: Bytes) | Overrun

  /** `Overran`: it depends on more than the input, because `match` looks past the window. */
  datatype Outcome = Written(out: Bytes) | Overran

  /** What the loop does: a slice past the buffer's capacity panics, and an empty window that
      matches what lies behind it matches forever. */
  datatype Response = Completed(out: Bytes) | Panicked | Endless

  /** What lies behind the window in the buffer's array, for every number of bytes left: Go bounds
      a slice by its capacity, so `match` reads on into it. Bytes of earlier windows may be there,
      or nothing at all. */
  type Spare = nat -> Bytes

  // ---------------------------------------------------------------- match and maxlen

  function MaxLen(targets: seq<Bytes>): nat {
    if targets == [] then 0
    else
      var rest := MaxLen(targets[1..]);
      if |targets[0]| > rest then |targets[0]| else rest
  }

  lemma {:induction false} MaxLenIsLongest(targets: seq<Bytes>)
    ensures forall t :: t in targets ==> |t| <= MaxLen(targets)
    ensures MaxLen(targets) > 0 ==> exists t :: t in targets && |t| == MaxLen(targets)
  {
    if targets != [] {
      MaxLenIsLongest(targets[1..]);
      assert targets[0] in targets;
    }
  }

  /** The first target that is a prefix of the subject. An empty target is equal to the empty
      slice, ends the search and reports length 0, which the caller reads as no match. */
  function Match(subject: Bytes, targets: seq<Bytes>): MatchResult {
    if targets == [] then NoMatch
    else if |targets[0]| > |subject| then Overrun
    else if subject[..|targets[0]|] == targets[0] then
      (if targets[0] == [] then NoMatch else Matched(targets[0]))
    else Match(subject, targets[1..])
  }

  method ComputeMaxLen(targets: seq<Bytes>) returns (max: nat)
    ensures max == MaxLen(targets)
  {
    max := 0;
    for i := 0 to |targets|
      invariant max == MaxLen(targets[..i])
    {
      MaxLenAppend(targets[..i], targets[i]);
      assert targets[..i + 1] == targets[..i] + [targets[i]];
      if |targets[i]| > max {
        max := |targets[i]|;
      }
    }
    assert targets[..|targets|] == targets;
  }

  lemma {:induction false} MaxLenAppend(ts: seq<Bytes>, t: Bytes)
    ensures MaxLen(ts + [t]) == if |t| > MaxLen(ts) then |t| else MaxLen(ts)
  {
    if ts != [] {
      assert (ts + [t])[1..] == ts[1..] + [t];
      MaxLenAppend(ts[1..], t);
    }
  }

  /** `subject` is the window up to its capacity. */
  method FindMatch(subject: Bytes, targets: seq<Bytes>) returns (m: MatchResult)
    ensures m == Match(subject, targets)
  {
    for i := 0 to |targets|
      invariant Match(subject, targets) == Match(subject, targets[i..])
    {
      if |targets[i]| > |subject| {
        return Overrun;
      }
      if subject[..|targets[i]|] == targets[i] {
        return if |targets[i]| == 0 then NoMatch else Matched(targets[i]);
      }
    }
    return NoMatch;
  }

  lemma {:induction false} MatchSound(subject: Bytes, targets: seq<Bytes>)
    ensures var m := Match(subject, targets);
      m.Matched? ==> m.attr in targets && 0 < |m.attr| <= |subject| && subject[..|m.attr|] == m.attr
  {
    if targets != [] { MatchSound(subject, targets[1..]); }
  }

  lemma {:induction false} MatchMore(subject: Bytes, more: Bytes, targets: seq<Bytes>)
    requires !Match(subject, targets).Overrun?
    ensures Match(subject + more, targets) == Match(subject, targets)
  {
    if targets != [] {
      assert (subject + more)[..|targets[0]|] == subject[..|targets[0]|];
      if subject[..|targets[0]|] != targets[0] { MatchMore(subject, more, targets[1..]); }
    }
  }

  // ---------------------------------------------------------------- the recursion

  function Preceded(b: Bytes, r: Response): Response {
    match r case Completed(out) => Completed(b + out) case Panicked => Panicked case Endless => Endless
  }

  function After(s: Bytes, n: nat): Bytes {
    if n <= |s| then s[n..] else []
  }

  /** An attribute that only matches together with spare bytes takes the rest of the input. */
  function Respond(p: Prefixer, s: Bytes, spare: Spare): Response
    decreases |s|
  {
    MatchSound(s + spare(|s|), p.attrs);
    match Match(s + spare(|s|), p.attrs)
    case Overrun => Panicked
    case Matched(a) =>
      if s == [] then Endless else Preceded(a + p.prefix, Respond(p, After(s, |a|), spare))
    case NoMatch =>
      if |s| <= MaxLen(p.attrs) || |s| <= 1 then Completed(s)
      else Preceded([s[0]], Respond(p, s[1..], spare))
  }

  function Prepend(b: Bytes, o: Outcome): Outcome {
    match o case Written(out) => Written(b + out) case Overran => Overran
  }

  /** As long as only the input is looked at. */
  function Rewrite(p: Prefixer, s: Bytes): Outcome
    decreases |s|
  {
    MatchSound(s, p.attrs);
    match Match(s, p.attrs)
    case Overrun => Overran
    case Matched(a) => Prepend(a + p.prefix, Rewrite(p, s[|a|..]))
    case NoMatch =>
      if |s| <= MaxLen(p.attrs) || |s| <= 1 then Written(s)
      else Prepend([s[0]], Rewrite(p, s[1..]))
  }

  /** The bytes that are shifted out of the window one at a time. */
  function Shifts(p: Prefixer, s: Bytes): nat
    decreases |s|
  {
    MatchSound(s, p.attrs);
    match Match(s, p.attrs)
    case Overrun => 0
    case Matched(a) => Shifts(p, s[|a|..])
    case NoMatch => if |s| <= MaxLen(p.attrs) then 0 else 1 + Shifts(p, s[1..])
  }

  /** The shifts still to come; an empty window takes its first byte in without giving one out. */
  function Pending(p: Prefixer, buf: Bytes, src: Bytes): nat {
    if MaxLen(p.attrs) == 0 then |src| else Shifts(p, buf + src)
  }

  lemma {:induction false} NothingMatches(targets: seq<Bytes>, s: Bytes)
    requires MaxLen(targets) == 0
    ensures Match(s, targets).NoMatch?
  {
    if targets != [] { NothingMatches(targets[1..], s); }
  }

  lemma {:induction false} AllShifted(p: Prefixer, s: Bytes)
    requires MaxLen(p.attrs) == 0
    ensures Shifts(p, s) == |s|
  {
    NothingMatches(p.attrs, s);
    if s != [] { AllShifted(p, s[1..]); }
  }

  lemma PendingShift(p: Prefixer, buf: Bytes, src: Bytes)
    requires src != [] && WindowOk(p, buf, src) && Match(buf + src, p.attrs).NoMatch?
    ensures var n := if |buf| == 0 then 0 else 1;
      Pending(p, buf, src) == 1 + Pending(p, buf[n..] + [src[0]], src[1..])
  {
    if MaxLen(p.attrs) > 0 {
      assert (buf[1..] + [src[0]]) + src[1..] == (buf + src)[1..];
    }
  }

  lemma {:induction false} ShortNeverShifts(p: Prefixer, s: Bytes)
    requires |s| <= MaxLen(p.attrs)
    ensures Shifts(p, s) == 0
    decreases |s|
  {
    MatchSound(s, p.attrs);
    var m := Match(s, p.attrs);
    if m.Matched? { ShortNeverShifts(p, s[|m.attr|..]); }
  }

  lemma PendingMatch(p: Prefixer, buf: Bytes, src: Bytes, behind: Bytes, a: Bytes, next: Bytes, rest: Bytes)
    requires WindowOk(p, buf, src) && Match(buf + src + behind, p.attrs) == Matched(a)
    requires next + rest == After(buf + src, |a|) && |rest| == (if |a| <= |src| then |src| - |a| else 0)
    ensures Pending(p, next, rest) == Pending(p, buf, src)
  {
    var max := MaxLen(p.attrs);
    if max == 0 {
      NothingMatches(p.attrs, buf + src + behind);
    } else {
      var left := buf + src;
      if |left| <= max {
        ShortNeverShifts(p, left);
        ShortNeverShifts(p, After(left, |a|));
      } else {
        NoOverrun(left, p.attrs);
        MatchMore(left, behind, p.attrs);
        MatchSound(left, p.attrs);
      }
    }
  }

  lemma FlushesAre(flushes: nat, rest: nat)
    requires rest < CHUNK_SIZE
    ensures (flushes * CHUNK_SIZE + rest) / CHUNK_SIZE == flushes
  {
  }

  /** io.ReadFull leaves zero bytes in the window when the input is shorter than it. */
  function Primed(p: Prefixer, input: Bytes): Bytes {
    if |input| >= MaxLen(p.attrs) then input
    else input + seq(MaxLen(p.attrs) - |input|, _ => 0)
  }

  // ---------------------------------------------------------------- the loop

  /** Moves the window n bytes on, as far as it goes, pulling in at most n further bytes of the source. */
  method Advance(buf0: Bytes, src0: Bytes, n: nat) returns (buf: Bytes, src: Bytes)
    ensures buf + src == After(buf0, n) + src0
    ensures |src| == if n <= |src0| then |src0| - n else 0
  {
    buf, src := After(buf0, n), src0;
    ghost var rest := buf + src;
    for i := 0 to n
      invariant buf + src == rest
      invariant |src| == if i <= |src0| then |src0| - i else 0
    {
      if src != [] {
        assert buf + src == (buf + [src[0]]) + src[1..];
        buf := buf + [src[0]];
        src := src[1..];
      }
    }
  }

  /** The window is the longest attribute long while there is source left; only an empty
      attribute list starts with an empty window and goes on with one byte. */
  ghost predicate WindowOk(p: Prefixer, buf: Bytes, src: Bytes) {
    var max := MaxLen(p.attrs);
    && (src != [] ==> |buf| == max || (max == 0 && |buf| == 1))
    && (|buf| <= max || |buf| == 1)
  }

  /** What has been written, followed by the response to what is left, is the whole response. */
  ghost predicate OnTrack(p: Prefixer, whole: Response, spare: Spare, out: Bytes, left: Bytes) {
    whole == Preceded(out, Respond(p, left, spare))
  }

  /** While there is source left the window is looked at and nothing behind it. */
  lemma MatchSeesAll(p: Prefixer, buf: Bytes, src: Bytes, behind: Bytes)
    requires WindowOk(p, buf, src)
    ensures Match(buf + behind, p.attrs) == Match(buf + src + behind, p.attrs)
  {
    if src == [] {
      assert buf + src == buf;
    } else {
      NoOverrun(buf, p.attrs);
      MatchMore(buf, behind, p.attrs);
      MatchMore(buf, src + behind, p.attrs);
      assert buf + (src + behind) == buf + src + behind;
    }
  }

  lemma PrecededTwice(a: Bytes, b: Bytes, r: Response)
    ensures Preceded(a, Preceded(b, r)) == Preceded(a + b, r)
  {
    if r.Completed? { assert a + (b + r.out) == a + b + r.out; }
  }

  lemma RespondMatched(p: Prefixer, s: Bytes, a: Bytes, spare: Spare)
    requires s != [] && Match(s + spare(|s|), p.attrs) == Matched(a)
    ensures Respond(p, s, spare) == Preceded(a + p.prefix, Respond(p, After(s, |a|), spare))
  {
    MatchSound(s + spare(|s|), p.attrs);
  }

  lemma StepMatched(p: Prefixer, whole: Response, spare: Spare, out: Bytes, left: Bytes, a: Bytes)
    requires OnTrack(p, whole, spare, out, left) && left != []
    requires Match(left + spare(|left|), p.attrs) == Matched(a)
    ensures OnTrack(p, whole, spare, out + (a + p.prefix), After(left, |a|))
  {
    RespondMatched(p, left, a, spare);
    PrecededTwice(out, a + p.prefix, Respond(p, After(left, |a|), spare));
  }

  lemma RespondShifted(p: Prefixer, s: Bytes, spare: Spare)
    requires |s| > 1 && |s| > MaxLen(p.attrs) && Match(s + spare(|s|), p.attrs) == NoMatch
    ensures Respond(p, s, spare) == Preceded([s[0]], Respond(p, s[1..], spare))
  {
  }

  lemma StepForward(p: Prefixer, whole: Response, spare: Spare, out: Bytes, buf: Bytes, src: Bytes)
    requires src != [] && WindowOk(p, buf, src)
    requires OnTrack(p, whole, spare, out, buf + src)
    requires Match(buf + src + spare(|buf + src|), p.attrs).NoMatch?
    ensures var n := if |buf| == 0 then 0 else 1;
      OnTrack(p, whole, spare, out + buf[..n], (buf[n..] + [src[0]]) + src[1..])
  {
    var s := buf + src;
    if |buf| == 0 {
      assert (buf[0..] + [src[0]]) + src[1..] == s;
      assert out + buf[..0] == out;
    } else {
      assert (buf[1..] + [src[0]]) + src[1..] == s[1..];
      assert buf[..1] == [s[0]];
      RespondShifted(p, s, spare);
      PrecededTwice(out, [s[0]], Respond(p, s[1..], spare));
    }
  }

  /** The state of the loop. */
  ghost predicate Going(p: Prefixer, whole: Response, total: nat, spare: Spare, out: Bytes, buf: Bytes, src: Bytes,
      shifted: nat) {
    && WindowOk(p, buf, src) && OnTrack(p, whole, spare, out, buf + src)
    && shifted + Pending(p, buf, src) == total
  }

  lemma GoingStarts(p: Prefixer, input: Bytes, spare: Spare, buf: Bytes, src: Bytes)
    requires buf + src == Primed(p, input) && |buf| == MaxLen(p.attrs)
    ensures Going(p, Respond(p, Primed(p, input), spare), Shifts(p, Primed(p, input)), spare, [], buf, src, 0)
  {
    if MaxLen(p.attrs) == 0 { AllShifted(p, input); }
    PrecededByNothing(Respond(p, buf + src, spare));
  }

  lemma PrecededByNothing(r: Response)
    ensures Preceded([], r) == r
  {
    if r.Completed? { assert [] + r.out == r.out; }
  }

  lemma GoingForward(p: Prefixer, whole: Response, total: nat, spare: Spare, out: Bytes, buf: Bytes, src: Bytes,
      shifted: nat)
    requires Going(p, whole, total, spare, out, buf, src, shifted) && src != []
    requires Match(buf + spare(|buf + src|), p.attrs).NoMatch?
    ensures var n := if |buf| == 0 then 0 else 1;
      Going(p, whole, total, spare, out + buf[..n], buf[n..] + [src[0]], src[1..], shifted + 1)
  {
    var behind := spare(|buf + src|);
    MatchSeesAll(p, buf, src, behind);
    StepForward(p, whole, spare, out, buf, src);
    MatchesInput(p, buf, src, behind);
    PendingShift(p, buf, src);
  }

  /** The window moved on by a match. */
  lemma GoingOn(p: Prefixer, whole: Response, total: nat, spare: Spare, out: Bytes, buf: Bytes, src: Bytes,
      shifted: nat, a: Bytes, next: Bytes, rest: Bytes)
    requires Going(p, whole, total, spare, out, buf, src, shifted) && buf != []
    requires Match(buf + spare(|buf + src|), p.attrs) == Matched(a)
    requires next + rest == After(buf, |a|) + src && |rest| == (if |a| <= |src| then |src| - |a| else 0)
    ensures Going(p, whole, total, spare, out + (a + p.prefix), next, rest, shifted)
    ensures |rest| < |src| || (|rest| == |src| && |next| < |buf|)
  {
    var behind := spare(|buf + src|);
    MatchSeesAll(p, buf, src, behind);
    MatchSound(buf + behind, p.attrs);
    MaxLenIsLongest(p.attrs);
    assert After(buf, |a|) + src == After(buf + src, |a|);
    StepMatched(p, whole, spare, out, buf + src, a);
    PendingMatch(p, buf, src, behind, a, next, rest);
  }

  /** How the loop ends: with a panic, with the window at the end of the source, or with a match of
      nothing. */
  lemma GoingPanics(p: Prefixer, whole: Response, total: nat, spare: Spare, out: Bytes, buf: Bytes, src: Bytes,
      shifted: nat)
    requires Going(p, whole, total, spare, out, buf, src, shifted)
    requires Match(buf + spare(|buf + src|), p.attrs).Overrun?
    ensures whole == Panicked && shifted == total
  {
    var behind := spare(|buf + src|);
    MatchSeesAll(p, buf, src, behind);
    NoOverrunInFull(p, buf, src, behind);
    NothingPending(p, buf, src);
  }

  lemma GoingCompletes(p: Prefixer, whole: Response, total: nat, spare: Spare, out: Bytes, buf: Bytes, src: Bytes,
      shifted: nat)
    requires Going(p, whole, total, spare, out, buf, src, shifted) && src == []
    requires Match(buf + spare(|buf + src|), p.attrs).NoMatch?
    ensures whole == Completed(out + buf) && shifted == total
  {
    assert buf + src == buf;
    NothingPending(p, buf, src);
  }

  lemma GoingNowhere(p: Prefixer, whole: Response, total: nat, spare: Spare, out: Bytes, buf: Bytes, src: Bytes,
      shifted: nat)
    requires Going(p, whole, total, spare, out, buf, src, shifted) && buf == []
    requires Match(buf + spare(|buf + src|), p.attrs).Matched?
    ensures whole == Endless && shifted == total
  {
    if MaxLen(p.attrs) == 0 { NothingMatches(p.attrs, buf + spare(|buf + src|)); }
    assert src == [] && buf + src == [];
    NothingPending(p, buf, src);
  }

  /** The loop of ServeHTTP does exactly what the recursion says, for every prefix, every attribute
      list, every input and whatever lies behind its window. A flush comes after every CHUNK_SIZE
      shifted bytes, and one more after the final window. */
  method Serve(p: Prefixer, input: Bytes, spare: Spare) returns (r: Response, flushes: nat)
    ensures r == Respond(p, Primed(p, input), spare)
    ensures flushes == Shifts(p, Primed(p, input)) / CHUNK_SIZE + (if r.Completed? then 1 else 0)
  {
    var max := ComputeMaxLen(p.attrs);
    var out: Bytes := [];
    var writtenCount := 0;
    flushes := 0;
    var buf := if |input| >= max then input[..max] else input + seq(max - |input|, _ => 0);
    var src := if |input| >= max then input[max..] else [];
    assert Primed(p, input) == buf + src;
    GoingStarts(p, input, spare, buf, src);
    ghost var whole, total := Respond(p, Primed(p, input), spare), Shifts(p, Primed(p, input));
    while true
      invariant Going(p, whole, total, spare, out, buf, src, flushes * CHUNK_SIZE + writtenCount)
      invariant writtenCount < CHUNK_SIZE
      decreases |src|, |buf|
    {
      ghost var shifted := flushes * CHUNK_SIZE + writtenCount;
      var m := FindMatch(buf + spare(|buf + src|), p.attrs);
      if m.Overrun? {
        GoingPanics(p, whole, total, spare, out, buf, src, shifted);
        FlushesAre(flushes, writtenCount);
        return Panicked, flushes;
      } else if m.NoMatch? {
        if src != [] {
          GoingForward(p, whole, total, spare, out, buf, src, shifted);
          var n := if |buf| == 0 then 0 else 1;
          out := out + buf[..n];
          writtenCount := writtenCount + 1;
          buf, src := buf[n..] + [src[0]], src[1..];
          if writtenCount >= CHUNK_SIZE {
            flushes := flushes + 1;
            writtenCount := 0;
          }
        } else {
          GoingCompletes(p, whole, total, spare, out, buf, src, shifted);
          FlushesAre(flushes, writtenCount);
          return Completed(out + buf), flushes + 1;
        }
      } else {
        if |buf| == 0 {
          GoingNowhere(p, whole, total, spare, out, buf, src, shifted);
          FlushesAre(flushes, writtenCount);
          return Endless, flushes;
        }
        var next, rest := Advance(buf, src, |m.attr|);
        GoingOn(p, whole, total, spare, out, buf, src, shifted, m.attr, next, rest);
        buf, src := next, rest;
        assert out + m.attr + p.prefix == out + (m.attr + p.prefix);
        out := out + m.attr;
        out := out + p.prefix;
      }
    }
  }

  lemma NothingPending(p: Prefixer, buf: Bytes, src: Bytes)
    requires WindowOk(p, buf, src) && src == []
    ensures Pending(p, buf, src) == 0
  {
    if MaxLen(p.attrs) > 0 {
      assert buf + src == buf;
      ShortNeverShifts(p, buf);
    }
  }

  /** A full window is long enough for every attribute. */
  lemma NoOverrunInFull(p: Prefixer, buf: Bytes, src: Bytes, behind: Bytes)
    requires WindowOk(p, buf, src) && Match(buf + behind, p.attrs).Overrun?
    ensures src == []
  {
    if src != [] {
      NoOverrun(buf + behind, p.attrs);
    }
  }

  lemma MatchesInput(p: Prefixer, buf: Bytes, src: Bytes, behind: Bytes)
    requires WindowOk(p, buf, src) && src != []
    ensures Match(buf + src, p.attrs) == Match(buf + src + behind, p.attrs)
  {
    NoOverrun(buf + src, p.attrs);
    MatchMore(buf + src, behind, p.attrs);
  }

  // ---------------------------------------------------------------- conservation

  /** What one step of the scan does: copy a byte, or pass an attribute and insert the prefix. */
  datatype Piece = Copied(b: byte) | Attr(a: Bytes)

  function InputOf(ps: seq<Piece>): Bytes {
    if ps == [] then [] else (match ps[0] case Copied(b) => [b] case Attr(a) => a) + InputOf(ps[1..])
  }

  function OutputOf(ps: seq<Piece>, prefix: Bytes): Bytes {
    if ps == [] then []
    else (match ps[0] case Copied(b) => [b] case Attr(a) => a + prefix) + OutputOf(ps[1..], prefix)
  }

  function Matches(ps: seq<Piece>): nat {
    if ps == [] then 0 else (if ps[0].Attr? then 1 else 0) + Matches(ps[1..])
  }

  /** Each piece is what the first-listed attribute at its position decides; once no more than
      a window is left and nothing matches at its start, the rest is copied. */
  ghost predicate Parse(p: Prefixer, ps: seq<Piece>)
    decreases ps
  {
    if ps == [] then Match([], p.attrs) == NoMatch
    else
      var s := InputOf(ps);
      match Match(s, p.attrs)
      case Overrun => false
      case Matched(a) => ps[0] == Attr(a) && Parse(p, ps[1..])
      case NoMatch =>
        if |s| <= MaxLen(p.attrs) || |s| <= 1 then forall x :: x in ps ==> x.Copied?
        else ps[0].Copied? && Parse(p, ps[1..])
  }

  function Copies(s: Bytes): (ps: seq<Piece>)
    ensures |ps| == |s| && (forall x :: x in ps ==> x.Copied?)
    ensures InputOf(ps) == s && Matches(ps) == 0
    ensures forall prefix :: OutputOf(ps, prefix) == s
  {
    if s == [] then [] else [Copied(s[0])] + Copies(s[1..])
  }

  lemma ParseStep(p: Prefixer, x: Piece, rest: seq<Piece>, s: Bytes)
    requires Parse(p, rest) && s == (match x case Copied(b) => [b] case Attr(a) => a) + InputOf(rest)
    requires match Match(s, p.attrs)
             case Matched(a) => x == Attr(a)
             case NoMatch => x.Copied? && |s| > MaxLen(p.attrs) && |s| > 1
             case Overrun => false
    ensures Parse(p, [x] + rest) && InputOf([x] + rest) == s
  {
    assert ([x] + rest)[1..] == rest;
  }

  /** The rewrite is read off a parse of the input. */
  lemma {:induction false} RewriteParses(p: Prefixer, s: Bytes) returns (ps: seq<Piece>)
    requires Rewrite(p, s).Written?
    ensures Parse(p, ps) && InputOf(ps) == s
    ensures Rewrite(p, s) == Written(OutputOf(ps, p.prefix))
    decreases |s|
  {
    MatchSound(s, p.attrs);
    var m := Match(s, p.attrs);
    if m.Matched? {
      var rest := RewriteParses(p, s[|m.attr|..]);
      ps := [Attr(m.attr)] + rest;
      ParseStep(p, Attr(m.attr), rest, s);
      assert ps[1..] == rest;
    } else if |s| <= MaxLen(p.attrs) || |s| <= 1 {
      ps := Copies(s);
    } else {
      var rest := RewriteParses(p, s[1..]);
      ps := [Copied(s[0])] + rest;
      ParseStep(p, Copied(s[0]), rest, s);
      assert ps[1..] == rest;
    }
  }

  /** Conversely every parse of an input is its rewrite, so a parse is unique in its output. */
  lemma {:induction false} ParseRewrites(p: Prefixer, ps: seq<Piece>)
    requires Parse(p, ps)
    ensures Rewrite(p, InputOf(ps)) == Written(OutputOf(ps, p.prefix))
    decreases |ps|
  {
    var s := InputOf(ps);
    MatchSound(s, p.attrs);
    if ps != [] {
      match Match(s, p.attrs)
      case Matched(a) =>
        ParseRewrites(p, ps[1..]);
        assert s[|a|..] == InputOf(ps[1..]);
      case NoMatch =>
        if |s| <= MaxLen(p.attrs) || |s| <= 1 {
          AllCopied(ps, p.prefix);
        } else {
          ParseRewrites(p, ps[1..]);
          assert s[1..] == InputOf(ps[1..]);
        }
      case Overrun =>
    }
  }

  lemma {:induction false} AllCopied(ps: seq<Piece>, prefix: Bytes)
    requires forall x :: x in ps ==> x.Copied?
    ensures OutputOf(ps, prefix) == InputOf(ps) && Matches(ps) == 0
  {
    if ps != [] { AllCopied(ps[1..], prefix); }
  }

  /** Taking the inserted prefixes out of the output (prefix [] instead) leaves the input, and
      the output is longer by one prefix a match. */
  lemma {:induction false} Conservation(ps: seq<Piece>, prefix: Bytes)
    ensures OutputOf(ps, []) == InputOf(ps)
    ensures |OutputOf(ps, prefix)| == |InputOf(ps)| + Matches(ps) * |prefix|
  {
    if ps != [] {
      Conservation(ps[1..], prefix);
      assert Matches(ps) == (if ps[0].Attr? then 1 else 0) + Matches(ps[1..]);
      if ps[0].Attr? {
        assert (1 + Matches(ps[1..])) * |prefix| == |prefix| + Matches(ps[1..]) * |prefix|;
        assert ps[0].a + [] == ps[0].a;
      }
    }
  }

  lemma {:induction false} ParseIgnoresPrefix(p: Prefixer, q: Prefixer, ps: seq<Piece>)
    requires p.attrs == q.attrs
    ensures Parse(p, ps) <==> Parse(q, ps)
    decreases |ps|
  {
    if ps != [] { ParseIgnoresPrefix(p, q, ps[1..]); }
  }

  /** Of what is written: without the prefixes it is the input, and it is longer by one prefix for
      every match. */
  lemma Conserved(p: Prefixer, s: Bytes) returns (ps: seq<Piece>)
    requires Rewrite(p, s).Written?
    ensures Rewrite(p.(prefix := []), s) == Written(s)
    ensures Parse(p, ps) && InputOf(ps) == s && |Rewrite(p, s).out| == |s| + Matches(ps) * |p.prefix|
  {
    ps := RewriteParses(p, s);
    Conservation(ps, p.prefix);
    ParseIgnoresPrefix(p, p.(prefix := []), ps);
    ParseRewrites(p.(prefix := []), ps);
  }

  // ---------------------------------------------------------------- the documented promise

  /** The first non-empty attribute that occurs at the start of the subject. */
  function Occurring(subject: Bytes, targets: seq<Bytes>): MatchResult {
    if targets == [] then NoMatch
    else if 0 < |targets[0]| <= |subject| && subject[..|targets[0]|] == targets[0] then Matched(targets[0])
    else Occurring(subject, targets[1..])
  }

  lemma {:induction false} OccurringSound(subject: Bytes, targets: seq<Bytes>)
    ensures var m := Occurring(subject, targets);
      && (m.Matched? ==> m.attr in targets && 0 < |m.attr| <= |subject| && subject[..|m.attr|] == m.attr)
      && (!m.Matched? ==> m.NoMatch? && forall t :: t in targets && 0 < |t| <= |subject| ==> subject[..|t|] != t)
  {
    if targets != [] { OccurringSound(subject, targets[1..]); }
  }

  /** Every occurrence of an attribute, scanned from the left, is followed by the prefix. */
  function RewriteAll(p: Prefixer, s: Bytes): Bytes
    decreases |s|
  {
    OccurringSound(s, p.attrs);
    var m := Occurring(s, p.attrs);
    if s == [] then []
    else if m.Matched? then m.attr + p.prefix + RewriteAll(p, s[|m.attr|..])
    else [s[0]] + RewriteAll(p, s[1..])
  }

  ghost predicate OccursIn(p: Prefixer, s: Bytes) {
    exists i :: 0 <= i < |s| && Occurring(s[i..], p.attrs).Matched?
  }

  lemma {:induction false} MatchIsOccurring(subject: Bytes, targets: seq<Bytes>)
    requires [] !in targets && !Match(subject, targets).Overrun?
    ensures Match(subject, targets) == Occurring(subject, targets)
  {
    if targets != [] && subject[..|targets[0]|] != targets[0] {
      MatchIsOccurring(subject, targets[1..]);
    }
  }

  lemma OccursInTail(p: Prefixer, s: Bytes)
    requires s != []
    ensures OccursIn(p, s) <==> Occurring(s, p.attrs).Matched? || OccursIn(p, s[1..])
  {
    assert s[0..] == s;
    forall i | 1 <= i < |s| ensures s[i..] == s[1..][i - 1..] { }
    if OccursIn(p, s[1..]) {
      var j :| 0 <= j < |s[1..]| && Occurring(s[1..][j..], p.attrs).Matched?;
      assert s[j + 1..] == s[1..][j..];
    }
  }

  lemma {:induction false} RewriteAllGrows(p: Prefixer, s: Bytes)
    ensures |RewriteAll(p, s)| >= |s|
    ensures p.prefix != [] && OccursIn(p, s) ==> |RewriteAll(p, s)| > |s|
    decreases |s|
  {
    OccurringSound(s, p.attrs);
    if s != [] {
      OccursInTail(p, s);
      var m := Occurring(s, p.attrs);
      RewriteAllGrows(p, s[if m.Matched? then |m.attr| else 1..]);
    }
  }

  lemma {:induction false} RewriteAllCopies(p: Prefixer, s: Bytes)
    requires p.prefix == [] || !OccursIn(p, s)
    ensures RewriteAll(p, s) == s
    decreases |s|
  {
    OccurringSound(s, p.attrs);
    if s != [] {
      OccursInTail(p, s);
      var m := Occurring(s, p.attrs);
      if m.Matched? {
        RewriteAllCopies(p, s[|m.attr|..]);
        assert m.attr + [] + s[|m.attr|..] == s;
      } else {
        RewriteAllCopies(p, s[1..]);
        assert s == [s[0]] + s[1..];
      }
    }
  }

  lemma NothingToRewrite(p: Prefixer, s: Bytes)
    ensures RewriteAll(p, s) == s <==> p.prefix == [] || !OccursIn(p, s)
  {
    if p.prefix == [] || !OccursIn(p, s) { RewriteAllCopies(p, s); } else { RewriteAllGrows(p, s); }
  }

  // ---------------------------------------------------------------- which inputs are written

  /** The matches of the scan from i on, from left to right and not overlapping: start and end. */
  function Hits(p: Prefixer, s: Bytes, i: nat): seq<(nat, nat)>
    requires i <= |s|
    decreases |s| - i
  {
    OccurringSound(s[i..], p.attrs);
    var m := Occurring(s[i..], p.attrs);
    if i == |s| then []
    else if m.Matched? then [(i, i + |m.attr|)] + Hits(p, s, i + |m.attr|)
    else Hits(p, s, i + 1)
  }

  /** From i on there is a window, and no match that begins up to the last window ends inside it. */
  predicate Whole(p: Prefixer, s: Bytes, i: nat)
    requires i <= |s|
  {
    var w := MaxLen(p.attrs);
    i + w <= |s| && forall h :: h in Hits(p, s, i) ==> (h.0 + w <= |s| ==> h.1 + w <= |s|)
  }

  lemma {:induction false} HitsFrom(p: Prefixer, s: Bytes, i: nat, h: (nat, nat))
    requires i <= |s| && h in Hits(p, s, i)
    ensures i <= h.0 < h.1 <= |s| && h.1 - h.0 <= MaxLen(p.attrs)
    decreases |s| - i
  {
    OccurringSound(s[i..], p.attrs);
    MaxLenIsLongest(p.attrs);
    var m := Occurring(s[i..], p.attrs);
    if !m.Matched? {
      HitsFrom(p, s, i + 1, h);
    } else if h != (i, i + |m.attr|) {
      HitsFrom(p, s, i + |m.attr|, h);
    }
  }

  /** Less than a window: whatever matches first, the longest attribute is reached in the end. */
  lemma {:induction false} ShortOverruns(p: Prefixer, s: Bytes)
    requires [] !in p.attrs && |s| < MaxLen(p.attrs)
    ensures Rewrite(p, s).Overran?
    decreases |s|
  {
    MatchSound(s, p.attrs);
    var m := Match(s, p.attrs);
    if m.NoMatch? { NoMatchFits(s, p.attrs); }
    if m.Matched? { ShortOverruns(p, s[|m.attr|..]); }
  }

  lemma {:induction false} NoMatchFits(subject: Bytes, targets: seq<Bytes>)
    requires [] !in targets && Match(subject, targets).NoMatch?
    ensures MaxLen(targets) <= |subject|
  {
    if targets != [] { NoMatchFits(subject, targets[1..]); }
  }

  /** One step of the scan, while a window is left. */
  lemma WholeStep(p: Prefixer, s: Bytes, i: nat)
    requires [] !in p.attrs && i < |s| && i + MaxLen(p.attrs) <= |s|
    ensures var m := Match(s[i..], p.attrs);
      && (m == Occurring(s[i..], p.attrs)) && (m.Matched? || m.NoMatch?)
      && (m.Matched? ==> i + |m.attr| <= |s| && 0 < |m.attr| && (Whole(p, s, i) <==> Whole(p, s, i + |m.attr|)))
      && (m.NoMatch? && i + MaxLen(p.attrs) < |s| ==> (Whole(p, s, i) <==> Whole(p, s, i + 1)))
      && (m.NoMatch? && i + MaxLen(p.attrs) == |s| ==> Whole(p, s, i))
  {
    NoOverrun(s[i..], p.attrs);
    MatchIsOccurring(s[i..], p.attrs);
    MatchSound(s[i..], p.attrs);
    var m := Match(s[i..], p.attrs);
    if m.Matched? {
      assert Hits(p, s, i) == [(i, i + |m.attr|)] + Hits(p, s, i + |m.attr|);
    } else {
      assert Hits(p, s, i) == Hits(p, s, i + 1);
      forall h | h in Hits(p, s, i + 1) ensures h.0 > i { HitsFrom(p, s, i + 1, h); }
    }
  }

  /** The loop never looks past its window exactly when a window is left after every match up to the
      last one. */
  lemma {:induction false} WithinWindowIff(p: Prefixer, s: Bytes, i: nat)
    requires [] !in p.attrs && i <= |s|
    ensures Rewrite(p, s[i..]).Written? <==> Whole(p, s, i)
    decreases |s| - i
  {
    if i + MaxLen(p.attrs) > |s| {
      ShortOverruns(p, s[i..]);
    } else if i == |s| {
      NoOverrun(s[i..], p.attrs);
      MatchSound(s[i..], p.attrs);
    } else {
      WholeStep(p, s, i);
      var m := Match(s[i..], p.attrs);
      if m.Matched? {
        WithinWindowIff(p, s, i + |m.attr|);
        assert s[i..][|m.attr|..] == s[i + |m.attr|..];
      } else if i + MaxLen(p.attrs) < |s| {
        WithinWindowIff(p, s, i + 1);
        assert s[i..][1..] == s[i + 1..];
      }
    }
  }

  function LastWindow(p: Prefixer, s: Bytes): Bytes
    requires MaxLen(p.attrs) <= |s|
  {
    s[|s| - MaxLen(p.attrs)..]
  }

  ghost predicate PromiseFrom(p: Prefixer, s: Bytes, i: nat)
    requires i <= |s|
  {
    Rewrite(p, s[i..]) == Written(RewriteAll(p, s[i..]))
  }

  /** Where the response is written, the scan keeps the promise of the documentation from i on
      exactly when it does so in the last window. */
  lemma {:induction false} PromiseKeptFrom(p: Prefixer, s: Bytes, i: nat)
    requires [] !in p.attrs && i <= |s| && Whole(p, s, i)
    ensures PromiseFrom(p, s, i) <==> PromiseInLastWindow(p, s)
    decreases |s| - i
  {
    if i == |s| {
      NoOverrun(s[i..], p.attrs);
      MatchSound(s[i..], p.attrs);
    } else {
      WholeStep(p, s, i);
      if Match(s[i..], p.attrs).Matched? {
        PromiseKeptFrom(p, s, i + |Match(s[i..], p.attrs).attr|);
        PromiseAfterMatch(p, s, i);
      } else if i + MaxLen(p.attrs) < |s| && i + 1 < |s| {
        PromiseKeptFrom(p, s, i + 1);
        ShiftStep(p, s, i);
      } else {
        LastByte(p, s, i);
      }
    }
  }

  ghost predicate PromiseInLastWindow(p: Prefixer, s: Bytes)
    requires MaxLen(p.attrs) <= |s|
  {
    p.prefix == [] || !OccursIn(p, LastWindow(p, s))
  }

  lemma PromiseAfterMatch(p: Prefixer, s: Bytes, i: nat)
    requires i < |s| && Match(s[i..], p.attrs).Matched? && Match(s[i..], p.attrs) == Occurring(s[i..], p.attrs)
    requires i + |Match(s[i..], p.attrs).attr| <= |s|
    ensures var j := i + |Match(s[i..], p.attrs).attr|;
      PromiseFrom(p, s, i) <==> PromiseFrom(p, s, j)
  {
    MatchSound(s[i..], p.attrs);
    var a := Match(s[i..], p.attrs).attr;
    var rest := s[i + |a|..];
    assert s[i..][|a|..] == rest;
    SameAfter(a + p.prefix, Rewrite(p, rest), RewriteAll(p, rest));
  }

  lemma SameAfter(b: Bytes, o: Outcome, out: Bytes)
    ensures Prepend(b, o) == Written(b + out) <==> o == Written(out)
  {
    if o.Written? {
      assert (b + o.out)[|b|..] == o.out && (b + out)[|b|..] == out;
    }
  }

  /** The scan stops at the last window, or at the last byte when there are no attributes. */
  lemma LastByte(p: Prefixer, s: Bytes, i: nat)
    requires [] !in p.attrs && i + MaxLen(p.attrs) <= |s| && i < |s|
    requires Match(s[i..], p.attrs).NoMatch? && (i + MaxLen(p.attrs) == |s| || i + 1 == |s|)
    ensures Rewrite(p, s[i..]) == Written(s[i..])
    ensures PromiseFrom(p, s, i) <==> PromiseInLastWindow(p, s)
  {
    var t := s[i..];
    NothingToRewrite(p, t);
    if i + MaxLen(p.attrs) == |s| {
      assert LastWindow(p, s) == t;
    } else {
      NoOverrun(t, p.attrs);
      MatchIsOccurring(t, p.attrs);
      assert t[0..] == t && LastWindow(p, s) == [];
    }
  }

  // ---------------------------------------------------------------- what lies behind the window

  /** The response, whatever lies behind the window. */
  ghost predicate Always(p: Prefixer, s: Bytes, r: Response) {
    forall spare: Spare :: Respond(p, s, spare) == r
  }

  /** Where only the input is looked at, the spare bytes do not matter. */
  lemma {:induction false} SpareUnseen(p: Prefixer, s: Bytes, spare: Spare)
    requires Rewrite(p, s).Written?
    ensures Respond(p, s, spare) == Completed(Rewrite(p, s).out)
    decreases |s|
  {
    MatchSound(s, p.attrs);
    MatchMore(s, spare(|s|), p.attrs);
    var m := Match(s, p.attrs);
    if m.Matched? {
      SpareUnseen(p, s[|m.attr|..], spare);
    } else if |s| > MaxLen(p.attrs) && |s| > 1 {
      SpareUnseen(p, s[1..], spare);
    }
  }

  /** Where the array ends with the window, looking past it panics. */
  lemma {:induction false} NoSpare(p: Prefixer, s: Bytes, spare: Spare)
    requires Rewrite(p, s).Overran? && forall n :: spare(n) == []
    ensures Respond(p, s, spare) == Panicked
    decreases |s|
  {
    MatchSound(s, p.attrs);
    assert s + spare(|s|) == s;
    var m := Match(s, p.attrs);
    if m.Matched? {
      NoSpare(p, s[|m.attr|..], spare);
    } else if m.NoMatch? {
      NoSpare(p, s[1..], spare);
    }
  }

  /** With room enough behind the window there is no panic. */
  lemma {:induction false} EnoughSpare(p: Prefixer, s: Bytes, spare: Spare)
    requires forall n :: |spare(n)| >= MaxLen(p.attrs)
    ensures !Respond(p, s, spare).Panicked?
    decreases |s|
  {
    NoOverrun(s + spare(|s|), p.attrs);
    MatchSound(s + spare(|s|), p.attrs);
    var m := Match(s + spare(|s|), p.attrs);
    if m.Matched? && s != [] {
      EnoughSpare(p, After(s, |m.attr|), spare);
    } else if m.NoMatch? && |s| > MaxLen(p.attrs) && |s| > 1 {
      EnoughSpare(p, s[1..], spare);
    }
  }

  /** The input alone decides what is done exactly when a window is left after every match up to the
      last one. */
  lemma DeterminedIff(p: Prefixer, s: Bytes)
    requires [] !in p.attrs
    ensures (exists r :: Always(p, s, r)) <==> Whole(p, s, 0)
    ensures Whole(p, s, 0) ==> Rewrite(p, s).Written? && Always(p, s, Completed(Rewrite(p, s).out))
  {
    assert s[0..] == s;
    WithinWindowIff(p, s, 0);
    if Whole(p, s, 0) {
      var r := Completed(Rewrite(p, s).out);
      forall spare: Spare ensures Respond(p, s, spare) == r { SpareUnseen(p, s, spare); }
      assert Always(p, s, r);
    } else {
      var none: Spare, much: Spare := n => [], n => seq(MaxLen(p.attrs), i => 0);
      NoSpare(p, s, none);
      EnoughSpare(p, s, much);
      assert forall r :: Always(p, s, r) ==> Respond(p, s, none) == r == Respond(p, s, much);
    }
  }

  /** Whatever lies behind the window, the handler keeps the promise of its documentation, to prefix
      all occurrences, exactly when a window is left after every match up to the last one and the last
      window holds no attribute (or there is nothing to insert). */
  lemma PromiseKept(p: Prefixer, s: Bytes)
    requires [] !in p.attrs
    ensures Always(p, s, Completed(RewriteAll(p, s))) <==>
      Whole(p, s, 0) && (p.prefix == [] || !OccursIn(p, LastWindow(p, s)))
  {
    assert s[0..] == s;
    DeterminedIff(p, s);
    if Whole(p, s, 0) {
      PromiseKeptFrom(p, s, 0);
      var some: Spare := n => [];
      assert Respond(p, s, some) == Completed(Rewrite(p, s).out);
    }
  }

  ghost predicate HarmlessAt(p: Prefixer, s: Bytes, i: nat, spare: Spare)
    requires i <= |s|
  {
    Match(s[i..] + spare(|s| - i), p.attrs) == Occurring(s[i..], p.attrs)
  }

  /** What lies behind the window never completes an attribute, nor ends within one. */
  ghost predicate Harmless(p: Prefixer, s: Bytes, spare: Spare) {
    forall i :: 0 <= i <= |s| ==> HarmlessAt(p, s, i, spare)
  }

  /** Of the matches from i on, those that begin after the start of the last window stand each right
      behind another one, or at i. */
  ghost predicate Chained(p: Prefixer, s: Bytes, i: nat)
    requires i <= |s|
  {
    var hs := Hits(p, s, i);
    forall h :: h in hs ==> h.0 + MaxLen(p.attrs) <= |s| || h.0 == i || Follows(hs, h)
  }

  ghost predicate Follows(hs: seq<(nat, nat)>, h: (nat, nat)) {
    exists g :: g in hs && g.1 == h.0
  }

  ghost predicate AllPrefixed(p: Prefixer, s: Bytes, i: nat, spare: Spare)
    requires i <= |s|
  {
    Respond(p, s[i..], spare) == Completed(RewriteAll(p, s[i..]))
  }

  ghost predicate Finishes(p: Prefixer, s: Bytes, i: nat, spare: Spare)
    requires i <= |s|
  {
    Respond(p, s[i..], spare).Completed?
  }

  lemma {:induction false} OccursIffHits(p: Prefixer, s: Bytes, i: nat)
    requires i <= |s|
    ensures OccursIn(p, s[i..]) <==> Hits(p, s, i) != []
    decreases |s| - i
  {
    if i < |s| {
      OccursInTail(p, s[i..]);
      assert s[i..][1..] == s[i + 1..];
      if Occurring(s[i..], p.attrs).NoMatch? { OccursIffHits(p, s, i + 1); }
      OccurringSound(s[i..], p.attrs);
    }
  }

  lemma ChainedMatch(p: Prefixer, s: Bytes, i: nat, j: nat)
    requires i < j <= |s| && Occurring(s[i..], p.attrs) == Matched(s[i..j])
    ensures Chained(p, s, i) <==> Chained(p, s, j)
  {
    var hs, more := Hits(p, s, i), Hits(p, s, j);
    assert hs == [(i, j)] + more;
    forall h | h in more ensures h.0 >= j && (Follows(hs, h) <==> h.0 == j || Follows(more, h)) {
      HitsFrom(p, s, j, h);
      assert (i, j) in hs;
      assert forall g :: g in hs <==> g == (i, j) || g in more;
    }
    assert forall h :: h in hs <==> h == (i, j) || h in more;
  }

  lemma ChainedShift(p: Prefixer, s: Bytes, i: nat)
    requires i < |s| && Occurring(s[i..], p.attrs).NoMatch?
    ensures i + MaxLen(p.attrs) < |s| ==> (Chained(p, s, i) <==> Chained(p, s, i + 1))
    ensures i + MaxLen(p.attrs) >= |s| ==> (Chained(p, s, i) <==> Hits(p, s, i) == [])
  {
    var hs := Hits(p, s, i);
    assert hs == Hits(p, s, i + 1);
    forall h | h in hs ensures h.0 >= i + 1 { HitsFrom(p, s, i + 1, h); }
    if hs != [] { FirstFollowsNone(p, s, i); }
  }

  lemma {:induction false} FirstFollowsNone(p: Prefixer, s: Bytes, i: nat)
    requires i <= |s| && Hits(p, s, i) != []
    ensures var hs := Hits(p, s, i); hs[0] in hs && !Follows(hs, hs[0])
    decreases |s| - i
  {
    OccurringSound(s[i..], p.attrs);
    var m := Occurring(s[i..], p.attrs);
    if m.Matched? {
      var hs := Hits(p, s, i);
      forall g | g in hs ensures g.1 != hs[0].0 { HitsFrom(p, s, i, g); }
    } else {
      FirstFollowsNone(p, s, i + 1);
    }
  }

  /** The scan goes on from i to j. */
  ghost predicate GoesOn(p: Prefixer, s: Bytes, i: nat, j: nat, spare: Spare) {
    && i < j <= |s| && (AllPrefixed(p, s, i, spare) <==> AllPrefixed(p, s, j, spare))
    && (Finishes(p, s, i, spare) <==> Finishes(p, s, j, spare)) && (Chained(p, s, i) <==> Chained(p, s, j))
  }

  ghost predicate Stops(p: Prefixer, s: Bytes, i: nat, spare: Spare)
    requires i <= |s|
  {
    Finishes(p, s, i, spare) && (AllPrefixed(p, s, i, spare) <==> p.prefix == [] || Chained(p, s, i))
  }

  lemma SamePieces(p: Prefixer, s: Bytes, i: nat, j: nat, spare: Spare, b: Bytes)
    requires i <= |s| && j <= |s| && Respond(p, s[i..], spare) == Preceded(b, Respond(p, s[j..], spare))
    requires RewriteAll(p, s[i..]) == b + RewriteAll(p, s[j..])
    ensures AllPrefixed(p, s, i, spare) <==> AllPrefixed(p, s, j, spare)
    ensures Finishes(p, s, i, spare) <==> Finishes(p, s, j, spare)
  {
    SameCompleted(b, Respond(p, s[j..], spare), RewriteAll(p, s[j..]));
  }

  /** One step of the response and of the promised replacement. */
  lemma MatchPieces(p: Prefixer, t: Bytes, a: Bytes, rest: Bytes, spare: Spare)
    requires t == a + rest && a != [] && Match(t + spare(|t|), p.attrs) == Occurring(t, p.attrs) == Matched(a)
    ensures Respond(p, t, spare) == Preceded(a + p.prefix, Respond(p, rest, spare))
    ensures RewriteAll(p, t) == a + p.prefix + RewriteAll(p, rest)
  {
    assert t[|a|..] == rest;
  }

  lemma ShiftPieces(p: Prefixer, t: Bytes, spare: Spare)
    requires |t| > 1 && |t| > MaxLen(p.attrs)
    requires Match(t + spare(|t|), p.attrs) == Occurring(t, p.attrs) == NoMatch
    ensures Respond(p, t, spare) == Preceded([t[0]], Respond(p, t[1..], spare))
    ensures RewriteAll(p, t) == [t[0]] + RewriteAll(p, t[1..])
  {
  }

  lemma Beyond(s: Bytes, i: nat, n: nat)
    requires i + n <= |s|
    ensures s[i..][n..] == s[i + n..]
  {
  }

  lemma PrefixedMatch(p: Prefixer, s: Bytes, i: nat, j: nat, spare: Spare)
    requires i < j <= |s| && HarmlessAt(p, s, i, spare) && Occurring(s[i..], p.attrs) == Matched(s[i..j])
    ensures GoesOn(p, s, i, j, spare)
  {
    assert s[i..] == s[i..j] + s[j..];
    MatchPieces(p, s[i..], s[i..j], s[j..], spare);
    ChainedMatch(p, s, i, j);
    SamePieces(p, s, i, j, spare, s[i..j] + p.prefix);
  }

  lemma {:induction false} OccurrenceAt(s: Bytes, i: nat, targets: seq<Bytes>)
    requires i <= |s| && Occurring(s[i..], targets).Matched?
    ensures var j := i + |Occurring(s[i..], targets).attr|;
      i < j <= |s| && Occurring(s[i..], targets) == Matched(s[i..j])
  {
    OccurringSound(s[i..], targets);
    var a := Occurring(s[i..], targets).attr;
    assert s[i..][..|a|] == s[i..i + |a|];
  }

  lemma PrefixedShift(p: Prefixer, s: Bytes, i: nat, spare: Spare)
    requires i + 1 < |s| && i + MaxLen(p.attrs) < |s|
    requires HarmlessAt(p, s, i, spare) && Occurring(s[i..], p.attrs).NoMatch?
    ensures GoesOn(p, s, i, i + 1, spare)
  {
    ShiftPieces(p, s[i..], spare);
    Beyond(s, i, 1);
    ChainedShift(p, s, i);
    SamePieces(p, s, i, i + 1, spare, [s[i..][0]]);
  }

  lemma PrefixedEnd(p: Prefixer, s: Bytes, i: nat, spare: Spare)
    requires i < |s| && (i + MaxLen(p.attrs) >= |s| || i + 1 == |s|)
    requires HarmlessAt(p, s, i, spare) && Occurring(s[i..], p.attrs).NoMatch?
    ensures Stops(p, s, i, spare)
  {
    LastResponse(p, s[i..], spare);
    NothingToRewrite(p, s[i..]);
    OccursIffHits(p, s, i);
    ChainedShift(p, s, i);
    if i + MaxLen(p.attrs) < |s| { NoAttribute(p, s, i); }
  }

  lemma LastResponse(p: Prefixer, t: Bytes, spare: Spare)
    requires Match(t + spare(|t|), p.attrs) == NoMatch && (|t| <= MaxLen(p.attrs) || |t| <= 1)
    ensures Respond(p, t, spare) == Completed(t)
  {
  }

  lemma PrefixedNothing(p: Prefixer, s: Bytes, spare: Spare)
    requires HarmlessAt(p, s, |s|, spare)
    ensures Stops(p, s, |s|, spare)
  {
    OccurringSound(s[|s|..], p.attrs);
    LastResponse(p, s[|s|..], spare);
  }

  lemma {:induction false} MatchedOrNot(subject: Bytes, targets: seq<Bytes>)
    ensures Occurring(subject, targets).Matched? || Occurring(subject, targets).NoMatch?
  {
    if targets != [] { MatchedOrNot(subject, targets[1..]); }
  }

  /** One step: on to j, or the end. */
  lemma PrefixedStep(p: Prefixer, s: Bytes, i: nat, spare: Spare) returns (j: nat)
    requires i <= |s| && HarmlessAt(p, s, i, spare)
    ensures GoesOn(p, s, i, j, spare) || Stops(p, s, i, spare)
  {
    var m := Occurring(s[i..], p.attrs);
    MatchedOrNot(s[i..], p.attrs);
    j := i;
    if i == |s| {
      PrefixedNothing(p, s, spare);
    } else if m.Matched? {
      OccurrenceAt(s, i, p.attrs);
      j := i + |m.attr|;
      PrefixedMatch(p, s, i, j, spare);
    } else if i + MaxLen(p.attrs) < |s| && i + 1 < |s| {
      PrefixedShift(p, s, i, spare);
      j := i + 1;
    } else {
      PrefixedEnd(p, s, i, spare);
    }
  }

  /** While the spare bytes do no harm, the loop goes on with short windows: it prefixes all
      occurrences exactly when those after the start of the last window follow each other closely. */
  lemma {:induction false} PrefixedFrom(p: Prefixer, s: Bytes, i: nat, spare: Spare)
    requires i <= |s| && Harmless(p, s, spare)
    ensures AllPrefixed(p, s, i, spare) <==> p.prefix == [] || Chained(p, s, i)
    ensures Finishes(p, s, i, spare)
    decreases |s| - i
  {
    assert HarmlessAt(p, s, i, spare);
    var j := PrefixedStep(p, s, i, spare);
    if GoesOn(p, s, i, j, spare) { PrefixedFrom(p, s, j, spare); }
  }

  lemma NoAttribute(p: Prefixer, s: Bytes, i: nat)
    requires i + 1 == |s| && Occurring(s[i..], p.attrs).NoMatch?
    ensures Hits(p, s, i) == []
  {
  }

  lemma SameCompleted(b: Bytes, r: Response, out: Bytes)
    ensures Preceded(b, r) == Completed(b + out) <==> r == Completed(out)
  {
    if r.Completed? {
      assert (b + r.out)[|b|..] == r.out && (b + out)[|b|..] == out;
    }
  }

  lemma PrefixedIff(p: Prefixer, s: Bytes, spare: Spare)
    requires Harmless(p, s, spare)
    ensures Respond(p, s, spare) == Completed(RewriteAll(p, s)) <==> p.prefix == [] || Chained(p, s, 0)
    ensures Respond(p, s, spare).Completed?
  {
    assert s[0..] == s;
    PrefixedFrom(p, s, 0, spare);
  }

  // ---------------------------------------------------------------- what is passed on unchanged

  /** An attribute occurs no later than at the start of the last window. */
  ghost predicate OccursBefore(p: Prefixer, s: Bytes, i: nat) {
    exists j :: i <= j && j + MaxLen(p.attrs) <= |s| && j < |s| && Occurring(s[j..], p.attrs).Matched?
  }

  lemma OccursBeforeStep(p: Prefixer, s: Bytes, i: nat)
    requires i < |s| && i + MaxLen(p.attrs) <= |s|
    ensures OccursBefore(p, s, i) <==> Occurring(s[i..], p.attrs).Matched? || OccursBefore(p, s, i + 1)
  {
  }

  lemma ShiftStep(p: Prefixer, s: Bytes, i: nat)
    requires i + 1 < |s| && Match(s[i..], p.attrs).NoMatch? && i + MaxLen(p.attrs) < |s|
    ensures Rewrite(p, s[i..]) == Written(s[i..]) <==> Rewrite(p, s[i + 1..]) == Written(s[i + 1..])
    ensures Occurring(s[i..], p.attrs).NoMatch? ==> (PromiseFrom(p, s, i) <==> PromiseFrom(p, s, i + 1))
  {
    var t, rest := s[i..], s[i + 1..];
    assert t[1..] == rest && t == [t[0]] + rest;
    SameAfter([t[0]], Rewrite(p, rest), rest);
    SameAfter([t[0]], Rewrite(p, rest), RewriteAll(p, rest));
  }

  /** With nothing to insert: exactly when it is written. */
  lemma {:induction false} CopiedFrom(p: Prefixer, s: Bytes, i: nat)
    requires [] !in p.attrs && i <= |s| && p.prefix == []
    ensures Rewrite(p, s[i..]) == Written(s[i..]) <==> Whole(p, s, i)
  {
    WithinWindowIff(p, s, i);
    if Rewrite(p, s[i..]).Written? {
      var ps := Conserved(p, s[i..]);
      assert p.(prefix := []) == p;
    }
  }

  lemma UnchangedShift(p: Prefixer, s: Bytes, i: nat, spare: Spare)
    requires i + 1 < |s| && i + MaxLen(p.attrs) < |s| && Match(s[i..] + spare(|s| - i), p.attrs) == NoMatch
    ensures Respond(p, s[i..], spare) == Completed(s[i..]) <==> Respond(p, s[i + 1..], spare) == Completed(s[i + 1..])
  {
    var t, rest := s[i..], s[i + 1..];
    assert t[1..] == rest && t == [t[0]] + rest;
    RespondShifted(p, t, spare);
    SameCompleted([t[0]], Respond(p, rest, spare), rest);
  }

  /** While a window is left, the input decides whether there is a match. */
  lemma MatchInFull(p: Prefixer, s: Bytes, i: nat, behind: Bytes)
    requires [] !in p.attrs && i + MaxLen(p.attrs) <= |s|
    ensures Match(s[i..] + behind, p.attrs) == Occurring(s[i..], p.attrs)
    ensures Occurring(s[i..], p.attrs).Matched? || Occurring(s[i..], p.attrs).NoMatch?
  {
    NoOverrun(s[i..], p.attrs);
    MatchMore(s[i..], behind, p.attrs);
    MatchIsOccurring(s[i..], p.attrs);
    MatchedOrNot(s[i..], p.attrs);
  }

  /** With a prefix: exactly when no attribute begins before the last window, whatever lies behind it. */
  lemma {:induction false} UnchangedFrom(p: Prefixer, s: Bytes, i: nat, spare: Spare)
    requires [] !in p.attrs && i + MaxLen(p.attrs) <= |s| && p.prefix != []
    ensures Respond(p, s[i..], spare) == Completed(s[i..]) <==> !OccursBefore(p, s, i)
    decreases |s| - i
  {
    MatchInFull(p, s, i, spare(|s| - i));
    if i == |s| {
      LastResponse(p, s[i..], spare);
    } else {
      OccursBeforeStep(p, s, i);
      if Occurring(s[i..], p.attrs).Matched? {
        MatchGrows(p, s[i..], spare);
      } else if i + MaxLen(p.attrs) < |s| && i + 1 < |s| {
        UnchangedShift(p, s, i, spare);
        UnchangedFrom(p, s, i + 1, spare);
      } else {
        LastResponse(p, s[i..], spare);
      }
    }
  }

  lemma {:induction false} RespondGrows(p: Prefixer, s: Bytes, spare: Spare)
    ensures Respond(p, s, spare).Completed? ==> |Respond(p, s, spare).out| >= |s|
    decreases |s|
  {
    MatchSound(s + spare(|s|), p.attrs);
    var m := Match(s + spare(|s|), p.attrs);
    if m.Matched? && s != [] {
      RespondGrows(p, After(s, |m.attr|), spare);
    } else if m.NoMatch? && |s| > MaxLen(p.attrs) && |s| > 1 {
      RespondGrows(p, s[1..], spare);
    }
  }

  lemma MatchGrows(p: Prefixer, s: Bytes, spare: Spare)
    requires Match(s + spare(|s|), p.attrs).Matched? && p.prefix != []
    ensures Respond(p, s, spare) != Completed(s)
  {
    MatchSound(s + spare(|s|), p.attrs);
    RespondGrows(p, After(s, |Match(s + spare(|s|), p.attrs).attr|), spare);
  }

  /** When the primed input is passed on unchanged. */
  lemma UnchangedIff(p: Prefixer, input: Bytes, spare: Spare)
    requires [] !in p.attrs
    ensures var s := Primed(p, input);
      && (p.prefix == [] ==> (Always(p, s, Completed(s)) <==> Whole(p, s, 0)))
      && (p.prefix != [] ==> (Respond(p, s, spare) == Completed(s) <==> !OccursBefore(p, s, 0)))
      && (!OccursIn(p, s) ==> Respond(p, s, spare) == Completed(s))
  {
    var s := Primed(p, input);
    assert s[0..] == s;
    if p.prefix == [] {
      DeterminedIff(p, s);
      CopiedFrom(p, s, 0);
    } else {
      UnchangedFrom(p, s, 0, spare);
    }
    if !OccursIn(p, s) {
      assert !OccursBefore(p, s, 0);
      NoHits(p, s, 0);
    }
  }

  lemma {:induction false} NoHits(p: Prefixer, s: Bytes, i: nat)
    requires i <= |s| && !OccursIn(p, s)
    ensures Hits(p, s, i) == []
    decreases |s| - i
  {
    if i < |s| { NoHits(p, s, i + 1); }
  }

  /** A condition on the input alone: it fills the window, and every occurrence of an attribute
      leaves a whole window behind it. */
  ghost predicate Roomy(p: Prefixer, s: Bytes) {
    && |s| >= MaxLen(p.attrs)
    && forall i: nat, a :: a in p.attrs && OccursAt(s, i, a) ==> i + |a| + MaxLen(p.attrs) <= |s|
  }

  predicate OccursAt(s: Bytes, i: nat, a: Bytes) {
    i + |a| <= |s| && s[i..i + |a|] == a
  }

  lemma {:induction false} RoomyRewrites(p: Prefixer, s: Bytes)
    requires [] !in p.attrs && Roomy(p, s)
    ensures Primed(p, s) == s && Rewrite(p, s) == Written(RewriteAll(p, s))
    decreases |s|
  {
    NoOverrun(s, p.attrs);
    MatchSound(s, p.attrs);
    MatchIsOccurring(s, p.attrs);
    match Match(s, p.attrs)
    case Matched(a) =>
      assert OccursAt(s, 0, a);
      RoomySuffix(p, s, |a|);
      RoomyRewrites(p, s[|a|..]);
    case NoMatch =>
      if |s| <= MaxLen(p.attrs) || |s| <= 1 {
        RoomyEnd(p, s);
        NothingToRewrite(p, s);
      } else {
        RoomySuffix(p, s, 1);
        RoomyRewrites(p, s[1..]);
      }
  }

  /** On such inputs the loop never looks past its window and every occurrence is prefixed. */
  lemma RoomyIsComplete(p: Prefixer, s: Bytes)
    requires [] !in p.attrs && Roomy(p, s)
    ensures Primed(p, s) == s && Always(p, s, Completed(RewriteAll(p, s)))
  {
    RoomyRewrites(p, s);
    forall spare: Spare ensures Respond(p, s, spare) == Completed(RewriteAll(p, s)) { SpareUnseen(p, s, spare); }
  }

  lemma RoomyEnd(p: Prefixer, s: Bytes)
    requires Roomy(p, s) && (|s| <= MaxLen(p.attrs) || |s| <= 1)
    ensures !OccursIn(p, s)
  {
    forall i | 0 <= i < |s| ensures !Occurring(s[i..], p.attrs).Matched? {
      OccurringSound(s[i..], p.attrs);
      MaxLenIsLongest(p.attrs);
      var m := Occurring(s[i..], p.attrs);
      assert m.Matched? ==> OccursAt(s, i, m.attr);
    }
  }

  lemma {:induction false} NoOverrun(subject: Bytes, targets: seq<Bytes>)
    requires MaxLen(targets) <= |subject|
    ensures !Match(subject, targets).Overrun?
  {
    if targets != [] { NoOverrun(subject, targets[1..]); }
  }

  lemma RoomySuffix(p: Prefixer, s: Bytes, n: nat)
    requires Roomy(p, s) && n + MaxLen(p.attrs) <= |s|
    ensures Roomy(p, s[n..])
  {
    var t := s[n..];
    forall i: nat, a | a in p.attrs && OccursAt(t, i, a) ensures i + |a| + MaxLen(p.attrs) <= |t| {
      assert OccursAt(s, n + i, a);
    }
  }

  lemma NoOccurrence(subject: Bytes, t: Bytes, u: Bytes)
    requires |subject| >= |t| > 0 && |subject| >= |u| > 0 && subject[..|t|] != t && subject[..|u|] != u
    ensures Occurring(subject, [t, u]) == NoMatch
  {
    assert [t, u][1..] == [u] && [u][1..] == [];
    assert Occurring(subject, [u]) == Occurring(subject, []);
  }

  /** An attribute in the last window is not prefixed. */
  lemma LastWindowMissed(spare: Spare)
    ensures var p := Prefixer([7], [[1], [2, 3, 4]]);
      Respond(p, [9, 1, 9], spare) == Completed([9, 1, 9]) && RewriteAll(p, [9, 1, 9]) != [9, 1, 9]
  {
    var a: Bytes, b: Bytes, s: Bytes := [1], [2, 3, 4], [9, 1, 9];
    var p := Prefixer([7], [a, b]);
    assert [a, b][1..] == [b] && [b][1..] == [];
    assert MaxLen([]) == 0 && MaxLen([b]) == 3 && MaxLen(p.attrs) == 3;
    assert s[..1][0] == 9 && s[..3][0] == 9;
    NoOccurrence(s, a, b);
    assert s[0..] == s;
    assert !OccursBefore(p, s, 0);
    UnchangedFrom(p, s, 0, spare);
    var t := s[1..];
    assert t == [1, 9] && t[..1] == a;
    assert Occurring(t, p.attrs) == Matched(a);
    assert OccursIn(p, s);
    NothingToRewrite(p, s);
  }
}
