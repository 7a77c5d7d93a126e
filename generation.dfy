/** What `generate` (regen.go) computes, as functions of the tree, the limit,
    the random source and its history. Each function returns the output
    runes, the tree as the generator leaves it (Repeat nodes it visited carry
    their clamped maximum, as Go writes `re.Max` in place) and the source's
    new history. */
module Generation {
  import opened RandSource
  import opened Ranges
  import opened Syntax

  /** Output, updated node and history after generating one node. */
  datatype Res = Res(out: seq<int>, re: Regexp, hist: seq<nat>)

  /** Output, updated children, history and number of passes after a loop
      over a list of children. Only `Redraw` needs `passes`, since its count is
      not known in advance; `GenSeq` (one pass) reports 1 and `Fixed` its `n`,
      as bookkeeping. */
  datatype Run = Run(out: seq<int>, subs: seq<Regexp>, hist: seq<nat>, passes: nat)

  /** What generation needs of a tree: a well-formed tree, and no Plus
      when the limit is 0 (Plus would call Intn(0), which panics). */
  predicate Ready(re: Regexp, limit: nat) {
    WellFormed(re) && (limit >= 1 || !HasPlus(re))
  }

  predicate ReadyAll(subs: seq<Regexp>, limit: nat) {
    forall i {:trigger Ready(subs[i], limit)} :: 0 <= i < |subs| ==> Ready(subs[i], limit)
  }

  predicate NarrowerAll(os: seq<Regexp>, cs: seq<Regexp>) {
    |os| == |cs| && forall i {:trigger Narrower(os[i], cs[i])} :: 0 <= i < |os| ==> Narrower(os[i], cs[i])
  }

  /** The maximum a Repeat node is given: the limit when it has no maximum
      or a larger one, its own maximum otherwise. */
  function EffMax(max: int, limit: nat): (m: int)
    ensures m <= limit
    ensures max == -1 ==> m == limit
    ensures max != -1 ==> m <= max
  {
    if max == -1 || limit < max then limit else max
  }

  /** What readiness of a node with children says of the children. */
  lemma ChildrenReady(re: Regexp, limit: nat)
    requires Ready(re, limit) && HasSubs(re)
    ensures ReadyAll(re.subs, limit) && SizeAll(re.subs) < Size(re)
    ensures re.Plus? ==> limit >= 1
    ensures re.Alternate? ==> |re.subs| > 0
  {
  }

  lemma CaptureReady(sub: Regexp, limit: nat)
    requires Ready(Capture(sub), limit)
    ensures Ready(sub, limit) && Size(sub) < Size(Capture(sub))
  {
  }

  /** generate(re): dispatch on the operator. The functions below are total:
      on a tree that is not Ready (where Go would panic in Intn) their value
      is of no interest, and Generate requires a Ready tree. */
  function Gen(re: Regexp, limit: nat, draw: Draw, h: seq<nat>): (r: Res)
    ensures Size(r.re) == Size(re)
    decreases Size(re), 1
  {
    match re
    case Literal(runes) => Res(runes, re, h)
    case CharClass(runes) => GenCharClass(runes, draw, h)
    case Capture(sub) => GenCapture(sub, limit, draw, h)
    case Star(subs) => GenStar(subs, limit, draw, h)
    case Plus(subs) => GenPlus(subs, limit, draw, h)
    case Quest(subs) => GenQuest(subs, limit, draw, h)
    case Repeat(min, max, subs) => GenRepeat(min, max, subs, limit, draw, h)
    case Concat(subs) => GenConcat(subs, limit, draw, h)
    case Alternate(subs) => GenAlternate(subs, limit, draw, h)
    case _ => Res([], re, h)
  }

  /** CharClass: one rune drawn from the intervals. */
  function GenCharClass(runes: seq<int>, draw: Draw, h: seq<nat>): (r: Res)
    ensures r.re == CharClass(runes)
    ensures ClassOk(runes) ==> |r.out| == 1 && InSet(Pairs(runes), r.out[0])
  {
    if !ClassOk(runes) then Res([], CharClass(runes), h)
    else
      var rs := Pairs(runes);
      var k := SetIndex(rs, draw, h);
      Res([SetRune(rs, draw, h)], CharClass(runes), h + [|rs|, rs[k].Width()])
  }

  /** Capture: the child's output, unchanged. */
  function GenCapture(sub: Regexp, limit: nat, draw: Draw, h: seq<nat>): (r: Res)
    ensures Size(r.re) == Size(Capture(sub))
    decreases Size(Capture(sub)), 0
  {
    var x := Gen(sub, limit, draw, h);
    Res(x.out, Capture(x.re), x.hist)
  }

  /** Star: passes while `i < Intn(limit+1)`. */
  function GenStar(subs: seq<Regexp>, limit: nat, draw: Draw, h: seq<nat>): (r: Res)
    ensures Size(r.re) == Size(Star(subs))
    decreases Size(Star(subs)), 0
  {
    var l := Redraw(subs, limit + 1, 0, limit, draw, h);
    Res(l.out, Star(l.subs), l.hist)
  }

  /** Plus: one draw Intn(limit), then that many passes plus one. */
  function GenPlus(subs: seq<Regexp>, limit: nat, draw: Draw, h: seq<nat>): (r: Res)
    ensures Size(r.re) == Size(Plus(subs))
    decreases Size(Plus(subs)), 0
  {
    var count := Pick(draw, h, limit) + 1;
    var l := Fixed(subs, count, limit, draw, h + [limit]);
    Res(l.out, Plus(l.subs), l.hist)
  }

  /** Quest: passes while `i < Intn(2)`, so a taken pass costs a second draw. */
  function GenQuest(subs: seq<Regexp>, limit: nat, draw: Draw, h: seq<nat>): (r: Res)
    ensures Size(r.re) == Size(Quest(subs))
    decreases Size(Quest(subs)), 0
  {
    var l := Redraw(subs, 2, 0, limit, draw, h);
    Res(l.out, Quest(l.subs), l.hist)
  }

  /** Repeat: the node keeps the clamped maximum; max(min, draw) passes. */
  function GenRepeat(min: nat, max: int, subs: seq<Regexp>, limit: nat, draw: Draw, h: seq<nat>): (r: Res)
    ensures Size(r.re) == Size(Repeat(min, max, subs))
    decreases Size(Repeat(min, max, subs)), 0
  {
    var m := EffMax(max, limit);
    var l := Fixed(subs, RepeatCount(min, m, draw, h), limit, draw, RepeatHist(min, m, h));
    Res(l.out, Repeat(min, m, l.subs), l.hist)
  }

  /** The draw of a Repeat node whose (clamped) maximum is `m`: Intn(m+1)
      only when `m` exceeds the minimum, 0 otherwise. */
  function RepeatDraw(min: nat, m: int, draw: Draw, h: seq<nat>): (d: nat)
    ensures m > min ==> d <= m
    ensures m <= min ==> d == 0
  {
    if m > min then Pick(draw, h, m + 1) else 0
  }

  /** Number of passes of a Repeat node: `i < re.Min || i < randMax`. */
  function RepeatCount(min: nat, m: int, draw: Draw, h: seq<nat>): (n: nat)
    ensures min <= n && (m > min ==> n <= m) && (m <= min ==> n == min)
  {
    var d := RepeatDraw(min, m, draw, h);
    if min < d then d else min
  }

  /** The history after a Repeat node's draw, if it makes one. */
  function RepeatHist(min: nat, m: int, h: seq<nat>): seq<nat> {
    if m > min then h + [m + 1] else h
  }

  /** Concat: the children's outputs in order. */
  function GenConcat(subs: seq<Regexp>, limit: nat, draw: Draw, h: seq<nat>): (r: Res)
    ensures Size(r.re) == Size(Concat(subs))
    decreases Size(Concat(subs)), 0
  {
    var l := GenSeq(subs, limit, draw, h);
    Res(l.out, Concat(l.subs), l.hist)
  }

  /** Alternate: the output of the one child at index Intn(len(subs)). */
  function GenAlternate(subs: seq<Regexp>, limit: nat, draw: Draw, h: seq<nat>): (r: Res)
    ensures Size(r.re) == Size(Alternate(subs))
    decreases Size(Alternate(subs)), 0
  {
    if subs == [] then Res([], Alternate(subs), h)
    else
      var k := Pick(draw, h, |subs|);
      SizeAllBound(subs, k);
      var x := Gen(subs[k], limit, draw, h + [|subs|]);
      SizeAllUpdate(subs, k, x.re);
      Res(x.out, Alternate(subs[k := x.re]), x.hist)
  }

  /** One pass over a list of children, left to right (the inner `for _, re
      := range re.Sub` loops): the outputs concatenated in order. */
  function GenSeq(subs: seq<Regexp>, limit: nat, draw: Draw, h: seq<nat>): (r: Run)
    ensures |r.subs| == |subs| && SizeAll(r.subs) == SizeAll(subs)
    decreases SizeAll(subs), 2
  {
    if subs == [] then Run([], [], h, 1)
    else
      var n := |subs| - 1;
      var p := GenSeq(subs[..n], limit, draw, h);
      var x := Gen(subs[n], limit, draw, p.hist);
      SizeAllSnoc(p.subs, x.re);
      Run(p.out + x.out, p.subs + [x.re], x.hist, 1)
  }

  /** A loop whose guard is `i < Intn(bound)`, evaluated afresh before every
      pass (Star with bound limit+1, Quest with bound 2); `i` passes are done. */
  function Redraw(subs: seq<Regexp>, bound: nat, i: nat, limit: nat, draw: Draw, h: seq<nat>): (r: Run)
    requires i < bound
    ensures |r.subs| == |subs| && SizeAll(r.subs) == SizeAll(subs)
    ensures i <= r.passes < bound
    decreases SizeAll(subs), 3, bound - i
  {
    var d := Pick(draw, h, bound);
    if i < d then
      var p := GenSeq(subs, limit, draw, h + [bound]);
      var rest := Redraw(p.subs, bound, i + 1, limit, draw, p.hist);
      Run(p.out + rest.out, rest.subs, rest.hist, rest.passes)
    else
      Run([], subs, h + [bound], i)
  }

  /** A loop of exactly `n` passes (Plus, Repeat). */
  function Fixed(subs: seq<Regexp>, n: nat, limit: nat, draw: Draw, h: seq<nat>): (r: Run)
    ensures |r.subs| == |subs| && SizeAll(r.subs) == SizeAll(subs)
    ensures r.passes == n
    decreases SizeAll(subs), 3, n
  {
    if n == 0 then Run([], subs, h, 0)
    else
      var p := GenSeq(subs, limit, draw, h);
      var rest := Fixed(p.subs, n - 1, limit, draw, p.hist);
      Run(p.out + rest.out, rest.subs, rest.hist, rest.passes + 1)
  }

  /** A Repeat node is a fixed loop of max(min, draw) passes under the
      clamped maximum, which the node keeps. */
  lemma RepeatUnfold(min: nat, max: int, subs: seq<Regexp>, limit: nat, draw: Draw, h: seq<nat>)
    ensures var m := EffMax(max, limit);
      var l := Fixed(subs, RepeatCount(min, m, draw, h), limit, draw, RepeatHist(min, m, h));
      Gen(Repeat(min, max, subs), limit, draw, h) == Res(l.out, Repeat(min, m, l.subs), l.hist)
  {
  }

  /** A redrawing loop whose guard held: one pass, then the rest of the loop. */
  lemma RedrawUnfold(subs: seq<Regexp>, bound: nat, i: nat, limit: nat, draw: Draw, h: seq<nat>)
    requires i < Pick(draw, h, bound)
    ensures i + 1 < bound
    ensures var p := GenSeq(subs, limit, draw, h + [bound]);
      var rest := Redraw(p.subs, bound, i + 1, limit, draw, p.hist);
      Redraw(subs, bound, i, limit, draw, h) == Run(p.out + rest.out, rest.subs, rest.hist, rest.passes)
  {
  }

  /** A counted loop with passes left: one pass, then the rest of the loop. */
  lemma FixedUnfold(subs: seq<Regexp>, n: nat, limit: nat, draw: Draw, h: seq<nat>)
    requires n > 0
    ensures var p := GenSeq(subs, limit, draw, h);
      var rest := Fixed(p.subs, n - 1, limit, draw, p.hist);
      Fixed(subs, n, limit, draw, h) == Run(p.out + rest.out, rest.subs, rest.hist, n)
  {
  }

  /** A loop's remaining result with `acc`, the output of the passes already
      made, in front; the pass count is dropped. */
  function Resume(acc: seq<int>, r: Run): (q: Run)
    ensures q.subs == r.subs && q.hist == r.hist && |q.out| == |acc| + |r.out|
  {
    Run(acc + r.out, r.subs, r.hist, 0)
  }

  /** One pass of a count-controlled loop, taken off the front. */
  lemma FixedStep(subs: seq<Regexp>, n: nat, limit: nat, draw: Draw, h: seq<nat>, acc: seq<int>)
    requires n > 0
    ensures var p := GenSeq(subs, limit, draw, h);
      Resume(acc, Fixed(subs, n, limit, draw, h)) == Resume(acc + p.out, Fixed(p.subs, n - 1, limit, draw, p.hist))
  {
    var p := GenSeq(subs, limit, draw, h);
    var rest := Fixed(p.subs, n - 1, limit, draw, p.hist);
    assert acc + (p.out + rest.out) == (acc + p.out) + rest.out;
  }

  /** One pass of a redrawing loop whose guard held, taken off the front. */
  lemma RedrawStep(subs: seq<Regexp>, bound: nat, i: nat, limit: nat, draw: Draw, h: seq<nat>, acc: seq<int>)
    requires i < Pick(draw, h, bound)
    ensures i + 1 < bound
    ensures var p := GenSeq(subs, limit, draw, h + [bound]);
      Resume(acc, Redraw(subs, bound, i, limit, draw, h)) == Resume(acc + p.out, Redraw(p.subs, bound, i + 1, limit, draw, p.hist))
  {
    var p := GenSeq(subs, limit, draw, h + [bound]);
    var rest := Redraw(p.subs, bound, i + 1, limit, draw, p.hist);
    assert acc + (p.out + rest.out) == (acc + p.out) + rest.out;
  }

  lemma NarrowerAllRefl(s: seq<Regexp>)
    ensures NarrowerAll(s, s)
  {
    forall i | 0 <= i < |s| ensures Narrower(s[i], s[i]) {
      NarrowerRefl(s[i]);
    }
  }

  lemma NarrowerAllTrans(a: seq<Regexp>, b: seq<Regexp>, c: seq<Regexp>)
    requires NarrowerAll(a, b) && NarrowerAll(b, c)
    ensures NarrowerAll(a, c)
  {
    forall i | 0 <= i < |a| ensures Narrower(a[i], c[i]) {
      NarrowerTrans(a[i], b[i], c[i]);
    }
  }
}
