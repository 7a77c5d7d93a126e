/** How many passes the repetition operators make and how long the output
    is, for trees whose every pass emits the same number of runes. */
module Repetition {
  import opened RandSource
  import opened Ranges
  import opened Syntax
  import opened Generation
  import opened Clamping

  /** The number of runes generate emits for `re` whatever the draws, or -1
      when that depends on the draws. The zero-width operators, `.` and
      NoMatch emit nothing; a Repeat whose maximum does not exceed its
      minimum always makes `min` passes. */
  function OutLen(re: Regexp): int
    decreases re, 1
  {
    match re
    case Literal(runes) => |runes|
    case CharClass(runes) => if ClassOk(runes) then 1 else -1
    case Capture(sub) => OutLen(sub)
    case Repeat(min, max, subs) =>
      if max != -1 && max <= min && OutLenAll(subs) >= 0 then min * OutLenAll(subs) else -1
    case Concat(subs) => OutLenAll(subs)
    case Star(_) => -1
    case Plus(_) => -1
    case Quest(_) => -1
    case Alternate(_) => -1
    case _ => 0
  }

  /** The width of one pass over `subs`, or -1. */
  function OutLenAll(subs: seq<Regexp>): int
    decreases subs, 0
  {
    if subs == [] then 0
    else
      var a := OutLenAll(subs[..|subs| - 1]);
      var b := OutLen(subs[|subs| - 1]);
      if a < 0 || b < 0 then -1 else a + b
  }

  /** `n` copies of `runes`, one after the other. */
  function Repeated(runes: seq<int>, n: nat): seq<int> {
    if n == 0 then [] else runes + Repeated(runes, n - 1)
  }

  lemma MulStep(n: nat, w: int)
    requires n > 0
    ensures w + (n - 1) * w == n * w
  {
  }

  /** Lowering Repeat maxima keeps a fixed width. */
  lemma {:induction false} NarrowerWidth(o: Regexp, c: Regexp)
    requires Narrower(o, c) && OutLen(o) >= 0
    ensures OutLen(c) == OutLen(o)
    decreases o, 1
  {
    if o.Capture? {
      NarrowerWidth(o.sub, c.sub);
    } else if o.Concat? || o.Repeat? {
      NarrowerWidthAll(o.subs, c.subs);
    }
  }

  lemma {:induction false} NarrowerWidthAll(os: seq<Regexp>, cs: seq<Regexp>)
    requires NarrowerAll(os, cs) && OutLenAll(os) >= 0
    ensures OutLenAll(cs) == OutLenAll(os)
    decreases os, 0
  {
    if os != [] {
      var n := |os| - 1;
      NarrowerWidthAll(os[..n], cs[..n]);
      NarrowerWidth(os[n], cs[n]);
    }
  }

  /** A tree of fixed width emits exactly that many runes. */
  lemma {:induction false} GenWidth(re: Regexp, limit: nat, draw: Draw, h: seq<nat>)
    requires OutLen(re) >= 0
    ensures |Gen(re, limit, draw, h).out| == OutLen(re)
    decreases Size(re), 1
  {
    match re
    case Capture(sub) => GenWidth(sub, limit, draw, h);
    case Concat(subs) => GenSeqWidth(subs, limit, draw, h);
    case Repeat(min, max, subs) => RepeatWidth(min, max, subs, limit, draw, h);
    case _ =>
  }

  lemma {:induction false} RepeatWidth(min: nat, max: int, subs: seq<Regexp>, limit: nat, draw: Draw, h: seq<nat>)
    requires OutLen(Repeat(min, max, subs)) >= 0
    ensures |Gen(Repeat(min, max, subs), limit, draw, h).out| == OutLen(Repeat(min, max, subs))
    decreases Size(Repeat(min, max, subs)), 0
  {
    var m := EffMax(max, limit);
    assert RepeatCount(min, m, draw, h) == min;
    FixedWidth(subs, min, limit, draw, RepeatHist(min, m, h));
  }

  lemma {:induction false} GenSeqWidth(subs: seq<Regexp>, limit: nat, draw: Draw, h: seq<nat>)
    requires OutLenAll(subs) >= 0
    ensures |GenSeq(subs, limit, draw, h).out| == OutLenAll(subs)
    decreases SizeAll(subs), 2
  {
    if subs != [] {
      var n := |subs| - 1;
      var p := GenSeq(subs[..n], limit, draw, h);
      SizeAllBound(subs, n);
      GenSeqWidth(subs[..n], limit, draw, h);
      GenWidth(subs[n], limit, draw, p.hist);
    }
  }

  /** `n` passes over children of width `w` emit `n * w` runes. */
  lemma {:induction false} FixedWidth(subs: seq<Regexp>, n: nat, limit: nat, draw: Draw, h: seq<nat>)
    requires OutLenAll(subs) >= 0
    ensures |Fixed(subs, n, limit, draw, h).out| == n * OutLenAll(subs)
    decreases SizeAll(subs), 3, n
  {
    if n > 0 {
      var p := GenSeq(subs, limit, draw, h);
      FixedUnfold(subs, n, limit, draw, h);
      GenSeqKeepsWidth(subs, limit, draw, h);
      FixedWidth(p.subs, n - 1, limit, draw, p.hist);
      MulStep(n, OutLenAll(subs));
    }
  }

  /** A redrawing loop started at pass `i` emits `passes - i` times the width. */
  lemma {:induction false} RedrawWidth(subs: seq<Regexp>, bound: nat, i: nat, limit: nat, draw: Draw, h: seq<nat>)
    requires i < bound && OutLenAll(subs) >= 0
    ensures var r := Redraw(subs, bound, i, limit, draw, h); |r.out| == (r.passes - i) * OutLenAll(subs)
    decreases SizeAll(subs), 3, bound - i
  {
    if i < Pick(draw, h, bound) {
      var p := GenSeq(subs, limit, draw, h + [bound]);
      RedrawUnfold(subs, bound, i, limit, draw, h);
      GenSeqKeepsWidth(subs, limit, draw, h + [bound]);
      RedrawWidth(p.subs, bound, i + 1, limit, draw, p.hist);
      RedrawWidthCons(subs, bound, i, limit, draw, h);
    } else {
      RedrawWidthStop(subs, bound, i, limit, draw, h);
    }
  }

  /** A loop that stops at once emits nothing. */
  lemma RedrawWidthStop(subs: seq<Regexp>, bound: nat, i: nat, limit: nat, draw: Draw, h: seq<nat>)
    requires i < bound && Pick(draw, h, bound) <= i
    ensures var r := Redraw(subs, bound, i, limit, draw, h); |r.out| == (r.passes - i) * OutLenAll(subs)
  {
  }

  /** One pass keeps the children's width and emits that many runes. */
  lemma GenSeqKeepsWidth(subs: seq<Regexp>, limit: nat, draw: Draw, h: seq<nat>)
    requires OutLenAll(subs) >= 0
    ensures var p := GenSeq(subs, limit, draw, h);
      |p.out| == OutLenAll(subs) && OutLenAll(p.subs) == OutLenAll(subs)
    decreases SizeAll(subs), 3, 0
  {
    var p := GenSeq(subs, limit, draw, h);
    GenSeqWidth(subs, limit, draw, h);
    GenSeqNarrows(subs, limit, draw, h);
    NarrowerWidthAll(subs, p.subs);
  }

  /** A pass of width `w`, followed by the rest of the loop, adds one `w`. */
  lemma RedrawWidthCons(subs: seq<Regexp>, bound: nat, i: nat, limit: nat, draw: Draw, h: seq<nat>)
    requires i < Pick(draw, h, bound)
    requires var p := GenSeq(subs, limit, draw, h + [bound]);
      var rest := Redraw(p.subs, bound, i + 1, limit, draw, p.hist);
      i + 1 < bound && |p.out| == OutLenAll(subs) && |rest.out| == (rest.passes - (i + 1)) * OutLenAll(subs)
    ensures var r := Redraw(subs, bound, i, limit, draw, h); |r.out| == (r.passes - i) * OutLenAll(subs)
  {
    RedrawUnfold(subs, bound, i, limit, draw, h);
    var p := GenSeq(subs, limit, draw, h + [bound]);
    var rest := Redraw(p.subs, bound, i + 1, limit, draw, p.hist);
    MulStep(rest.passes - i, OutLenAll(subs));
  }

  /** Star: at most `limit` passes (none when the first draw is 0), each of
      the children's width. */
  lemma StarLength(subs: seq<Regexp>, limit: nat, draw: Draw, h: seq<nat>)
    requires OutLenAll(subs) >= 0
    ensures var r := Redraw(subs, limit + 1, 0, limit, draw, h);
      r.passes <= limit && |Gen(Star(subs), limit, draw, h).out| == r.passes * OutLenAll(subs)
      && (Pick(draw, h, limit + 1) == 0 ==> r.passes == 0)
  {
    RedrawWidth(subs, limit + 1, 0, limit, draw, h);
  }

  /** Plus: Intn(limit) + 1 passes, so between 1 and `limit`. */
  lemma PlusLength(subs: seq<Regexp>, limit: nat, draw: Draw, h: seq<nat>)
    requires OutLenAll(subs) >= 0 && limit >= 1
    ensures var count := Pick(draw, h, limit) + 1;
      1 <= count <= limit && |Gen(Plus(subs), limit, draw, h).out| == count * OutLenAll(subs)
  {
    FixedWidth(subs, Pick(draw, h, limit) + 1, limit, draw, h + [limit]);
  }

  /** Quest: no pass or one pass. */
  lemma QuestLength(subs: seq<Regexp>, limit: nat, draw: Draw, h: seq<nat>)
    requires OutLenAll(subs) >= 0
    ensures var n := |Gen(Quest(subs), limit, draw, h).out|;
      n == 0 || n == OutLenAll(subs)
  {
    var r := Redraw(subs, 2, 0, limit, draw, h);
    RedrawWidth(subs, 2, 0, limit, draw, h);
    assert r.passes == 0 || r.passes == 1;
    assert 0 * OutLenAll(subs) == 0 && 1 * OutLenAll(subs) == OutLenAll(subs);
  }

  /** Repeat: max(min, Intn(m + 1)) passes for the clamped maximum `m`, the
      draw made only when `m` exceeds the minimum. */
  lemma RepeatLength(min: nat, max: int, subs: seq<Regexp>, limit: nat, draw: Draw, h: seq<nat>)
    requires OutLenAll(subs) >= 0
    ensures var m := EffMax(max, limit);
      var count := RepeatCount(min, m, draw, h);
      min <= count && (m > min ==> count <= m) && (m <= min ==> count == min)
      && |Gen(Repeat(min, max, subs), limit, draw, h).out| == count * OutLenAll(subs)
  {
    var m := EffMax(max, limit);
    RepeatUnfold(min, max, subs, limit, draw, h);
    FixedWidth(subs, RepeatCount(min, m, draw, h), limit, draw, RepeatHist(min, m, h));
  }

  /** Quest draws again after a pass: a skipped Quest consumes one draw, a
      taken one two draws around its children's. */
  lemma {:induction false} QuestDraws(subs: seq<Regexp>, limit: nat, draw: Draw, h: seq<nat>)
    ensures var r := Redraw(subs, 2, 0, limit, draw, h);
      var p := GenSeq(subs, limit, draw, h + [2]);
      (Pick(draw, h, 2) == 0 ==> r.passes == 0 && r.out == [] && r.hist == h + [2])
      && (Pick(draw, h, 2) == 1 ==> r.passes == 1 && r.out == p.out && r.hist == p.hist + [2])
  {
    var p := GenSeq(subs, limit, draw, h + [2]);
    if Pick(draw, h, 2) == 1 {
      var rest := Redraw(p.subs, 2, 1, limit, draw, p.hist);
      assert rest == Run([], p.subs, p.hist + [2], 1);
      assert p.out + [] == p.out;
    }
  }

  /** One pass over a single literal emits the literal and leaves it alone. */
  lemma LiteralPass(runes: seq<int>, limit: nat, draw: Draw, h: seq<nat>)
    ensures GenSeq([Literal(runes)], limit, draw, h) == Run(runes, [Literal(runes)], h, 1)
  {
    var s := [Literal(runes)];
    assert s[..0] == [];
    assert [] + runes == runes;
    assert [] + [Literal(runes)] == s;
  }

  /** `n` passes over a single literal emit `n` copies of it. */
  lemma {:induction false} LiteralPasses(runes: seq<int>, n: nat, limit: nat, draw: Draw, h: seq<nat>)
    ensures var r := Fixed([Literal(runes)], n, limit, draw, h);
      r.out == Repeated(runes, n) && r.subs == [Literal(runes)]
  {
    if n > 0 {
      LiteralPass(runes, limit, draw, h);
      FixedUnfold([Literal(runes)], n, limit, draw, h);
      LiteralPasses(runes, n - 1, limit, draw, h);
    }
  }

  /** `[a-zA-Z]*` yields at most `limit` letters. */
  lemma LettersStar(limit: nat, draw: Draw, h: seq<nat>)
    ensures var s := Gen(Star([CharClass([65, 90, 97, 122])]), limit, draw, h).out;
      |s| <= limit
  {
    var runes := [65, 90, 97, 122];
    var rs := Pairs(runes);
    assert rs == [Range(65, 90), Range(97, 122)];
    assert ClassOk(runes);
    var subs := [CharClass(runes)];
    assert subs[..0] == [];
    assert OutLenAll(subs) == 1;
    StarLength(subs, limit, draw, h);
  }

  /** `a{3}` yields "aaa" whatever the limit and the draws. */
  lemma ExactRepeat(limit: nat, draw: Draw, h: seq<nat>)
    ensures Gen(Repeat(3, 3, [Literal([97])]), limit, draw, h).out == [97, 97, 97]
  {
    var m := EffMax(3, limit);
    assert RepeatCount(3, m, draw, h) == 3;
    LiteralPasses([97], 3, limit, draw, RepeatHist(3, m, h));
    assert Repeated([97], 3) == [97, 97, 97];
  }

  /** `a{3,6}` with the default limit 10 yields between 3 and 6 runes. */
  lemma BoundedRepeat(draw: Draw, h: seq<nat>)
    ensures 3 <= |Gen(Repeat(3, 6, [Literal([97])]), 10, draw, h).out| <= 6
  {
    var subs := [Literal([97])];
    assert subs[..0] == [];
    assert OutLenAll(subs) == 1;
    RepeatLength(3, 6, subs, 10, draw, h);
  }

  /** Both ends, and every count between, occur: a source answering `n`
      makes `a{3,6}` at limit 10 yield `n` runes. */
  lemma BoundedRepeatReaches(n: nat, h: seq<nat>)
    requires 3 <= n <= 6
    ensures |Gen(Repeat(3, 6, [Literal([97])]), 10, Constant(n), h).out| == n
  {
    var subs := [Literal([97])];
    assert Pick(Constant(n), h, 7) == n;
    assert RepeatCount(3, 6, Constant(n), h) == n;
    assert subs[..0] == [];
    assert OutLenAll(subs) == 1;
    RepeatLength(3, 6, subs, 10, Constant(n), h);
  }

  /** A source that answers `k` makes Alternate emit child `k`. */
  lemma AlternatePicks(subs: seq<Regexp>, k: nat, limit: nat, h: seq<nat>)
    requires k < |subs|
    ensures Gen(Alternate(subs), limit, Constant(k), h).out == Gen(subs[k], limit, Constant(k), h + [|subs|]).out
  {
    assert Pick(Constant(k), h, |subs|) == k;
  }

  /** `a{3,}` generated at limit 5 has the maximum 5 written into it. */
  lemma ClampWritten(draw: Draw, h: seq<nat>)
    ensures Gen(Repeat(3, -1, [Literal([97])]), 5, draw, h).re == Repeat(3, 5, [Literal([97])])
  {
    var m := EffMax(-1, 5);
    RepeatUnfold(3, -1, [Literal([97])], 5, draw, h);
    LiteralPasses([97], RepeatCount(3, m, draw, h), 5, draw, RepeatHist(3, m, h));
  }

  /** Once written, the maximum 5 holds at limit 10 too: at most 5 passes. */
  lemma ClampPersists(d1: Draw, h1: seq<nat>, d2: Draw, h2: seq<nat>)
    ensures 3 <= |Gen(Gen(Repeat(3, -1, [Literal([97])]), 5, d1, h1).re, 10, d2, h2).out| <= 5
  {
    var subs := [Literal([97])];
    ClampWritten(d1, h1);
    assert subs[..0] == [];
    assert OutLenAll(subs) == 1;
    RepeatLength(3, 5, subs, 10, d2, h2);
  }

  /** Without the earlier call, `a{3,}` at limit 10 reaches 10 passes on a
      source that keeps answering 10. */
  lemma UnclampedReaches(h: seq<nat>)
    ensures |Gen(Repeat(3, -1, [Literal([97])]), 10, Constant(10), h).out| == 10
  {
    var subs := [Literal([97])];
    assert Pick(Constant(10), h, 11) == 10;
    assert RepeatCount(3, 10, Constant(10), h) == 10;
    assert subs[..0] == [];
    assert OutLenAll(subs) == 1;
    RepeatLength(3, -1, subs, 10, Constant(10), h);
  }

  /** NoMatch, EmptyMatch, the anchors, `.` and the word boundaries emit
      nothing, draw nothing and are left as they are. */
  lemma Silent(re: Regexp, limit: nat, draw: Draw, h: seq<nat>)
    requires !HasSubs(re) && !re.Literal? && !re.CharClass? && !re.Capture?
    ensures Gen(re, limit, draw, h) == Res([], re, h)
  {
  }

  /** Concat of two children: the first child's output, then the second's,
      generated after the first's draws. */
  lemma ConcatInOrder(a: Regexp, b: Regexp, limit: nat, draw: Draw, h: seq<nat>)
    ensures var x := Gen(a, limit, draw, h);
      var y := Gen(b, limit, draw, x.hist);
      Gen(Concat([a, b]), limit, draw, h).out == x.out + y.out
  {
    ConcatIsPass([a, b], limit, draw, h);
    PassPair(a, b, limit, draw, h);
    OnePass(a, limit, draw, h);
  }

  /** A Concat node is one pass over its children. */
  lemma ConcatIsPass(subs: seq<Regexp>, limit: nat, draw: Draw, h: seq<nat>)
    ensures Gen(Concat(subs), limit, draw, h).out == GenSeq(subs, limit, draw, h).out
  {
  }

  /** A pass over two children: the pass over the first, then the second. */
  lemma PassPair(a: Regexp, b: Regexp, limit: nat, draw: Draw, h: seq<nat>)
    ensures var p := GenSeq([a], limit, draw, h);
      GenSeq([a, b], limit, draw, h).out == p.out + Gen(b, limit, draw, p.hist).out
  {
    var s := [a, b];
    assert s[..1] == [a] && s[1] == b;
  }

  /** A pass over a single child is a walk of that child. */
  lemma OnePass(a: Regexp, limit: nat, draw: Draw, h: seq<nat>)
    ensures var p := GenSeq([a], limit, draw, h);
      var x := Gen(a, limit, draw, h);
      p.out == x.out && p.hist == x.hist
  {
    var x := Gen(a, limit, draw, h);
    assert [a][..0] == [] && [a][0] == a;
    assert GenSeq([], limit, draw, h) == Run([], [], h, 1);
    assert GenSeq([a], limit, draw, h).out == [] + x.out;
  }
}
