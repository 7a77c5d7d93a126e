/** The Generator of regen.go: a parsed tree, a random source and a repetition
    limit, updated in place by Limit, Seed and Generate. */
module Generators {
  import opened RandSource
  import opened Ranges
  import opened Syntax
  import opened Generation
  import opened Clamping
  import opened Language
  import opened Soundness

  /** defaultLimit */
  const DefaultLimit: nat := 10

  /** `re` is what walks have left of the parsed tree `pattern`: a narrowing
      of it that is still well formed and has no Plus the pattern lacks. */
  ghost predicate Tracks(pattern: Regexp, re: Regexp) {
    WellFormed(pattern) && Narrower(pattern, re) && WellFormed(re) && (HasPlus(re) ==> HasPlus(pattern))
  }

  class Generator {
    /** The tree Generate walks; Repeat nodes carry the maxima written into them. */
    var re: Regexp
    var rand: Source
    var limit: nat
    /** How math/rand turns a seed into a source (its algorithm is not modelled). */
    const seeding: int -> Draw
    /** The tree as the parser returned it. */
    ghost const pattern: Regexp

    ghost predicate Valid()
      reads this
    {
      Tracks(pattern, re)
    }

    /** New, after a successful parse of the pattern into `parsed`; `now`
        stands for time.Now().UnixNano(). */
    constructor (parsed: Regexp, seeding: int -> Draw, now: int)
      requires WellFormed(parsed)
      ensures Valid()
      ensures pattern == parsed && re == parsed && limit == DefaultLimit && this.seeding == seeding
      ensures fresh(rand) && rand.draw == seeding(now) && rand.hist == []
    {
      re := parsed;
      pattern := parsed;
      this.seeding := seeding;
      rand := new Source(seeding(now));
      limit := DefaultLimit;
      NarrowerRefl(parsed);
      NarrowerWellFormed(parsed, parsed);
    }

    /** Limit: a negative value is ignored. */
    method Limit(value: int)
      modifies this`limit
      ensures value >= 0 ==> limit == value
      ensures value < 0 ==> limit == old(limit)
    {
      if value >= 0 {
        limit := value;
      }
    }

    /** Seed: a fresh source; nothing else changes. */
    method Seed(seed: int)
      modifies this`rand
      ensures fresh(rand) && rand.draw == seeding(seed) && rand.hist == []
    {
      rand := new Source(seeding(seed));
    }

    /** Generate: one walk of the tree, which keeps the maxima written during it. */
    method Generate() returns (s: seq<int>)
      requires Valid() && (limit >= 1 || !HasPlus(pattern))
      modifies this`re, rand
      ensures Valid() && rand == old(rand)
      ensures var r := Gen(old(re), limit, rand.draw, old(rand.hist));
        s == r.out && re == r.re && rand.hist == r.hist
      ensures Regular(pattern) ==> Matches(pattern, s)
    {
      var nre;
      GenKeeps(pattern, re, limit, rand.draw, rand.hist);
      s, nre := generate(re);
      re := nre;
    }

    /** generate: dispatch on the operator of `node`; returns the output and
        the node as generation leaves it. */
    method generate(node: Regexp) returns (s: seq<int>, nnode: Regexp)
      requires Ready(node, limit)
      modifies rand
      ensures Res(s, nnode, rand.hist) == Gen(node, limit, rand.draw, old(rand.hist))
      decreases Size(node), 1
    {
      match node
      case Literal(runes) =>
        s := literal(runes);
        nnode := node;
      case CharClass(runes) =>
        s := charClass(runes);
        nnode := node;
      case Capture(sub) => s, nnode := capture(sub);
      case Star(subs) => s, nnode := star(subs);
      case Plus(subs) => s, nnode := plus(subs);
      case Quest(subs) => s, nnode := quest(subs);
      case Repeat(min, max, subs) => s, nnode := repeat(min, max, subs);
      case Concat(subs) => s, nnode := concat(subs);
      case Alternate(subs) => s, nnode := alternate(subs);
      case _ => s, nnode := [], node;
    }

    /** Literal: the runes, appended one by one. */
    method literal(runes: seq<int>) returns (s: seq<int>)
      ensures s == runes
    {
      s := [];
      var i := 0;
      while i < |runes|
        invariant 0 <= i <= |runes| && s == runes[..i]
      {
        s := s + [runes[i]];
        i := i + 1;
      }
    }

    /** CharClass: the intervals are built from consecutive pairs of the rune
        list, then one rune is drawn from them. */
    method charClass(runes: seq<int>) returns (s: seq<int>)
      requires Ready(CharClass(runes), limit)
      modifies rand
      ensures Res(s, CharClass(runes), rand.hist) == GenCharClass(runes, rand.draw, old(rand.hist))
    {
      var rr: seq<Range> := [];
      var i := 0;
      while i < |runes|
        invariant 0 <= i <= |runes| && i % 2 == 0 && |rr| == i / 2
        invariant forall k :: 0 <= k < |rr| ==> rr[k] == Range(runes[2 * k], runes[2 * k + 1])
      {
        rr := rr + [Range(runes[i], runes[i + 1])];
        i := i + 2;
      }
      assert rr == Pairs(runes);
      var v := RandRuneOf(rr, rand);
      s := [v];
    }

    /** Capture: the child's output, with nothing added. */
    method capture(sub: Regexp) returns (s: seq<int>, nnode: Regexp)
      requires Ready(Capture(sub), limit)
      modifies rand
      ensures Res(s, nnode, rand.hist) == Gen(Capture(sub), limit, rand.draw, old(rand.hist))
      decreases Size(Capture(sub)), 0
    {
      CaptureReady(sub, limit);
      s, nnode := generate(sub);
      nnode := Capture(nnode);
    }

    /** Star: `for i := 0; i < g.rand.Intn(g.limit+1); i++`. */
    method star(subs: seq<Regexp>) returns (s: seq<int>, nnode: Regexp)
      requires Ready(Star(subs), limit)
      modifies rand
      ensures Res(s, nnode, rand.hist) == Gen(Star(subs), limit, rand.draw, old(rand.hist))
      decreases Size(Star(subs)), 0
    {
      ChildrenReady(Star(subs), limit);
      var nsubs;
      s, nsubs := redraw(subs, limit + 1);
      nnode := Star(nsubs);
    }

    /** Plus: `count := g.rand.Intn(g.limit) + 1` passes. */
    method plus(subs: seq<Regexp>) returns (s: seq<int>, nnode: Regexp)
      requires Ready(Plus(subs), limit)
      modifies rand
      ensures Res(s, nnode, rand.hist) == Gen(Plus(subs), limit, rand.draw, old(rand.hist))
      decreases Size(Plus(subs)), 0
    {
      ChildrenReady(Plus(subs), limit);
      var count := rand.Intn(limit);
      var nsubs;
      s, nsubs := passes(subs, count + 1);
      nnode := Plus(nsubs);
    }

    /** Quest: `for i := 0; i < g.rand.Intn(2); i++`. */
    method quest(subs: seq<Regexp>) returns (s: seq<int>, nnode: Regexp)
      requires Ready(Quest(subs), limit)
      modifies rand
      ensures Res(s, nnode, rand.hist) == Gen(Quest(subs), limit, rand.draw, old(rand.hist))
      decreases Size(Quest(subs)), 0
    {
      ChildrenReady(Quest(subs), limit);
      var nsubs;
      s, nsubs := redraw(subs, 2);
      nnode := Quest(nsubs);
    }

    /** Concat: one pass over the children. */
    method concat(subs: seq<Regexp>) returns (s: seq<int>, nnode: Regexp)
      requires Ready(Concat(subs), limit)
      modifies rand
      ensures Res(s, nnode, rand.hist) == Gen(Concat(subs), limit, rand.draw, old(rand.hist))
      decreases Size(Concat(subs)), 0
    {
      ChildrenReady(Concat(subs), limit);
      var nsubs;
      s, nsubs := generateAll(subs);
      nnode := Concat(nsubs);
    }

    /** Alternate: `g.generate(re.Sub[g.rand.Intn(len(re.Sub))])`. */
    method alternate(subs: seq<Regexp>) returns (s: seq<int>, nnode: Regexp)
      requires Ready(Alternate(subs), limit)
      modifies rand
      ensures Res(s, nnode, rand.hist) == Gen(Alternate(subs), limit, rand.draw, old(rand.hist))
      decreases Size(Alternate(subs)), 0
    {
      ChildrenReady(Alternate(subs), limit);
      var k := rand.Intn(|subs|);
      SizeAllBound(subs, k);
      var nsub;
      s, nsub := generate(subs[k]);
      nnode := Alternate(subs[k := nsub]);
    }

    /** Repeat: clamps the maximum to the limit and hands the node back with
        it (Go writes it into re.Max), draws only when the maximum exceeds the
        minimum, and makes max(min, draw) passes. */
    method repeat(min: nat, max: int, subs: seq<Regexp>) returns (s: seq<int>, nnode: Regexp)
      requires Ready(Repeat(min, max, subs), limit)
      modifies rand
      ensures Res(s, nnode, rand.hist) == Gen(Repeat(min, max, subs), limit, rand.draw, old(rand.hist))
      decreases Size(Repeat(min, max, subs)), 0
    {
      ChildrenReady(Repeat(min, max, subs), limit);
      var m := max;
      if m == -1 || limit < m {
        m := limit;
      }
      ghost var h := rand.hist;
      var randMax := 0;
      if m > min {
        randMax := rand.Intn(m + 1);
      }
      assert randMax == RepeatDraw(min, m, rand.draw, h) && rand.hist == RepeatHist(min, m, h);
      var count := if min < randMax then randMax else min;
      assert count == RepeatCount(min, m, rand.draw, h) && m == EffMax(max, limit);
      var nsubs;
      s, nsubs := passes(subs, count);
      nnode := Repeat(min, m, nsubs);
    }

    /** One pass over the children: `for _, re := range re.Sub { l += g.generate(re) }`. */
    method generateAll(subs: seq<Regexp>) returns (s: seq<int>, nsubs: seq<Regexp>)
      requires ReadyAll(subs, limit)
      modifies rand
      ensures var r := GenSeq(subs, limit, rand.draw, old(rand.hist));
        s == r.out && nsubs == r.subs && rand.hist == r.hist
      decreases SizeAll(subs), 2
    {
      s, nsubs := [], [];
      var j := 0;
      while j < |subs|
        invariant 0 <= j <= |subs|
        invariant var r := GenSeq(subs[..j], limit, rand.draw, old(rand.hist));
          s == r.out && nsubs == r.subs && rand.hist == r.hist
      {
        assert subs[..j + 1][..j] == subs[..j];
        SizeAllBound(subs, j);
        var x, nx := generate(subs[j]);
        s, nsubs := s + x, nsubs + [nx];
        j := j + 1;
      }
      assert subs[..j] == subs;
    }

    /** `for i := 0; i < g.rand.Intn(bound); i++ { <one pass> }` (Star, Quest). */
    method redraw(subs: seq<Regexp>, bound: nat) returns (s: seq<int>, nsubs: seq<Regexp>)
      requires ReadyAll(subs, limit) && bound > 0
      modifies rand
      ensures var r := Redraw(subs, bound, 0, limit, rand.draw, old(rand.hist));
        s == r.out && nsubs == r.subs && rand.hist == r.hist
      decreases SizeAll(subs), 3
    {
      ghost var draw := rand.draw;
      ghost var total := Redraw(subs, bound, 0, limit, draw, rand.hist);
      s, nsubs := [], subs;
      var i := 0;
      ghost var h := rand.hist;
      var d := rand.Intn(bound);
      while i < d
        invariant 0 <= i < bound && rand.draw == draw && ReadyAll(nsubs, limit)
        invariant d == Pick(draw, h, bound) && rand.hist == h + [bound]
        invariant Resume(s, Redraw(nsubs, bound, i, limit, draw, h)) == Resume([], total)
        decreases bound - i
      {
        RedrawStep(nsubs, bound, i, limit, draw, h, s);
        GenSeqReady(nsubs, limit, draw, rand.hist);
        var x, next := generateAll(nsubs);
        s, nsubs := s + x, next;
        i := i + 1;
        h := rand.hist;
        d := rand.Intn(bound);
      }
      assert s == s + [] && total.out == [] + total.out;
    }

    /** `for i := 0; i < count; i++ { <one pass> }` (Plus, Repeat). */
    method passes(subs: seq<Regexp>, count: nat) returns (s: seq<int>, nsubs: seq<Regexp>)
      requires ReadyAll(subs, limit)
      modifies rand
      ensures var r := Fixed(subs, count, limit, rand.draw, old(rand.hist));
        s == r.out && nsubs == r.subs && rand.hist == r.hist
      decreases SizeAll(subs), 3
    {
      ghost var draw := rand.draw;
      ghost var total := Fixed(subs, count, limit, draw, rand.hist);
      s, nsubs := [], subs;
      var i := 0;
      while i < count
        invariant 0 <= i <= count && rand.draw == draw && ReadyAll(nsubs, limit)
        invariant Resume(s, Fixed(nsubs, count - i, limit, draw, rand.hist)) == Resume([], total)
      {
        FixedStep(nsubs, count - i, limit, draw, rand.hist, s);
        GenSeqReady(nsubs, limit, draw, rand.hist);
        var x, next := generateAll(nsubs);
        s, nsubs := s + x, next;
        i := i + 1;
      }
      assert s == s + [] && total.out == [] + total.out;
    }
  }

  /** A walk of a narrowing of the pattern leaves a narrowing of it, and
      its output is in the pattern's language. */
  lemma GenKeeps(pattern: Regexp, re: Regexp, limit: nat, draw: Draw, h: seq<nat>)
    requires Tracks(pattern, re) && (limit >= 1 || !HasPlus(pattern))
    ensures var r := Gen(re, limit, draw, h);
      Tracks(pattern, r.re) && (Regular(pattern) ==> Matches(pattern, r.out))
  {
    GenNarrows(re, limit, draw, h);
    TracksNarrower(pattern, re, Gen(re, limit, draw, h).re);
    if Regular(pattern) {
      GenSound(pattern, re, limit, draw, h);
    }
  }

  /** Narrowing what is tracked keeps tracking the pattern. */
  lemma TracksNarrower(pattern: Regexp, re: Regexp, nre: Regexp)
    requires Tracks(pattern, re) && Narrower(re, nre)
    ensures Tracks(pattern, nre)
  {
    NarrowerTrans(pattern, re, nre);
    NarrowerWellFormed(re, nre);
    NarrowerHasPlus(re, nre);
  }

  /** Seed followed by Generate: the output depends only on the tree, the
      limit and the seed. */
  method SeededRun(g: Generator, seed: int) returns (s: seq<int>)
    requires g.Valid() && (g.limit >= 1 || !HasPlus(g.pattern))
    modifies g
    ensures var r := Gen(old(g.re), old(g.limit), g.seeding(seed), []);
      s == r.out && g.re == r.re && g.rand.hist == r.hist
    ensures fresh(g.rand) && g.rand.draw == g.seeding(seed) && g.limit == old(g.limit) && g.Valid()
  {
    g.Seed(seed);
    s := g.Generate();
  }

  /** Two generators over the same tree, limit and seeding, seeded alike,
      produce the same string. */
  method SeedReproduces(g1: Generator, g2: Generator, seed: int) returns (s1: seq<int>, s2: seq<int>)
    requires g1 != g2 && g1.Valid() && g2.Valid()
    requires g1.re == g2.re && g1.limit == g2.limit && g1.seeding == g2.seeding
    requires g1.limit >= 1 || (!HasPlus(g1.pattern) && !HasPlus(g2.pattern))
    modifies g1, g2
    ensures s1 == s2
    ensures InStep(g1, g2) && g1.rand != g2.rand && g1.Valid() && g2.Valid()
    ensures fresh(g1.rand) && fresh(g2.rand) && g1.limit == old(g1.limit) && g2.limit == old(g2.limit)
  {
    s1 := SeededRun(g1, seed);
    s2 := SeededRun(g2, seed);
  }

  /** Two generators whose trees, limits and sources agree: the next call
      gives both the same string. */
  ghost predicate InStep(g1: Generator, g2: Generator)
    reads g1, g2, g1.rand, g2.rand
  {
    g1.re == g2.re && g1.limit == g2.limit && g1.rand.draw == g2.rand.draw && g1.rand.hist == g2.rand.hist
  }

  /** A call on each of two generators in step keeps them in step, so after a
      common seed they agree on every later call of the same sequence. */
  method NextCallsAgree(g1: Generator, g2: Generator) returns (s1: seq<int>, s2: seq<int>)
    requires g1 != g2 && g1.rand != g2.rand && g1.Valid() && g2.Valid() && InStep(g1, g2)
    requires g1.limit >= 1 || (!HasPlus(g1.pattern) && !HasPlus(g2.pattern))
    modifies g1, g1.rand, g2, g2.rand
    ensures s1 == s2
    ensures InStep(g1, g2) && g1.rand != g2.rand && g1.Valid() && g2.Valid()
    ensures g1.rand == old(g1.rand) && g2.rand == old(g2.rand) && g1.limit == old(g1.limit) && g2.limit == old(g2.limit)
  {
    s1 := g1.Generate();
    s2 := g2.Generate();
  }

  /** Go's TestSeed loop: both generators are reseeded with the same value
      before each pair of calls, and every pair of outputs agrees. (Go seeds
      both before either generates; the two generators share no state, so
      seeding and generating one after the other gives the same outputs.) */
  method SeedLoop(g1: Generator, g2: Generator, seeds: seq<int>) returns (outs1: seq<seq<int>>, outs2: seq<seq<int>>)
    requires g1 != g2 && g1.Valid() && g2.Valid()
    requires g1.re == g2.re && g1.limit == g2.limit && g1.seeding == g2.seeding
    requires g1.limit >= 1 || (!HasPlus(g1.pattern) && !HasPlus(g2.pattern))
    modifies g1, g2
    ensures |outs1| == |seeds| && outs1 == outs2
  {
    outs1, outs2 := [], [];
    var i := 0;
    while i < |seeds|
      invariant 0 <= i <= |seeds| && |outs1| == i && outs1 == outs2
      invariant g1.Valid() && g2.Valid() && g1.re == g2.re
      invariant g1.limit == old(g1.limit) && g2.limit == old(g2.limit)
    {
      var re1, re2 := SeedReproduces(g1, g2, seeds[i]);
      outs1, outs2 := outs1 + [re1], outs2 + [re2];
      i := i + 1;
    }
  }

  /** Seeding, two later calls and a reseed, chained: the generators agree
      at every step. */
  method SeedThenCalls(g1: Generator, g2: Generator, seed: int, reseed: int)
    returns (a1: seq<int>, a2: seq<int>, b1: seq<int>, b2: seq<int>, c1: seq<int>, c2: seq<int>, d1: seq<int>, d2: seq<int>)
    requires g1 != g2 && g1.Valid() && g2.Valid()
    requires g1.re == g2.re && g1.limit == g2.limit && g1.seeding == g2.seeding
    requires g1.limit >= 1 || (!HasPlus(g1.pattern) && !HasPlus(g2.pattern))
    modifies g1, g2
    ensures a1 == a2 && b1 == b2 && c1 == c2 && d1 == d2
  {
    a1, a2 := SeedReproduces(g1, g2, seed);
    b1, b2 := NextCallsAgree(g1, g2);
    c1, c2 := NextCallsAgree(g1, g2);
    d1, d2 := SeedReproduces(g1, g2, reseed);
  }
}
