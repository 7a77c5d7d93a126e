/** Every string the generator produces is in the language of the pattern it
    was built from, for the operators the generator honours (Regular), also
    after earlier calls have lowered Repeat maxima in the tree. */
module Soundness {
  import opened RandSource
  import opened Syntax
  import opened Generation
  import opened Clamping
  import opened Language

  /** Generating from `re`, a narrowing of the pattern `o`, yields a string
      of `o`'s language. */
  lemma {:induction false} GenSound(o: Regexp, re: Regexp, limit: nat, draw: Draw, h: seq<nat>)
    requires Regular(o) && Narrower(o, re) && Ready(re, limit)
    ensures Matches(o, Gen(re, limit, draw, h).out)
    decreases Size(re), 1
  {
    match re
    case Capture(sub) => CaptureSound(o, sub, limit, draw, h);
    case Star(subs) => StarSound(o, subs, limit, draw, h);
    case Plus(subs) => PlusSound(o, subs, limit, draw, h);
    case Quest(subs) => QuestSound(o, subs, limit, draw, h);
    case Repeat(min, max, subs) => RepeatSound(o, min, max, subs, limit, draw, h);
    case Concat(subs) => ConcatSound(o, subs, limit, draw, h);
    case Alternate(subs) => AlternateSound(o, subs, limit, draw, h);
    case _ =>
  }

  lemma {:induction false} CaptureSound(o: Regexp, sub: Regexp, limit: nat, draw: Draw, h: seq<nat>)
    requires Regular(o) && Narrower(o, Capture(sub)) && Ready(Capture(sub), limit)
    ensures Matches(o, Gen(Capture(sub), limit, draw, h).out)
    decreases Size(Capture(sub)), 0
  {
    CaptureReady(sub, limit);
    GenSound(o.sub, sub, limit, draw, h);
  }

  lemma {:induction false} StarSound(o: Regexp, subs: seq<Regexp>, limit: nat, draw: Draw, h: seq<nat>)
    requires Regular(o) && Narrower(o, Star(subs)) && Ready(Star(subs), limit)
    ensures Matches(o, Gen(Star(subs), limit, draw, h).out)
    decreases Size(Star(subs)), 0
  {
    ChildrenReady(Star(subs), limit);
    var r := Redraw(subs, limit + 1, 0, limit, draw, h);
    RedrawSound(o.subs, subs, limit + 1, 0, limit, draw, h);
    assert o == Star(o.subs);
    StarMatches(o.subs, r.out, r.passes);
    assert Gen(Star(subs), limit, draw, h).out == r.out;
  }

  lemma StarMatches(os: seq<Regexp>, s: seq<int>, k: nat)
    requires MatchesRep(os, s, k)
    ensures Matches(Star(os), s)
  {
  }

  lemma {:induction false} PlusSound(o: Regexp, subs: seq<Regexp>, limit: nat, draw: Draw, h: seq<nat>)
    requires Regular(o) && Narrower(o, Plus(subs)) && Ready(Plus(subs), limit)
    ensures Matches(o, Gen(Plus(subs), limit, draw, h).out)
    decreases Size(Plus(subs)), 0
  {
    ChildrenReady(Plus(subs), limit);
    var count := Pick(draw, h, limit) + 1;
    var r := Fixed(subs, count, limit, draw, h + [limit]);
    FixedSound(o.subs, subs, count, limit, draw, h + [limit]);
    assert Gen(Plus(subs), limit, draw, h).out == r.out && o == Plus(o.subs);
    assert MatchesRep(o.subs, r.out, count);
  }

  lemma {:induction false} QuestSound(o: Regexp, subs: seq<Regexp>, limit: nat, draw: Draw, h: seq<nat>)
    requires Regular(o) && Narrower(o, Quest(subs)) && Ready(Quest(subs), limit)
    ensures Matches(o, Gen(Quest(subs), limit, draw, h).out)
    decreases Size(Quest(subs)), 0
  {
    ChildrenReady(Quest(subs), limit);
    RedrawSound(o.subs, subs, 2, 0, limit, draw, h);
  }

  /** The pass count max(min, draw) never exceeds the original maximum: the
      clamped maximum is at most the original one, and the parser keeps the
      minimum at most the maximum. */
  lemma {:induction false} RepeatSound(o: Regexp, min: nat, max: int, subs: seq<Regexp>, limit: nat, draw: Draw, h: seq<nat>)
    requires Regular(o) && Narrower(o, Repeat(min, max, subs)) && Ready(Repeat(min, max, subs), limit)
    ensures Matches(o, Gen(Repeat(min, max, subs), limit, draw, h).out)
    decreases Size(Repeat(min, max, subs)), 0
  {
    ChildrenReady(Repeat(min, max, subs), limit);
    var m := EffMax(max, limit);
    var count := RepeatCount(min, m, draw, h);
    assert o.max == -1 || count <= o.max;
    var r := Fixed(subs, count, limit, draw, RepeatHist(min, m, h));
    FixedSound(o.subs, subs, count, limit, draw, RepeatHist(min, m, h));
    assert Gen(Repeat(min, max, subs), limit, draw, h).out == r.out && o == Repeat(min, o.max, o.subs);
    assert MatchesRep(o.subs, r.out, count);
  }

  lemma {:induction false} ConcatSound(o: Regexp, subs: seq<Regexp>, limit: nat, draw: Draw, h: seq<nat>)
    requires Regular(o) && Narrower(o, Concat(subs)) && Ready(Concat(subs), limit)
    ensures Matches(o, Gen(Concat(subs), limit, draw, h).out)
    decreases Size(Concat(subs)), 0
  {
    ChildrenReady(Concat(subs), limit);
    GenSeqSound(o.subs, subs, limit, draw, h);
  }

  lemma {:induction false} AlternateSound(o: Regexp, subs: seq<Regexp>, limit: nat, draw: Draw, h: seq<nat>)
    requires Regular(o) && Narrower(o, Alternate(subs)) && Ready(Alternate(subs), limit)
    ensures Matches(o, Gen(Alternate(subs), limit, draw, h).out)
    decreases Size(Alternate(subs)), 0
  {
    ChildrenReady(Alternate(subs), limit);
    var k := Pick(draw, h, |subs|);
    SizeAllBound(subs, k);
    var x := Gen(subs[k], limit, draw, h + [|subs|]);
    GenSound(o.subs[k], subs[k], limit, draw, h + [|subs|]);
    assert Gen(Alternate(subs), limit, draw, h).out == x.out && o == Alternate(o.subs);
    assert 0 <= k < |o.subs| && Matches(o.subs[k], x.out);
  }

  /** One pass over the children: a piece per child of the pattern. */
  lemma {:induction false} GenSeqSound(os: seq<Regexp>, subs: seq<Regexp>, limit: nat, draw: Draw, h: seq<nat>)
    requires (forall i {:trigger Regular(os[i])} :: 0 <= i < |os| ==> Regular(os[i])) && NarrowerAll(os, subs) && ReadyAll(subs, limit)
    ensures MatchesSeq(os, GenSeq(subs, limit, draw, h).out)
    decreases SizeAll(subs), 2
  {
    if subs != [] {
      var n := |subs| - 1;
      var p := GenSeq(subs[..n], limit, draw, h);
      SizeAllBound(subs, n);
      GenSeqSound(os[..n], subs[..n], limit, draw, h);
      GenSound(os[n], subs[n], limit, draw, p.hist);
      SeqSnoc(os[..n], os[n], p.out, Gen(subs[n], limit, draw, p.hist).out);
      assert os[..n] + [os[n]] == os;
    }
  }

  /** The children `os` of a pattern node, all honoured by the generator, and
      a walkable narrowing `subs` of them. */
  ghost predicate Loopable(os: seq<Regexp>, subs: seq<Regexp>, limit: nat) {
    (forall j {:trigger Regular(os[j])} :: 0 <= j < |os| ==> Regular(os[j])) && NarrowerAll(os, subs) && ReadyAll(subs, limit)
  }

  /** One pass of a loop body matches the children and leaves them loopable. */
  lemma PassSound(os: seq<Regexp>, subs: seq<Regexp>, limit: nat, draw: Draw, h: seq<nat>)
    requires Loopable(os, subs, limit)
    ensures var p := GenSeq(subs, limit, draw, h); MatchesSeq(os, p.out) && Loopable(os, p.subs, limit)
    decreases SizeAll(subs), 3, 0
  {
    GenSeqSound(os, subs, limit, draw, h);
    GenSeqKeeps(os, subs, limit, draw, h);
  }

  /** A redrawing loop that starts at pass `i` makes `passes - i` more passes,
      each a string of the children's concatenation. */
  lemma {:induction false} RedrawSound(os: seq<Regexp>, subs: seq<Regexp>, bound: nat, i: nat, limit: nat, draw: Draw, h: seq<nat>)
    requires i < bound
    requires Loopable(os, subs, limit)
    ensures var r := Redraw(subs, bound, i, limit, draw, h); MatchesRep(os, r.out, r.passes - i)
    decreases SizeAll(subs), 3, bound - i
  {
    if i < Pick(draw, h, bound) {
      var p := GenSeq(subs, limit, draw, h + [bound]);
      RedrawUnfold(subs, bound, i, limit, draw, h);
      var rest := Redraw(p.subs, bound, i + 1, limit, draw, p.hist);
      PassSound(os, subs, limit, draw, h + [bound]);
      RedrawSound(os, p.subs, bound, i + 1, limit, draw, p.hist);
      RedrawCons(os, subs, bound, i, limit, draw, h, p.out, rest.out, rest.passes - (i + 1));
    } else {
      RedrawStop(os, subs, bound, i, limit, draw, h);
    }
  }

  /** A pass that matches, followed by the rest of the loop, matches. */
  lemma RedrawCons(os: seq<Regexp>, subs: seq<Regexp>, bound: nat, i: nat, limit: nat, draw: Draw, h: seq<nat>,
                    first: seq<int>, more: seq<int>, k: nat)
    requires i < Pick(draw, h, bound)
    requires var p := GenSeq(subs, limit, draw, h + [bound]);
      var rest := Redraw(p.subs, bound, i + 1, limit, draw, p.hist);
      first == p.out && more == rest.out && k == rest.passes - (i + 1)
    requires MatchesSeq(os, first) && MatchesRep(os, more, k)
    ensures var r := Redraw(subs, bound, i, limit, draw, h); MatchesRep(os, r.out, r.passes - i)
  {
    RedrawUnfold(subs, bound, i, limit, draw, h);
    RepCons(os, first, more, k);
    var r := Redraw(subs, bound, i, limit, draw, h);
    assert r.out == first + more && r.passes - i == k + 1;
  }

  /** A loop that stops at once makes no pass. */
  lemma RedrawStop(os: seq<Regexp>, subs: seq<Regexp>, bound: nat, i: nat, limit: nat, draw: Draw, h: seq<nat>)
    requires i < bound && Pick(draw, h, bound) <= i
    ensures var r := Redraw(subs, bound, i, limit, draw, h); MatchesRep(os, r.out, r.passes - i)
  {
  }

  /** A loop of `n` passes: `n` strings of the children's concatenation. */
  lemma {:induction false} FixedSound(os: seq<Regexp>, subs: seq<Regexp>, n: nat, limit: nat, draw: Draw, h: seq<nat>)
    requires Loopable(os, subs, limit)
    ensures MatchesRep(os, Fixed(subs, n, limit, draw, h).out, n)
    decreases SizeAll(subs), 3, n
  {
    if n > 0 {
      var p := GenSeq(subs, limit, draw, h);
      PassSound(os, subs, limit, draw, h);
      FixedSound(os, p.subs, n - 1, limit, draw, p.hist);
      FixedCons(os, subs, n, limit, draw, h);
    }
  }

  lemma FixedCons(os: seq<Regexp>, subs: seq<Regexp>, n: nat, limit: nat, draw: Draw, h: seq<nat>)
    requires n > 0
    requires var p := GenSeq(subs, limit, draw, h);
      MatchesSeq(os, p.out) && MatchesRep(os, Fixed(p.subs, n - 1, limit, draw, p.hist).out, n - 1)
    ensures MatchesRep(os, Fixed(subs, n, limit, draw, h).out, n)
  {
    FixedUnfold(subs, n, limit, draw, h);
    var p := GenSeq(subs, limit, draw, h);
    RepCons(os, p.out, Fixed(p.subs, n - 1, limit, draw, p.hist).out, n - 1);
  }
}
