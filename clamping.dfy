/** The maxima that generation writes into Repeat nodes (regen.go:152-154):
    what the tree looks like afterwards, and how the written value behaves
    when generation runs again. */
module Clamping {
  import opened RandSource
  import opened Syntax
  import opened Generation

  /** Clamping twice is clamping once to the smaller limit; in particular a
      node clamped at `limit` is left as it is by generation at `limit`, and
      a larger limit later does not raise its maximum again. */
  lemma EffMaxCompose(max: int, l1: nat, l2: nat)
    ensures EffMax(EffMax(max, l1), l2) == EffMax(max, if l1 <= l2 then l1 else l2)
    ensures l1 <= l2 ==> EffMax(EffMax(max, l1), l2) == EffMax(max, l1)
  {
  }

  /** Generation only lowers Repeat maxima (to the limit): the tree it hands
      back is a narrowing of the one it was given. */
  lemma {:induction false} GenNarrows(re: Regexp, limit: nat, draw: Draw, h: seq<nat>)
    ensures Narrower(re, Gen(re, limit, draw, h).re)
    decreases Size(re), 1
  {
    match re
    case Capture(sub) => CaptureNarrows(sub, limit, draw, h);
    case Star(subs) => StarNarrows(subs, limit, draw, h);
    case Plus(subs) => PlusNarrows(subs, limit, draw, h);
    case Quest(subs) => QuestNarrows(subs, limit, draw, h);
    case Repeat(min, max, subs) => RepeatNarrows(min, max, subs, limit, draw, h);
    case Concat(subs) => ConcatNarrows(subs, limit, draw, h);
    case Alternate(subs) => AlternateNarrows(subs, limit, draw, h);
    case _ =>
  }

  lemma {:induction false} CaptureNarrows(sub: Regexp, limit: nat, draw: Draw, h: seq<nat>)
    ensures Narrower(Capture(sub), Gen(Capture(sub), limit, draw, h).re)
    decreases Size(Capture(sub)), 0
  {
    GenNarrows(sub, limit, draw, h);
  }

  lemma {:induction false} StarNarrows(subs: seq<Regexp>, limit: nat, draw: Draw, h: seq<nat>)
    ensures Narrower(Star(subs), Gen(Star(subs), limit, draw, h).re)
    decreases Size(Star(subs)), 0
  {
    RedrawNarrows(subs, limit + 1, 0, limit, draw, h);
  }

  lemma {:induction false} PlusNarrows(subs: seq<Regexp>, limit: nat, draw: Draw, h: seq<nat>)
    ensures Narrower(Plus(subs), Gen(Plus(subs), limit, draw, h).re)
    decreases Size(Plus(subs)), 0
  {
    FixedNarrows(subs, Pick(draw, h, limit) + 1, limit, draw, h + [limit]);
  }

  lemma {:induction false} QuestNarrows(subs: seq<Regexp>, limit: nat, draw: Draw, h: seq<nat>)
    ensures Narrower(Quest(subs), Gen(Quest(subs), limit, draw, h).re)
    decreases Size(Quest(subs)), 0
  {
    RedrawNarrows(subs, 2, 0, limit, draw, h);
  }

  lemma {:induction false} RepeatNarrows(min: nat, max: int, subs: seq<Regexp>, limit: nat, draw: Draw, h: seq<nat>)
    ensures Narrower(Repeat(min, max, subs), Gen(Repeat(min, max, subs), limit, draw, h).re)
    ensures Gen(Repeat(min, max, subs), limit, draw, h).re.max == EffMax(max, limit)
    decreases Size(Repeat(min, max, subs)), 0
  {
    var m := EffMax(max, limit);
    RepeatUnfold(min, max, subs, limit, draw, h);
    FixedNarrows(subs, RepeatCount(min, m, draw, h), limit, draw, RepeatHist(min, m, h));
  }

  lemma {:induction false} ConcatNarrows(subs: seq<Regexp>, limit: nat, draw: Draw, h: seq<nat>)
    ensures Narrower(Concat(subs), Gen(Concat(subs), limit, draw, h).re)
    decreases Size(Concat(subs)), 0
  {
    GenSeqNarrows(subs, limit, draw, h);
  }

  lemma {:induction false} AlternateNarrows(subs: seq<Regexp>, limit: nat, draw: Draw, h: seq<nat>)
    ensures Narrower(Alternate(subs), Gen(Alternate(subs), limit, draw, h).re)
    ensures var c := Gen(Alternate(subs), limit, draw, h).re;
      c.Alternate? && |c.subs| == |subs|
      && forall j :: 0 <= j < |subs| && j != Pick(draw, h, |subs|) ==> c.subs[j] == subs[j]
    decreases Size(Alternate(subs)), 0
  {
    NarrowerAllRefl(subs);
    if subs != [] {
      var k := Pick(draw, h, |subs|);
      SizeAllBound(subs, k);
      GenNarrows(subs[k], limit, draw, h + [|subs|]);
    }
  }

  lemma {:induction false} GenSeqNarrows(subs: seq<Regexp>, limit: nat, draw: Draw, h: seq<nat>)
    ensures NarrowerAll(subs, GenSeq(subs, limit, draw, h).subs)
    decreases SizeAll(subs), 2
  {
    if subs != [] {
      var n := |subs| - 1;
      var p := GenSeq(subs[..n], limit, draw, h);
      var x := Gen(subs[n], limit, draw, p.hist);
      GenSeqNarrows(subs[..n], limit, draw, h);
      GenNarrows(subs[n], limit, draw, p.hist);
      NarrowerAllSnoc(subs[..n], p.subs, subs[n], x.re);
      assert subs[..n] + [subs[n]] == subs;
    }
  }

  lemma NarrowerAllSnoc(os: seq<Regexp>, cs: seq<Regexp>, o: Regexp, c: Regexp)
    requires NarrowerAll(os, cs) && Narrower(o, c)
    ensures NarrowerAll(os + [o], cs + [c])
  {
    forall i | 0 <= i < |os| + 1 ensures Narrower((os + [o])[i], (cs + [c])[i]) {
      if i < |os| {
        assert (os + [o])[i] == os[i] && (cs + [c])[i] == cs[i];
      }
    }
  }

  lemma {:induction false} RedrawNarrows(subs: seq<Regexp>, bound: nat, i: nat, limit: nat, draw: Draw, h: seq<nat>)
    requires i < bound
    ensures NarrowerAll(subs, Redraw(subs, bound, i, limit, draw, h).subs)
    decreases SizeAll(subs), 3, bound - i
  {
    if i < Pick(draw, h, bound) {
      var p := GenSeq(subs, limit, draw, h + [bound]);
      GenSeqNarrows(subs, limit, draw, h + [bound]);
      RedrawNarrows(p.subs, bound, i + 1, limit, draw, p.hist);
      NarrowerAllTrans(subs, p.subs, Redraw(p.subs, bound, i + 1, limit, draw, p.hist).subs);
    } else {
      NarrowerAllRefl(subs);
    }
  }

  lemma {:induction false} FixedNarrows(subs: seq<Regexp>, n: nat, limit: nat, draw: Draw, h: seq<nat>)
    ensures NarrowerAll(subs, Fixed(subs, n, limit, draw, h).subs)
    decreases SizeAll(subs), 3, n
  {
    if n > 0 {
      var p := GenSeq(subs, limit, draw, h);
      GenSeqNarrows(subs, limit, draw, h);
      FixedNarrows(p.subs, n - 1, limit, draw, p.hist);
      NarrowerAllTrans(subs, p.subs, Fixed(p.subs, n - 1, limit, draw, p.hist).subs);
    } else {
      NarrowerAllRefl(subs);
    }
  }

  /** A pass over Ready children leaves them Ready: it only narrows them. */
  lemma GenSeqReady(subs: seq<Regexp>, limit: nat, draw: Draw, h: seq<nat>)
    requires ReadyAll(subs, limit)
    ensures ReadyAll(GenSeq(subs, limit, draw, h).subs, limit)
  {
    var r := GenSeq(subs, limit, draw, h).subs;
    GenSeqNarrows(subs, limit, draw, h);
    forall i | 0 <= i < |subs| ensures Ready(r[i], limit) {
      assert Ready(subs[i], limit) && Narrower(subs[i], r[i]);
      NarrowerWellFormed(subs[i], r[i]);
      NarrowerHasPlus(subs[i], r[i]);
    }
  }

  /** A pass over children that narrow a pattern's children keeps them
      narrowings of the pattern's, and keeps them Ready. */
  lemma GenSeqKeeps(os: seq<Regexp>, subs: seq<Regexp>, limit: nat, draw: Draw, h: seq<nat>)
    requires NarrowerAll(os, subs) && ReadyAll(subs, limit)
    ensures var p := GenSeq(subs, limit, draw, h).subs;
      NarrowerAll(os, p) && ReadyAll(p, limit)
  {
    GenSeqReady(subs, limit, draw, h);
    GenSeqNarrows(subs, limit, draw, h);
    NarrowerAllTrans(os, subs, GenSeq(subs, limit, draw, h).subs);
  }
}
