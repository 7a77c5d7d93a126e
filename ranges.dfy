/** Character ranges (Go types `r` and `rr` in regen.go): an inclusive interval
    of runes and an ordered list of such intervals, with membership, random
    selection and the diagnostic text form. Runes are integers; the text form
    is a rune sequence (the UTF-8 encoding done by Go's `string(rune)` is not
    modelled). */
module Ranges {
  import opened RandSource

  /** The rune '-' used between the two ends of a range in its text form. */
  const Dash: int := 45

  /** r: the runes min..max, both ends included. */
  datatype Range = Range(min: int, max: int) {

    /** r.inRange; only a non-empty range holds a rune. */
    predicate InRange(v: int): (b: bool)
      ensures b ==> Valid()
    {
      min <= v && v <= max
    }

    /** What the regexp parser guarantees of a class range. */
    predicate Valid() {
      min <= max
    }

    /** Number of runes in the range: the bound r.randRune passes to Intn. */
    function Width(): (w: nat)
      requires Valid()
      ensures w > 0
    {
      max - min + 1
    }

    /** r.randRune: one Intn draw over the width, shifted to `min`. */
    method RandRune(src: Source) returns (v: int)
      requires Valid()
      modifies src
      ensures v == RangeRune(this, src.draw, old(src.hist))
      ensures src.hist == old(src.hist) + [Width()]
    {
      var x := src.Intn(max - min + 1);
      v := x + min;
    }
  }

  /** The rune r.randRune returns when the source's history is `hist`. */
  function RangeRune(g: Range, draw: Draw, hist: seq<nat>): (v: int)
    requires g.Valid()
    ensures g.InRange(v)
  {
    Pick(draw, hist, g.Width()) + g.min
  }

  /** Each rune of the range is drawn for exactly one answer of Intn,
      namely its offset from `min`: the choice is uniform over the runes. */
  lemma RangeRuneOffset(g: Range, draw: Draw, hist: seq<nat>, v: int)
    requires g.Valid() && g.InRange(v)
    ensures RangeRune(g, draw, hist) == v <==> Pick(draw, hist, g.Width()) == v - g.min
    ensures RangeRune(g, Constant(v - g.min), hist) == v
  {
  }

  /** rr.inRange, as a predicate: some interval of the list holds `v`; an
      empty list holds nothing. */
  predicate InSet(rs: seq<Range>, v: int): (b: bool)
    ensures b ==> |rs| > 0
  {
    exists i :: 0 <= i < |rs| && rs[i].InRange(v)
  }

  /** What rr.randRune needs: a non-empty list of well-ordered intervals. */
  predicate ValidSet(rs: seq<Range>) {
    |rs| > 0 && forall i :: 0 <= i < |rs| ==> rs[i].Valid()
  }

  /** rr.inRange: scans the intervals and stops at the first that holds `v`. */
  method Contains(rs: seq<Range>, v: int) returns (b: bool)
    ensures b == InSet(rs, v)
  {
    var i := 0;
    while i < |rs|
      invariant 0 <= i <= |rs|
      invariant forall j :: 0 <= j < i ==> !rs[j].InRange(v)
    {
      if rs[i].InRange(v) {
        return true;
      }
      i := i + 1;
    }
    return false;
  }

  /** The interval rr.randRune picks: uniform by index, not by width. */
  function SetIndex(rs: seq<Range>, draw: Draw, hist: seq<nat>): (i: nat)
    requires |rs| > 0
    ensures i < |rs|
  {
    Pick(draw, hist, |rs|)
  }

  /** The rune rr.randRune returns: a rune of the interval picked by index. */
  function SetRune(rs: seq<Range>, draw: Draw, hist: seq<nat>): (v: int)
    requires ValidSet(rs)
    ensures rs[SetIndex(rs, draw, hist)].InRange(v)
    ensures InSet(rs, v)
  {
    RangeRune(rs[SetIndex(rs, draw, hist)], draw, hist + [|rs|])
  }

  /** rr.randRune: the index draw comes first, then the draw inside the interval. */
  method RandRuneOf(rs: seq<Range>, src: Source) returns (v: int)
    requires ValidSet(rs)
    modifies src
    ensures v == SetRune(rs, src.draw, old(src.hist))
    ensures src.hist == old(src.hist) + [|rs|, rs[SetIndex(rs, src.draw, old(src.hist))].Width()]
  {
    var i := src.Intn(|rs|);
    v := rs[i].RandRune(src);
  }

  /** Every rune of every interval can be drawn: some source yields it. */
  lemma SetRuneReaches(rs: seq<Range>, hist: seq<nat>, i: nat, v: int)
    requires ValidSet(rs) && i < |rs| && rs[i].InRange(v)
    ensures exists draw: Draw :: SetRune(rs, draw, hist) == v
  {
    var k: nat := v - rs[i].min;
    var draw: Draw := (h: seq<nat>, n: nat) => if |h| == |hist| then i else k;
    assert SetIndex(rs, draw, hist) == i;
    assert Pick(draw, hist + [|rs|], rs[i].Width()) == k;
    assert SetRune(rs, draw, hist) == v;
  }

  /** r.String: a single rune alone, otherwise "min-max". */
  function RangeText(g: Range): (t: seq<int>)
    ensures |t| == 1 <==> g.min == g.max
    ensures |t| > 0 && t[0] == g.min && t[|t| - 1] == g.max
  {
    if g.min == g.max then [g.min] else [g.min, Dash, g.max]
  }

  /** rr.String: the texts of the intervals in order, one to three runes each. */
  function SetText(rs: seq<Range>): (t: seq<int>)
    ensures |rs| <= |t| <= 3 * |rs|
  {
    if rs == [] then [] else RangeText(rs[0]) + SetText(rs[1..])
  }

  lemma {:induction false} SetTextAppend(rs: seq<Range>, g: Range)
    ensures SetText(rs + [g]) == SetText(rs) + RangeText(g)
  {
    if rs == [] {
      assert rs + [g] == [g];
    } else {
      assert (rs + [g])[1..] == rs[1..] + [g];
      SetTextAppend(rs[1..], g);
    }
  }

  /** rr.String accumulates the interval texts in a loop. */
  method SetString(rs: seq<Range>) returns (str: seq<int>)
    ensures str == SetText(rs)
  {
    str := [];
    var i := 0;
    while i < |rs|
      invariant 0 <= i <= |rs|
      invariant str == SetText(rs[..i])
    {
      SetTextAppend(rs[..i], rs[i]);
      assert rs[..i + 1] == rs[..i] + [rs[i]];
      str := str + RangeText(rs[i]);
      i := i + 1;
    }
    assert rs[..i] == rs;
  }

  /** Reads a range text back: "a-b" is a range, any other rune a single rune. */
  function ParseText(t: seq<int>): seq<Range>
    decreases |t|
  {
    if t == [] then []
    else if |t| >= 3 && t[1] == Dash then [Range(t[0], t[2])] + ParseText(t[3..])
    else [Range(t[0], t[0])] + ParseText(t[1..])
  }

  /** The text form loses nothing as long as no interval starts at '-'. */
  lemma {:induction false} SetTextRoundTrip(rs: seq<Range>)
    requires forall i :: 0 <= i < |rs| ==> rs[i].min != Dash
    ensures ParseText(SetText(rs)) == rs
  {
    if rs != [] {
      var t := SetText(rs);
      var rest := SetText(rs[1..]);
      assert t == RangeText(rs[0]) + rest;
      SetTextRoundTrip(rs[1..]);
      if rs[0].min == rs[0].max {
        if |rs| > 1 {
          assert rest == RangeText(rs[1]) + SetText(rs[2..]);
          assert t[1] == rs[1].min;
        }
        assert t[1..] == rest;
      } else {
        assert t[3..] == rest;
      }
      assert [rs[0]] + rs[1..] == rs;
    }
  }
}
