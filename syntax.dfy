/** The parsed regular expression the generator walks (Go's *syntax.Regexp),
    one constructor per operator regen.go dispatches on, each carrying only
    the fields its case reads. Parsing itself is not modelled: trees are given. */
module Syntax {
  import opened Ranges

  datatype Regexp =
    | NoMatch
    | EmptyMatch
    | BeginLine
    | EndLine
    | BeginText
    | EndText
    | Literal(runes: seq<int>)
    /** Flat list of interval ends: lo0, hi0, lo1, hi1, ... */
    | CharClass(runes: seq<int>)
    | AnyCharNotNL
    | AnyChar
    | WordBoundary
    | NoWordBoundary
    /** The parser stores the single child inline (Sub0[0]). */
    | Capture(sub: Regexp)
    | Star(subs: seq<Regexp>)
    | Plus(subs: seq<Regexp>)
    | Quest(subs: seq<Regexp>)
    /** max == -1 means no upper bound. */
    | Repeat(min: nat, max: int, subs: seq<Regexp>)
    | Concat(subs: seq<Regexp>)
    | Alternate(subs: seq<Regexp>)

  /** Number of nodes; measures the recursion of the generator. */
  function Size(re: Regexp): (n: nat)
    ensures n >= 1
  {
    match re
    case Capture(sub) => 1 + Size(sub)
    case Star(subs) => 1 + SizeAll(subs)
    case Plus(subs) => 1 + SizeAll(subs)
    case Quest(subs) => 1 + SizeAll(subs)
    case Repeat(_, _, subs) => 1 + SizeAll(subs)
    case Concat(subs) => 1 + SizeAll(subs)
    case Alternate(subs) => 1 + SizeAll(subs)
    case _ => 1
  }

  function SizeAll(s: seq<Regexp>): nat {
    if s == [] then 0 else SizeAll(s[..|s| - 1]) + Size(s[|s| - 1])
  }

  /** A node with children: those of Star, Plus, Quest, Repeat, Concat, Alternate. */
  predicate HasSubs(re: Regexp) {
    re.Star? || re.Plus? || re.Quest? || re.Repeat? || re.Concat? || re.Alternate?
  }

  lemma {:induction false} SizeAllBound(s: seq<Regexp>, j: nat)
    requires j < |s|
    ensures Size(s[j]) <= SizeAll(s)
    ensures SizeAll(s[..j]) < SizeAll(s)
  {
    if j < |s| - 1 {
      assert s[..|s| - 1][..j] == s[..j];
      SizeAllBound(s[..|s| - 1], j);
    } else {
      assert s[..|s| - 1] == s[..j];
    }
  }

  lemma SizeAllSnoc(s: seq<Regexp>, x: Regexp)
    ensures SizeAll(s + [x]) == SizeAll(s) + Size(x)
  {
    assert (s + [x])[..|s|] == s;
  }

  lemma {:induction false} SizeAllUpdate(s: seq<Regexp>, k: nat, x: Regexp)
    requires k < |s| && Size(x) == Size(s[k])
    ensures SizeAll(s[k := x]) == SizeAll(s)
  {
    var n := |s| - 1;
    if k < n {
      assert s[k := x][..n] == s[..n][k := x];
      SizeAllUpdate(s[..n], k, x);
    } else {
      assert s[k := x][..n] == s[..n];
    }
  }

  /** The intervals of a character class: consecutive pairs of its rune list. */
  function Pairs(runes: seq<int>): (rs: seq<Range>)
    requires |runes| % 2 == 0
    ensures |rs| == |runes| / 2
    ensures forall k :: 0 <= k < |rs| ==> rs[k] == Range(runes[2 * k], runes[2 * k + 1])
  {
    seq(|runes| / 2, k requires 0 <= k < |runes| / 2 => Range(runes[2 * k], runes[2 * k + 1]))
  }

  /** A class whose rune list is a non-empty list of ordered pairs. */
  predicate ClassOk(runes: seq<int>) {
    |runes| % 2 == 0 && ValidSet(Pairs(runes))
  }

  /** What the generator relies on to walk a tree without panicking: classes
      are non-empty lists of ordered pairs, alternations have a child. The
      parser guarantees the pairs and the alternations; an empty class (one
      that excludes every rune) it can produce, and regen panics on it. */
  predicate WellFormed(re: Regexp) {
    match re
    case CharClass(runes) => ClassOk(runes)
    case Capture(sub) => WellFormed(sub)
    case Alternate(subs) => |subs| > 0 && forall i {:trigger WellFormed(subs[i])} :: 0 <= i < |subs| ==> WellFormed(subs[i])
    case Star(subs) => forall i {:trigger WellFormed(subs[i])} :: 0 <= i < |subs| ==> WellFormed(subs[i])
    case Plus(subs) => forall i {:trigger WellFormed(subs[i])} :: 0 <= i < |subs| ==> WellFormed(subs[i])
    case Quest(subs) => forall i {:trigger WellFormed(subs[i])} :: 0 <= i < |subs| ==> WellFormed(subs[i])
    case Repeat(_, _, subs) => forall i {:trigger WellFormed(subs[i])} :: 0 <= i < |subs| ==> WellFormed(subs[i])
    case Concat(subs) => forall i {:trigger WellFormed(subs[i])} :: 0 <= i < |subs| ==> WellFormed(subs[i])
    case _ => true
  }

  /** Whether a Plus node occurs anywhere in the tree. */
  predicate HasPlus(re: Regexp) {
    match re
    case Plus(_) => true
    case Capture(sub) => HasPlus(sub)
    case Star(subs) => exists i {:trigger HasPlus(subs[i])} :: 0 <= i < |subs| && HasPlus(subs[i])
    case Quest(subs) => exists i {:trigger HasPlus(subs[i])} :: 0 <= i < |subs| && HasPlus(subs[i])
    case Repeat(_, _, subs) => exists i {:trigger HasPlus(subs[i])} :: 0 <= i < |subs| && HasPlus(subs[i])
    case Concat(subs) => exists i {:trigger HasPlus(subs[i])} :: 0 <= i < |subs| && HasPlus(subs[i])
    case Alternate(subs) => exists i {:trigger HasPlus(subs[i])} :: 0 <= i < |subs| && HasPlus(subs[i])
    case _ => false
  }

  /** `c` is `o` after the generator has overwritten some Repeat maxima:
      same shape and payloads, and each maximum either untouched or lowered
      to a finite value no larger than the original one. */
  predicate Narrower(o: Regexp, c: Regexp) {
    match o
    case Capture(s) => c.Capture? && Narrower(s, c.sub)
    case Repeat(mn, mx, subs) =>
      c.Repeat? && c.min == mn && (c.max == mx || (0 <= c.max && (mx == -1 || c.max <= mx)))
      && |c.subs| == |subs| && forall i {:trigger Narrower(subs[i], c.subs[i])} :: 0 <= i < |subs| ==> Narrower(subs[i], c.subs[i])
    case Star(subs) =>
      c.Star? && |c.subs| == |subs| && forall i {:trigger Narrower(subs[i], c.subs[i])} :: 0 <= i < |subs| ==> Narrower(subs[i], c.subs[i])
    case Plus(subs) =>
      c.Plus? && |c.subs| == |subs| && forall i {:trigger Narrower(subs[i], c.subs[i])} :: 0 <= i < |subs| ==> Narrower(subs[i], c.subs[i])
    case Quest(subs) =>
      c.Quest? && |c.subs| == |subs| && forall i {:trigger Narrower(subs[i], c.subs[i])} :: 0 <= i < |subs| ==> Narrower(subs[i], c.subs[i])
    case Concat(subs) =>
      c.Concat? && |c.subs| == |subs| && forall i {:trigger Narrower(subs[i], c.subs[i])} :: 0 <= i < |subs| ==> Narrower(subs[i], c.subs[i])
    case Alternate(subs) =>
      c.Alternate? && |c.subs| == |subs| && forall i {:trigger Narrower(subs[i], c.subs[i])} :: 0 <= i < |subs| ==> Narrower(subs[i], c.subs[i])
    case _ => c == o
  }

  lemma {:induction false} NarrowerRefl(re: Regexp)
    ensures Narrower(re, re)
  {
    if re.Capture? {
      NarrowerRefl(re.sub);
    } else if HasSubs(re) {
      forall i | 0 <= i < |re.subs| ensures Narrower(re.subs[i], re.subs[i]) {
        NarrowerRefl(re.subs[i]);
      }
    }
  }

  lemma {:induction false} NarrowerTrans(a: Regexp, b: Regexp, c: Regexp)
    requires Narrower(a, b) && Narrower(b, c)
    ensures Narrower(a, c)
  {
    if a.Capture? {
      NarrowerTrans(a.sub, b.sub, c.sub);
    } else if HasSubs(a) {
      forall i | 0 <= i < |a.subs| ensures Narrower(a.subs[i], c.subs[i]) {
        NarrowerTrans(a.subs[i], b.subs[i], c.subs[i]);
      }
    }
  }

  /** Narrowing keeps the tree's shape, so what holds of the original tree's
      classes and alternations holds of the narrowed one. */
  lemma {:induction false} NarrowerWellFormed(o: Regexp, c: Regexp)
    requires Narrower(o, c) && WellFormed(o)
    ensures WellFormed(c)
  {
    if o.Capture? {
      NarrowerWellFormed(o.sub, c.sub);
    } else if HasSubs(o) {
      forall i | 0 <= i < |o.subs| ensures WellFormed(c.subs[i]) {
        NarrowerWellFormed(o.subs[i], c.subs[i]);
      }
    }
  }

  /** Narrowing adds no Plus node. */
  lemma {:induction false} NarrowerHasPlus(o: Regexp, c: Regexp)
    requires Narrower(o, c)
    ensures HasPlus(c) ==> HasPlus(o)
  {
    if o.Capture? {
      NarrowerHasPlus(o.sub, c.sub);
    } else if HasSubs(o) && !o.Plus? && HasPlus(c) {
      var i :| 0 <= i < |c.subs| && HasPlus(c.subs[i]);
      NarrowerHasPlus(o.subs[i], c.subs[i]);
    }
  }
}
