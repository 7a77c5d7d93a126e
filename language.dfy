/** The strings a pattern denotes, written out by hand: what "Generate returns
    a string matching the pattern" means. Zero-width assertions and `.` are
    given their usual meaning on a whole string; the generator does not honour
    them (see Regular). */
module Language {
  import opened Ranges
  import opened Syntax

  /** `s` is in the language of `re`. */
  ghost predicate Matches(re: Regexp, s: seq<int>)
    decreases re, 3
  {
    match re
    case NoMatch => false
    case AnyChar => |s| == 1
    case AnyCharNotNL => |s| == 1 && s[0] != 10
    case Literal(runes) => s == runes
    case CharClass(runes) => |runes| % 2 == 0 && |s| == 1 && InSet(Pairs(runes), s[0])
    case Capture(sub) => Matches(sub, s)
    case Star(subs) => exists k: nat :: MatchesRep(subs, s, k)
    case Plus(subs) => exists k: nat :: k >= 1 && MatchesRep(subs, s, k)
    case Quest(subs) => MatchesRep(subs, s, 0) || MatchesRep(subs, s, 1)
    case Repeat(min, max, subs) =>
      exists k: nat :: min <= k && (max == -1 || k <= max) && MatchesRep(subs, s, k)
    case Concat(subs) => MatchesSeq(subs, s)
    case Alternate(subs) => exists i :: 0 <= i < |subs| && Matches(subs[i], s)
    case _ => s == []
  }

  /** `s` splits into consecutive pieces in the languages of `subs`, in order. */
  ghost predicate MatchesSeq(subs: seq<Regexp>, s: seq<int>)
    decreases subs, 1
  {
    if subs == [] then s == []
    else
      exists i :: 0 <= i <= |s| && MatchesSeq(subs[..|subs| - 1], s[..i]) && Matches(subs[|subs| - 1], s[i..])
  }

  /** `s` splits into `k` consecutive pieces, each matching the whole of `subs`. */
  ghost predicate MatchesRep(subs: seq<Regexp>, s: seq<int>, k: nat)
    decreases subs, 2, k
  {
    if k == 0 then s == []
    else exists i :: 0 <= i <= |s| && MatchesSeq(subs, s[..i]) && MatchesRep(subs, s[i..], k - 1)
  }

  /** The operators whose generated strings are in their language: all but
      NoMatch, `.` and the zero-width assertions, which the generator turns
      into "" (an anchor between two literals would then have to match
      nothing), and Repeat nodes with a maximum below their minimum, which
      the parser rejects. */
  predicate Regular(re: Regexp) {
    match re
    case EmptyMatch => true
    case Literal(_) => true
    case CharClass(_) => true
    case Capture(sub) => Regular(sub)
    case Star(subs) => forall i {:trigger Regular(subs[i])} :: 0 <= i < |subs| ==> Regular(subs[i])
    case Plus(subs) => forall i {:trigger Regular(subs[i])} :: 0 <= i < |subs| ==> Regular(subs[i])
    case Quest(subs) => forall i {:trigger Regular(subs[i])} :: 0 <= i < |subs| ==> Regular(subs[i])
    case Repeat(min, max, subs) =>
      (max == -1 || min <= max) && forall i {:trigger Regular(subs[i])} :: 0 <= i < |subs| ==> Regular(subs[i])
    case Concat(subs) => forall i {:trigger Regular(subs[i])} :: 0 <= i < |subs| ==> Regular(subs[i])
    case Alternate(subs) => forall i {:trigger Regular(subs[i])} :: 0 <= i < |subs| ==> Regular(subs[i])
    case _ => false
  }

  /** Piecing a repetition together from its first pass and the rest. */
  lemma RepCons(subs: seq<Regexp>, a: seq<int>, b: seq<int>, k: nat)
    requires MatchesSeq(subs, a) && MatchesRep(subs, b, k)
    ensures MatchesRep(subs, a + b, k + 1)
  {
    assert (a + b)[..|a|] == a && (a + b)[|a|..] == b;
  }

  /** Piecing a sequence match together from its front and its last piece. */
  lemma SeqSnoc(subs: seq<Regexp>, x: Regexp, a: seq<int>, b: seq<int>)
    requires MatchesSeq(subs, a) && Matches(x, b)
    ensures MatchesSeq(subs + [x], a + b)
  {
    assert (subs + [x])[..|subs|] == subs;
    assert (a + b)[..|a|] == a && (a + b)[|a|..] == b;
  }
}
