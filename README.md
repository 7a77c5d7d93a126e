# regen in Dafny

A model of the core of `regen`, a Go library that generates random strings
matching a regular expression. The model covers:

- The character ranges `r` and `rr` and their membership test, random choice
  and text form.
- The `Generator` object: its parsed tree, its random source and its
  repetition limit, with `Limit`, `Seed` and `Generate`.
- The recursive `generate` walk over the parsed tree, including the maxima
  that the walk writes back into Repeat nodes.

The modules:

- `RandSource` (source.dfy): the random source, a class whose state is the
  history of its `Intn` calls. A seeded source is described by a function
  `draw` from that history to the next answer.
- `Ranges` (ranges.dfy): `r` as the datatype `Range` and `rr` as a sequence
  of them, with `rr.inRange` and `rr.String` as loops.
- `Syntax` (syntax.dfy): the parsed tree as a datatype with one constructor
  per operator that `generate` dispatches on. `WellFormed` is what the
  walk needs of the tree itself; `Ready` adds a limit of at least 1 when the
  tree has a Plus, and together they keep the walk from panicking. `Narrower` relates a tree to the tree after some
  Repeat maxima have been lowered.
- `Generation` (generation.dfy): what `generate` computes, as total
  functions of the tree, the limit, the source and its history. The
  result is the output, the tree as `generate` leaves it and the new
  history.
- `Generators` (generator.dfy): the `Generator` class. Its methods are
  loops over mutable state, each proved equal to the `Generation`
  functions.
- `Clamping` (clamping.dfy): the write-back of Repeat maxima. Generation
  only narrows a tree, and a clamp at one limit survives a later, larger
  limit.
- `Language` (language.dfy) and `Soundness` (soundness.dfy): a hand-written
  language predicate, and the proof that every generated string is in the
  language of the parsed pattern. The proof covers every operator the
  generator honours, and holds after any number of earlier calls.
- `Repetition` (repetition.dfy): pass counts and output lengths of Star,
  Plus, Quest and Repeat, and the behaviour of the other operators on
  concrete patterns.

Runes are integers and strings are rune sequences. Where the library's
described behaviour and its code disagree, the model follows the code:

- Star evaluates `Intn(limit+1)` afresh in its loop guard before every
  pass. The pass count is therefore not a single uniform draw from
  [0, limit], though it stays at most `limit`.
- Quest evaluates `Intn(2)` afresh in its loop guard. A taken Quest draws a
  second time after its pass, and that second draw can never allow another
  pass.
- Plus calls `Intn(limit)`, which panics when the limit is 0. It does not
  make exactly one pass at limit 0.
- Repeat writes the clamped maximum into the tree, and the clamp persists
  into later calls. The model keeps this write-back rather than computing
  the maximum locally.

## Model

| member | source | states |
|---|---|---|
| RandSource.Pick | regen.go:124 | the answer of an `Intn(n)` call lies in [0, n) |
| RandSource.Source.constructor | regen.go:83 | a freshly seeded source has an empty history and behaves as the seed's `draw` |
| RandSource.Source.Intn | regen.go:133 | the answer is below the bound, is the seeded source's answer for the current history, and the call is appended to the history |
| Ranges.Range.InRange | regen.go:16-18 | `r.inRange` holds only of a non-empty range, which `RangeRune` and `SetRune` are proved to satisfy |
| Ranges.Range.Width | regen.go:21 | the bound passed to `Intn` by `r.randRune` is positive for a well-ordered range |
| Ranges.Range.RandRune | regen.go:20-22 | `r.randRune` draws once with bound `max-min+1` and returns the rune `RangeRune` describes |
| Ranges.RangeRune | regen.go:20-22 | the rune drawn by `r.randRune` is in the range (`r.inRange` holds) |
| Ranges.RangeRuneOffset | regen.go:20-22 | a rune is drawn exactly when `Intn` answers its offset from `min`, and every rune of the range can be drawn |
| Ranges.InSet | regen.go:33-40 | the value `rr.inRange` computes holds only of a non-empty list; `Contains` is proved to compute it |
| Ranges.Contains | regen.go:33-40 | the early-return loop of `rr.inRange` returns exactly `InSet`: true if and only if some interval of the list holds the rune |
| Ranges.SetIndex | regen.go:43 | `rr.randRune` picks an interval index in [0, len(rr)) |
| Ranges.SetRune | regen.go:42-44 | the rune drawn by `rr.randRune` lies in the picked interval, so `rr.inRange` holds of it |
| Ranges.RandRuneOf | regen.go:42-44 | `rr.randRune` draws the index first and then the rune inside that interval, with exactly those two `Intn` bounds |
| Ranges.SetRuneReaches | regen.go:42-44 | every rune of every interval is drawn by some source |
| Ranges.RangeText | regen.go:24-29 | `r.String` is one rune exactly when the range is a single rune, starts with `min` and ends with `max` |
| Ranges.SetText | regen.go:46-52 | the text `rr.String` builds has one to three runes per interval |
| Ranges.SetString | regen.go:46-52 | the loop of `rr.String` yields the interval texts concatenated in order |
| Ranges.SetTextRoundTrip | regen.go:24-29 | the text of `r.String` joined by `rr.String` reads back into the same intervals when no interval starts at '-' |
| Syntax.Pairs | regen.go:109-112 | the class intervals are the consecutive pairs of the rune list, one per pair |
| Syntax.NarrowerRefl | regen.go:152-154 | a tree is a narrowing of itself |
| Syntax.NarrowerTrans | regen.go:152-154 | maxima lowered over several calls remain a narrowing of the parsed tree |
| Syntax.NarrowerWellFormed | regen.go:152-154 | lowering maxima keeps classes and alternations as the parser made them |
| Syntax.NarrowerHasPlus | regen.go:152-154 | lowering maxima adds no Plus node |
| Generation.EffMax | regen.go:152-154 | the clamped maximum is at most the limit; it is the limit when unbounded, and otherwise at most the node's own maximum |
| Generation.Gen | regen.go:91-177 | generation leaves a tree of the same size: it writes maxima and changes no node's shape |
| Generation.GenCharClass | regen.go:108-113 | a well-formed class emits exactly one rune, inside one of its intervals |
| Generation.GenCapture | regen.go:119-120 | the walk of a capture keeps the tree size |
| Generation.GenStar | regen.go:122-129 | the walk of a Star keeps the tree size |
| Generation.GenPlus | regen.go:131-139 | the walk of a Plus keeps the tree size |
| Generation.GenQuest | regen.go:141-148 | the walk of a Quest keeps the tree size |
| Generation.GenRepeat | regen.go:150-164 | the walk of a Repeat keeps the tree size |
| Generation.RepeatDraw | regen.go:155-158 | Repeat draws in [0, max] only when the clamped maximum exceeds the minimum, and otherwise uses 0 |
| Generation.RepeatCount | regen.go:159 | Repeat makes max(min, draw) passes: at least `min`, at most the clamped maximum when that exceeds `min`, exactly `min` otherwise |
| Generation.GenConcat | regen.go:166-171 | the walk of a Concat keeps the tree size |
| Generation.GenAlternate | regen.go:173-174 | the walk of an Alternate keeps the tree size |
| Generation.GenSeq | regen.go:125-127 | one pass over the children keeps their number and sizes |
| Generation.Redraw | regen.go:124 | a loop whose guard redraws `Intn(bound)` makes fewer than `bound` passes |
| Generation.Fixed | regen.go:134-137 | a counted loop makes exactly `count` passes |
| Clamping.EffMaxCompose | regen.go:152-154 | clamping twice is clamping to the smaller limit, so a clamp is idempotent for a fixed limit and is not undone by a larger one |
| Clamping.GenNarrows | regen.go:91-177 | generation only lowers Repeat maxima, so the tree it leaves is a narrowing of the one it walked |
| Clamping.CaptureNarrows | regen.go:119-120 | a capture's walk narrows the capture |
| Clamping.StarNarrows | regen.go:122-129 | a Star's walk narrows the Star |
| Clamping.PlusNarrows | regen.go:131-139 | a Plus's walk narrows the Plus |
| Clamping.QuestNarrows | regen.go:141-148 | a Quest's walk narrows the Quest |
| Clamping.RepeatNarrows | regen.go:150-164 | a Repeat's walk narrows the node and stores exactly the clamped maximum `EffMax(max, limit)`: the limit when the Repeat is unbounded or its maximum exceeds the limit, the old maximum otherwise |
| Clamping.ConcatNarrows | regen.go:166-171 | a Concat's walk narrows the Concat |
| Clamping.AlternateNarrows | regen.go:173-174 | an Alternate's walk narrows the Alternate; the node stays an Alternate with as many children, and every child but the picked one is untouched |
| Clamping.GenSeqNarrows | regen.go:125-127 | a pass over the children narrows each child |
| Clamping.RedrawNarrows | regen.go:124-128 | any number of Star or Quest passes narrows each child |
| Clamping.FixedNarrows | regen.go:134-138 | any number of Plus or Repeat passes narrows each child |
| Clamping.GenSeqReady | regen.go:125-127 | a pass over children that generation can walk leaves children that it can walk again |
| Soundness.GenSound | regen.go:91-177 | the output of a walk of any narrowing of a pattern the generator honours is in that pattern's language |
| Soundness.CaptureSound | regen.go:119-120 | a capture emits a string of its child's language |
| Soundness.StarSound | regen.go:122-129 | a Star emits some number of strings of its body's language |
| Soundness.PlusSound | regen.go:131-139 | a Plus emits at least one string of its body's language |
| Soundness.QuestSound | regen.go:141-148 | a Quest emits zero or one string of its body's language |
| Soundness.RepeatSound | regen.go:150-164 | a Repeat emits between `min` and the pattern's `max` strings of its body's language |
| Soundness.ConcatSound | regen.go:166-171 | a Concat emits its children's strings in order |
| Soundness.AlternateSound | regen.go:173-174 | an Alternate emits a string of one child's language |
| Soundness.GenSeqSound | regen.go:125-127 | one pass emits a piece per child, in order, each in that child's language |
| Soundness.RedrawSound | regen.go:124-128 | a redrawing loop emits one body string per pass it makes |
| Soundness.FixedSound | regen.go:134-138 | a counted loop emits `count` body strings |
| Repetition.NarrowerWidth | regen.go:152-154 | lowering maxima does not change a fixed output width |
| Repetition.GenWidth | regen.go:91-177 | a tree of fixed width emits exactly that many runes |
| Repetition.RepeatWidth | regen.go:150-164 | a Repeat whose maximum does not exceed its minimum emits `min` passes' worth of runes |
| Repetition.GenSeqWidth | regen.go:125-127 | one pass emits the sum of the children's widths |
| Repetition.FixedWidth | regen.go:134-138 | `n` passes of width `w` emit `n*w` runes |
| Repetition.RedrawWidth | regen.go:124-128 | a redrawing loop emits its pass count times the width |
| Repetition.StarLength | regen.go:122-129 | Star makes at most `limit` passes, none when the first draw is 0 (always so at limit 0), and emits passes times width |
| Repetition.PlusLength | regen.go:131-139 | Plus makes `Intn(limit)+1` passes, between 1 and `limit`, each emitting every child |
| Repetition.QuestLength | regen.go:141-148 | Quest emits nothing or exactly one pass |
| Repetition.RepeatLength | regen.go:150-164 | Repeat makes max(min, draw) passes under the clamped maximum |
| Repetition.QuestDraws | regen.go:141-148 | a skipped Quest draws once; a taken Quest draws, makes one pass and draws again |
| Repetition.LiteralPasses | regen.go:101-106 | `n` passes over a literal emit `n` copies of its runes and leave it unchanged |
| Repetition.LettersStar | regen.go:122-129 | `[a-zA-Z]*` yields at most `limit` runes |
| Repetition.ExactRepeat | regen.go:150-164 | `a{3}` yields "aaa" whatever the limit and the draws |
| Repetition.BoundedRepeat | regen.go:150-164 | `a{3,6}` at the default limit 10 yields between 3 and 6 runes |
| Repetition.BoundedRepeatReaches | regen.go:155-163 | a source answering `n` in 3..6 makes `a{3,6}` at limit 10 yield exactly `n` runes, so both ends occur |
| Repetition.AlternatePicks | regen.go:173-174 | a source that answers `k` makes Alternate emit child `k`'s output, so every child can be chosen |
| Repetition.ClampWritten | regen.go:152-154 | `a{3,}` walked at limit 5 carries the maximum 5 afterwards |
| Repetition.ClampPersists | regen.go:152-154 | after that walk, a walk at limit 10 still yields at most 5 runes |
| Repetition.UnclampedReaches | regen.go:152-154 | an unwalked `a{3,}` at limit 10 yields 10 runes on a source answering 10 |
| Repetition.Silent | regen.go:94-99 | NoMatch, EmptyMatch, the anchors, `.` and the word boundaries emit nothing, draw nothing and stay as they are |
| Repetition.ConcatInOrder | regen.go:166-171 | a Concat emits its first child's output and then its second's, drawn after the first |
| Generators.Generator.constructor | regen.go:61-72 | a new generator holds the parsed tree, the default limit 10 and a source seeded from the clock |
| Generators.Generator.Limit | regen.go:75-79 | a non-negative value becomes the limit; a negative one leaves it unchanged |
| Generators.Generator.Seed | regen.go:82-84 | a fresh source seeded with the value replaces the old one, and nothing else changes |
| Generators.Generator.Generate | regen.go:87-89 | one walk of the stored tree keeps the clamped tree; its output is in the pattern's language when the pattern uses only operators the generator honours (`Regular`), and the generator stays valid |
| Generators.Generator.generate | regen.go:91-177 | the dispatch yields what `Gen` describes: output, updated node and new history |
| Generators.Generator.literal | regen.go:101-106 | the loop appends the literal's runes verbatim |
| Generators.Generator.charClass | regen.go:108-113 | the pair loop builds the intervals, then one rune is drawn from them |
| Generators.Generator.capture | regen.go:119-120 | a capture yields its child's walk |
| Generators.Generator.star | regen.go:122-129 | Star runs the redrawing loop with bound `limit+1` |
| Generators.Generator.plus | regen.go:131-139 | Plus draws `Intn(limit)` once and makes that many passes plus one |
| Generators.Generator.quest | regen.go:141-148 | Quest runs the redrawing loop with bound 2 |
| Generators.Generator.repeat | regen.go:150-164 | Repeat clamps the maximum, hands the node back with it, draws only when it exceeds the minimum, and makes max(min, draw) passes |
| Generators.Generator.concat | regen.go:166-171 | Concat makes one pass over its children |
| Generators.Generator.alternate | regen.go:173-174 | Alternate draws an index and walks that child alone |
| Generators.Generator.generateAll | regen.go:125-127 | the inner range loop appends each child's output in order and collects the updated children |
| Generators.Generator.redraw | regen.go:124-128 | the loop with a redrawn guard equals `Redraw` |
| Generators.Generator.passes | regen.go:134-138 | the counted loop equals `Fixed` |
| Generators.GenKeeps | regen.go:87-89 | a walk of a narrowing of the pattern leaves a narrowing, keeps it walkable, and emits a string of the pattern's language |
| Generators.SeededRun | regen.go:82-89 | `Seed` then `Generate` yields the output, the tree and the source history determined by the tree, the limit and the seed alone, and leaves the limit as it was |
| Generators.SeedReproduces | regen.go:82-89 | two generators with the same tree and limit, given the same seed, generate the same string and are left in step (same tree, limit, source and history), with fresh sources and their limits unchanged |
| Generators.NextCallsAgree | regen.go:87-89 | two generators in step generate the same string, stay in step and keep their sources and limits, so calls can be chained |
| Generators.SeedLoop | regen_test.go:90-104 | reseeding both generators with the same value before each pair of calls gives equal outputs at every round |
| Generators.SeedThenCalls | regen.go:82-89 | a common seed, two later calls and a reseed, chained: the two generators return equal outputs at every step |

## Left out

- Parsing (`syntax.Parse` in `New`) is not modelled. The constructor takes the parsed tree, and the parse-error path of `New` is absent.
- Generators.Generator.constructor: it requires `WellFormed`: even-length class rune lists of ordered pairs, non-empty alternations, and non-empty classes. The parser guarantees the first two, but it returns an empty class for a class that excludes every rune (such as `[^\x00-\x{10FFFF}]`). On such a tree Go's `New` succeeds and `rr.randRune` later panics in `Intn(0)` (regen.go:43) when the class is reached; the model excludes such trees at construction instead.
- Generators.Generator.Generate: through `Valid()` it likewise excludes trees with an empty class, on which Go panics only if the walk reaches the class.
- The `math/rand` algorithm and `time.Now().UnixNano()` are not modelled. A seed maps to a source through the generator's `seeding` parameter, and the clock reading is a parameter of the constructor.
- RandSource.Pick: it reads an answer outside [0, n) as 0 so that every `draw` meets the `Intn` contract; a real source never gives such an answer.
- Conversion of runes to UTF-8 (`string(r)`, `fmt.Sprintf` in the `String` methods) is not modelled. Output is a rune sequence, so the replacement of surrogates and invalid runes by U+FFFD is not modelled either.
- Generators.Generator.Limit: the limit is an unbounded natural number, while Go's `limit` is a machine `int`. After `Limit(math.MaxInt)`, `g.limit+1` in Star (regen.go:124) and `re.Max+1` in a Repeat clamped to the limit (regen.go:157) wrap to a negative bound and `Intn` panics; the model generates normally there.
- Go's `rune` is a 32-bit integer; runes are unbounded integers here. The parser never produces runes outside Unicode, so no wrap-around arises.
- Generators.Generator.Generate: it requires a limit of at least 1 whenever the pattern contains a Plus node anywhere. Go panics only when `Intn(0)` is actually reached, so this precondition is stricter.
- Generation.Gen: the functions are total and give an unspecified value on trees where Go would panic (an empty alternation, a malformed class, Plus at limit 0). No contract relies on those values.
- Soundness.GenSound: it covers only patterns built from EmptyMatch, Literal, CharClass, Capture, Star, Plus, Quest, Repeat, Concat and Alternate. NoMatch and `.` emit "", which is not in their language. The zero-width assertions also emit "", and `Matches` does accept "" for each of them alone, but `Matches` has no notion of position: an anchor inside a concatenation (`a^b`) would be accepted though it matches nothing, so the assertions are excluded too.
- The final `regexp.MatchString` check of the Go tests is a foreign matcher; the hand-written predicate `Language.Matches` stands in for it.
- The command-line wrapper (cli/cli.go) is flag parsing and printing, and is not modelled.
- Concurrent use of one generator is not modelled: concurrent calls would race on the shared source `g.rand` and on the in-place write of `re.Max`.
