# Type card: commit time-of-day aggregation and SVG template

This project models the deterministic core of the "type" profile card of
github-stats (`Typecard` in `src/cards/TypeCard.ts`). The card looks at the hours
of a user's recent commits and says whether the user is an early bird or a
night owl. It has two phases:

- **Fetch, aggregation part.** Each commit hour is classified into four
  half-open intervals: morning [6,12), daytime [12,18), evening [18,24) and
  night [0,6). Each interval has its own counter, updated in a loop. The phase
  then derives the label, which is "I'm an Early 🐤" when morning + daytime is
  at least evening + night and "I'm a Night 🦉" otherwise. It also computes each
  bucket's percentage as `Math.round(count / sum * 100)`.
- **Render.** The card is a fixed 530×185 SVG template. It holds the canvas and
  frame, an optional clipped background image, the title line at y = 30 and
  four rows. The rows come from a builder whose `y` starts at 30 and grows by
  30 before each row.

Modules:

- `Wrappers` (`wrappers.dfy`): `Option` and `Result`.
- `Decimal` (`decimal.dfy`): how a template literal turns a non-negative
  integer into text, with a parse-back round trip.
- `TypeAggregation` (`aggregation.dfy`): classification, the counting loop
  (`Tally`, a method with a loop and invariants), the label, the rounding, the
  fetch result (`Report`, `Summarize`), and the lemmas about them.
- `TypeRender` (`render.dfy`): the theme record, the template pieces, the row
  builder (`GenerateTypeLines`, a method with the mutable `y`), `Render`, the
  layout lemmas and the end-to-end `TypeCard`. `Render` reads the rows from the
  closed form `TypeLines` (row i at y = 60 + 30 i), because a function cannot
  call a method. The loop in `GenerateTypeLines` is proved equal to that closed
  form.

Modelling choices:

- **Hours.** The input is a sequence of `Option<int>` hours. `Some(h)` is what the
  date library reports for a parsed timestamp. `None` is an unparsable
  timestamp: its hour is NaN, which fails all four guards.
- **Rounding.** `Math.round(c / sum * 100)` with `c >= 0` and `sum > 0` is modelled
  as exact rational round-half-up, computed in integers as
  `(200c + sum) / (2 sum)`. Its contract says what it means: the integer
  nearest to 100c/sum, with halves rounded up. The source's double-precision
  arithmetic can differ from this by one (see "## Left out").
- **Empty history.** When no hour is classified (`sum == 0`), the source divides
  0 by 0 and prints "NaN%". The model does not render this. `Summarize`, and
  through it `TypeCard`, returns `Failure(EmptyHistory)` instead. The behaviour
  as written is kept in `PercentAsWritten` (see Findings).
- **Inputs.** `makeGraph` is a function parameter `graph: nat -> string`, left
  uninterpreted. The resolved theme is an input record of strings. The encoded
  background image is an `Option<string>`.
- **Whitespace.** `Render` reproduces the template's line breaks and
  indentation exactly, so equal inputs give byte-identical text.

## Model

| member | source | states |
|---|---|---|
| TypeAggregation.Within | src/cards/TypeCard.ts:124-140 | the guard `lo <= hour && hour < hi` of each `if`; a NaN hour (an unparsable timestamp) passes no guard |
| TypeAggregation.Classify | src/cards/TypeCard.ts:126-140 | an hour lands in some bucket exactly when it lies in 0..23, and it lands in bucket k exactly when k's guard (the same `Within` test the loop runs) holds, so the four guards are pairwise disjoint and cover the day |
| TypeAggregation.BoundaryHours | src/cards/TypeCard.ts:126-140 | the interval edges: 0 and 5 are night, 6 and 11 morning, 12 and 17 daytime, 18 and 23 evening; -1 and 24 land nowhere |
| TypeAggregation.CountInSnoc | src/cards/TypeCard.ts:123-141 | processing one more reading raises a counter by one exactly when the reading passes that counter's guard, and leaves it unchanged otherwise |
| TypeAggregation.CountInSplit | src/cards/TypeCard.ts:126-140 | adjacent half-open intervals count disjointly: the count for [lo,hi) is the count for [lo,mid) plus the count for [mid,hi) |
| TypeAggregation.CountInMonotone | src/cards/TypeCard.ts:119-141 | no counter ever decreases: a counter's value after a prefix of the readings is at most its value after any longer prefix |
| TypeAggregation.Tally | src/cards/TypeCard.ts:119-141 | the loop with four independent guards leaves each counter equal to the number of readings in its interval, and the counters together equal the number of readings whose hour lies in 0..23 |
| TypeAggregation.CountsConserved | src/cards/TypeCard.ts:142 | sum = morning + daytime + evening + night equals the number of readings whose hour lies in 0..23 |
| TypeAggregation.ParsedHoursAllCounted | src/cards/TypeCard.ts:123-142 | when every timestamp parses to an hour in 0..23, sum equals the number of commits |
| TypeAggregation.Label | src/cards/TypeCard.ts:143-146 | the label is the early one if and only if morning + daytime >= evening + night, and the night one if and only if morning + daytime < evening + night |
| TypeAggregation.TieIsEarly | src/cards/TypeCard.ts:143-146 | equal day-side and night-side totals are labelled early |
| TypeAggregation.Percent | src/cards/TypeCard.ts:153 | for sum > 0 the percentage p satisfies p - 1/2 <= 100 count / sum < p + 1/2, which is exact rational round-half-up of count / sum * 100 (Math.round idealised; see Left out) |
| TypeAggregation.PercentUnique | src/cards/TypeCard.ts:153 | no other integer satisfies that rounding property, so the integer formula is exact rational round-half-up of count / sum * 100 |
| TypeAggregation.PercentRange | src/cards/TypeCard.ts:150-168 | for count <= sum a percentage lies in 0..100, a bucket with no commit shows 0 and a bucket holding every commit shows 100 |
| TypeAggregation.PercentsNearHundred | src/cards/TypeCard.ts:150-168 | rounding each bucket on its own keeps the four percentages' total between 99 and 102 |
| TypeAggregation.Report | src/cards/TypeCard.ts:148-171 | the label is the early one exactly when morning + daytime >= evening + night and the night one otherwise; the buckets come in the order morning, daytime, evening, night with their display names and counts; each percentage is its count's share of the total rounded half up and lies in 0..100; the four percentages total 99..102; the background image is passed on unchanged |
| TypeAggregation.Summarize | src/cards/TypeCard.ts:119-171 | aggregation fails exactly when no reading lies in 0..23; otherwise it returns the report of the counts the readings determine |
| TypeAggregation.AllAtNine | src/cards/TypeCard.ts:119-169 | commits all made at 9 o'clock give morning every commit at 100%, 0% for the other buckets, and the early label |
| TypeAggregation.EvenSplit | src/cards/TypeCard.ts:142-168 | equal counts in the four buckets give 25% each and the early label |
| TypeAggregation.PercentAsWritten | src/cards/TypeCard.ts:153-168 | the unguarded division yields NaN (None) exactly when sum is 0, and otherwise a percentage in 0..100 |
| TypeAggregation.EmptyHistoryGivesNaN | src/cards/TypeCard.ts:142-168 | as written, readings none of which lies in 0..23 make all four percentages NaN while the label is still the early one |
| Decimal.NatToString | src/cards/TypeCard.ts:224 | an interpolated integer is non-empty text made of decimal digits, with no leading zero |
| Decimal.DecimalRoundTrip | src/cards/TypeCard.ts:230-232 | reading the digits of a rendered count back gives the count |
| Decimal.NatToStringInjective | src/cards/TypeCard.ts:230-232 | distinct counts, percentages or offsets are rendered as distinct texts |
| TypeRender.TypeLines | src/cards/TypeCard.ts:217-244 | there are exactly four rows, row i for the i-th bucket at y = 60 + 30 i |
| TypeRender.GenerateTypeLines | src/cards/TypeCard.ts:217-244 | the builder whose y starts at 30 and grows by 30 before each row yields the morning, daytime, evening and night rows at y = 60, 90, 120 and 150 |
| TypeRender.TypeLine | src/cards/TypeCard.ts:223-242 | one row: a group translated to (25, y) holding four text elements in the row colour, size and weight, at x = 0 the bucket name, at x = 90 "<commits> commits", at x = 180 the bar `makeGraph(percent)`, at x = 450 "<percent>%", with the template's whitespace; a template with no contract of its own, whose placement RowsInOrder and DocumentLayout state |
| TypeRender.RowsInOrder | src/cards/TypeCard.ts:269-272 | the joined rows are the morning, daytime, evening and night rows, in that order, at y = 60, 90, 120 and 150 |
| TypeRender.DocumentLayout | src/cards/TypeCard.ts:247-275 | the card reads top to bottom: canvas and frame, background slot, title at y = 30 with the label, the four rows in order, closing tag |
| TypeRender.Render | src/cards/TypeCard.ts:174-276 | the whole card as `Canvas` (the 530x185 svg tag and frame), `BackgroundSlot` (`BackgroundBlock` or nothing), `Body` (`Title` at y = 30, the joined rows, `Closing`); a template with no contract of its own, whose layout DocumentLayout, BodyIgnoresImage and BackgroundOnlyWithImage state |
| TypeRender.BodyIgnoresImage | src/cards/TypeCard.ts:266-275 | nothing after the background slot depends on the image |
| TypeRender.BackgroundOnlyWithImage | src/cards/TypeCard.ts:258-265 | the card with an image is the card without one with the clip-path and image block inserted right after the canvas; without an image that slot is empty |
| TypeRender.TypeCard | src/cards/TypeCard.ts:119-276 | the card fails exactly when no commit is classified, and otherwise is the rendering of the aggregation report |

## Left out

- The network calls are not modelled: the user lookup, the repository query with its cap of 10 repositories, and the per-repository history query with its cap of 100 commits. Their combined result is the input sequence of hours.
- The `Promise.all` fan-out and join over repositories is concurrency, so only its result is modelled. As written, one rejected repository query rejects the whole join; nothing is aggregated from the queries that did resolve.
- Hour extraction by the date library depends on the local timezone. The model takes the hours as given, with `None` for an unparsable timestamp.
- `parseImage` fetches and encodes the background image. The model takes its result as an optional string.
- `makeGraph` comes from the `progress-graph` library. It is an uninterpreted function parameter.
- Theme resolution (`getFallbackTheme`) and the `BaseCard` lifecycle (`preprocess`, request normalisation) are not part of this model. The resolved theme is an input record, and its numeric sizes and weights are held as the text they interpolate to.
- TypeAggregation.Percent: the double-precision evaluation of `(count / sum) * 100` is idealised as exact rational round-half-up. Near a .5 boundary the two can differ by one: for 23 of 40 commits, `(23 / 40) * 100` is 57.49999999999999 in double precision, so `Math.round` gives 57, while the model gives 58.
- TypeRender.Render: the title's label and the theme strings are interpolated without escaping, as in the source. No property about well-formed XML is claimed.

## Findings

| source | as written | input that shows it | evidently intended | confidence | as-written member | corrected member |
|---|---|---|---|---|---|---|
| src/cards/TypeCard.ts:142-168 | each percentage is `Math.round((count / sum) * 100)` with no guard on `sum` | a user whose recent repositories hold no commits by them (no hours at all): sum is 0, every percentage is 0 / 0 = NaN, the card prints "NaN%" in all four rows and still says "I'm an Early 🐤" | an empty history is reported as a failure instead of being rendered | high; not executed | TypeAggregation.EmptyHistoryGivesNaN | TypeAggregation.Summarize |
