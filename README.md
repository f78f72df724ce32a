# PCSO 2D Lotto Generator: a Dafny model of the combination engine

This project models the engine of the PCSO 2D lotto ticket generator, found in
`public/js/generator.js`. A bet is two numbers of the game (0 to 31), a
buffer radius, an amount and the Rambolito flag. The engine works in three
steps:

- The **Expander** (`generateBufferedCombinations`) turns a bet into a
  sequence of number pairs with no pair twice.
  - In Rambolito mode it keeps the original pair. It then moves each number
    on its own by every nonzero offset up to the buffer, and drops any moved
    number that leaves 0 to 31.
  - In exact mode with buffer 0 the result is the single pair as entered.
  - In exact mode with any other buffer it builds the same base set, then adds
    every base pair followed by its reversal.
- The **Formatter** (`formatCombination`) writes one ticket line: both numbers
  padded to two digits, the amount, and `" R"` for a Rambolito bet.
- The **Aggregator** (`generateOutputForCombination`, `calculateTotalCost`,
  `generateCompleteOutput`) does the rest.
  - It formats every pair of every bet.
  - It sums the pair counts and count × amount over all bets.
  - It joins all lines with a footer: a blank line, a divider of seven
    hyphens, the total count, the total amount, the generation time and,
    when a version is known, a line naming the tool and the version.

The model has three modules, one per part:

- `Expander` (expander.dfy):
  - The source keeps the pairs in a JavaScript `Set` of `"a,b"` strings, which
    lists its entries in insertion order. The model uses a duplicate-free
    `seq<Pair>` instead. `Insert` appends a pair when it is absent.
  - `Expansion` is the resulting sequence as a function. It is built by the
    same folds as the source's loops.
  - `InExpansion` describes independently which pairs the expansion holds.
  - `GenerateBufferedCombinations` is the loop program, and it is proved
    equal to `Expansion`.
  - Reading a key back with `split(',').map(Number)` gives the same two
    integers for every integer pair. The model therefore stores the pair
    itself.
- `Formatter` (formatter.dfy):
  - `String(n)` is `IntToString`: plain decimal, with a leading `-` for
    negatives. `padStart(2, '0')` is `PadStart`.
  - `ParseInt` is the inverse of `IntToString`. It is used to prove that two
    different bets never give the same ticket line.
- `Report` (report.dfy):
  - The totals and the report are functions of the list of bets.
  - `CalculateTotalCost` and `GenerateCompleteOutput` are the loop programs,
    and each is proved equal to those functions.
  - `Join` is `Array.prototype.join('\n')`. `Split` is
    `String.prototype.split('\n')`, the way a reader of the text sees its
    lines.

Some things come from outside the engine and are passed in as parameters:

- `timestamp`: the clock reading.
- `version`: the application version. The empty string means there is none,
  matching the source's truthiness test on `appVersion`.
- `costText`: the locale's rendering of the total cost.

Three behaviours of the source are easy to miss, and the model keeps each:

- The engine does not fail on an empty list of bets. With no bets,
  `generateCompleteOutput` returns the footer with a total of 0. The empty
  case is guarded by the callers in `public/js/app.js`.
- Numbers and buffers are never range-checked.
  - The original pair is included even when it lies outside 0 to 31. Only
    moved numbers are filtered.
  - A negative buffer makes both shift loops empty.
  - Exact mode tests `buffer === 0`, so a negative buffer is still doubled by
    reversal.
  - The model takes every field as an unbounded `int` and states its
    range-dependent properties under explicit `requires`.
- Line order within a bet is given by the source: insertion order, as above.
  The model keeps that order exactly rather than treating the result as an
  unordered set.

## Model

| member | source | states |
|---|---|---|
| Expander.GenerateBufferedCombinations | public/js/generator.js:14-83 | The loops produce exactly `Expansion`: the same pairs, in insertion order. This holds in all three modes. |
| Expander.AddShiftVariations | public/js/generator.js:24-39 | One shift loop over i = -buffer..buffer, skipping 0 and dropping out-of-range numbers, adds exactly the in-range moves of one number to the set, in increasing offset order, each once. |
| Expander.AddWithReversals | public/js/generator.js:75-80 | The exact-mode loop adds each base pair and then its reversal, skipping any pair already present. |
| Expander.ExpansionMembers | public/js/generator.js:14-83 | A pair is in the expansion if and only if the reference description `InExpansion` names it. Rambolito: the original pair, or one number moved by a nonzero offset of at most buffer that stays in 0..31. Exact mode with buffer 0: only the original pair. Otherwise: such a pair or the reversal of one. |
| Expander.RambolitoShape | public/js/generator.js:19-39 | In Rambolito mode the original pair is present. Every other pair moves exactly one number by a nonzero d with \|d\| ≤ buffer. No pair differs from the original in both numbers. |
| Expander.RambolitoComplete | public/js/generator.js:24-39 | In Rambolito mode, for every nonzero d in [-buffer, buffer], the pairs (num1+d, num2) and (num1, num2+d) are present whenever the moved number is in 0..31. |
| Expander.ExactZeroBuffer | public/js/generator.js:48-51 | In exact mode with buffer 0 the result is exactly [(num1, num2)]. It holds no reversed pair. |
| Expander.ExactIsBaseWithSwaps | public/js/generator.js:48-80 | In exact mode with any nonzero buffer, negative ones included, a pair is present if and only if it or its reversal is in the Rambolito result for the same bet. The result is closed under reversal. |
| Expander.ExpansionNoDuplicates | public/js/generator.js:15-82 | The expansion never lists a pair twice, in any mode. |
| Expander.ExpansionLength | public/js/generator.js:15-82 | For buffer ≥ 0 the expansion has at most 1 + 4·buffer pairs in Rambolito mode and at most 2·(1 + 4·buffer) in exact mode. |
| Expander.ExpansionInRange | public/js/generator.js:26-37 | For a bet on numbers in 0..31, every number of every pair is in 0..31. Out-of-range moves are dropped, never clamped or wrapped. |
| Expander.RambolitoExample | public/js/generator.js:17-18 | (7, 26) with buffer 1 in Rambolito mode gives exactly (7,26), (6,26), (8,26), (7,25), (7,27), in that order. |
| Expander.ExactExample | public/js/generator.js:44-80 | The same bet in exact mode gives ten distinct pairs: each base pair followed by its reversal. |
| Expander.BoundaryExample | public/js/generator.js:33-39 | (31, 31) with buffer 2 in Rambolito mode keeps only the downward moves. No number exceeds 31. |
| Formatter.IntToStringRoundTrip | public/js/generator.js:95-100 | The decimal text of any integer reads back as that integer. It is not empty, ends in a digit, and holds only digits and a '-'. |
| Formatter.TwoDigits | public/js/generator.js:94-96 | A number in 0..31 is padded to exactly its two decimal digits. |
| Formatter.FormatShape | public/js/generator.js:93-101 | For numbers in 0..31 the ticket line is `DD DD amount`, followed by `" R"` exactly for a Rambolito bet. Each DD is the number's two digits. |
| Formatter.FormatInjective | public/js/generator.js:93-101 | For numbers in 0..31, two bets give the same ticket line if and only if the numbers, the amount and the flag are all equal. |
| Formatter.FormatNoNewline | public/js/generator.js:93-101 | A ticket line never contains a line break, for any integers. |
| Formatter.FormatExample | public/js/generator.js:91 | 1, 2 and 20 give `"01 02 20 R"` in Rambolito mode and `"01 02 20"` otherwise. |
| Formatter.FormatCombination | public/js/generator.js:93-101 | Definition of the ticket line, with no contract of its own: both numbers through `String(n).padStart(2, '0')`, the amount through `String`, single spaces between, and `" R"` exactly when the flag is set. FormatShape, FormatInjective and FormatNoNewline state its properties. |
| Report.OutputForCombination | public/js/generator.js:108-118 | Definition of one bet's lines, with no contract of its own: the ticket line of each expanded pair, in expansion order, as the `map` at lines 115-117 does. OutputForCombinationLines states its properties. |
| Report.VersionLine | public/js/generator.js:170-171 | The version line is non-empty exactly when a version is given, so it is pushed only then. |
| Report.Footer | public/js/generator.js:173-180 | The footer has six lines when a version is given and five otherwise. ReportLinesShape states each line's text. |
| Report.OutputForCombinationLines | public/js/generator.js:108-118 | A bet yields one line per pair. Its lines are exactly the lines of the pairs in the reference expansion: each such pair has its line, and every line is one of them. For numbers in 0..31 no line appears twice. |
| Report.CalculateTotalCost | public/js/generator.js:125-139 | The loop returns the sum of the pair counts and the sum of count × amount over all bets. |
| Report.TotalsMatchLines | public/js/generator.js:125-139 | The total pair count equals the number of ticket lines over all bets. |
| Report.UniformCost | public/js/generator.js:129-136 | When every bet is for the same amount, the total cost is that amount times the total pair count, which is also that amount per ticket line. |
| Report.TotalsAppend | public/js/generator.js:129-136 | Both totals add up over a list of bets split in two. |
| Report.GenerateCompleteOutput | public/js/generator.js:146-183 | The loop builds the ticket lines of all bets in order, appends the footer, and returns the lines joined with line breaks. |
| Report.ReportLinesShape | public/js/generator.js:147-182 | The report's line list holds exactly total-count ticket lines. They are followed by "", the seven-hyphen divider, the total count, the total amount, the timestamp and, when a version is given, the version line. |
| Report.FooterSingleLine | public/js/generator.js:173-180 | If the timestamp, the version and the cost text hold no line break, no footer line holds one. |
| Report.ReportShape | public/js/generator.js:173-182 | Split at its line breaks, the report text has total-count + 5 lines (+ 6 with a version). The first total-count lines are the ticket lines, followed by "", the divider and "Total Combinations: N". |
| Report.SplitJoin | public/js/generator.js:182 | Joining lines that hold no line break and splitting the result gives the same lines back. |
| Report.SingleBetExample | public/js/generator.js:146-183 | The single exact bet 1, 2 for 20 with buffer 0 gives the line "01 02 20", a count of 1 and a cost of 20. |
| Report.TwoBetsExample | public/js/generator.js:125-139 | The bet (7, 26) for 20 with buffer 1 in Rambolito mode, plus the bet (1, 2) for 50 exact with buffer 0, total 6 pairs and 150. |

## Left out

- `public/js/app.js` is not part of this model. It holds DOM handling, events,
  alerts, clipboard, printing, file download and import, version fetching and
  random ball colours. Its one data step, dropping form rows whose fields are
  not numbers, happens before the engine is called.
- The timestamp from `Date.prototype.toLocaleString` is clock- and
  locale-dependent. It is the parameter `timestamp`.
- The thousands separators of `totalCost.toLocaleString()` are locale library
  behaviour. The cost text is the parameter `costText`.
- The global `appVersion` is the parameter `version`. Only string values are
  modelled: non-empty means present.
- JavaScript numbers are doubles. The model uses unbounded integers, so it
  does not capture precision loss above 2^53, `String(n)`'s exponent
  notation from 10^21 up, or non-integer inputs. The form only supplies
  `parseInt` results.
- Input range validation (0 to 31, buffer 0 to 2, a positive amount) is not
  done by the engine, and the model does not add it. Properties that depend
  on it say so in their `requires`.
- ReportShape: it is stated only for a timestamp, version and cost text
  without line breaks. A line break inside one of those would split a footer
  line in the text.
- ExpansionLength: it is stated for buffer ≥ 0 only. For a negative buffer
  the source still returns the original pair (and, in exact mode, its
  reversal), which exceeds 1 + 4·buffer.
