# Lotto QR helper — a Dafny model of its number logic

The application is a single React page (`src/app/page.tsx`). It scans the QR
code printed on a lottery ticket. It reads the games already played from the
`v` parameter of the scanned URL. It then recommends new six-number sets from
the numbers 1..45 that none of those games used, the "lucky numbers" or pool.

This project models the page's logic, not its presentation:

- `handleScan`: decoding the scanned text into played sets.
- `recommendLottoNumbers`: computing the pool and dispatching on the
  algorithm name.
- The three strategies:
  - `runNormalAlgorithm` ("Ordered");
  - `runGroupShuffleAlgorithm` with its `generateFlattenedArray`;
  - `runShuffleAlgorithm` ("Shuffe").
- `shuffleArray`, the Fisher-Yates shuffle.

Modules:

- `JsBuiltins` (`js_builtins.dfy`) states the JavaScript built-ins the page
  relies on as functions over values:
  - `slice`/`substring` clamping;
  - `flat`;
  - the numeric `sort((a, b) => a - b)`;
  - `parseInt(…, 10)` with its whitespace, sign and trailing-garbage rules;
  - `split(/[a-zA-Z]/)`.
- `Payload` (`payload.dfy`) covers `handleScan`. `HandleScan` and `DecodeSet`
  keep the source's loops. The function `Scan` specifies them. It is proved
  to invert an encoder of well-formed payloads.
- `NumberPool` (`pool.dfy`) covers the pool of unplayed numbers: it is
  ascending, holds exactly the unplayed numbers of 1..45, and has the
  expected size.
- `FisherYates` (`fisher_yates.dfy`) covers `shuffleArray`. It is an
  in-place shuffle of an `array` copy. It is proved against the function
  `Shuffled` and shown to be a permutation.
- `Strategies` (`strategies.dfy`) covers the three strategies:
  - The list that `runShuffleAlgorithm` appends to in place is the class
    `SetList`.
  - Every loop is a method proved against a specification function
    (`Ordered`, `FillFrom`, `Groups`, `Flattened`, `GroupShuffle`).
- `Recommend` (`recommend.dfy`) covers `recommendLottoNumbers`.

Randomness: `Math.random()` is replaced by a stream `rng: nat -> nat` and a
draw index `t`.

- `Math.floor(Math.random() * (i + 1))` at draw `t` becomes
  `rng(t) mod (i + 1)`.
- Every method that draws returns the index after its last draw. The whole run is
  therefore a deterministic function of the stream.
- Every property below holds for every stream.

Behaviour of the code worth knowing. The model follows the code here,
even where the code's own comments suggest otherwise: the comment at
src/app/page.tsx:111 says the extra numbers "complete the sets", yet the
extra set rarely has six numbers.

- A game piece needs only 11 characters, not 12: `substring(10, 12)` of an
  11-character piece is a single digit, which `parseInt` accepts
  (`ElevenDigitPiece`).
- Fields are not range-checked. `parseInt` on two characters yields
  anything from -9 to 99, so "-5" and "00" are stored (`DecodedFieldRange`).
- The text before the first letter of `v` is dropped unchecked. A `v`
  without any letter stores an empty list of played sets (`ScanNoLetter`).
- The extra set of the Ordered strategy has `2 * (L % 6)` numbers, not six.
  `L` is the pool size. For `L < 6` it is the pool twice over
  (`OrderedShort`).
- Only the exact strings `"normal"`, `"groupShuffle"` and `"shuffe"` select a
  strategy. Any other string, including `"shuffle"`, yields no sets
  (`UnknownAlgorithm`).

## Model

| member | source | states |
|---|---|---|
| JsBuiltins.SliceClamps | src/app/page.tsx:38 | `substring`/`slice` clamp to the length: in bounds they take exactly `s[from..to]`, an end past the length stops at the end, a start at or past the length gives nothing (so a short game piece yields short or empty fields) |
| JsBuiltins.FlattenMembers | src/app/page.tsx:55 | a number is in `sets.flat()` exactly when it is in one of the sets |
| JsBuiltins.InsertPermutes | src/app/page.tsx:75 | inserting one number adds exactly that number and nothing else |
| JsBuiltins.InsertAscending | src/app/page.tsx:75 | inserting into an ascending sequence keeps it ascending |
| JsBuiltins.SortAscendingSorts | src/app/page.tsx:75 | the numeric `sort((a, b) => a - b)` yields an ascending permutation of its input |
| JsBuiltins.SortIsIdentityOnAscending | src/app/page.tsx:56 | sorting an already strictly ascending sequence leaves it unchanged (the pool's `.sort` is a no-op) |
| JsBuiltins.StrictlyAscendingNoRepeats | src/app/page.tsx:56 | a strictly ascending sequence holds every number at most once |
| JsBuiltins.NoRepeatsSub | src/app/page.tsx:75 | a sub-multiset of a repeat-free sequence is repeat-free (a slice of a shuffled pool has no duplicates) |
| JsBuiltins.NoRepeatsMeansDistinct | src/app/page.tsx:75 | a repeat-free sequence has pairwise distinct positions |
| JsBuiltins.PrefixMultiset | src/app/page.tsx:75 | `slice(0, k)` takes a sub-multiset of its array |
| JsBuiltins.TrimStartShrinks | src/app/page.tsx:38 | `parseInt`'s skipping of leading white space never lengthens the text |
| JsBuiltins.LeadingDigitsShape | src/app/page.tsx:38 | the digits `parseInt` reads are a run of decimal digits no longer than the text |
| JsBuiltins.DecimalValueBound | src/app/page.tsx:38 | a run of `n` digits denotes a value in `[0, 10^n)` |
| JsBuiltins.ParseIntShortRange | src/app/page.tsx:38 | `parseInt` of at most two characters is `NaN` or a number in -9..99 |
| JsBuiltins.TwoDigits | src/app/page.tsx:37-38 | a number 0..99 written as exactly two decimal digits |
| JsBuiltins.ParseIntTwoDigits | src/app/page.tsx:38 | `parseInt` reads back any two-digit field written by `TwoDigits` |
| JsBuiltins.ParseIntAnyText | src/app/page.tsx:38-39 | every text splits into leading white space, at most one sign, a digit run and a rest not continuing it, and `parseInt(s, 10)` is that run's value, negated after `-`, or `NaN` exactly when the run is empty |
| JsBuiltins.EveryTextDecomposes | src/app/page.tsx:38 | every text is leading white space, at most one sign, a digit run and a rest not continuing it, meeting every condition `ParseIntReads` asks for |
| JsBuiltins.SpaceSplit | src/app/page.tsx:38 | a text is its leading white space followed by what `parseInt` goes on to read, which starts with no white space |
| JsBuiltins.DigitSplit | src/app/page.tsx:38 | a text is its leading digit run followed by a rest that does not start with a digit |
| JsBuiltins.SignSplit | src/app/page.tsx:38 | the sign `parseInt` accepts is empty, `-` or `+`, and is empty only when the text starts with neither |
| JsBuiltins.ParseIntReads | src/app/page.tsx:38-39 | `parseInt(s, 10)` on any text taken apart as white space, at most one sign, a digit run and a rest not continuing it: the digits' value, negated after `-`, and `NaN` exactly when there are no digits |
| JsBuiltins.TrimStartWhiteSpace | src/app/page.tsx:38 | any run of leading JavaScript white space is skipped whatever follows |
| JsBuiltins.ParseIntAfterSpace | src/app/page.tsx:38 | leading JavaScript white space of any length does not change `parseInt`'s result |
| JsBuiltins.ParseIntNoDigits | src/app/page.tsx:38-39 | text starting with neither white space, a sign nor a digit is `NaN` |
| JsBuiltins.ParseIntSigned | src/app/page.tsx:38-39 | a sign followed by digits gives their value, negated after `-`; a sign without digits is `NaN` |
| JsBuiltins.ParseIntLetterNaN | src/app/page.tsx:38-39 | `parseInt` of the empty string or of any text starting with a letter is `NaN` |
| JsBuiltins.LeadingDigitsOfDigits | src/app/page.tsx:38 | digits followed by a non-digit: `parseInt` reads exactly those digits |
| JsBuiltins.ParseIntStopsAtNonDigit | src/app/page.tsx:38 | `parseInt` of digits followed by a non-digit is the value of the digits (trailing text ignored, no `NaN`) |
| JsBuiltins.ParseIntMinus | src/app/page.tsx:38 | a minus sign before any digit run, with any rest that does not continue the run, negates the run's value |
| JsBuiltins.SplitOnLetters | src/app/page.tsx:34 | `split(/[a-zA-Z]/)` always yields at least one piece |
| JsBuiltins.SplitPiecesLetterFree | src/app/page.tsx:34 | no piece of the split contains a letter |
| JsBuiltins.SplitCount | src/app/page.tsx:34 | the split yields one piece more than there are letters |
| JsBuiltins.SplitLetterFree | src/app/page.tsx:34 | text without letters splits into itself alone |
| JsBuiltins.SplitAtLetter | src/app/page.tsx:34 | letter-free text, a letter, then the rest: the first piece is that text, the others are the split of the rest |
| Payload.FieldsUpTo | src/app/page.tsx:37-43 | the first `n` fields decode exactly when none is `NaN`, and then field `k` is `parseInt` of characters `2k..2k+2` |
| Payload.DecodeSet | src/app/page.tsx:35-45 | the inner loop returns the six parsed fields, or fails (throws) at the first `NaN` |
| Payload.PlayedSets | src/app/page.tsx:35-45 | the `map` over the game pieces fails exactly when one piece fails; otherwise it yields one decoded set per piece, in order |
| Payload.HandleScan | src/app/page.tsx:24-52 | the scan handler skips, rejects or stores exactly as `Scan` prescribes |
| Payload.ScanSkipsOrRejects | src/app/page.tsx:25-32 | non-`http` or empty text and a missing or empty `v` are skipped; an unparsable URL is caught and rejected |
| Payload.ScanNoLetter | src/app/page.tsx:34-35 | a `v` without letters decodes to no played sets |
| Payload.ScanGames | src/app/page.tsx:34-48 | there is one game per letter; the scan is rejected exactly when some game has a `NaN` field; otherwise every stored set has six numbers |
| Payload.PlayedSetFails | src/app/page.tsx:37-41 | a game fails exactly when one of its six fields is `NaN`, and always when it has 10 characters or fewer |
| Payload.ElevenDigitPiece | src/app/page.tsx:37-38 | an 11-digit piece decodes, its sixth field being its last single digit |
| Payload.DecodedFieldRange | src/app/page.tsx:38-42 | every decoded field lies in -9..99, with no further range check |
| Payload.EncodeSet | src/app/page.tsx:37-38 | the encoding of a game is 12 characters without a letter |
| Payload.EncodeSetFields | src/app/page.tsx:38 | field `k` of an encoded game is the two-digit rendering of the `k`-th number |
| Payload.DecodeEncodedSet | src/app/page.tsx:35-45 | decoding an encoded game gives back the game |
| Payload.SplitEncodedGames | src/app/page.tsx:34 | splitting an encoded payload, each game behind an ASCII letter of its own (the letters may differ), gives the header and then one encoded game per set |
| Payload.DecodeEncodedGames | src/app/page.tsx:34-45 | decoding the game pieces of an encoded payload with any per-game ASCII letters gives back all its sets |
| Payload.DecodeEncoded | src/app/page.tsx:24-48 | round trip: scanning an `http` URL whose `v` is a letter-free header followed by games, each behind any ASCII letter, stores exactly those games |
| NumberPool.Unplayed | src/app/page.tsx:56 | the `filter` keeps exactly the candidates that are not excluded |
| NumberPool.CandidatesAscending | src/app/page.tsx:56 | `Array.from({length: 45}, (_, i) => i + 1)` is strictly ascending and is exactly 1..45 |
| NumberPool.UnplayedAscending | src/app/page.tsx:56 | filtering keeps a strictly ascending sequence strictly ascending |
| NumberPool.PoolSpec | src/app/page.tsx:55-57 | the pool is strictly ascending and holds exactly the numbers 1..45 that no played set contains |
| NumberPool.PoolNoRepeats | src/app/page.tsx:56 | the pool holds every number at most once |
| NumberPool.UnplayedCount | src/app/page.tsx:56 | the filter removes exactly as many numbers as are excluded candidates |
| NumberPool.PoolSize | src/app/page.tsx:55-56 | pool size plus the number of distinct played numbers in 1..45 is 45 |
| FisherYates.Draw | src/app/page.tsx:11 | the index drawn at step `i` is in `0..i` |
| FisherYates.SwapElements | src/app/page.tsx:12 | the destructuring swap exchanges exactly the two elements and changes nothing else |
| FisherYates.CopyToArray | src/app/page.tsx:9 | `[...array]` is a fresh array with the input's contents |
| FisherYates.ShuffleArray | src/app/page.tsx:8-15 | the loop from the last index down to 1 yields `Shuffled(input)` and uses one draw per step |
| FisherYates.SwapPermutes | src/app/page.tsx:12 | a swap permutes the array |
| FisherYates.ShuffleFromPermutes | src/app/page.tsx:10-13 | every remaining run of the shuffle loop is a length-preserving permutation |
| FisherYates.ShuffledPermutes | src/app/page.tsx:8-15 | `shuffleArray` returns a permutation of its input |
| Strategies.SetList.constructor | src/app/page.tsx:59 | a new list of sets is empty |
| Strategies.SetList.Push | src/app/page.tsx:76 | `push` appends exactly one set at the end |
| Strategies.Chunks | src/app/page.tsx:88-92 | the loop `for i < lottoSetSize` produces exactly that many slices |
| Strategies.ChunksAt | src/app/page.tsx:89-90 | slice `i` is `slice(6i, 6i + 6)` |
| Strategies.FullChunks | src/app/page.tsx:88-92 | with enough numbers every slice is the full block `6i..6i+6`, and together they are the first `6k` numbers in order |
| Strategies.DrawRandomSet | src/app/page.tsx:75 | one random set is the ascending first six of a fresh shuffle, costing one shuffle's draws |
| Strategies.RunShuffle | src/app/page.tsx:72-80 | the while loop appends random sets to the given list in place until it holds `lottoSetSize` sets, and returns that same list |
| Strategies.RandomSetShape | src/app/page.tsx:75 | a random set is ascending, has `min(6, L)` numbers drawn from the pool, and has no repeats when the pool has none |
| Strategies.FillAppends | src/app/page.tsx:74-77 | the fill loop keeps the sets it was given and appends sets of the sampler's shape up to the target count |
| Strategies.FillDraws | src/app/page.tsx:74-77 | the fill loop spends one sample's draws per appended set |
| Strategies.FillFromAppends | src/app/page.tsx:72-80 | `runShuffleAlgorithm` keeps the sets it was given and tops up to `max(|sets|, lottoSetSize)` sets with ascending samples of `min(6, L)` pool numbers, repeat-free when the pool is |
| Strategies.FillFromDraws | src/app/page.tsx:72-80 | `runShuffleAlgorithm` shuffles once per appended set |
| Strategies.RunNormal | src/app/page.tsx:82-118 | both branches of the Ordered strategy yield `Ordered(pool, count)` |
| Strategies.OrderedEnough | src/app/page.tsx:87-93 | with at least `6 * count` numbers the sets are the consecutive blocks of six, covering the pool's prefix in order, with no draws |
| Strategies.OrderedShort | src/app/page.tsx:95-115 | otherwise the sets are the full blocks, then the tail plus the first `L % 6` numbers (`2 * (L % 6)` numbers; the pool twice when `L < 6`), then random sets up to `count` |
| Strategies.OrderedNoCount | src/app/page.tsx:87-93 | a count of zero or less yields no sets and no draws |
| Strategies.OrderedSevenNumbers | src/app/page.tsx:95-115 | a seven-number pool with count 2 yields its first six and then `[7th, 1st]`, reusing the first number |
| Strategies.OrderedWholePool | src/app/page.tsx:87-93 | when the pool is exactly `6 * count` long, the Ordered sets use every pool number once, in order |
| Strategies.MakeGroups | src/app/page.tsx:124-127 | the grouping loop yields `Groups(pool)` |
| Strategies.GroupsPartition | src/app/page.tsx:124-127 | the groups are non-empty, hold at most six numbers each, and concatenate back to the pool |
| Strategies.GroupsPrefix | src/app/page.tsx:124-127 | the first `k` groups concatenate to the pool's first `min(6k, L)` numbers |
| Strategies.MinLength | src/app/page.tsx:132 | `Math.min(...lengths)` is a lower bound of all group lengths and is attained by one group |
| Strategies.PushColumn | src/app/page.tsx:135-139 | one `forEach` pass appends column `i`, taking from each group in order the element at `i` if it has one |
| Strategies.GenerateFlattenedArray | src/app/page.tsx:130-151 | the two column loops yield columns `0..5` of the groups, concatenated |
| Strategies.ColumnPartHeads | src/app/page.tsx:135-139 | the column pass over the first `j` groups adds exactly their element at `i` to their first `i` elements |
| Strategies.ColumnsHeads | src/app/page.tsx:134-148 | the first `m` columns hold exactly the first `m` elements of every group |
| Strategies.ColumnsPermute | src/app/page.tsx:134-148 | when no group is longer than the column count, the columns are a permutation of all the groups' numbers |
| Strategies.FlattenedPermutesPool | src/app/page.tsx:124-151 | `generateFlattenedArray(groups)` is a permutation of the pool: nothing is lost or repeated |
| Strategies.FlattenedSmallPool | src/app/page.tsx:124-151 | a pool of at most six numbers is one group and comes out unchanged |
| Strategies.ColumnsOfOne | src/app/page.tsx:134-148 | the columns of a single group are its elements in order |
| Strategies.ColumnPartOfHeads | src/app/page.tsx:135-139 | column 0 lists the first element of each group in group order |
| Strategies.ColumnsPrefix | src/app/page.tsx:134-148 | taking more columns only extends the flattened array |
| Strategies.GroupHead | src/app/page.tsx:124-127 | group `g` starts with the pool's number at `6g` |
| Strategies.ColumnsStartWithHeads | src/app/page.tsx:134-140 | the flattened array begins with each group's first element, in group order |
| Strategies.FlattenedStartsWithGroupHeads | src/app/page.tsx:124-151 | the flattened array begins with pool numbers 0, 6, 12, … |
| Strategies.RunGroupShuffle | src/app/page.tsx:120-156 | the Group Shuffle strategy runs Ordered on the column-interleaved pool |
| Strategies.GroupShuffleUsesPoolOnce | src/app/page.tsx:120-156 | when the pool is exactly `6 * count` long, the Group Shuffle sets together use every pool number exactly once |
| Recommend.Dispatch | src/app/page.tsx:61-67 | the `if`/`else if` chain runs the strategy named by `algorithm`; `'shuffe'` shuffles the pool first and fills a new empty list |
| Recommend.RecommendLottoNumbers | src/app/page.tsx:54-70 | the lucky numbers are the pool of the played sets, and the recommended sets are what the named strategy makes of that pool |
| Recommend.NoCountNoSets | src/app/page.tsx:58-67 | a set count of zero or less yields no recommended sets for every algorithm |
| Recommend.UnknownAlgorithm | src/app/page.tsx:61-67 | an algorithm name other than the three exact strings yields no sets and no draws |
| Recommend.SampleOfPermutation | src/app/page.tsx:66 | a random set drawn from the shuffled pool is made of pool numbers and, for a repeat-free pool, has distinct numbers at distinct positions |
| Recommend.ShuffeSets | src/app/page.tsx:65-66 | `'shuffe'` yields exactly `max(count, 0)` sets, each ascending, of `min(6, L)` pool numbers; when the pool is repeat-free so is every set, no two of its positions holding the same number |

## Left out

- URL parsing (`new URL`, `URLSearchParams`, percent-decoding) is not modelled. Its outcome is the input `UrlQuery` (unparsable, no `v`, or the value of `v`).
- The `QrScanner` widget, camera access, `console.log`/`console.error` and the JSX layout are not modelled. They are presentation and I/O.
- React state is not modelled. The values passed to `setScanLottoData`, `setLuckyNumbers` and `setRecommendedLottoNumbers` are returned as results instead. The asynchronous state update and re-render are not modelled.
- The render-time `set.sort(...)` (src/app/page.tsx:209) is not modelled. It sorts the recommended sets in place in state, so the displayed sets, and the stored ones after the first render, are ascending. That reorders the Ordered strategy's wrap-around extra set and every Group Shuffle set taken from the column interleave: with the pool 1..12 and count 2, the first Group Shuffle set is `[1, 7, 2, 8, 3, 9]` before that sort. The model's results are the sets before that sort.
- `Math.random()` is replaced by an index stream and `mod`, so the model states which index every draw may produce (`0..i`). Floating-point rounding and the probability distribution of the shuffle are not modelled.
- JavaScript strings are sequences of UTF-16 code units, but a Dafny `char` is a Unicode scalar value. A surrogate code unit, half of a character outside the Basic Multilingual Plane in `v`, cannot be represented. Every character test the decoder makes (decimal digit, ASCII letter, JavaScript white space, `+`, `-`) is false on surrogates. So the decoding of such a `v` is the decoding of the same text with each surrogate replaced by any character that is not a decimal digit, an ASCII letter, JavaScript white space, `+` or `-`. The model does not contain such texts itself.
- `parseInt("-0")` is JavaScript's `-0`. The model gives `0`, and it is stored as such.
- Numbers are unbounded integers. JavaScript's double precision for huge set counts and fractional counts is not modelled: the count comes from `parseInt` and is an integer.
- The set-count text field (src/app/page.tsx:180-183) is not modelled. It is UI glue: `parseInt`, and `NaN` becomes 0. The model takes the count as any integer.
- `requiredNumbers` is not a separate parameter. Both call sites pass `lottoSetSize * 6`, so the strategies compute it from the count.
- Strategies.RunGroupShuffle and Recommend.Dispatch require a non-empty pool for `'groupShuffle'`. With an empty pool, `Math.min()` is `Infinity` and the source's column loop never ends. That happens only when the played sets cover all 45 numbers.
- The step from `handleScan` to `recommendLottoNumbers` is not one member. `Payload.HandleScan` yields the decoded sets, and `Recommend.RecommendLottoNumbers` takes played sets. The algorithm name and count are those of the current state, passed as parameters.
