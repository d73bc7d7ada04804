# Spin the wheel: a Dafny model of the selection logic

The modelled app is a spinning-wheel picker. The user types a list of options into a text box. The wheel draws one coloured segment per option. A spin turns the wheel by six to eight full turns plus a random angle. After five seconds the option under the fixed pointer at the top wins. It can optionally be removed from the wheel.

The model covers three source files:

- `WheelService` (`src/app/services/wheel.service.ts`) is a class with one field per signal: `options`, `winner`, `isSpinning`, `rotation`, `showConfetti` and `shouldRemoveWinner`.
  - `parseInput` and the pointer rule are pure functions.
  - The asynchronous `spin()` is split at its timers into three methods: `StartSpin` (the synchronous part), `FinishSpin` (the first timeout) and `ClearConfetti` (the second timeout).
  - `StartSpin` returns either the value the promise was resolved with (`Resolved("")`), or the option list and rotation the pending timeout captured (`Pending`).
  - A caller can interleave any other operation between these steps, as the browser can.
- `InputPanelComponent` (`src/app/input-panel/input-panel.component.ts`) is a class holding `inputText` and a reference to the shared service.
- `WheelComponent.drawWheel` (`src/app/wheel/wheel.component.ts`) is modelled only through its layout decisions, as pure functions:
  - the placeholder for an empty list;
  - segment angles, in turns;
  - the palette index;
  - label truncation.

Modules:

- `Seqs` holds `Array.prototype.map`, `filter` and delete-by-index.
- `Js` holds ECMAScript `String.prototype.trim` and the `%` operator, which truncates toward zero.
- `Service`, `InputPanel` and `WheelView` follow the three source files.

Numbers are exact reals. `Math.random()` becomes method parameters in `[0, 1)`.

The main results:

- `parseInput` returns clean items (non-empty, trimmed, delimiter-free).
- `parseInput` is a homomorphism over delimiters (`ParseConcat`). Any clean list written out with separators parses back to itself (`ParseInterleave`).
- The winner index is always in range, and it is the unique segment containing the pointer angle. Whole turns never matter, and every option can win.
- The pointer rule of the service agrees with the segment layout the component draws (`PointerOverWinner`).

Two facts about the code shape the model:

- `setOptions` keeps the surviving entries exactly as given, untrimmed (`wheel.service.ts:46`).
- A winner is removed by an immediate `filter` in the spin's timeout (`wheel.service.ts:95-97`).

One consequence of the code is stated as a lemma (`RemovalAfterEditHitsAnotherOption`). The winning index is computed on the list captured when the spin started, but it is deleted from the list as it is when the timeout fires. If the user edits the options during a spin with removal switched on, a different option than the winner can be removed.

## Model

| member | source | states |
|---|---|---|
| Seqs.Map | src/app/services/wheel.service.ts:59 | `map` keeps the length and transforms the element at every position, and it distributes over concatenation (`MapConcat`) |
| Seqs.Filter | src/app/services/wheel.service.ts:46 | `filter` never lengthens the list; its result is a subsequence of the input (`FilterIsSubsequence`) holding exactly the passing elements (`FilterMembers`), each as often as in the input (`FilterMultiset`), and it distributes over concatenation (`FilterConcat`) |
| Seqs.RemoveAt | src/app/services/wheel.service.ts:96 | filtering by `i !== k` deletes exactly the element at index k: the prefix before k is kept, the rest shifts down by one, and the multiset loses that one element; an index out of range deletes nothing |
| Js.IsWhitespace | src/app/services/wheel.service.ts:59 | the characters `trim()` strips: ECMAScript's WhiteSpace and LineTerminator code points, the set that `Trim`, `TrimOfTrimmed` and `TrimLeadingSpace` are stated over |
| Js.Trim | src/app/services/wheel.service.ts:59 | `trim()` yields the infix of the input left after removing white space from both ends: a slice `s[i..j]` with only white space before i and after j, itself without white space at either end (which fixes it), and empty exactly when the input is all white space |
| Js.TrimOfTrimmed | src/app/services/wheel.service.ts:59 | `trim()` leaves a string with non-white-space ends unchanged |
| Js.TrimLeadingSpace | src/app/services/wheel.service.ts:59 | a leading white-space character does not change the trimmed form |
| Js.Remainder360 | src/app/services/wheel.service.ts:84 | `x % 360` takes the sign of the dividend, its magnitude is below 360, and it differs from x by whole turns |
| Js.IntRemainder | src/app/services/wheel.service.ts:87 | `k % n` on integers: in `[0, n)` for non-negative k, in `(-n, 0]` for negative k, k itself when `0 <= k < n`, and always differs from k by a multiple of n |
| Service.IsDelimiter | src/app/services/wheel.service.ts:56 | the character class of the delimiter pattern: comma, semicolon, newline and pipe; `Split`, `SplitWord` and `SplitAtDelimiter` cut exactly at runs of these characters |
| Service.Split | src/app/services/wheel.service.ts:56-58 | splitting on runs of commas, semicolons, newlines and pipes yields at least one piece, and no piece holds a delimiter |
| Service.SplitWord | src/app/services/wheel.service.ts:56-58 | text without a delimiter splits into itself alone |
| Service.SplitAtDelimiter | src/app/services/wheel.service.ts:56-58 | the first delimiter ends the first piece, and the whole run of delimiters it starts separates it from the pieces of the rest; with SplitWord this pins the pieces to the maximal delimiter-free stretches |
| Service.Tidy | src/app/services/wheel.service.ts:59-60 | every item is non-empty and is the trim of some piece, and the trim of every piece that is not blank appears among the items; with `TidyOne` and `TidyConcat` it is exactly the non-empty trims, in order |
| Service.ParseInput | src/app/services/wheel.service.ts:55-61 | every item is non-empty, has no white space at either end and contains no comma, semicolon, newline or pipe |
| Service.ParseWord | src/app/services/wheel.service.ts:55-61 | delimiter-free text parses to its trimmed form, or to nothing when that is empty |
| Service.ParseConcat | src/app/services/wheel.service.ts:55-61 | the items of `a + d + b` for a delimiter d are the items of a followed by those of b, so items keep input order |
| Service.ParseFiller | src/app/services/wheel.service.ts:56-60 | delimiters and white space in front of the text add no item |
| Service.ParseInterleave | src/app/services/wheel.service.ts:55-61 | round trip: clean items joined by separators (a delimiter, then any delimiters or white space) parse back to the same list |
| Service.ParseMixedDelimiters | src/app/services/wheel.service.ts:56-60 | the text A, B;; C then a pipe and D parses to `["A","B","C","D"]`: runs of delimiters collapse and padding is trimmed |
| Service.ParseEmpty | src/app/services/wheel.service.ts:55-61 | the empty text parses to no items |
| Service.IsNonBlank | src/app/services/wheel.service.ts:46 | `opt.trim().length > 0` holds exactly when the entry is not made of white space only |
| Service.KeepNonBlank | src/app/services/wheel.service.ts:46 | setOptions keeps exactly the entries whose trimmed form is non-empty, unmodified and in their original order (a subsequence) |
| Service.KeepNonBlankCounts | src/app/services/wheel.service.ts:46 | every non-blank entry is kept as many times as it occurs in the input, and no blank one is kept |
| Service.ParsedAreKept | src/app/services/wheel.service.ts:46 | setOptions drops nothing from parseInput's output |
| Service.SegmentAngle | src/app/services/wheel.service.ts:75 | `360 / options.length` is positive, and n segments make 360 degrees |
| Service.PointerAngle | src/app/services/wheel.service.ts:84-85 | the pointer angle is in `[0, 360)`, and adding it to the rotation gives whole turns |
| Service.PointerAngleUnique | src/app/services/wheel.service.ts:84-85 | the pointer angle is the only angle of `[0, 360)` with that property |
| Service.PointerAnglePeriodic | src/app/services/wheel.service.ts:84-85 | adding whole turns to the rotation does not change the pointer angle |
| Service.WinnerIndex | src/app/services/wheel.service.ts:84-87 | for every n > 0 and every rotation, the index is below n and is the segment containing the pointer angle (the final `% n` never changes it) |
| Service.WinnerIndexUnique | src/app/services/wheel.service.ts:86-87 | no other segment contains the pointer angle |
| Service.SpinCount | src/app/services/wheel.service.ts:77 | `6 + floor(random * 3)` is 6, 7 or 8 |
| Service.RandomOffset | src/app/services/wheel.service.ts:78 | `random * 360` is in `[0, 360)` |
| Service.NextRotation | src/app/services/wheel.service.ts:79 | with 6 to 8 spins and an offset in `[0, 360)`, the new rotation is in `[old + 2160, old + 3240)` |
| Service.SpinsDoNotMatter | src/app/services/wheel.service.ts:77-87 | the number of whole turns never changes the winner; only the previous rotation and the offset do |
| Service.EveryOptionCanWin | src/app/services/wheel.service.ts:77-87 | from any rotation, some value of the random draw makes any given segment win |
| Service.MiddleOfSegment | src/app/services/wheel.service.ts:75 | the middle of segment i lies in `[0, 360)` and within segment i |
| Service.Winner | src/app/services/wheel.service.ts:89 | the resolved winner is an element of the captured option list |
| Service.WheelService.constructor | src/app/services/wheel.service.ts:22-28 | the initial state: options `Option 1..3`, no winner, not spinning, rotation 0, no confetti, removal off |
| Service.WheelService.SetOptions | src/app/services/wheel.service.ts:45-49 | options become the non-blank entries, the winner is cleared, and isSpinning, rotation, showConfetti and the removal flag keep their values |
| Service.WheelService.ToggleRemoveWinner | src/app/services/wheel.service.ts:51-53 | the removal flag is negated and nothing else changes, so two toggles restore it |
| Service.WheelService.StartSpin | src/app/services/wheel.service.ts:63-81 | while spinning, or with no options, the promise resolves `''` and no field changes; otherwise it spins, there is no winner and no confetti, the rotation grows by 2160 to 3240 degrees, and options are captured as they are |
| Service.WheelService.FinishSpin | src/app/services/wheel.service.ts:83-104 | the winner is the captured option at the pointer index, the wheel stops and confetti shows; with removal on, that index is deleted from the current list, so one occurrence of the winner goes when the list was not edited; otherwise options are unchanged |
| Service.WheelService.ClearConfetti | src/app/services/wheel.service.ts:99-101 | the confetti is hidden and nothing else changes |
| Service.WheelService.Reset | src/app/services/wheel.service.ts:136-140 | no winner, rotation 0, no confetti, while options, isSpinning and the removal flag keep their values |
| Service.RemovalAfterEditHitsAnotherOption | src/app/services/wheel.service.ts:74-96 | the removal index comes from the captured list but is applied to the current one, so after an edit during the spin the option removed can be another option: with captured `A, B, C` and current `B, C, A`, `A` wins and `B` is removed |
| InputPanel.DefaultTextGivesInitialOptions | src/app/input-panel/input-panel.component.ts:15 | the default text parses to exactly the service's initial options |
| InputPanel.SampleTextGivesSampleOptions | src/app/input-panel/input-panel.component.ts:37 | the sample text parses to `Pizza, Burger, Sushi, Tacos, Pasta`, in that order |
| InputPanel.InputPanelComponent.constructor | src/app/input-panel/input-panel.component.ts:14-20 | after construction the text is `'Option 1, Option 2, Option 3'`, the options are `Option 1..3`, and there is no winner; rotation, isSpinning, confetti and the removal flag are untouched |
| InputPanel.InputPanelComponent.UpdateOptions | src/app/input-panel/input-panel.component.ts:22-25 | the options become exactly `parseInput(inputText)` and the winner is cleared; rotation, isSpinning, confetti and the removal flag are untouched |
| InputPanel.InputPanelComponent.OnInputChange | src/app/input-panel/input-panel.component.ts:27-29 | the same as updateOptions |
| InputPanel.InputPanelComponent.ClearInput | src/app/input-panel/input-panel.component.ts:31-34 | empty text, no options (what parsing the empty text gives) and no winner; the other service fields are untouched |
| InputPanel.InputPanelComponent.AddSampleOptions | src/app/input-panel/input-panel.component.ts:36-39 | the sample text, and options `["Pizza","Burger","Sushi","Tacos","Pasta"]`; the other service fields are untouched |
| WheelView.ColorIndex | src/app/wheel/wheel.component.ts:118 | `index % colors.length` is always a valid index of the 12-colour palette |
| WheelView.NeighboursDiffer | src/app/wheel/wheel.component.ts:118 | consecutive segments get different colours |
| WheelView.ColoursDistinctUpToTwelve | src/app/wheel/wheel.component.ts:118 | colours repeat only every twelve segments, so a wheel of at most twelve options never repeats a colour |
| WheelView.WrapAroundClash | src/app/wheel/wheel.component.ts:118 | the last segment, which touches the first, has the first segment's colour exactly when the number of options is 1 more than a multiple of 12 |
| WheelView.LabelLimit | src/app/wheel/wheel.component.ts:138 | the label limit is 10 exactly when there are more than 8 options, and 14 otherwise |
| WheelView.DisplayText | src/app/wheel/wheel.component.ts:139-141 | a label within the limit is shown unchanged; a longer one is its first `limit` characters followed by `...`; no label is longer than limit + 3 |
| WheelView.LabelStartsWithOption | src/app/wheel/wheel.component.ts:139-141 | every label starts with a prefix of its option: the whole option, or its first `limit` characters |
| WheelView.SegmentWidth | src/app/wheel/wheel.component.ts:94 | `2π / n` is a positive fraction of a turn, and n of them make one turn |
| WheelView.SegmentStart | src/app/wheel/wheel.component.ts:109 | segment i starts i widths after the top, at or after `-π/2`, and for i < n before `3π/2`, so every segment starts within the first turn from the top (`FirstSegmentAtTop`, `SegmentsAbut`) |
| WheelView.SegmentEnd | src/app/wheel/wheel.component.ts:110 | a segment ends after it starts |
| WheelView.FirstSegmentAtTop | src/app/wheel/wheel.component.ts:109 | segment 0 starts at `-π/2`, the top of the wheel |
| WheelView.SegmentsAbut | src/app/wheel/wheel.component.ts:109-110 | each segment ends where the next one starts |
| WheelView.SegmentsSpanOneTurn | src/app/wheel/wheel.component.ts:109-110 | the last segment ends exactly one turn after the first one starts |
| WheelView.SegmentsPartitionTurn | src/app/wheel/wheel.component.ts:109-110 | every direction of the first turn from the top lies in exactly one segment |
| WheelView.SegmentsOrdered | src/app/wheel/wheel.component.ts:109-110 | segments do not overlap: a later one starts no earlier than an earlier one ends |
| WheelView.Draw | src/app/wheel/wheel.component.ts:76-147 | an empty list draws only the placeholder `'Add options to spin'` and no segment; otherwise segment i has option i's label, colour and angles |
| WheelView.DrawnSegmentsTile | src/app/wheel/wheel.component.ts:108-110 | the drawn segments start at the top, each starts where the previous one ends, and together they close the circle |
| WheelView.PointerOverWinner | src/app/wheel/wheel.component.ts:109-110 | the direction that a clockwise turn by the total rotation brings under the top pointer lies in the segment of the service's winner index |

## Left out

- Canvas drawing (`ctx.*` in `drawWheel`: arcs, fills, gradients, shadows, text rendering) is foreign graphics API. Only the layout values feeding those calls are modelled.
- The confetti animation in `src/app/app.ts`, and `generateConfetti` with its `confettiColors`: random floating-point particle data, frame callbacks and window plumbing. `src/app/app.ts` is not part of this model.
- Timers and promises:
  - The two `setTimeout` delays are not modelled as time. They become the explicit steps `FinishSpin` and `ClearConfetti`, which any caller can run in any order with the other operations.
  - `FinishSpin` requires `isSpinning`, which holds whenever the real timeout fires.
- `Math.random()` becomes the parameters `u1` and `u2` of `StartSpin`, in `[0, 1)`.
- Angular wiring (`signal`, `computed`, `effect`, `inject`, `@Component`, `@ViewChild`):
  - Signals become plain fields.
  - The effect that redraws on every options change is represented by `WheelView.Draw` as a function of the options.
  - `WheelComponent.spin()` only forwards to the service.
  - `ngAfterViewInit` sets up the canvas size and device pixel ratio, which are not modelled, and then draws the current options; `WheelView.Draw` covers that draw as well.
- The HTML templates and CSS are not part of this model:
  - The component's `inputText` is assumed to be set by the template's `ngModel` binding before `onInputChange` runs; a caller assigns the field, before or after calling `OnInputChange`.
  - `WheelView.PointerOverWinner` assumes the template turns the canvas clockwise by `rotation` degrees with the pointer at the top.
- Floating point: angles and rotations are exact reals. IEEE rounding of `360 / n`, `%` and the division at segment boundaries is not modelled, so a pointer landing exactly on a boundary may pick the neighbouring segment in the browser.
- Strings are sequences of Unicode code points. JavaScript's `length`, `substring` and `trim` work on UTF-16 units, so labels with characters outside the Basic Multilingual Plane are truncated differently (and can be split inside a surrogate pair in the browser).
- Js.Remainder360: models `%` only with the constant divisor 360, the only real divisor the code uses.
