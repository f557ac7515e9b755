# Life weeks: a Dafny model

The life-weeks app shows a life of 90 years as a grid of 4680 blocks, one
for each week. It marks the weeks already lived and the current week. It
can also export or share a picture of the grid. It is a single React
component, `src/App.js`. This project models the arithmetic, string and
classification rules of that component and proves properties about them.
The DOM, canvas and browser calls are not modelled.

Modules, in dependency order:

- `Wrappers` (`wrappers.dfy`): the `Option` datatype. It models the
  "nothing happens" path when export or share is called before the grid
  is mounted.
- `Strings` (`strings.dfy`): JavaScript's `split` with a one-character
  separator. It is specified by its inverse `Join`. The app uses it on the
  ISO timestamp (`split('T')`). The grid's class strings are read back
  with `split(' ')`, ignoring the empty piece (`Grid.HasClass`). A browser
  splits a `class` attribute on any ASCII whitespace and drops empty and
  duplicate tokens. For the strings `Grid.ClassName` builds, which use
  single spaces and hold no duplicates, both give the same classes.
- `Weeks` (`weeks.dfy`): whole weeks in a span of integer milliseconds,
  using `Math.floor`. Built on it are `calculateLivedWeeks` and the
  `currentWeekOfYear` of `renderBlocks`.
- `Grid` (`grid.dfy`): `renderBlocks`. It is an imperative loop that
  pushes one block (a key and a class string) per week. Its specification
  function is `Blocks`. Lemmas state what a stylesheet reads from each
  block's class list: `lived`, `remaining` and `current-week`.
- `Layout` (`layout.dfy`): the `updateGridDimensions` policy that picks
  the column and row counts.
- `Captions` (`captions.dfy`): the five captions and the random pick. The
  value of `Math.random()` is a parameter.
- `Export` (`export.dfy`): `exportBlocks`. This covers the preset
  `switch` (a method that assigns `finalWidth`/`finalHeight`), where the
  bitmap and the caption are placed, the theme colours and the download
  file name.
- `Share` (`share.dfy`): `shareBlocks`. This covers the square canvas,
  where the bitmap is placed, and the choice between the share sheet and
  a download.

The implementation and its description disagree in a few places. The
model follows the code, with one exception: the share image uses the
corrected placement from "## Findings".

- The grid does not have three exclusive classes (lived / current /
  remaining). Each block is either `lived` or `remaining`. The current
  block also gets `current-week`, so it renders as
  `block remaining current-week` (`Grid.CurrentBlockIsRemaining`).
- Both layout presets have exactly `columns * rows == 4680`, so the grid
  never has blank trailing cells (`Layout.GridHoldsEveryWeek`).
- The source comment calls the mobile preset 9:16, but 1440 x 3200 is
  9:20. The model keeps the numbers (`Export.PresetShapes`).
- The `social` preset exists in the `switch`, but no button passes it.
  Only `pc` and `mobile` are reachable from the UI.
- The grid's lived count comes from calendar years and the week of the
  year. The "weeks lived" figure comes from elapsed milliseconds. They are
  two separate definitions (`Grid.LivedCount`, `Weeks.LivedWeeks`), and
  the model keeps both as the code has them. They cannot disagree on
  screen: `calculateLivedWeeks`'s result is stored in `livedWeeks`
  (src/App.js:33-34), but nothing in the rendered markup
  (src/App.js:236-284) shows it.

## Model

| member | source | states |
|---|---|---|
| Strings.Split | src/App.js:167 | `split(sep)` returns pieces that contain no separator, one more piece than there are separators, and joining them with `sep` gives back the input |
| Strings.SplitHead | src/App.js:167 | the first piece of a split is the prefix of the input before its first separator, or the whole input if there is none |
| Weeks.WholeWeeks | src/App.js:28-29 | `Math.floor(ms / msPerWeek)` is the unique `w` with `w*msPerWeek <= ms < (w+1)*msPerWeek`, rounding down for negative spans too |
| Weeks.LivedWeeks | src/App.js:25-30 | `calculateLivedWeeks` is a natural number `w` that brackets the absolute time difference between `w` and `w+1` weeks |
| Weeks.WeekOfYear | src/App.js:74-76 | `currentWeekOfYear` is the number of whole weeks elapsed since the start of the year |
| Weeks.LivedWeeksSymmetric | src/App.js:28 | because of `Math.abs`, swapping birth and now gives the same count |
| Weeks.LivedWeeksMonotone | src/App.js:25-29 | for a fixed birth instant, the count does not decrease as now advances past birth |
| Weeks.LivedWeeksCountsDownBeforeBirth | src/App.js:28-29 | for a birth date in the future, the count does not increase as now approaches it |
| Weeks.LivedWeeksStep | src/App.js:29 | after birth, one more week of elapsed time adds exactly one to the count |
| Weeks.WeekOfYearRange | src/App.js:74-76 | any instant inside a year of at most 366 days is in week 0 to 52 |
| Weeks.WeekOfYearReaches52 | src/App.js:76 | from day 364 of the year on, the week of the year is 52 |
| Grid.RenderBlocks | src/App.js:67-97 | the loop returns exactly the specification grid `Blocks(age, week)`: 4680 blocks, block `i` keyed `i` with the class string for its lived and current flags |
| Grid.CurrentWeekIndex | src/App.js:77 | has no contract of its own; gives `age * 52 + currentWeekOfYear`. `Grid.BlockClasses` and `Grid.LivedCount` prove that the lived blocks are exactly those below it, clamped to the grid |
| Grid.IsLived | src/App.js:87 | has no contract of its own; the strict test `i < currentWeekIndex`. `Grid.BlockAt` proves the `lived` class holds iff it does, and `Grid.LivedPrefix` proves the lived blocks form a prefix |
| Grid.IsCurrentWeek | src/App.js:80-84 | has no contract of its own; the test `(i / 52, i % 52) == (age, week)`. `Grid.CurrentWeekAt` proves it holds iff both are in range and `i == age*52 + week` |
| Grid.ClassName | src/App.js:92 | the class template splits into exactly `block`, then `lived` or `remaining`, then `current-week` or an empty piece |
| Grid.BlockAt | src/App.js:80-93 | block `i` is keyed `i`; it has class `lived` iff `i < age*52 + week`, `remaining` otherwise, and `current-week` iff its (year, week) split is (age, week) |
| Grid.Blocks | src/App.js:79-95 | the specification grid has `TOTAL_WEEKS` = 4680 blocks, and block `i` has key `i` |
| Grid.ClassNameFlags | src/App.js:92 | reading the class string back recovers both flags: `.lived` iff lived, `.remaining` iff not lived, `.current-week` iff current, `.block` always |
| Grid.CurrentWeekAt | src/App.js:80-84 | the (year, week) split of `i` equals (age, week) iff age is in [0, 90), week is in [0, 52) and `i == age*52 + week` |
| Grid.BlockClasses | src/App.js:77-92 | each block is `lived` iff `i < age*52 + week`, `remaining` iff not lived, and `current-week` iff it is the in-range current index |
| Grid.CurrentBlockExists | src/App.js:80-84 | some block is current iff `0 <= age < 90` and `0 <= week < 52`, so week 52 or an age outside [0, 90) gives no current block |
| Grid.AtMostOneCurrentBlock | src/App.js:84 | two current blocks are the same block |
| Grid.CurrentBlockIsRemaining | src/App.js:77-87 | the current block is never lived, because the lived test is strict |
| Grid.LivedPrefix | src/App.js:87 | if block `j` is lived and `i <= j`, block `i` is lived |
| Grid.CountLivedPrefix | src/App.js:87 | among the first `n` blocks, the number of lived ones is `age*52 + week` clamped to [0, n] |
| Grid.LivedCount | src/App.js:77-92 | the grid shows `age*52 + week` lived blocks, clamped to [0, 4680] |
| Grid.NoCurrentBlockAtYearEnd | src/App.js:74-84 | on the last day or two of a calendar year no block is marked current |
| Grid.BornIn2000ViewedOnNewYear2024 | src/App.js:69-87 | born in 2000 and viewed at any instant of 1 January 2024: the week of the year is 0, blocks 0..1247 are lived and block 1248 is current |
| Layout.GridDimensions | src/App.js:37-46 | the result is always one of the two presets, and it is 78 x 60 iff the viewport is not portrait and wider than 767px |
| Layout.GridHoldsEveryWeek | src/App.js:37-46 | both presets have `columns * rows == 4680`: every block has its own cell and no cell is blank |
| Layout.WideningKeepsLandscape | src/App.js:38-45 | widening a landscape viewport keeps the landscape preset |
| Captions.PickWarning | src/App.js:55 | the random pick is always one of the five captions |
| Captions.WarningIndex | src/App.js:55 | in real arithmetic, the picked index `k` is in [0, 5) with `k <= 5r < k+1` |
| Captions.PickedOnItsFifth | src/App.js:55 | in real arithmetic, caption `k` is picked iff the random value is in [k/5, (k+1)/5) |
| Export.Preset | src/App.js:114-130 | a preset exists iff the format is `pc`, `mobile` or `social`, and every preset has positive sides |
| Export.FinalSize | src/App.js:112-130 | the `switch` gives the preset's size, or the captured bitmap's own size for any other format |
| Export.PresetShapes | src/App.js:115-126 | `pc` is 3840x2160 (16:9), `mobile` is 1440x3200 (9:20, portrait) and `social` is 1200x1200 |
| Export.FitScaleFits | src/App.js:149 | the uniform scale `min(aw/cw, ah/ch)*fill` fits the bitmap into the margin-reduced box and touches it on one side |
| Export.FitScale | src/App.js:149 | has no contract of its own; gives `min(aw/cw, ah/ch) * fill`. `Export.FitScaleFits` proves the scaled bitmap fits the box and touches one side |
| Export.ExportImageRect | src/App.js:141-154 | has no contract of its own; computes the padding, available space, scale, drawn size and corner. `Export.ExportImageFits` proves what it places |
| Export.ExportCaptionAt | src/App.js:163 | has no contract of its own; gives the caption anchor `(width/2, height - paddingY/2)`. `Export.ExportImageFits` proves it lies below the image and inside the canvas |
| Export.Background | src/App.js:138 | has no contract of its own; gives the canvas fill colour, `#1a1a1a` for dark and `#ffffff` for light (also the share fill, src/App.js:197). `Export.ThemeChangesOnlyColours` proves the two differ and that, for the same capture, the light and dark plans differ only in the two colours |
| Export.CaptionColor | src/App.js:161 | has no contract of its own; gives the caption colour, `#888` for dark and `#666` for light. `Export.ThemeChangesOnlyColours` proves the two differ |
| Export.ExportImageFits | src/App.js:141-163 | the exported bitmap keeps its aspect ratio, is centred horizontally and, vertically, in the space above the caption band, stays inside the 5% padding, leaves the 60px caption band free, and the caption sits below it |
| Export.PresetImageFits | src/App.js:114-148 | every preset leaves positive room after padding and caption band, so the placement above holds for its exports |
| Export.DatePart | src/App.js:167 | `iso.split('T')[0]` is the prefix of the timestamp before its first `T` |
| Export.FileName | src/App.js:167 | has no contract of its own; builds `life-blocks-<format>-<date part>.png`. `Export.IsoFileName` proves the date part is `YYYY-MM-DD` for an ISO timestamp |
| Export.IsoDatePart | src/App.js:167 | for a `toISOString()` value the date part is its first ten characters, `YYYY-MM-DD` |
| Export.IsoFileName | src/App.js:167 | for a `toISOString()` value the file is `life-blocks-<format>-<YYYY-MM-DD>.png` |
| Export.ExportBlocks | src/App.js:99-170 | nothing is exported before the grid is mounted; otherwise the plan has the switch's size, the theme colours, the placed bitmap and caption, and the file name |
| Export.ExportPlanFor | src/App.js:112-167 | has no contract of its own; the specification of `exportBlocks` for a mounted grid: the switch's size, the theme colours, `ExportImageRect`, the caption at `ExportCaptionAt` and `FileName`. `Export.ExportBlocks` is proved equal to it, and `Export.ThemeChangesOnlyColours` and `Export.PcExportExample` hold of it |
| Export.ThemeChangesOnlyColours | src/App.js:138-161 | for the same capture, the light and dark export plans differ only in the background and caption colours |
| Export.PcExportExample | src/App.js:114-154 | a `pc` export of a 500x400 bitmap is 3840x2160, with the bitmap drawn 2237.25x1789.8 at (801.375, 155.1) |
| Share.AsWrittenKeepsAspectOnlyWhenSquare | src/App.js:200-209 | as written, the shared image keeps the capture's aspect ratio iff the capture is square |
| Share.AsWrittenStretchesLandscapeCapture | src/App.js:200-209 | a 500x400 capture is drawn as a 995.68 square, where its own aspect would give a height of 796.544 |
| Share.ShareImageRectAsWritten | src/App.js:200-206 | has no contract of its own; reproduces the source's placement, which uses `canvas.width * scale` for both sides. `Share.AsWrittenKeepsAspectOnlyWhenSquare` proves what that does |
| Share.AvailableSize | src/App.js:201 | has no contract of its own; gives `1200 - 2*72 - 40 = 1016`, the side left for the image. `Share.ShareImageFits` proves the image fits inside it |
| Share.ShareImageRect | src/App.js:200-206 | has no contract of its own; the corrected placement, with height `canvas.height * scale` and vertical centring on that height. `Share.ShareImageFits` proves it fits |
| Share.CorrectionAgreesOnSquareCaptures | src/App.js:200-209 | the corrected placement equals the source's iff the capture is square |
| Share.ShareCaptionAt | src/App.js:215 | has no contract of its own; gives the caption anchor `(600, 1200 - padding/2)`. `Share.ShareImageFits` proves it lies below the image |
| Share.ShareImageFits | src/App.js:189-215 | with the corrected placement, the shared bitmap keeps its aspect ratio, is centred horizontally and, vertically, in the space above the caption band, stays inside the 6% padding, leaves the 40px caption band free, and the caption sits below it |
| Share.ShareBlocks | src/App.js:172-233 | nothing is shared before the grid is mounted. Otherwise the plan is 1200 square, with the theme colours, the corrected placement `ShareImageRect`, the caption at `ShareCaptionAt`, and delivery to the share sheet iff `navigator.share` exists; the file is `life-blocks.png` either way |
| Share.FallbackDeliversSameImage | src/App.js:218-232 | the download fallback delivers the same image as the share sheet, which gets the title, the caption as text and the file |

## Findings

| source | as written | input that shows it | evidently intended | confidence | as-written member | corrected member |
|---|---|---|---|---|---|---|
| src/App.js:204-209 | `drawImage(canvas, x, y, scaledSize, scaledSize)` with `scaledSize = canvas.width * scale` draws the capture into a square | a 500x400 capture (any landscape grid) is drawn 995.68 x 995.68, stretched vertically by a quarter | draw `canvas.width*scale` x `canvas.height*scale` and centre on that height, as `exportBlocks` does | medium, not executed | Share.AsWrittenKeepsAspectOnlyWhenSquare | Share.ShareImageFits |

`Share.ShareBlocks` uses the corrected placement `Share.ShareImageRect`.
The as-written placement is `Share.ShareImageRectAsWritten`.

## Left out

- Date parsing, `getFullYear`, the local-time start of the year and the clock (src/App.js:26-27, 69-76). These are browser and timezone services, so the age and week of the year are inputs. `Weeks.WeekOfYear` takes the start of the year and today as millisecond timestamps. `toISOString` is an input string.
- An invalid birth date (`NaN` in JavaScript), which makes no block lived or current. The model's inputs are integers.
- The `html2canvas` capture and its options (src/App.js:102-109, 175-182). It is a foreign library, so the captured bitmap's size is an input. The captured pixels also follow the theme: the capture's `backgroundColor` is the theme colour (src/App.js:103, 176), and the captured subtree sits under the `dark` class (src/App.js:237). The model does not see those pixels.
- Canvas drawing, fonts, `toDataURL`, `toBlob`, creating and clicking the download link, and the `navigator.share` call and its promise (src/App.js:132-169, 185-233). These are browser I/O. The model stops at the plan of what is drawn where and how it leaves the app.
- Placement geometry (`Export.ExportImageRect`, `Share.ShareImageRect`): canvas coordinates are real numbers, not IEEE doubles. The model does not capture rounding in `* 0.05`, the divisions or `* 0.95`.
- Export.ExportBlocks: requires a capture with positive sides. For a zero-sized capture, JavaScript computes an infinite or NaN scale, which real numbers cannot represent.
- Share.ShareBlocks: requires a capture with positive sides, for the same reason.
- Share.ShareBlocks: draws the capture with the corrected, aspect-keeping placement `Share.ShareImageRect`. It does not draw the square the source draws at src/App.js:204-209, which is `Share.ShareImageRectAsWritten`. For a non-square capture the two differ (`Share.CorrectionAgreesOnSquareCaptures`); see "## Findings".
- Weeks.LivedWeeks: uses exact integer division. JavaScript divides doubles here. The result agrees with Math.floor when the span is below 2^53 ms, but the model does not prove that.
- React state, effects, the resize listener, the `dark` class on the body and on the app element, and all JSX (src/App.js:17-22, 32-65, 236-284). These are framework and DOM state.
- Captions.WarningIndex and Captions.PickedOnItsFifth: the product `r * 5` is taken over the reals. JavaScript rounds the double product, which moves a boundary double to the next caption. The double nearest `0.6` lies just below 3/5, yet `0.6 * 5` rounds to exactly `3`, so the program picks caption 3 where the model picks caption 2. `Captions.PickWarning`'s membership promise holds either way.
- The outcome of `navigator.share` (src/App.js:219-225). `canShare` only says that the function exists. A share that is rejected, for example because the user cancels it, gets no download fallback, and the model does not follow the promise past the call.
- The random draw itself (src/App.js:55). `Math.random()` is nondeterministic, so its value is the parameter of `Captions.PickWarning`.
