# Angular portfolio app: the row factory, the flip controller and the preloader

This project models the core of a small AngularJS portfolio. The portfolio
shows pieces as tiles in rows. Clicking a tile flips it over to show its
description. Its row-mates flip at the same time, each to a "neighbour image"
of the clicked piece. Every other row fades.

The model covers four parts of the app:

- **The `appConfig` provider and the shipped instance** (`AppConfig`). The
  configuration record takes five inputs. It derives the flip timings
  (400 ms flip, 50 ms gap, 450 ms padding, 850 ms full cycle), the
  `pieces_per_row_zero` bound and the `ppr_<n>` layout key from them.
- **The rows factory** (`Rows`). `sortData` reduces image records to their
  sources. It also splits off each piece's primary image and builds the mobile
  copies. `addNeighborImages` looks up each tile's neighbour images for the
  2- and 3-per-row layouts. `createRows`/`rowSplitter` group the pieces into
  rows that carry fresh toggle records.
- **The desktop controller** (`Flip`, `FlipProps`, `FlipRuns`, `FlipCycles`,
  `FlipInvariant`), a pure step function. It covers `showMoreToggle`, the
  scroll guard, the start and complete trackers, the four flip routines and
  `transformingClassToggle`. Every `$timeout` is a `Timer` in an explicit
  queue. `Fire` runs the pending timer that is due first, taking ties in
  registration order. The `flipCompleteTracker` continuations run inside the
  callback that resolves them.
- **The image preloader** (`ImagePreloader`). It is a PENDING / LOADING /
  RESOLVED / REJECTED machine that counts load and error notifications and
  settles one promise.

The main results are:

- **Opening cycle.** A click on an idle grid, followed by
  `3 * pieces_per_row` timers, settles in the opened state (`OpenCycle`).
- **Closing cycle.** A closing click, followed by `2 * pieces_per_row + 3`
  timers, settles in the closed state (`CloseCycle`).
- **Round trip.** Opening a piece of a resting grid and then closing it gives
  back the original controller. Only the clock and the remembered scroll
  offset differ (`RoundTrip`, `RoundTripFires`).
- **Single description.** Between transitions at most one tile shows its
  description (`CycleDescriptions`).
- **Controller invariant.** Every click, scroll check, timer and clock advance
  keeps the controller's bookkeeping invariant. Firing timers always ends, and
  it ends with the grid unlocked (`DrainUnlocks`).
- **Preloader outcome.** The preloader resolves exactly when every image
  loaded before any error (`Outcome`).

Three behaviours of the code are easy to miss, and the model keeps them as
written:

- RESOLVED is not absorbing in the preloader. An error after resolution still
  sets the state to REJECTED, although the promise stays fulfilled
  (app-concat.js:457-465).
- The mobile copies of `sortData` are taken before `primary_img` is assigned
  (factory--rows.js:76 comes before 85). So a mobile piece carries no primary
  image.
- When a neighbour piece is missing, `addNeighborImages` stores the raw
  neighbour index in its slot instead of leaving the slot empty
  (factory--rows.js:121-129).

Inputs from outside the code are parameters:

- `pageY` stands for `$window.pageYOffset`.
- The data source's portfolio is a sequence of `RawPiece`.
- Image load and error events are a sequence of `ImageEvent`.
- The clock is `Controller.now`, which moves only when a timer fires or
  through `Advance`.

## Model

| member | source | states |
|---|---|---|
| AppConfig.NewConfig | build/js/app-concat.js:329-348 | the inputs are stored unchanged; `transition_time` 400, `transition_time_between` 50, `pieces_per_row_zero = pieces_per_row - 1`, `ppr_key = "ppr_" + pieces_per_row`, padding 450 and full 850, with full = padding + transition time |
| AppConfig.LayoutKeyInjective | build/js/app-concat.js:345 | two layout keys are equal exactly when their pieces-per-row counts are equal |
| AppConfig.ParseIntToString | build/js/app-concat.js:345 | the decimal rendering used in the key reads back as the same integer |
| AppConfig.Instance | build/js/app-concat.js:373 | the shipped instance is theme `mk`, 3 pieces per row, portrait, key `ppr_3`, `pieces_per_row_zero` 2 |
| ImagePreloader.New | build/js/app-concat.js:388-409 | a new preloader is PENDING with zero counts, an unsettled promise and `imageCount` equal to the number of locations |
| ImagePreloader.Load | build/js/app-concat.js:441-452 | the first call moves PENDING to LOADING and requests every location in order; any later call changes nothing and requests nothing |
| ImagePreloader.LoadIdempotent | build/js/app-concat.js:443-445 | a second `load` returns the same preloader and issues no request |
| ImagePreloader.HandleImageError | build/js/app-concat.js:457-465 | the error count rises by one and the state becomes REJECTED; the first error rejects an unsettled promise; an already rejected preloader keeps its promise |
| ImagePreloader.HandleImageLoad | build/js/app-concat.js:467-486 | the load count rises by one; after a rejection nothing else changes; the load that reaches `imageCount` resolves; any other load leaves state and promise as they were |
| ImagePreloader.PreloadImages | build/js/app-concat.js:415-418 | construct-then-load gives a LOADING preloader with zero counts and an unsettled promise, and requests every location |
| ImagePreloader.RejectedIsAbsorbing | build/js/app-concat.js:459-462 | from REJECTED no notification changes the state or the promise |
| ImagePreloader.CountersCount | build/js/app-concat.js:458 | after any run of notifications the counters equal the counts of load and error events delivered |
| ImagePreloader.Outcome | build/js/app-concat.js:415-486 | after any events: REJECTED iff some error arrived; RESOLVED iff no error arrived, the list is non-empty and every image loaded; LOADING otherwise (always, for an empty list); the promise is fulfilled iff every image loaded before the first error, and it then carries the full location list |
| ImagePreloader.FulfilledCarriesLocations | build/js/app-concat.js:482-485 | a fulfilled promise carries the preloader's full list of image locations |
| ImagePreloader.EmptyListNeverResolves | build/js/app-concat.js:447-482 | with no images, nothing is requested and the preloader never resolves; without errors it stays LOADING |
| Rows.SortData | js/factory--rows.js:59-102 | one sorted piece, one secondary list and one mobile copy per piece, and at most one primary-image entry per piece |
| Rows.SortDataPieces | js/factory--rows.js:66-93 | per piece: sources replace image records, content is kept, the first source becomes the primary image and the rest in order the secondary images, and the mobile copy has the sources but no primary image |
| Rows.SortDataAllImages | js/factory--rows.js:70-73 | `all_images` is the in-order concatenation of every piece's sources |
| Rows.SortDataPrimaryImages | js/factory--rows.js:83-87 | `primary_images[p]` is piece `p`'s first source, a hole for a piece without images, and the array ends at the last piece that has images |
| Rows.ArraySet | js/factory--rows.js:86 | a JavaScript array write past the end extends the array with holes |
| Rows.AddNeighborImages | js/factory--rows.js:109-188 | one piece out per piece in; each keeps its sorted data, ends with the row position of the 2-per-row pass, and gets the 3- and 2-per-row neighbour lookups of its index |
| Rows.RowMates3 | js/factory--rows.js:113-160 | in a full row of three, slot `j` gets the position left, center or right, and its neighbour slot for row-mate `i` holds that mate's secondary image for `j` |
| Rows.RowMates2 | js/factory--rows.js:162-185 | in a full row of two, slot `j` is left or right and shows its mate's first secondary image |
| Rows.MissingNeighborKeepsIndex | js/factory--rows.js:121-173 | a neighbour slot holds a raw index exactly when the neighbour piece is past the end of the list |
| Rows.SkippedNeighborLeavesHole | js/factory--rows.js:155-160 | a neighbour without the needed secondary image is skipped, so slot 0 can be a hole while slot 1 is filled |
| Rows.NewTogglesAtRest | js/factory--rows.js:250 | a new toggle record is at rest: nothing flipped, no description, no fade, and every neighbour image hidden |
| Rows.RowSplitter | js/factory--rows.js:242-258 | up to `c` pieces are spliced off the front whether or not a row results; a row is returned iff `c` pieces were there; the row and the rest rebuild the input, and the row has `c` fresh toggles and is inactive |
| Rows.SplitRowsLiteral | js/factory--rows.js:203-218 | the splitting loop for 2 or 3 per row yields `⌊N/c⌋` rows, row `k` being pieces `c·k .. c·k+c` with fresh toggles |
| Rows.CreateRows | js/factory--rows.js:195-235 | the mobile copies become the 1-per-row layout; `⌊N/2⌋` and `⌊N/3⌋` rows with row `k` the matching slice; all the row counts; `row_count` follows the 2-per-row layout only when `pieces_per_row === 2` |
| Rows.BuildLayoutsThree | js/factory--rows.js:59-235 | end to end, slot `j` of row `k` of the 3-per-row layout is piece `3k + j` with its content, sources, primary image and row position |
| Rows.BuildLayoutsThreeMates | js/factory--rows.js:113-216 | end to end, that slot's neighbour entry for row-mate `i` holds the mate's secondary image |
| Flip.NewController | js/app.js:50-60 | the controller starts with no open piece, unlocked, both counters at zero and no timer pending |
| Flip.StartTracker | js/app.js:165-173 | the first start of a batch locks the grid and hides the overflow; the counter rises only while below `pieces_per_row`; nothing else changes |
| Flip.CompleteTracker | js/app.js:180-193 | the completion count rises by one; the completion that reaches `pieces_per_row` registers the unlock 50 ms later; nothing else changes |
| Flip.TransformingClassToggle | js/app.js:293-303 | the tile is marked transforming, turned over and its flip help hidden; clearing the mark is registered one flip later; nothing else changes |
| Flip.FlipActiveToBack | js/app.js:223-235 | the start is tracked, the description and show-more state open and the tile turns at once; its flip end and completion are due one flip later |
| Flip.FlipNeighborToFront | js/app.js:271-285 | the start is tracked, the tile is unlocked with no description and turns at once; the neighbour image is hidden again one flip later, which completes the flip |
| Flip.OthersSpec | js/app.js:87-113 | the neighbour loops visit exactly the slots `0 .. pieces_per_row_zero` other than the active one, in increasing order |
| Flip.ShowMoreToggle | js/app.js:70-138 | nothing happens during a flip or on a click of the open piece itself; otherwise it opens when nothing is open and closes otherwise |
| Flip.ScrollCheck | js/app.js:145-158 | a tick changes nothing when no piece is open, a forced close is suppressed, a flip runs or the page is within 250 px of where the piece opened |
| FlipProps.ToggleOpensGrid | js/app.js:77-103 | an opening click turns the clicked tile to its description at once and marks its row active; its row-mates wait for their timers; every tile of every other row is faded and locked |
| FlipProps.ToggleOpensState | js/app.js:78-91 | an opening click records the open piece and scroll offset, starts `pieces_per_row` flips, locks the grid and registers the active tile's timers followed by one reveal per neighbour after the padding |
| FlipProps.ToggleIsClose | js/app.js:105-107 | the close button, another row or another piece of the open row closes the open piece |
| FlipProps.ToggleClosesGrid | js/app.js:108-126 | a closing click turns every neighbour of the open piece back at once and unfades and unlocks every other row; the open piece and the row flags wait for their timers |
| FlipProps.ToggleClosesState | js/app.js:108-134 | a closing click starts `pieces_per_row` flips, locks the grid, and registers the neighbours' restores, the open piece's flip back after the padding and the reset after the full cycle |
| FlipProps.ScrollCloses | js/app.js:147-155 | scrolling past the threshold closes the open piece as the close button would, sets the scroll timeout and registers its end one full cycle later |
| FlipCycles.OpenCycle | js/app.js:77-303 | opening a piece of an idle grid: the click and then `3 * pieces_per_row` timers reach the opened state |
| FlipCycles.OpenedStateIs | js/app.js:77-263 | the opened state is idle but for the open piece: the piece shows its description, its row-mates show its neighbour images, the other rows are faded, and only the clock and scroll offset changed |
| FlipCycles.CloseCycle | js/app.js:105-285 | closing the open piece: the click and then `2 * pieces_per_row + 3` timers reach the closed state |
| FlipCycles.ClosedStateIdle | js/app.js:129-191 | after the closing cycle the controller is idle: no open piece, unlocked, counters at zero, no timer pending |
| FlipCycles.ClosedStateTiles | js/app.js:105-285 | the closed grid, tile by tile: the piece turned back with its description shut, row-mates turned back with neighbour images hidden again, the row inactive, the other rows unfaded |
| FlipCycles.RoundTrip | js/app.js:77-303 | opening and then closing a piece of a resting idle grid gives back the controller unchanged but for the clock and the remembered scroll offset |
| FlipCycles.RoundTripFires | js/app.js:70-303 | the same round trip through clicks and timers: the opening click and its timers reach the opened state, and any closing click and its timers reach the original controller |
| FlipCycles.CycleDescriptions | js/app.js:207-276 | no description shows while idle, only the open piece's while it is open, and none again once it is closed |
| FlipInvariant.NewControllerInv | js/app.js:60-193 | a fresh controller over full rows satisfies the bookkeeping invariant |
| FlipInvariant.IdleWhenQueueEmpty | js/app.js:165-193 | under the invariant an empty timer queue means unlocked with both counters at zero |
| FlipInvariant.FireKeepsInv | js/app.js:129-303 | firing the next timer keeps the invariant: the lock is held exactly while a batch runs, each started flip is completed or pending, and the unlock is pending exactly once all have completed |
| FlipInvariant.ToggleKeepsInv | js/app.js:70-138 | any click keeps the invariant, whichever branch it takes |
| FlipInvariant.ScrollKeepsInv | js/app.js:145-158 | any scroll check keeps the invariant |
| FlipInvariant.AdvanceKeepsInv | js/app.js:146-157 | the passing of time keeps the invariant |
| FlipInvariant.FireLowersWeight | js/app.js:201-303 | every callback registers less weight than it removes, so firing timers cannot go on forever |
| FlipInvariant.DrainUnlocks | js/app.js:165-193 | whatever was clicked and scrolled, once input stops every timer runs and the grid ends unlocked with both counters at zero |

## Left out

- ShowMoreToggle: requires the clicked coordinates to be a tile of the grid
  when it opens. The code (js/app.js:78-81) writes `show_more_active`, the
  open piece and `active_row` before it throws on a row that does not exist.
  That half-written state is not modelled. The view passes only coordinates
  of rendered tiles.
- ScrollCheck: one call is one tick of the 1000 ms `$interval`
  (js/app.js:146-157), and that tick is not a timer in the queue. The caller
  decides when a tick happens and passes the page offset. So the model does
  not state that a forced close happens within one interval of scrolling
  away.
- `overflowHidden` (`$scope.$parent.overflow_hidden`) is a cosmetic flag of
  the page body. It is modelled only because the trackers set and clear it
  together with the lock.
- ImagePreloader.HandleImageLoad: the progress notification's `percent`
  (`Math.ceil(loadCount / imageCount * 100)`, app-concat.js:476-479) and the
  notify channel are not modelled, because they are floating-point progress
  reports that do not affect state.
- The `getRows` JSONP request, its promise, the data source's other
  attributes (carried as one `content` string) and `angular.copy` are left
  out. Copies are values in Dafny.
- DOM events, `event.stopPropagation`, `$window` and its `watch` on the
  window width, and the empty `mobileController` are left out.
- Rows.RowSplitter: `pieces_per_row` is a `nat`. The code is only ever called
  with 2 or 3.
- The controller's grid is the toggles of the configured layout, and
  `row_count_zero + 1` is taken to be the number of rows in it. The fade loops
  run over the grid's rows.
- FlipCycles.OpenCycle, FlipCycles.CloseCycle and FlipCycles.RoundTripFires
  are stated for `pieces_per_row >= 2`, which is what the app uses. With one
  piece per row the batch has no neighbours and the timer counts differ.
- FlipCycles.RoundTrip and FlipCycles.RoundTripFires: the cycles are stated
  with `Fires` (a chain of single firings). `FlipRuns.FiresRun` turns that
  into `Run`.
- A `$timeout` callback whose tile does not exist throws on its first
  statement. It is modelled as a callback that changes nothing, and its
  promise never resolves.
- Browser timer ordering: timers with equal due times fire in registration
  order, and time never runs backwards. Real clock drift is not modelled.
