/** The desktop controller's flip orchestration, as a pure step function.

    The controller keeps the open piece, the scroll position recorded when it
    opened, two counters of started and completed flips and the
    `curr_transforming` lock. Every `$timeout` callback is a `Timer` in an
    explicit queue: registering one appends it, and `Fire` runs the pending
    timer that is due first (ties in registration order), advancing the clock
    to its due time. Promise `.then` continuations run in the same digest as
    the callback that resolved them, so they are part of the firing action. */
module Flip {
  import opened Wrappers
  import opened AppConfig
  import opened Rows

  /** Wait after the last flip completes before clicks are accepted again. */
  const SettleDelay: int := 50
  /** Scroll distance, in pixels, beyond which an open piece is closed. */
  const ScrollThreshold: int := 250

  function Max(a: int, b: int): int {
    if a >= b then a else b
  }

  /** A tile of the grid: row index and slot within the row. */
  datatype Pos = Pos(row: int, piece: int)

  /** The callbacks the controller registers with `$timeout`. */
  datatype Action =
      /** `transformingClassToggle`'s timer: the flip animation has ended. */
    | ClearTransforming(row: int, piece: int)
      /** An empty timer whose promise chain ends in `flipCompleteTracker`
          (`flipActiveToBack`, and the inner timer of `flipFrontToNeighbor`). */
    | FlipDone
      /** `flipFrontToNeighbor`'s outer timer: show the neighbour image, flip. */
    | RevealNeighbor(row: int, active: int, piece: int)
      /** `flipNeighborToFront`'s timer: hide the neighbour image again. */
    | RestoreNeighborDone(row: int, active: int, piece: int)
      /** `flipActiveToFront`'s outer timer: flip the active tile back. */
    | TurnActiveToFront(row: int, piece: int)
      /** `flipActiveToFront`'s inner timer: drop the description. */
    | ActiveFrontDone(row: int, piece: int)
      /** The close path's reset of the open piece. */
    | CloseReset
      /** `flipCompleteTracker`'s timer: unlock the grid. */
    | Settle
      /** The scroll guard's timer: allow forced closes again. */
    | ScrollTimeoutEnd

  datatype Timer = Timer(due: int, action: Action)

  /** The controller's variables. `show_more_active`, `active_row` and
      `active_piece` are always assigned together, so one optional position
      stands for all three. */
  datatype Controller = Controller(
    config: Config,
    grid: seq<RowToggles>,
    active: Option<Pos>,
    activeScrollPos: int,
    scrollTimeout: bool,
    startCounter: int,
    completeCounter: int,
    currTransforming: bool,
    overflowHidden: bool,
    now: int,
    queue: seq<Timer>)

  /** The controller as it starts, over the toggles of the configured layout. */
  function NewController(config: Config, grid: seq<RowToggles>, now: int): (c: Controller)
    ensures c.active.None? && !c.currTransforming && !c.scrollTimeout && !c.overflowHidden
    ensures c.startCounter == 0 && c.completeCounter == 0 && c.queue == []
    ensures c.grid == grid && c.config == config && c.now == now
  {
    Controller(config, grid, None, 0, false, 0, 0, false, false, now, [])
  }

  // ---------------------------------------------------------------------------
  // The grid of toggle records
  // ---------------------------------------------------------------------------

  predicate ValidTile(g: seq<RowToggles>, r: int, p: int) {
    0 <= r < |g| && 0 <= p < |g[r].slots|
  }

  function Tile(g: seq<RowToggles>, r: int, p: int): Toggle
    requires ValidTile(g, r, p)
  {
    g[r].slots[p]
  }

  /** Same number of rows, same number of slots in each. */
  predicate SameShape(g: seq<RowToggles>, h: seq<RowToggles>) {
    |g| == |h| && forall i :: 0 <= i < |g| ==> |g[i].slots| == |h[i].slots|
  }

  /** Every row's `active_row` flag is the same in both grids. */
  predicate SameRowFlags(g: seq<RowToggles>, h: seq<RowToggles>)
    requires |g| == |h|
  {
    forall i :: 0 <= i < |g| ==> g[i].activeRow == h[i].activeRow
  }

  /** Writing one tile's record: that tile changes and nothing else does. */
  function SetTile(g: seq<RowToggles>, r: int, p: int, t: Toggle): (h: seq<RowToggles>)
    requires ValidTile(g, r, p)
    ensures SameShape(g, h) && SameRowFlags(g, h)
    ensures Tile(h, r, p) == t
    ensures forall i, q :: ValidTile(g, i, q) && (i != r || q != p) ==> Tile(h, i, q) == Tile(g, i, q)
  {
    g[r := g[r].(slots := g[r].slots[p := t])]
  }

  /** A second write to the same tile replaces the first. */
  lemma SetTileTwice(g: seq<RowToggles>, r: int, p: int, t: Toggle, u: Toggle)
    requires ValidTile(g, r, p)
    ensures SetTile(SetTile(g, r, p, t), r, p, u) == SetTile(g, r, p, u)
  {
    assert g[r].slots[p := t][p := u] == g[r].slots[p := u];
  }

  /** Writing a row's `active_row` flag. */
  function SetRowActive(g: seq<RowToggles>, r: int, v: bool): (h: seq<RowToggles>)
    requires 0 <= r < |g|
    ensures SameShape(g, h) && h[r].activeRow == v
    ensures forall i :: 0 <= i < |g| && i != r ==> h[i].activeRow == g[i].activeRow
    ensures forall i, q :: ValidTile(g, i, q) ==> Tile(h, i, q) == Tile(g, i, q)
  {
    g[r := g[r].(activeRow := v)]
  }

  function Faded(t: Toggle, v: bool): Toggle {
    t.(notFlippable := v, fade := v)
  }

  /** The fade loops of `showMoreToggle`: every tile of every row other than
      the active one gets `notFlippable` and `fade` set to `v`. */
  function SetFade(g: seq<RowToggles>, r: int, v: bool): (h: seq<RowToggles>)
    ensures SameShape(g, h) && SameRowFlags(g, h)
    ensures forall i, q :: ValidTile(g, i, q) ==>
              Tile(h, i, q) == if i == r then Tile(g, i, q) else Faded(Tile(g, i, q), v)
  {
    seq(|g|, i requires 0 <= i < |g| =>
      if i == r then g[i]
      else g[i].(slots := seq(|g[i].slots|, q requires 0 <= q < |g[i].slots| => Faded(g[i].slots[q], v))))
  }

  /** The grids agree on shape, row flags and every tile: they are equal. */
  lemma GridExt(g: seq<RowToggles>, h: seq<RowToggles>)
    requires SameShape(g, h) && SameRowFlags(g, h)
    requires forall i, q :: ValidTile(g, i, q) ==> Tile(g, i, q) == Tile(h, i, q)
    ensures g == h
  {
    forall i | 0 <= i < |g|
      ensures g[i] == h[i]
    {
      assert g[i].slots == h[i].slots by {
        forall q | 0 <= q < |g[i].slots|
          ensures g[i].slots[q] == h[i].slots[q]
        {
          assert ValidTile(g, i, q);
        }
      }
    }
  }

  /** `toggles[piece]['hideBackNbrImg_' + k]`: only slots 0 to 2 exist in the
      record; any other key adds a property nothing reads. */
  function HideBack(t: Toggle, k: int, v: bool): Toggle {
    if k == 0 then t.(hideBackNbrImg0 := v)
    else if k == 1 then t.(hideBackNbrImg1 := v)
    else if k == 2 then t.(hideBackNbrImg2 := v)
    else t
  }

  function HiddenBack(t: Toggle, k: int): bool {
    if k == 0 then t.hideBackNbrImg0
    else if k == 1 then t.hideBackNbrImg1
    else if k == 2 then t.hideBackNbrImg2
    else true
  }

  /** The immediate half of `transformingClassToggle`. */
  function Flipped(t: Toggle): Toggle {
    t.(transforming := true, transform := !t.transform, frontHover := false)
  }

  // ---------------------------------------------------------------------------
  // Timers and trackers
  // ---------------------------------------------------------------------------

  /** `$timeout(callback, delay)`: register a timer due `delay` from now. */
  function After(ctl: Controller, delay: int, a: Action): (r: Controller)
    ensures r == ctl.(queue := ctl.queue + [Timer(ctl.now + delay, a)])
  {
    ctl.(queue := ctl.queue + [Timer(ctl.now + delay, a)])
  }

  /** `flipStartTracker`: the first start of a batch locks the grid; the
      counter counts starts but never beyond `pieces_per_row`. */
  function StartTracker(ctl: Controller): (r: Controller)
    ensures r == ctl.(startCounter := r.startCounter, currTransforming := r.currTransforming,
                      overflowHidden := r.overflowHidden)
    ensures ctl.startCounter == 0 ==> r.currTransforming && r.overflowHidden
    ensures ctl.startCounter != 0 ==>
              r.currTransforming == ctl.currTransforming && r.overflowHidden == ctl.overflowHidden
    ensures ctl.startCounter < ctl.config.piecesPerRow ==> r.startCounter == ctl.startCounter + 1
    ensures ctl.startCounter >= ctl.config.piecesPerRow ==> r.startCounter == ctl.startCounter
  {
    var c1 := if ctl.startCounter == 0 then ctl.(overflowHidden := true, currTransforming := true) else ctl;
    if c1.startCounter < c1.config.piecesPerRow then c1.(startCounter := c1.startCounter + 1) else c1
  }

  /** `flipCompleteTracker`: count a completion; the completion that makes
      the count equal `pieces_per_row` schedules the unlock. */
  function CompleteTracker(ctl: Controller): (r: Controller)
    ensures r.completeCounter == ctl.completeCounter + 1
    ensures r == ctl.(completeCounter := r.completeCounter, queue := r.queue)
    ensures r.queue == ctl.queue + if r.completeCounter == ctl.config.piecesPerRow
                                   then [Timer(ctl.now + SettleDelay, Settle)] else []
  {
    var c1 := ctl.(completeCounter := ctl.completeCounter + 1);
    if c1.completeCounter == c1.config.piecesPerRow then After(c1, SettleDelay, Settle) else c1
  }

  /** `transformingClassToggle`: mark the tile as transforming, turn it over
      and hide the flip help; clear the transforming mark one flip later. */
  function TransformingClassToggle(ctl: Controller, r: int, p: int): (c: Controller)
    requires ValidTile(ctl.grid, r, p)
    ensures c == ctl.(grid := c.grid, queue := c.queue)
    ensures c.grid == SetTile(ctl.grid, r, p, Flipped(Tile(ctl.grid, r, p)))
    ensures c.queue == ctl.queue + [Timer(ctl.now + ctl.config.transitionTime, ClearTransforming(r, p))]
  {
    var t := Tile(ctl.grid, r, p);
    After(ctl.(grid := SetTile(ctl.grid, r, p, Flipped(t))), ctl.config.transitionTime, ClearTransforming(r, p))
  }

  // ---------------------------------------------------------------------------
  // The four flip routines
  // ---------------------------------------------------------------------------

  /** `flipActiveToBack`: open the description at once and flip; the flip
      completes one flip later. */
  function FlipActiveToBack(ctl: Controller, r: int, p: int): (c: Controller)
    requires ValidTile(ctl.grid, r, p)
    ensures var t := Tile(ctl.grid, r, p);
            c.grid == SetTile(ctl.grid, r, p, Flipped(t.(showMoreActive := true, descriptionActive := true)))
    ensures var tt := ctl.config.transitionTime;
            c.queue == ctl.queue + [Timer(ctl.now + tt, ClearTransforming(r, p)), Timer(ctl.now + tt, FlipDone)]
    ensures c == StartTracker(ctl).(grid := c.grid, queue := c.queue)
  {
    var c1 := StartTracker(ctl);
    var t := Tile(c1.grid, r, p);
    var c2 := c1.(grid := SetTile(c1.grid, r, p, t.(showMoreActive := true, descriptionActive := true)));
    SetTileTwice(c1.grid, r, p, t.(showMoreActive := true, descriptionActive := true),
                 Flipped(t.(showMoreActive := true, descriptionActive := true)));
    After(TransformingClassToggle(c2, r, p), ctl.config.transitionTime, FlipDone)
  }

  /** `flipFrontToNeighbor`: start now, reveal after the padding. */
  function FlipFrontToNeighbor(ctl: Controller, r: int, a: int, p: int): (c: Controller)
    ensures c == After(StartTracker(ctl), ctl.config.transitionTimePadding, RevealNeighbor(r, a, p))
  {
    After(StartTracker(ctl), ctl.config.transitionTimePadding, RevealNeighbor(r, a, p))
  }

  /** The tile update of a neighbour reveal: the neighbour image of the
      active piece shows on the back, the description is hidden, the tile is
      locked, and it turns over. */
  function Revealed(t: Toggle, a: int): Toggle {
    Flipped(HideBack(t, a, false).(descriptionActive := false, notFlippable := true))
  }

  /** `flipNeighborToFront`: unlock and flip at once; hide the neighbour
      image again one flip later. */
  function FlipNeighborToFront(ctl: Controller, r: int, a: int, p: int): (c: Controller)
    requires ValidTile(ctl.grid, r, p)
    ensures c.grid == SetTile(ctl.grid, r, p, Restored(Tile(ctl.grid, r, p)))
    ensures var tt := ctl.config.transitionTime;
            c.queue == ctl.queue + [Timer(ctl.now + tt, ClearTransforming(r, p)),
                                    Timer(ctl.now + tt, RestoreNeighborDone(r, a, p))]
    ensures c == StartTracker(ctl).(grid := c.grid, queue := c.queue)
  {
    var c1 := StartTracker(ctl);
    var t := Tile(c1.grid, r, p);
    var c2 := c1.(grid := SetTile(c1.grid, r, p, t.(descriptionActive := false, notFlippable := false)));
    SetTileTwice(c1.grid, r, p, t.(descriptionActive := false, notFlippable := false), Restored(t));
    After(TransformingClassToggle(c2, r, p), ctl.config.transitionTime, RestoreNeighborDone(r, a, p))
  }

  /** The immediate tile update of `flipNeighborToFront`. */
  function Restored(t: Toggle): Toggle {
    Flipped(t.(descriptionActive := false, notFlippable := false))
  }

  /** `flipActiveToFront`: start now, flip back after the padding. */
  function FlipActiveToFront(ctl: Controller, r: int, p: int): (c: Controller)
    ensures c == After(StartTracker(ctl), ctl.config.transitionTimePadding, TurnActiveToFront(r, p))
  {
    After(StartTracker(ctl), ctl.config.transitionTimePadding, TurnActiveToFront(r, p))
  }

  /** The slots `p .. last` other than `a`, in order: the neighbours the
      `for (p = 0; p <= pieces_per_row_zero; p++) if (p != active_piece)`
      loops visit. */
  function Others(a: int, p: int, last: int): (ns: seq<int>)
    decreases last - p
  {
    if p > last then []
    else (if p != a then [p] else []) + Others(a, p + 1, last)
  }

  /** `Others` lists exactly the slots of `p .. last` other than `a`, in
      increasing order. */
  lemma {:induction false} OthersSpec(a: int, p: int, last: int)
    ensures var ns := Others(a, p, last);
            && (forall i :: 0 <= i < |ns| ==> p <= ns[i] <= last && ns[i] != a)
            && (forall i, j :: 0 <= i < j < |ns| ==> ns[i] < ns[j])
            && (forall q :: p <= q <= last && q != a ==> q in ns)
            && |ns| == if p <= a <= last then last - p else Max(0, last + 1 - p)
    decreases last - p
  {
    if p <= last {
      OthersSpec(a, p + 1, last);
    }
  }

  /** A row of `last + 1` slots has `last` neighbours of any of its slots. */
  lemma OthersCount(a: int, last: int)
    requires 0 <= a <= last
    ensures |Others(a, 0, last)| == last
  {
    OthersSpec(a, 0, last);
  }

  /** A slot is not its own neighbour. */
  lemma OthersNotSelf(a: int, last: int)
    ensures a !in Others(a, 0, last)
  {
    OthersSpec(a, 0, last);
  }

  /** Every listed slot is a tile of row `r`. */
  predicate InRow(g: seq<RowToggles>, r: int, ns: seq<int>) {
    0 <= r < |g| && forall i :: 0 <= i < |ns| ==> 0 <= ns[i] < |g[r].slots|
  }

  /** The slots other than `a` of a row of `pieces_per_row` tiles are tiles
      of the row. */
  lemma OthersInRow(g: seq<RowToggles>, r: int, a: int, last: int)
    requires 0 <= r < |g| && last < |g[r].slots|
    ensures InRow(g, r, Others(a, 0, last))
  {
    OthersSpec(a, 0, last);
  }

  lemma AppendAssoc<T>(a: seq<T>, b: seq<T>, c: seq<T>)
    ensures (a + b) + c == a + (b + c)
  {
  }

  /** One more start, with the counter capped at `pieces_per_row`. */
  lemma StartsStep(ctl: Controller, c1: Controller, n: int, k: nat)
    requires 0 <= ctl.startCounter <= ctl.config.piecesPerRow
    requires c1 == StartTracker(ctl)
    requires n == Min(c1.config.piecesPerRow, c1.startCounter + k)
    ensures n == Min(ctl.config.piecesPerRow, ctl.startCounter + k + 1)
  {
  }

  // ---------------------------------------------------------------------------
  // The opening loop
  // ---------------------------------------------------------------------------

  /** The reveal timers the opening loop registers, one per neighbour. */
  function RevealTimers(r: int, a: int, ns: seq<int>, due: int): seq<Timer> {
    if |ns| == 0 then [] else [Timer(due, RevealNeighbor(r, a, ns[0]))] + RevealTimers(r, a, ns[1..], due)
  }

  /** The opening loop: one `flipFrontToNeighbor` per listed neighbour, in
      order. `showMoreToggle` runs it over `Others(a, 0, pieces_per_row_zero)`. */
  function RevealNeighbors(ctl: Controller, r: int, a: int, ns: seq<int>): Controller
    decreases |ns|
  {
    if |ns| == 0 then ctl
    else RevealNeighbors(FlipFrontToNeighbor(ctl, r, a, ns[0]), r, a, ns[1..])
  }

  lemma RevealFrameStep(ctl: Controller, c1: Controller, c: Controller, r: int, a: int, p: int)
    requires c1 == FlipFrontToNeighbor(ctl, r, a, p)
    requires c == c1.(queue := c.queue, startCounter := c.startCounter,
                      currTransforming := c.currTransforming, overflowHidden := c.overflowHidden)
    ensures c == ctl.(queue := c.queue, startCounter := c.startCounter,
                      currTransforming := c.currTransforming, overflowHidden := c.overflowHidden)
  {
  }

  lemma RevealLockStep(ctl: Controller, c1: Controller, c: Controller, r: int, a: int, p: int, k: nat)
    requires 0 <= ctl.startCounter
    requires c1 == FlipFrontToNeighbor(ctl, r, a, p)
    requires c.currTransforming <==> c1.currTransforming || (c1.startCounter == 0 && k > 0)
    requires c.overflowHidden <==> c1.overflowHidden || (c1.startCounter == 0 && k > 0)
    ensures c.currTransforming <==> ctl.currTransforming || ctl.startCounter == 0
    ensures c.overflowHidden <==> ctl.overflowHidden || ctl.startCounter == 0
  {
  }

  /** The opening loop changes only the queue and the tracker variables. */
  lemma {:induction false} RevealNeighborsFrame(ctl: Controller, r: int, a: int, ns: seq<int>)
    ensures var c := RevealNeighbors(ctl, r, a, ns);
            c == ctl.(queue := c.queue, startCounter := c.startCounter,
                      currTransforming := c.currTransforming, overflowHidden := c.overflowHidden)
    decreases |ns|
  {
    if |ns| > 0 {
      var c1 := FlipFrontToNeighbor(ctl, r, a, ns[0]);
      RevealNeighborsFrame(c1, r, a, ns[1..]);
      RevealFrameStep(ctl, c1, RevealNeighbors(c1, r, a, ns[1..]), r, a, ns[0]);
    }
  }

  /** The opening loop starts one flip per neighbour, the counter stopping at
      `pieces_per_row`. */
  lemma {:induction false} RevealNeighborsStarts(ctl: Controller, r: int, a: int, ns: seq<int>)
    requires 0 <= ctl.startCounter <= ctl.config.piecesPerRow
    ensures RevealNeighbors(ctl, r, a, ns).startCounter == Min(ctl.config.piecesPerRow, ctl.startCounter + |ns|)
    decreases |ns|
  {
    if |ns| > 0 {
      var c1 := FlipFrontToNeighbor(ctl, r, a, ns[0]);
      RevealNeighborsStarts(c1, r, a, ns[1..]);
      StartsStep(ctl, StartTracker(ctl), RevealNeighbors(c1, r, a, ns[1..]).startCounter, |ns| - 1);
    }
  }

  /** The first start of a batch in the opening loop locks the grid and hides
      the page's overflow; later starts leave both as they are. */
  lemma {:induction false} RevealNeighborsLock(ctl: Controller, r: int, a: int, ns: seq<int>)
    requires 0 <= ctl.startCounter
    ensures var c := RevealNeighbors(ctl, r, a, ns);
            && (c.currTransforming <==> ctl.currTransforming || (ctl.startCounter == 0 && |ns| > 0))
            && (c.overflowHidden <==> ctl.overflowHidden || (ctl.startCounter == 0 && |ns| > 0))
    decreases |ns|
  {
    if |ns| > 0 {
      var c1 := FlipFrontToNeighbor(ctl, r, a, ns[0]);
      RevealNeighborsLock(c1, r, a, ns[1..]);
      RevealLockStep(ctl, c1, RevealNeighbors(c1, r, a, ns[1..]), r, a, ns[0], |ns| - 1);
    }
  }

  lemma RevealQueueStep(ctl: Controller, c1: Controller, r: int, a: int, ns: seq<int>, tail: seq<Timer>)
    requires |ns| > 0
    requires c1 == FlipFrontToNeighbor(ctl, r, a, ns[0])
    requires tail == RevealTimers(r, a, ns[1..], c1.now + c1.config.transitionTimePadding)
    ensures c1.queue + tail == ctl.queue + RevealTimers(r, a, ns, ctl.now + ctl.config.transitionTimePadding)
  {
    var t := Timer(ctl.now + ctl.config.transitionTimePadding, RevealNeighbor(r, a, ns[0]));
    assert c1.now == ctl.now && c1.config == ctl.config && c1.queue == ctl.queue + [t];
    AppendAssoc(ctl.queue, [t], tail);
  }

  /** The opening loop registers one reveal per neighbour, in slot order, all
      due after the padding. */
  lemma {:induction false} RevealNeighborsQueue(ctl: Controller, r: int, a: int, ns: seq<int>)
    ensures RevealNeighbors(ctl, r, a, ns).queue
              == ctl.queue + RevealTimers(r, a, ns, ctl.now + ctl.config.transitionTimePadding)
    decreases |ns|
  {
    if |ns| > 0 {
      var c1 := FlipFrontToNeighbor(ctl, r, a, ns[0]);
      RevealNeighborsQueue(c1, r, a, ns[1..]);
      RevealQueueStep(ctl, c1, r, a, ns, RevealTimers(r, a, ns[1..], c1.now + c1.config.transitionTimePadding));
    }
  }

  // ---------------------------------------------------------------------------
  // Tile updates over a list of slots
  // ---------------------------------------------------------------------------

  /** A tile update applied to a list of tiles of one row. */
  datatype TileStep =
    | RevealStep(active: int)     // the reveal half of `flipFrontToNeighbor`
    | RestoreStep                 // the immediate half of `flipNeighborToFront`
    | ClearStep                   // the end of a flip
    | ClearHideStep(active: int)  // the end of a flip back from a neighbour image

  function ApplyStep(s: TileStep, t: Toggle): Toggle {
    match s
    case RevealStep(a) => Revealed(t, a)
    case RestoreStep => Restored(t)
    case ClearStep => t.(transforming := false)
    case ClearHideStep(a) => HideBack(t.(transforming := false), a, true)
  }

  /** Apply `s` to the tiles `ns` of row `r`, one after the other (a tile
      outside the grid is passed over). */
  function UpdateTiles(g: seq<RowToggles>, r: int, ns: seq<int>, s: TileStep): (h: seq<RowToggles>)
    ensures SameShape(g, h) && SameRowFlags(g, h)
    decreases |ns|
  {
    if |ns| == 0 then g
    else if ValidTile(g, r, ns[0]) then
      UpdateTiles(SetTile(g, r, ns[0], ApplyStep(s, Tile(g, r, ns[0]))), r, ns[1..], s)
    else UpdateTiles(g, r, ns[1..], s)
  }

  /** For distinct tiles, each listed tile gets the update once and every
      other tile is left alone. */
  lemma {:induction false} UpdateTilesSpec(g: seq<RowToggles>, r: int, ns: seq<int>, s: TileStep)
    requires InRow(g, r, ns)
    requires forall i, j :: 0 <= i < j < |ns| ==> ns[i] != ns[j]
    ensures forall i, q :: ValidTile(g, i, q) ==>
              Tile(UpdateTiles(g, r, ns, s), i, q)
                == if i == r && q in ns then ApplyStep(s, Tile(g, i, q)) else Tile(g, i, q)
    decreases |ns|
  {
    if |ns| > 0 {
      var g1 := SetTile(g, r, ns[0], ApplyStep(s, Tile(g, r, ns[0])));
      UpdateTilesSpec(g1, r, ns[1..], s);
      forall i, q | ValidTile(g, i, q)
        ensures Tile(UpdateTiles(g, r, ns, s), i, q)
                  == if i == r && q in ns then ApplyStep(s, Tile(g, i, q)) else Tile(g, i, q)
      {
        assert q in ns <==> q == ns[0] || q in ns[1..];
        if i == r && q == ns[0] {
          assert q !in ns[1..];
        }
      }
    }
  }

  // ---------------------------------------------------------------------------
  // The closing loop
  // ---------------------------------------------------------------------------

  /** The timers of the closing loop: per neighbour, the end of its flip and
      the hiding of its neighbour image, both one flip from now. */
  function RestoreTimers(r: int, a: int, ns: seq<int>, due: int): seq<Timer> {
    if |ns| == 0 then []
    else [Timer(due, ClearTransforming(r, ns[0])), Timer(due, RestoreNeighborDone(r, a, ns[0]))]
         + RestoreTimers(r, a, ns[1..], due)
  }

  /** The closing loop: one `flipNeighborToFront` per listed neighbour, in
      order. `showMoreToggle` runs it over `Others(a, 0, pieces_per_row_zero)`. */
  function RestoreNeighbors(ctl: Controller, r: int, a: int, ns: seq<int>): Controller
    requires InRow(ctl.grid, r, ns)
    decreases |ns|
  {
    if |ns| == 0 then ctl
    else RestoreNeighbors(FlipNeighborToFront(ctl, r, a, ns[0]), r, a, ns[1..])
  }

  lemma RestoreFrameStep(ctl: Controller, c1: Controller, c: Controller, r: int, a: int, p: int)
    requires ValidTile(ctl.grid, r, p) &&  c1 == FlipNeighborToFront(ctl, r, a, p)
    requires c == c1.(grid := c.grid, queue := c.queue, startCounter := c.startCounter,
                      currTransforming := c.currTransforming, overflowHidden := c.overflowHidden)
    ensures c == ctl.(grid := c.grid, queue := c.queue, startCounter := c.startCounter,
                      currTransforming := c.currTransforming, overflowHidden := c.overflowHidden)
  {
  }

  lemma RestoreLockStep(ctl: Controller, c1: Controller, c: Controller, r: int, a: int, p: int, k: nat)
    requires ValidTile(ctl.grid, r, p) && 0 <= ctl.startCounter
    requires c1 == FlipNeighborToFront(ctl, r, a, p)
    requires c.currTransforming <==> c1.currTransforming || (c1.startCounter == 0 && k > 0)
    requires c.overflowHidden <==> c1.overflowHidden || (c1.startCounter == 0 && k > 0)
    ensures c.currTransforming <==> ctl.currTransforming || ctl.startCounter == 0
    ensures c.overflowHidden <==> ctl.overflowHidden || ctl.startCounter == 0
  {
  }

  /** The closing loop changes only the grid, the queue and the tracker variables. */
  lemma {:induction false} RestoreNeighborsFrame(ctl: Controller, r: int, a: int, ns: seq<int>)
    requires InRow(ctl.grid, r, ns)
    ensures var c := RestoreNeighbors(ctl, r, a, ns);
            c == ctl.(grid := c.grid, queue := c.queue, startCounter := c.startCounter,
                      currTransforming := c.currTransforming, overflowHidden := c.overflowHidden)
    decreases |ns|
  {
    if |ns| > 0 {
      var c1 := FlipNeighborToFront(ctl, r, a, ns[0]);
      RestoreNeighborsFrame(c1, r, a, ns[1..]);
      RestoreFrameStep(ctl, c1, RestoreNeighbors(c1, r, a, ns[1..]), r, a, ns[0]);
    }
  }

  /** The closing loop starts one flip per neighbour, the counter stopping at
      `pieces_per_row`. */
  lemma {:induction false} RestoreNeighborsStarts(ctl: Controller, r: int, a: int, ns: seq<int>)
    requires InRow(ctl.grid, r, ns)
    requires 0 <= ctl.startCounter <= ctl.config.piecesPerRow
    ensures RestoreNeighbors(ctl, r, a, ns).startCounter == Min(ctl.config.piecesPerRow, ctl.startCounter + |ns|)
    decreases |ns|
  {
    if |ns| > 0 {
      var c1 := FlipNeighborToFront(ctl, r, a, ns[0]);
      RestoreNeighborsStarts(c1, r, a, ns[1..]);
      StartsStep(ctl, StartTracker(ctl), RestoreNeighbors(c1, r, a, ns[1..]).startCounter, |ns| - 1);
    }
  }

  /** The first start of a batch in the closing loop locks the grid and hides
      the page's overflow; later starts leave both as they are. */
  lemma {:induction false} RestoreNeighborsLock(ctl: Controller, r: int, a: int, ns: seq<int>)
    requires InRow(ctl.grid, r, ns)
    requires 0 <= ctl.startCounter
    ensures var c := RestoreNeighbors(ctl, r, a, ns);
            && (c.currTransforming <==> ctl.currTransforming || (ctl.startCounter == 0 && |ns| > 0))
            && (c.overflowHidden <==> ctl.overflowHidden || (ctl.startCounter == 0 && |ns| > 0))
    decreases |ns|
  {
    if |ns| > 0 {
      var c1 := FlipNeighborToFront(ctl, r, a, ns[0]);
      RestoreNeighborsLock(c1, r, a, ns[1..]);
      RestoreLockStep(ctl, c1, RestoreNeighbors(c1, r, a, ns[1..]), r, a, ns[0], |ns| - 1);
    }
  }

  /** The closing loop turns every listed neighbour back at once. */
  lemma {:induction false} RestoreNeighborsGrid(ctl: Controller, r: int, a: int, ns: seq<int>)
    requires InRow(ctl.grid, r, ns)
    ensures RestoreNeighbors(ctl, r, a, ns).grid == UpdateTiles(ctl.grid, r, ns, RestoreStep)
    decreases |ns|
  {
    if |ns| > 0 {
      var c1 := FlipNeighborToFront(ctl, r, a, ns[0]);
      RestoreNeighborsGrid(c1, r, a, ns[1..]);
    }
  }

  lemma RestoreQueueStep(ctl: Controller, c1: Controller, r: int, a: int, ns: seq<int>, tail: seq<Timer>)
    requires InRow(ctl.grid, r, ns) && |ns| > 0
    requires c1 == FlipNeighborToFront(ctl, r, a, ns[0])
    requires tail == RestoreTimers(r, a, ns[1..], c1.now + c1.config.transitionTime)
    ensures c1.queue + tail == ctl.queue + RestoreTimers(r, a, ns, ctl.now + ctl.config.transitionTime)
  {
    var due := ctl.now + ctl.config.transitionTime;
    var ts := [Timer(due, ClearTransforming(r, ns[0])), Timer(due, RestoreNeighborDone(r, a, ns[0]))];
    assert c1.now == ctl.now && c1.config == ctl.config && c1.queue == ctl.queue + ts;
    AppendAssoc(ctl.queue, ts, tail);
  }

  /** The closing loop registers, per neighbour in slot order, the end of
      its flip and the hiding of its neighbour image. */
  lemma {:induction false} RestoreNeighborsQueue(ctl: Controller, r: int, a: int, ns: seq<int>)
    requires InRow(ctl.grid, r, ns)
    ensures RestoreNeighbors(ctl, r, a, ns).queue
              == ctl.queue + RestoreTimers(r, a, ns, ctl.now + ctl.config.transitionTime)
    decreases |ns|
  {
    if |ns| > 0 {
      var c1 := FlipNeighborToFront(ctl, r, a, ns[0]);
      RestoreNeighborsQueue(c1, r, a, ns[1..]);
      RestoreQueueStep(ctl, c1, r, a, ns, RestoreTimers(r, a, ns[1..], c1.now + c1.config.transitionTime));
    }
  }

  // ---------------------------------------------------------------------------
  // showMoreToggle and the scroll guard
  // ---------------------------------------------------------------------------

  /** What the controller relies on about its surroundings: the provider's
      configuration, rows of exactly `pieces_per_row` tiles (the factory
      builds only full rows), and an open piece that is a tile of the grid. */
  predicate Shaped(ctl: Controller) {
    && Derived(ctl.config) && 1 <= ctl.config.piecesPerRow
    && (forall i :: 0 <= i < |ctl.grid| ==> |ctl.grid[i].slots| == ctl.config.piecesPerRow)
    && (ctl.active.Some? ==> ValidTile(ctl.grid, ctl.active.value.row, ctl.active.value.piece))
  }

  /** The opening branch of `showMoreToggle`: record the open piece, flip it
      to its description, start the neighbours' reveals and fade every other
      row. */
  function Open(ctl: Controller, r: int, a: int, pageY: int): Controller
    requires ValidTile(ctl.grid, r, a)
  {
    var c1 := ctl.(active := Some(Pos(r, a)), grid := SetRowActive(ctl.grid, r, true), activeScrollPos := pageY);
    var c2 := FlipActiveToBack(c1, r, a);
    var c3 := RevealNeighbors(c2, r, a, Others(a, 0, ctl.config.piecesPerRowZero));
    c3.(grid := SetFade(c3.grid, r, true))
  }

  /** The closing branch of `showMoreToggle`: turn the neighbours back, start
      the open piece's flip back, unfade the other rows, and forget the open
      piece once every flip is over. */
  function Close(ctl: Controller): Controller
    requires Shaped(ctl) && ctl.active.Some?
  {
    var r := ctl.active.value.row;
    var a := ctl.active.value.piece;
    OthersInRow(ctl.grid, r, a, ctl.config.piecesPerRowZero);
    var c1 := RestoreNeighbors(ctl, r, a, Others(a, 0, ctl.config.piecesPerRowZero));
    var c2 := FlipActiveToFront(c1, r, a);
    After(c2.(grid := SetFade(c2.grid, r, false)), ctl.config.transitionTimeFull, CloseReset)
  }

  /** `showMoreToggle(event, origin_row, origin_piece, origin_close_button)`.
      Nothing happens while a flip is in progress, nor when the open piece
      itself is clicked. */
  function ShowMoreToggle(ctl: Controller, row: int, piece: int, closeButton: bool, pageY: int): (c: Controller)
    requires Shaped(ctl)
    requires !ctl.currTransforming && ctl.active.None? ==> ValidTile(ctl.grid, row, piece)
    ensures ctl.currTransforming ==> c == ctl
    ensures ctl.active.Some? && !closeButton && ctl.active.value == Pos(row, piece) ==> c == ctl
  {
    if ctl.currTransforming then ctl
    else if ctl.active.None? then Open(ctl, row, piece, pageY)
    else if closeButton || row != ctl.active.value.row || piece != ctl.active.value.piece then Close(ctl)
    else ctl
  }

  function Abs(x: int): int {
    if x < 0 then -x else x
  }

  /** One tick of `scrollToggleBind`'s interval, `pageY` being the page's
      scroll offset at that moment: an open piece is closed once the page has
      scrolled more than the threshold away from where it was opened, and
      forced closes are then suppressed for a whole flip cycle. */
  function ScrollCheck(ctl: Controller, pageY: int): (c: Controller)
    requires Shaped(ctl)
    ensures ctl.active.None? || ctl.scrollTimeout || ctl.currTransforming ==> c == ctl
    ensures Abs(pageY - ctl.activeScrollPos) <= ScrollThreshold ==> c == ctl
  {
    if ctl.active.Some? && !ctl.scrollTimeout && !ctl.currTransforming
       && Abs(pageY - ctl.activeScrollPos) > ScrollThreshold
    then
      var p := ctl.active.value;
      After(ShowMoreToggle(ctl.(scrollTimeout := true), p.row, p.piece, true, pageY),
            ctl.config.transitionTimeFull, ScrollTimeoutEnd)
    else ctl
  }

  // ---------------------------------------------------------------------------
  // Firing timers
  // ---------------------------------------------------------------------------

  /** The callback of a due timer. A callback whose tile does not exist
      throws on its first statement, so it changes nothing (and its promise
      never resolves). */
  function Apply(ctl: Controller, action: Action): Controller {
    match action
    case ClearTransforming(r, p) =>
      if ValidTile(ctl.grid, r, p)
      then ctl.(grid := SetTile(ctl.grid, r, p, Tile(ctl.grid, r, p).(transforming := false)))
      else ctl
    case FlipDone => CompleteTracker(ctl)
    case RevealNeighbor(r, a, p) =>
      if ValidTile(ctl.grid, r, p) then
        var t := HideBack(Tile(ctl.grid, r, p), a, false).(descriptionActive := false, notFlippable := true);
        After(TransformingClassToggle(ctl.(grid := SetTile(ctl.grid, r, p, t)), r, p),
              ctl.config.transitionTime, FlipDone)
      else ctl
    case RestoreNeighborDone(r, a, p) =>
      if ValidTile(ctl.grid, r, p)
      then CompleteTracker(ctl.(grid := SetTile(ctl.grid, r, p, HideBack(Tile(ctl.grid, r, p), a, true))))
      else ctl
    case TurnActiveToFront(r, p) =>
      if ValidTile(ctl.grid, r, p)
      then After(TransformingClassToggle(ctl, r, p), ctl.config.transitionTime, ActiveFrontDone(r, p))
      else ctl
    case ActiveFrontDone(r, p) =>
      if ValidTile(ctl.grid, r, p) then
        var t := Tile(ctl.grid, r, p).(showMoreActive := false, descriptionActive := false);
        CompleteTracker(ctl.(grid := SetTile(ctl.grid, r, p, t)))
      else ctl
    case CloseReset =>
      if ctl.active.Some? && 0 <= ctl.active.value.row < |ctl.grid|
      then ctl.(grid := SetRowActive(ctl.grid, ctl.active.value.row, false), active := None)
      else ctl
    case Settle =>
      ctl.(startCounter := 0, completeCounter := 0, currTransforming := false, overflowHidden := false)
    case ScrollTimeoutEnd => ctl.(scrollTimeout := false)
  }

  /** The timer that fires next: the first of those with the earliest due
      time, as the browser runs timers of equal delay in the order they were
      set. */
  function Earliest(q: seq<Timer>): (i: nat)
    requires |q| > 0
    ensures i < |q|
    ensures forall j :: 0 <= j < |q| ==> q[i].due <= q[j].due
    ensures forall j :: 0 <= j < i ==> q[i].due < q[j].due
  {
    if |q| == 1 then 0
    else
      var k := Earliest(q[1..]);
      if q[0].due <= q[k + 1].due then 0 else k + 1
  }

  /** Run the next timer: the clock moves to its due time, it leaves the
      queue, and its callback runs. */
  function Fire(ctl: Controller): Controller
    requires |ctl.queue| > 0
  {
    Apply(Popped(ctl), ctl.queue[Earliest(ctl.queue)].action)
  }

  /** The controller as the next timer's callback finds it: the clock at the
      timer's due time and the timer gone from the queue. */
  function Popped(ctl: Controller): Controller
    requires |ctl.queue| > 0
  {
    var i := Earliest(ctl.queue);
    ctl.(now := Max(ctl.now, ctl.queue[i].due), queue := ctl.queue[..i] + ctl.queue[i + 1..])
  }

  /** Fire up to `n` timers, stopping early when none is left. */
  function Run(ctl: Controller, n: nat): Controller
    decreases n
  {
    if n == 0 || |ctl.queue| == 0 then ctl else Run(Fire(ctl), n - 1)
  }

  /** Time passes without any timer falling due. */
  function Advance(ctl: Controller, t: int): (c: Controller)
    requires ctl.now <= t
    requires forall j :: 0 <= j < |ctl.queue| ==> t <= ctl.queue[j].due
    ensures c.now == t && c == ctl.(now := c.now)
  {
    ctl.(now := t)
  }
}
