/** What one click, one scroll check and one timer do to the desktop
    controller. */
module FlipProps {
  import opened Wrappers
  import opened AppConfig
  import opened Rows
  import opened Flip

  // ---------------------------------------------------------------------------
  // Opening
  // ---------------------------------------------------------------------------

  /** A click while nothing is open and nothing flips: the clicked tile turns
      over to its description at once, the rest of its row is untouched for
      now, and every tile of every other row is faded and locked. */
  lemma ToggleOpensGrid(ctl: Controller, row: int, piece: int, closeButton: bool, pageY: int)
    requires Shaped(ctl) && !ctl.currTransforming && ctl.active.None?
    requires ValidTile(ctl.grid, row, piece)
    ensures var g := ctl.grid;
            var h := ShowMoreToggle(ctl, row, piece, closeButton, pageY).grid;
            && SameShape(g, h) && h[row].activeRow
            && (forall i :: 0 <= i < |g| && i != row ==> h[i].activeRow == g[i].activeRow)
            && Tile(h, row, piece) == Flipped(Tile(g, row, piece).(showMoreActive := true, descriptionActive := true))
            && (forall q :: ValidTile(g, row, q) && q != piece ==> Tile(h, row, q) == Tile(g, row, q))
            && (forall i, q :: ValidTile(g, i, q) && i != row ==> Tile(h, i, q) == Faded(Tile(g, i, q), true))
  {
    var c1 := ctl.(active := Some(Pos(row, piece)), grid := SetRowActive(ctl.grid, row, true), activeScrollPos := pageY);
    var c2 := FlipActiveToBack(c1, row, piece);
    var ns := Others(piece, 0, ctl.config.piecesPerRowZero);
    RevealNeighborsFrame(c2, row, piece, ns);
  }

  /** The same click records the open piece and the scroll offset, starts
      exactly `pieces_per_row` flips (the piece and each of its neighbours),
      which locks the grid, and registers the piece's flip end and, after
      the padding, one reveal per neighbour in slot order. */
  lemma ToggleOpensState(ctl: Controller, row: int, piece: int, closeButton: bool, pageY: int)
    requires Shaped(ctl) && !ctl.currTransforming && ctl.active.None? && ctl.startCounter == 0
    requires ValidTile(ctl.grid, row, piece)
    ensures var c := ShowMoreToggle(ctl, row, piece, closeButton, pageY);
            var tt := ctl.config.transitionTime;
            && c.active == Some(Pos(row, piece)) && c.activeScrollPos == pageY
            && c.startCounter == ctl.config.piecesPerRow && c.completeCounter == ctl.completeCounter
            && c.currTransforming && c.overflowHidden
            && c.config == ctl.config && c.now == ctl.now && c.scrollTimeout == ctl.scrollTimeout
            && c.queue == ctl.queue + [Timer(ctl.now + tt, ClearTransforming(row, piece)), Timer(ctl.now + tt, FlipDone)]
                          + RevealTimers(row, piece, Others(piece, 0, ctl.config.piecesPerRowZero),
                                         ctl.now + ctl.config.transitionTimePadding)
  {
    var c1 := ctl.(active := Some(Pos(row, piece)), grid := SetRowActive(ctl.grid, row, true), activeScrollPos := pageY);
    var c2 := FlipActiveToBack(c1, row, piece);
    var ns := Others(piece, 0, ctl.config.piecesPerRowZero);
    var c3 := RevealNeighbors(c2, row, piece, ns);
    assert ShowMoreToggle(ctl, row, piece, closeButton, pageY) == c3.(grid := SetFade(c3.grid, row, true));
    OthersCount(piece, ctl.config.piecesPerRowZero);
    assert |ns| == ctl.config.piecesPerRow - 1;
    assert c2.startCounter == 1 && c2.currTransforming && c2.overflowHidden;
    assert c2.config == ctl.config && c2.now == ctl.now;
    RevealNeighborsFrame(c2, row, piece, ns);
    RevealNeighborsStarts(c2, row, piece, ns);
    RevealNeighborsLock(c2, row, piece, ns);
    RevealNeighborsQueue(c2, row, piece, ns);
    var c := ShowMoreToggle(ctl, row, piece, closeButton, pageY);
    var tt := ctl.config.transitionTime;
    assert c.active == Some(Pos(row, piece));
    assert c.activeScrollPos == pageY;
    assert c.startCounter == ctl.config.piecesPerRow;
    assert c.completeCounter == ctl.completeCounter;
    assert c.currTransforming && c.overflowHidden;
    assert c.config == ctl.config && c.now == ctl.now && c.scrollTimeout == ctl.scrollTimeout;
    assert c.queue == ctl.queue + [Timer(ctl.now + tt, ClearTransforming(row, piece)), Timer(ctl.now + tt, FlipDone)]
                          + RevealTimers(row, piece, Others(piece, 0, ctl.config.piecesPerRowZero),
                                         ctl.now + ctl.config.transitionTimePadding);
  }

  // ---------------------------------------------------------------------------
  // Closing
  // ---------------------------------------------------------------------------

  /** A click that closes (the close button, another row or another piece)
      runs the closing branch. */
  lemma ToggleIsClose(ctl: Controller, row: int, piece: int, closeButton: bool, pageY: int)
    requires Shaped(ctl) && !ctl.currTransforming && ctl.active.Some?
    requires closeButton || ctl.active.value != Pos(row, piece)
    ensures ShowMoreToggle(ctl, row, piece, closeButton, pageY) == Close(ctl)
  {
  }

  /** The closing branch's grid: the neighbours turned back, the other rows
      unfaded. */
  lemma CloseGrid(ctl: Controller)
    requires Shaped(ctl) && ctl.active.Some?
    ensures var r := ctl.active.value.row;
            var a := ctl.active.value.piece;
            var ns := Others(a, 0, ctl.config.piecesPerRowZero);
            && InRow(ctl.grid, r, ns)
            && Close(ctl).grid == SetFade(UpdateTiles(ctl.grid, r, ns, RestoreStep), r, false)
  {
    var r := ctl.active.value.row;
    var a := ctl.active.value.piece;
    var ns := Others(a, 0, ctl.config.piecesPerRowZero);
    OthersInRow(ctl.grid, r, a, ctl.config.piecesPerRowZero);
    RestoreNeighborsGrid(ctl, r, a, ns);
  }

  /** The neighbours of `a` in row `r` updated by `s`, the other rows
      faded or unfaded by `v`, tile by tile. */
  lemma NeighborsAndFade(g: seq<RowToggles>, r: int, a: int, last: int, s: TileStep, v: bool)
    requires 0 <= r < |g| && last + 1 == |g[r].slots|
    ensures var ns := Others(a, 0, last);
            var h := SetFade(UpdateTiles(g, r, ns, s), r, v);
            && SameShape(g, h) && SameRowFlags(g, h)
            && (ValidTile(g, r, a) ==> Tile(h, r, a) == Tile(g, r, a))
            && (forall q :: ValidTile(g, r, q) && q != a ==> Tile(h, r, q) == ApplyStep(s, Tile(g, r, q)))
            && (forall i, q :: ValidTile(g, i, q) && i != r ==> Tile(h, i, q) == Faded(Tile(g, i, q), v))
  {
    var ns := Others(a, 0, last);
    OthersSpec(a, 0, last);
    UpdateTilesSpec(g, r, ns, s);
    forall q | ValidTile(g, r, q) && q != a
      ensures q in ns
    {
    }
  }

  /** The closing branch's grid, tile by tile. */
  lemma CloseTiles(ctl: Controller)
    requires Shaped(ctl) && ctl.active.Some?
    ensures var g := ctl.grid;
            var h := Close(ctl).grid;
            var r := ctl.active.value.row;
            var a := ctl.active.value.piece;
            && SameShape(g, h) && SameRowFlags(g, h)
            && Tile(h, r, a) == Tile(g, r, a)
            && (forall q :: ValidTile(g, r, q) && q != a ==> Tile(h, r, q) == Restored(Tile(g, r, q)))
            && (forall i, q :: ValidTile(g, i, q) && i != r ==> Tile(h, i, q) == Faded(Tile(g, i, q), false))
  {
    CloseGrid(ctl);
    NeighborsAndFade(ctl.grid, ctl.active.value.row, ctl.active.value.piece, ctl.config.piecesPerRowZero, RestoreStep, false);
  }

  /** A click that closes (the close button, another row or another piece):
      the neighbours turn back at once, the open piece waits, and the other
      rows are unfaded and unlocked; the row keeps its `active_row` flag. */
  lemma ToggleClosesGrid(ctl: Controller, row: int, piece: int, closeButton: bool, pageY: int)
    requires Shaped(ctl) && !ctl.currTransforming && ctl.active.Some?
    requires closeButton || ctl.active.value != Pos(row, piece)
    ensures var g := ctl.grid;
            var h := ShowMoreToggle(ctl, row, piece, closeButton, pageY).grid;
            var r := ctl.active.value.row;
            var a := ctl.active.value.piece;
            && SameShape(g, h) && SameRowFlags(g, h)
            && Tile(h, r, a) == Tile(g, r, a)
            && (forall q :: ValidTile(g, r, q) && q != a ==> Tile(h, r, q) == Restored(Tile(g, r, q)))
            && (forall i, q :: ValidTile(g, i, q) && i != r ==> Tile(h, i, q) == Faded(Tile(g, i, q), false))
  {
    ToggleIsClose(ctl, row, piece, closeButton, pageY);
    CloseTiles(ctl);
  }

  /** The closing branch is the closing loop followed by the open piece's
      flip back, the unfading and the reset timer. */
  lemma CloseUnfold(ctl: Controller)
    requires Shaped(ctl) && ctl.active.Some?
    ensures var r := ctl.active.value.row;
            var a := ctl.active.value.piece;
            var ns := Others(a, 0, ctl.config.piecesPerRowZero);
            && InRow(ctl.grid, r, ns)
            && var c2 := FlipActiveToFront(RestoreNeighbors(ctl, r, a, ns), r, a);
            Close(ctl) == After(c2.(grid := SetFade(c2.grid, r, false)), ctl.config.transitionTimeFull, CloseReset)
  {
    OthersInRow(ctl.grid, ctl.active.value.row, ctl.active.value.piece, ctl.config.piecesPerRowZero);
  }

  /** What the closing branch does after its loop, from the loop's result `c1`. */
  lemma CloseTail(ctl: Controller, c1: Controller, r: int, a: int, k: nat)
    requires 1 <= ctl.config.piecesPerRow && k == ctl.config.piecesPerRow - 1 && ctl.startCounter == 0
    requires c1 == ctl.(grid := c1.grid, queue := c1.queue, startCounter := c1.startCounter,
                        currTransforming := c1.currTransforming, overflowHidden := c1.overflowHidden)
    requires c1.startCounter == k
    requires c1.currTransforming <==> ctl.currTransforming || k > 0
    requires c1.overflowHidden <==> ctl.overflowHidden || k > 0
    ensures var c2 := FlipActiveToFront(c1, r, a);
            var c := After(c2.(grid := SetFade(c2.grid, r, false)), ctl.config.transitionTimeFull, CloseReset);
            && c.active == ctl.active && c.activeScrollPos == ctl.activeScrollPos
            && c.startCounter == ctl.config.piecesPerRow && c.completeCounter == ctl.completeCounter
            && c.currTransforming && c.overflowHidden
            && c.config == ctl.config && c.now == ctl.now && c.scrollTimeout == ctl.scrollTimeout
            && c.queue == c1.queue + [Timer(ctl.now + ctl.config.transitionTimePadding, TurnActiveToFront(r, a)),
                                      Timer(ctl.now + ctl.config.transitionTimeFull, CloseReset)]
  {
  }

  /** The closing branch's variables and timers. */
  lemma CloseState(ctl: Controller)
    requires Shaped(ctl) && ctl.active.Some? && ctl.startCounter == 0
    ensures var c := Close(ctl);
            var r := ctl.active.value.row;
            var a := ctl.active.value.piece;
            && c.active == ctl.active && c.activeScrollPos == ctl.activeScrollPos
            && c.startCounter == ctl.config.piecesPerRow && c.completeCounter == ctl.completeCounter
            && c.currTransforming && c.overflowHidden
            && c.config == ctl.config && c.now == ctl.now && c.scrollTimeout == ctl.scrollTimeout
            && c.queue == ctl.queue
                          + RestoreTimers(r, a, Others(a, 0, ctl.config.piecesPerRowZero), ctl.now + ctl.config.transitionTime)
                          + [Timer(ctl.now + ctl.config.transitionTimePadding, TurnActiveToFront(r, a)),
                             Timer(ctl.now + ctl.config.transitionTimeFull, CloseReset)]
  {
    var r := ctl.active.value.row;
    var a := ctl.active.value.piece;
    var ns := Others(a, 0, ctl.config.piecesPerRowZero);
    CloseUnfold(ctl);
    OthersCount(a, ctl.config.piecesPerRowZero);
    var c1 := RestoreNeighbors(ctl, r, a, ns);
    RestoreNeighborsFrame(ctl, r, a, ns);
    RestoreNeighborsStarts(ctl, r, a, ns);
    RestoreNeighborsLock(ctl, r, a, ns);
    RestoreNeighborsQueue(ctl, r, a, ns);
    CloseTail(ctl, c1, r, a, |ns|);
  }

  /** The same click starts exactly `pieces_per_row` flips, which locks the
      grid, and registers per neighbour the end of its flip and the hiding
      of its neighbour image, then the open piece's flip back after the
      padding and the reset of the open piece after a whole cycle. */
  lemma ToggleClosesState(ctl: Controller, row: int, piece: int, closeButton: bool, pageY: int)
    requires Shaped(ctl) && !ctl.currTransforming && ctl.active.Some? && ctl.startCounter == 0
    requires closeButton || ctl.active.value != Pos(row, piece)
    ensures var c := ShowMoreToggle(ctl, row, piece, closeButton, pageY);
            var r := ctl.active.value.row;
            var a := ctl.active.value.piece;
            && c.active == ctl.active && c.activeScrollPos == ctl.activeScrollPos
            && c.startCounter == ctl.config.piecesPerRow && c.completeCounter == ctl.completeCounter
            && c.currTransforming && c.overflowHidden
            && c.config == ctl.config && c.now == ctl.now && c.scrollTimeout == ctl.scrollTimeout
            && c.queue == ctl.queue
                          + RestoreTimers(r, a, Others(a, 0, ctl.config.piecesPerRowZero), ctl.now + ctl.config.transitionTime)
                          + [Timer(ctl.now + ctl.config.transitionTimePadding, TurnActiveToFront(r, a)),
                             Timer(ctl.now + ctl.config.transitionTimeFull, CloseReset)]
  {
    ToggleIsClose(ctl, row, piece, closeButton, pageY);
    CloseState(ctl);
  }

  // ---------------------------------------------------------------------------
  // The scroll guard
  // ---------------------------------------------------------------------------

  /** Scrolling more than the threshold away from where the piece was opened,
      while nothing flips and no forced close is pending, closes the piece
      as the close button would, and suppresses further forced closes until
      a timer a whole flip cycle later lifts the suppression. */
  lemma ScrollCloses(ctl: Controller, pageY: int)
    requires Shaped(ctl) && ctl.active.Some? && !ctl.scrollTimeout && !ctl.currTransforming
    requires ctl.startCounter == 0
    requires Abs(pageY - ctl.activeScrollPos) > ScrollThreshold
    ensures var c := ScrollCheck(ctl, pageY);
            var closed := Close(ctl.(scrollTimeout := true));
            && c.scrollTimeout
            && c == closed.(queue := c.queue)
            && c.queue == closed.queue + [Timer(ctl.now + ctl.config.transitionTimeFull, ScrollTimeoutEnd)]
            && c.active == ctl.active && c.currTransforming
            && c.startCounter == ctl.config.piecesPerRow
  {
    var p := ctl.active.value;
    ToggleIsClose(ctl.(scrollTimeout := true), p.row, p.piece, true, pageY);
    CloseState(ctl.(scrollTimeout := true));
  }
}
