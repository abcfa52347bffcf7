/** Whole open and close cycles: with no other input, the timers of an
    opening (or closing) click fire in a fixed order, and the controller
    ends in a state that can be written down. Opening a piece and closing
    it again puts a resting grid back as it was. */
module FlipCycles {
  import opened Wrappers
  import opened AppConfig
  import opened Rows
  import opened Flip
  import opened FlipProps
  import opened FlipRuns

  // ---------------------------------------------------------------------------
  // The opening cycle
  // ---------------------------------------------------------------------------

  /** The grid once an opening's timers have all fired: the open piece's
      flip ended, then each neighbour revealed and its flip ended. */
  function OpenedGrid(g: seq<RowToggles>, r: int, a: int, ns: seq<int>): seq<RowToggles> {
    UpdateTiles(UpdateTiles(UpdateTiles(g, r, [a], ClearStep), r, ns, RevealStep(a)), r, ns, ClearStep)
  }

  /** What an opening click leaves to the timers. */
  predicate OpenPending(c: Controller, r: int, a: int, ns: seq<int>, t0: int) {
    && Derived(c.config) && 2 <= c.config.piecesPerRow && |ns| == c.config.piecesPerRow - 1
    && ValidTile(c.grid, r, a) && InRow(c.grid, r, ns)
    && c.now == t0 && c.completeCounter == 0
    && c.queue == PairTimers(r, a, [a], t0 + c.config.transitionTime, false)
                  + RevealTimers(r, a, ns, t0 + c.config.transitionTimePadding)
  }

  /** First the open piece's own flip ends and completes. */
  function OpenA(c: Controller, r: int, a: int, ns: seq<int>, t0: int): Controller {
    PairsAll(c, r, a, [a], RevealTimers(r, a, ns, t0 + c.config.transitionTimePadding),
             t0 + c.config.transitionTime, false)
  }

  function OpenATrace(c: Controller, r: int, a: int, ns: seq<int>, t0: int): seq<Controller> {
    PairTrace(c, r, a, [a], RevealTimers(r, a, ns, t0 + c.config.transitionTimePadding),
              t0 + c.config.transitionTime, false)
  }

  lemma OpenStageA(c: Controller, r: int, a: int, ns: seq<int>, t0: int)
    requires OpenPending(c, r, a, ns, t0)
    ensures var xs := OpenATrace(c, r, a, ns, t0);
            && Chain(FiresAs, xs) && |xs| == 3 && xs[0] == c && Last(xs) == OpenA(c, r, a, ns, t0)
  {
    var post := RevealTimers(r, a, ns, t0 + c.config.transitionTimePadding);
    var e := t0 + c.config.transitionTime;
    OpenAReady(c, r, a, ns, t0);
    PairSteps(c, r, a, [a], post, e, false);
    PairTraceLast(c, r, a, [a], post, e, false);
  }

  lemma OpenAReady(c: Controller, r: int, a: int, ns: seq<int>, t0: int)
    requires OpenPending(c, r, a, ns, t0)
    ensures var post := RevealTimers(r, a, ns, t0 + c.config.transitionTimePadding);
            var e := t0 + c.config.transitionTime;
            && InRow(c.grid, r, [a]) && c.now <= e && DueFrom(post, e)
            && c.queue == PairTimers(r, a, [a], e, false) + post
            && c.completeCounter + |[a]| <= c.config.piecesPerRow
  {
    var d := t0 + c.config.transitionTimePadding;
    RevealTimersDue(r, a, ns, d);
    DueFromLater(RevealTimers(r, a, ns, d), d, t0 + c.config.transitionTime);
  }

  lemma OpenStageAState(c: Controller, r: int, a: int, ns: seq<int>, t0: int)
    requires OpenPending(c, r, a, ns, t0)
    ensures var c1 := OpenA(c, r, a, ns, t0);
            && c1 == c.(now := c1.now, grid := c1.grid, completeCounter := c1.completeCounter, queue := c1.queue)
            && c1.now == t0 + c.config.transitionTime && c1.completeCounter == 1
            && c1.grid == UpdateTiles(c.grid, r, [a], ClearStep)
            && c1.queue == RevealTimers(r, a, ns, t0 + c.config.transitionTimePadding) + []
  {
    var post := RevealTimers(r, a, ns, t0 + c.config.transitionTimePadding);
    var e := t0 + c.config.transitionTime;
    assert InRow(c.grid, r, [a]);
    PairsAllIs(c, r, a, [a], post, e, false);
    PairsAllQueue(c, r, a, [a], post, e, false);
  }

  /** Then every neighbour is revealed, in slot order. */
  lemma OpenStageB(c1: Controller, r: int, a: int, ns: seq<int>, d: int)
    requires InRow(c1.grid, r, ns) && c1.now <= d && 0 <= c1.config.transitionTime
    requires c1.queue == RevealTimers(r, a, ns, d) + []
    ensures var xs := RevealTrace(c1, r, a, ns, [], d);
            && Chain(FiresAs, xs) && |xs| == |ns| + 1 && xs[0] == c1 && Last(xs) == RevealAll(c1, r, a, ns, [], d)
    ensures var c2 := RevealAll(c1, r, a, ns, [], d);
            && c2 == c1.(now := c2.now, grid := c2.grid, queue := c2.queue)
            && c2.now == (if |ns| > 0 then d else c1.now)
            && c2.grid == UpdateTiles(c1.grid, r, ns, RevealStep(a))
            && c2.queue == [] + PairTimers(r, a, ns, d + c1.config.transitionTime, false)
  {
    RevealSteps(c1, r, a, ns, [], d);
    RevealTraceLast(c1, r, a, ns, [], d);
    RevealAllIs(c1, r, a, ns, [], d);
  }

  /** Then each neighbour's flip ends and completes; the last completion
      registers the unlock. */
  lemma OpenStageC(c2: Controller, r: int, a: int, ns: seq<int>, e: int)
    requires |ns| > 0 && InRow(c2.grid, r, ns) && c2.now <= e
    requires c2.completeCounter + |ns| == c2.config.piecesPerRow
    requires c2.queue == [] + PairTimers(r, a, ns, e, false)
    ensures var xs := PairTrace(c2, r, a, ns, [], e, false);
            && Chain(FiresAs, xs) && |xs| == 2 * |ns| + 1 && xs[0] == c2 && Last(xs) == PairsAll(c2, r, a, ns, [], e, false)
    ensures var c3 := PairsAll(c2, r, a, ns, [], e, false);
            && c3 == c2.(now := c3.now, grid := c3.grid, completeCounter := c3.completeCounter, queue := c3.queue)
            && c3.now == e && c3.completeCounter == c2.config.piecesPerRow
            && c3.grid == UpdateTiles(c2.grid, r, ns, ClearStep)
            && c3.queue == [Timer(e + SettleDelay, Settle)]
  {
    assert [] + PairTimers(r, a, ns, e, false) == PairTimers(r, a, ns, e, false) + [];
    PairSteps(c2, r, a, ns, [], e, false);
    PairTraceLast(c2, r, a, ns, [], e, false);
    PairsAllIs(c2, r, a, ns, [], e, false);
    PairsAllQueue(c2, r, a, ns, [], e, false);
  }

  /** The unlock: both counters back to zero, the grid and the page free. */
  function Settled(c: Controller, t: int): Controller {
    c.(now := t, queue := [], startCounter := 0, completeCounter := 0, currTransforming := false,
       overflowHidden := false)
  }

  lemma SettleFires(c: Controller, t: int)
    requires c.now <= t && c.queue == [Timer(t, Settle)]
    ensures FiresAs(c, Settled(c, t)) && Chain(FiresAs, [c, Settled(c, t)])
  {
    assert c.queue[1..] == [];
  }

  /** The opening's firings as one chain. */
  lemma OpenChains(c: Controller, r: int, a: int, ns: seq<int>, t0: int) returns (xs: seq<Controller>)
    requires OpenPending(c, r, a, ns, t0)
    ensures |xs| == 3 * c.config.piecesPerRow + 1 && Chain(FiresAs, xs) && xs[0] == c
    ensures Last(xs) == Settled(c.(grid := OpenedGrid(c.grid, r, a, ns)),
                                t0 + c.config.transitionTimePadding + c.config.transitionTime + SettleDelay)
  {
    var cfg := c.config;
    var d := t0 + cfg.transitionTimePadding;
    var e := d + cfg.transitionTime;
    OpenStageA(c, r, a, ns, t0);
    OpenStageAState(c, r, a, ns, t0);
    var c1 := OpenA(c, r, a, ns, t0);
    var xa := OpenATrace(c, r, a, ns, t0);
    InRowSameShape(c.grid, c1.grid, r, ns);
    OpenStageB(c1, r, a, ns, d);
    var c2 := RevealAll(c1, r, a, ns, [], d);
    var xb := RevealTrace(c1, r, a, ns, [], d);
    InRowSameShape(c1.grid, c2.grid, r, ns);
    OpenStageC(c2, r, a, ns, e);
    var c3 := PairsAll(c2, r, a, ns, [], e, false);
    var xc := PairTrace(c2, r, a, ns, [], e, false);
    SettleFires(c3, e + SettleDelay);
    var c4 := Settled(c3, e + SettleDelay);
    OpenEnd(c, c1, c2, c3, r, a, ns, t0);
    ChainJoin(FiresAs, xa, xb);
    var xab := xa + xb[1..];
    ChainJoin(FiresAs, xab, xc);
    var xabc := xab + xc[1..];
    ChainJoin(FiresAs, xabc, [c3, c4]);
    xs := xabc + [c3, c4][1..];
  }

  /** The whole run of an opening's timers: `3 * pieces_per_row` of them
      fire, and the controller ends unlocked with the piece open. */
  lemma OpenRun(c: Controller, r: int, a: int, ns: seq<int>, t0: int)
    requires OpenPending(c, r, a, ns, t0)
    ensures var cfg := c.config;
            Fires(c, 3 * cfg.piecesPerRow,
                  Settled(c.(grid := OpenedGrid(c.grid, r, a, ns)),
                          t0 + cfg.transitionTimePadding + cfg.transitionTime + SettleDelay))
  {
    var xs := OpenChains(c, r, a, ns, t0);
  }

  /** The state the opening's stages end in, field by field. */
  lemma OpenEnd(c: Controller, c1: Controller, c2: Controller, c3: Controller, r: int, a: int, ns: seq<int>, t0: int)
    requires c1 == c.(now := c1.now, grid := c1.grid, completeCounter := c1.completeCounter, queue := c1.queue)
    requires c1.grid == UpdateTiles(c.grid, r, [a], ClearStep)
    requires c2 == c1.(now := c2.now, grid := c2.grid, queue := c2.queue)
    requires c2.grid == UpdateTiles(c1.grid, r, ns, RevealStep(a))
    requires c3 == c2.(now := c3.now, grid := c3.grid, completeCounter := c3.completeCounter, queue := c3.queue)
    requires c3.grid == UpdateTiles(c2.grid, r, ns, ClearStep)
    ensures var t := t0 + c.config.transitionTimePadding + c.config.transitionTime + SettleDelay;
            Settled(c3, t) == Settled(c.(grid := OpenedGrid(c.grid, r, a, ns)), t)
  {
  }

  /** No piece open, no flip running, no timer pending. */
  predicate Idle(c: Controller) {
    && Shaped(c) && c.active.None? && !c.currTransforming && !c.overflowHidden
    && c.startCounter == 0 && c.completeCounter == 0 && c.queue == []
  }

  /** An opening click on an idle grid leaves exactly the opening's timers. */
  lemma OpenClick(ctl: Controller, r: int, a: int, closeButton: bool, pageY: int)
    requires Idle(ctl) && ValidTile(ctl.grid, r, a) && 2 <= ctl.config.piecesPerRow
    ensures var c := ShowMoreToggle(ctl, r, a, closeButton, pageY);
            OpenPending(c, r, a, Others(a, 0, ctl.config.piecesPerRowZero), ctl.now)
  {
    var c := ShowMoreToggle(ctl, r, a, closeButton, pageY);
    var ns := Others(a, 0, ctl.config.piecesPerRowZero);
    ToggleOpensGrid(ctl, r, a, closeButton, pageY);
    ToggleOpensState(ctl, r, a, closeButton, pageY);
    OthersInRow(ctl.grid, r, a, ctl.config.piecesPerRowZero);
    OthersCount(a, ctl.config.piecesPerRowZero);
    InRowSameShape(ctl.grid, c.grid, r, ns);
    var tt := ctl.config.transitionTime;
    assert PairTimers(r, a, [a], ctl.now + tt, false)
        == [Timer(ctl.now + tt, ClearTransforming(r, a)), Timer(ctl.now + tt, FlipDone)];
  }

  // ---------------------------------------------------------------------------
  // The closing cycle
  // ---------------------------------------------------------------------------

  /** What a closing click leaves to the timers, `t1` being its time. */
  predicate ClosePending(c: Controller, r: int, a: int, ns: seq<int>, t1: int) {
    && Derived(c.config) && 2 <= c.config.piecesPerRow && |ns| == c.config.piecesPerRow - 1
    && ValidTile(c.grid, r, a) && InRow(c.grid, r, ns) && a !in ns
    && c.active == Some(Pos(r, a))
    && c.now == t1 && c.completeCounter == 0
    && c.queue == PairTimers(r, a, ns, t1 + c.config.transitionTime, true)
                  + [Timer(t1 + c.config.transitionTimePadding, TurnActiveToFront(r, a)),
                     Timer(t1 + c.config.transitionTimeFull, CloseReset)]
  }

  function CloseTail(c: Controller, r: int, a: int, t1: int): seq<Timer> {
    [Timer(t1 + c.config.transitionTimePadding, TurnActiveToFront(r, a)),
     Timer(t1 + c.config.transitionTimeFull, CloseReset)]
  }

  /** First each neighbour's flip back ends and its neighbour image is hidden
      again; these completions fall one short of unlocking. */
  lemma CloseStageA(c: Controller, r: int, a: int, ns: seq<int>, t1: int)
    requires ClosePending(c, r, a, ns, t1)
    ensures var post := CloseTail(c, r, a, t1);
            var e := t1 + c.config.transitionTime;
            var xs := PairTrace(c, r, a, ns, post, e, true);
            && Chain(FiresAs, xs) && |xs| == 2 * |ns| + 1 && xs[0] == c && Last(xs) == PairsAll(c, r, a, ns, post, e, true)
    ensures var c1 := PairsAll(c, r, a, ns, CloseTail(c, r, a, t1), t1 + c.config.transitionTime, true);
            && c1 == c.(now := c1.now, grid := c1.grid, completeCounter := c1.completeCounter, queue := c1.queue)
            && c1.now == t1 + c.config.transitionTime && c1.completeCounter == c.config.piecesPerRow - 1
            && c1.grid == UpdateTiles(c.grid, r, ns, ClearHideStep(a))
            && c1.queue == CloseTail(c, r, a, t1)
  {
    var post := CloseTail(c, r, a, t1);
    var e := t1 + c.config.transitionTime;
    assert DueFrom(post, e);
    PairSteps(c, r, a, ns, post, e, true);
    PairTraceLast(c, r, a, ns, post, e, true);
    PairsAllIs(c, r, a, ns, post, e, true);
    PairsAllQueue(c, r, a, ns, post, e, true);
    assert post + [] == post;
  }

  /** The open piece's turn back starts after the padding. */
  function TurnNext(c: Controller, r: int, a: int, d: int, f: int): Controller
    requires ValidTile(c.grid, r, a)
  {
    var e := d + c.config.transitionTime;
    c.(now := d, grid := SetTile(c.grid, r, a, Flipped(Tile(c.grid, r, a))),
       queue := [Timer(f, CloseReset), Timer(e, ClearTransforming(r, a)), Timer(e, ActiveFrontDone(r, a))])
  }

  lemma TurnFires(c: Controller, r: int, a: int, d: int, f: int)
    requires ValidTile(c.grid, r, a) && c.now <= d <= f
    requires c.queue == [Timer(d, TurnActiveToFront(r, a)), Timer(f, CloseReset)]
    ensures FiresAs(c, TurnNext(c, r, a, d, f))
  {
    assert c.queue[1..] == [Timer(f, CloseReset)];
  }

  /** The reset: the row loses its active flag and no piece is open. */
  function ResetNext(c: Controller, r: int, a: int, f: int): Controller
    requires 0 <= r < |c.grid|
  {
    c.(now := f, grid := SetRowActive(c.grid, r, false), active := None,
       queue := [Timer(f, ClearTransforming(r, a)), Timer(f, ActiveFrontDone(r, a))])
  }

  lemma ResetFires(c: Controller, r: int, a: int, f: int)
    requires 0 <= r < |c.grid| && c.active == Some(Pos(r, a)) && c.now <= f
    requires c.queue == [Timer(f, CloseReset), Timer(f, ClearTransforming(r, a)), Timer(f, ActiveFrontDone(r, a))]
    ensures FiresAs(c, ResetNext(c, r, a, f))
  {
    assert c.queue[1..] == [Timer(f, ClearTransforming(r, a)), Timer(f, ActiveFrontDone(r, a))];
  }

  /** The open piece's flip back ends. */
  function ClearNext(c: Controller, r: int, a: int, f: int): Controller
    requires ValidTile(c.grid, r, a)
  {
    c.(now := f, grid := SetTile(c.grid, r, a, Tile(c.grid, r, a).(transforming := false)),
       queue := [Timer(f, ActiveFrontDone(r, a))])
  }

  lemma ClearFires(c: Controller, r: int, a: int, f: int)
    requires ValidTile(c.grid, r, a) && c.now <= f
    requires c.queue == [Timer(f, ClearTransforming(r, a)), Timer(f, ActiveFrontDone(r, a))]
    ensures FiresAs(c, ClearNext(c, r, a, f))
  {
    assert c.queue[1..] == [Timer(f, ActiveFrontDone(r, a))];
  }

  /** The open piece's description closes, and the last completion of the
      batch registers the unlock. */
  function DoneNext(c: Controller, r: int, a: int, f: int): Controller
    requires ValidTile(c.grid, r, a)
  {
    c.(now := f, grid := SetTile(c.grid, r, a, Tile(c.grid, r, a).(showMoreActive := false, descriptionActive := false)),
       completeCounter := c.completeCounter + 1, queue := [Timer(f + SettleDelay, Settle)])
  }

  lemma DoneFires(c: Controller, r: int, a: int, f: int)
    requires ValidTile(c.grid, r, a) && c.now <= f && c.completeCounter + 1 == c.config.piecesPerRow
    requires c.queue == [Timer(f, ActiveFrontDone(r, a))]
    ensures FiresAs(c, DoneNext(c, r, a, f))
  {
    assert c.queue[1..] == [];
  }

  lemma Chain6(x0: Controller, x1: Controller, x2: Controller, x3: Controller, x4: Controller, x5: Controller)
    requires FiresAs(x0, x1) && FiresAs(x1, x2) && FiresAs(x2, x3) && FiresAs(x3, x4) && FiresAs(x4, x5)
    ensures Chain(FiresAs, [x0, x1, x2, x3, x4, x5])
  {
  }

  /** The grid once a closing's timers have all fired: each neighbour's flip
      ended with its neighbour image hidden, then the open piece turned back,
      its row deactivated, its flip ended and its description closed. */
  function ClosedGrid(g: seq<RowToggles>, r: int, a: int, ns: seq<int>): seq<RowToggles>
    requires ValidTile(g, r, a)
  {
    var g1 := UpdateTiles(g, r, ns, ClearHideStep(a));
    var g2 := SetTile(g1, r, a, Flipped(Tile(g1, r, a)));
    var g3 := SetRowActive(g2, r, false);
    var g4 := SetTile(g3, r, a, Tile(g3, r, a).(transforming := false));
    SetTile(g4, r, a, Tile(g4, r, a).(showMoreActive := false, descriptionActive := false))
  }

  lemma CloseEnd(c: Controller, c1: Controller, r: int, a: int, ns: seq<int>, d: int, f: int)
    requires ValidTile(c.grid, r, a)
    requires c1 == c.(now := c1.now, grid := c1.grid, completeCounter := c1.completeCounter, queue := c1.queue)
    requires c1.grid == UpdateTiles(c.grid, r, ns, ClearHideStep(a))
    ensures var d1 := TurnNext(c1, r, a, d, f);
            var d2 := ResetNext(d1, r, a, f);
            var d3 := ClearNext(d2, r, a, f);
            var d4 := DoneNext(d3, r, a, f);
            Settled(d4, f + SettleDelay) == Settled(c.(grid := ClosedGrid(c.grid, r, a, ns), active := None), f + SettleDelay)
  {
  }

  lemma CloseChains(c: Controller, r: int, a: int, ns: seq<int>, t1: int) returns (xs: seq<Controller>)
    requires ClosePending(c, r, a, ns, t1)
    ensures |xs| == 2 * c.config.piecesPerRow + 4 && Chain(FiresAs, xs) && xs[0] == c
    ensures Last(xs) == Settled(c.(grid := ClosedGrid(c.grid, r, a, ns), active := None),
                                t1 + c.config.transitionTimeFull + SettleDelay)
  {
    var cfg := c.config;
    var d := t1 + cfg.transitionTimePadding;
    var f := t1 + cfg.transitionTimeFull;
    CloseStageA(c, r, a, ns, t1);
    var c1 := PairsAll(c, r, a, ns, CloseTail(c, r, a, t1), t1 + cfg.transitionTime, true);
    TurnFires(c1, r, a, d, f);
    var d1 := TurnNext(c1, r, a, d, f);
    ResetFires(d1, r, a, f);
    var d2 := ResetNext(d1, r, a, f);
    ClearFires(d2, r, a, f);
    var d3 := ClearNext(d2, r, a, f);
    DoneFires(d3, r, a, f);
    var d4 := DoneNext(d3, r, a, f);
    SettleFires(d4, f + SettleDelay);
    var d5 := Settled(d4, f + SettleDelay);
    Chain6(c1, d1, d2, d3, d4, d5);
    CloseEnd(c, c1, r, a, ns, d, f);
    var xa := PairTrace(c, r, a, ns, CloseTail(c, r, a, t1), t1 + cfg.transitionTime, true);
    var xb := [c1, d1, d2, d3, d4, d5];
    ChainJoin(FiresAs, xa, xb);
    xs := xa + xb[1..];
  }

  /** The whole run of a closing's timers: `2 * pieces_per_row + 3` of them
      fire, and the controller ends unlocked with no piece open. */
  lemma CloseRun(c: Controller, r: int, a: int, ns: seq<int>, t1: int)
    requires ClosePending(c, r, a, ns, t1)
    ensures var cfg := c.config;
            Fires(c, 2 * cfg.piecesPerRow + 3,
                  Settled(c.(grid := ClosedGrid(c.grid, r, a, ns), active := None),
                          t1 + cfg.transitionTimeFull + SettleDelay))
  {
    var xs := CloseChains(c, r, a, ns, t1);
  }

  /** A piece is open, every flip is over and no timer is pending. */
  predicate Opened(c: Controller, r: int, a: int) {
    && Shaped(c) && c.active == Some(Pos(r, a)) && !c.currTransforming && !c.overflowHidden
    && c.startCounter == 0 && c.completeCounter == 0 && c.queue == []
  }

  /** The controller right after a closing click on the open piece `a` of
      row `r`: the neighbours turned back, the other rows unfaded, every
      flip of the batch started, and the closing's timers pending. */
  function CloseClicked(o: Controller, r: int, a: int): Controller {
    var cfg := o.config;
    var ns := Others(a, 0, cfg.piecesPerRowZero);
    o.(grid := ClickClosedGrid(o.grid, r, a, cfg.piecesPerRowZero),
       startCounter := cfg.piecesPerRow, currTransforming := true, overflowHidden := true,
       queue := o.queue + RestoreTimers(r, a, ns, o.now + cfg.transitionTime)
                + [Timer(o.now + cfg.transitionTimePadding, TurnActiveToFront(r, a)),
                   Timer(o.now + cfg.transitionTimeFull, CloseReset)])
  }

  /** The grid right after a closing click: the neighbours turned back and
      the other rows unfaded. */
  function ClickClosedGrid(g: seq<RowToggles>, r: int, a: int, last: int): seq<RowToggles> {
    SetFade(UpdateTiles(g, r, Others(a, 0, last), RestoreStep), r, false)
  }

  /** The closing branch, on a settled open piece, is that click. */
  lemma CloseIs(o: Controller, r: int, a: int)
    requires Shaped(o) && o.active == Some(Pos(r, a)) && o.startCounter == 0
    ensures Close(o) == CloseClicked(o, r, a)
  {
    CloseState(o);
    CloseGrid(o);
  }

  /** A closing click on a settled open piece leaves exactly the closing's
      timers. */
  lemma CloseClick(o: Controller, r: int, a: int)
    requires Opened(o, r, a) && 2 <= o.config.piecesPerRow
    ensures ClosePending(CloseClicked(o, r, a), r, a, Others(a, 0, o.config.piecesPerRowZero), o.now)
  {
    CloseClickGrid(o, r, a);
    CloseClickQueue(o, r, a);
    OthersCount(a, o.config.piecesPerRowZero);
    OthersNotSelf(a, o.config.piecesPerRowZero);
  }

  lemma CloseClickGrid(o: Controller, r: int, a: int)
    requires Opened(o, r, a)
    ensures var c := CloseClicked(o, r, a);
            ValidTile(c.grid, r, a) && InRow(c.grid, r, Others(a, 0, o.config.piecesPerRowZero))
  {
    var last := o.config.piecesPerRowZero;
    ClosingShape(o.grid, r, a, last);
    OthersInRow(o.grid, r, a, last);
    InRowSameShape(o.grid, CloseClicked(o, r, a).grid, r, Others(a, 0, last));
  }

  lemma CloseClickQueue(o: Controller, r: int, a: int)
    requires o.queue == []
    ensures var cfg := o.config;
            CloseClicked(o, r, a).queue
              == PairTimers(r, a, Others(a, 0, cfg.piecesPerRowZero), o.now + cfg.transitionTime, true)
                 + [Timer(o.now + cfg.transitionTimePadding, TurnActiveToFront(r, a)),
                    Timer(o.now + cfg.transitionTimeFull, CloseReset)]
  {
    var ns := Others(a, 0, o.config.piecesPerRowZero);
    var rt := RestoreTimers(r, a, ns, o.now + o.config.transitionTime);
    RestoreTimersArePairs(r, a, ns, o.now + o.config.transitionTime);
    assert o.queue + rt == rt;
  }

  // ---------------------------------------------------------------------------
  // Whole cycles, tile by tile
  // ---------------------------------------------------------------------------

  /** `h` is `g` with piece `a` of row `r` open: the piece turned to its
      description, its neighbours turned to its images, the row active and
      every other row faded; no flip is running. */
  ghost predicate OpenedTiles(g: seq<RowToggles>, h: seq<RowToggles>, r: int, a: int) {
    && ValidTile(g, r, a) && SameShape(g, h) && h[r].activeRow
    && (forall i :: 0 <= i < |g| && i != r ==> h[i].activeRow == g[i].activeRow)
    && Tile(h, r, a) == Flipped(Tile(g, r, a).(showMoreActive := true, descriptionActive := true)).(transforming := false)
    && (forall q :: ValidTile(g, r, q) && q != a ==> Tile(h, r, q) == Revealed(Tile(g, r, q), a).(transforming := false))
    && (forall i, q :: ValidTile(g, i, q) && i != r ==> Tile(h, i, q) == Faded(Tile(g, i, q), true))
  }

  /** `ns` lists every slot of row `r` but `a`, once each. */
  ghost predicate NeighborList(g: seq<RowToggles>, r: int, a: int, ns: seq<int>) {
    && ValidTile(g, r, a) && InRow(g, r, ns) && a !in ns
    && (forall i, j :: 0 <= i < j < |ns| ==> ns[i] != ns[j])
    && (forall q :: ValidTile(g, r, q) && q != a ==> q in ns)
  }

  lemma NeighborListSameShape(g: seq<RowToggles>, h: seq<RowToggles>, r: int, a: int, ns: seq<int>)
    requires NeighborList(g, r, a, ns) && SameShape(g, h)
    ensures NeighborList(h, r, a, ns)
  {
  }

  lemma OthersNeighborList(g: seq<RowToggles>, r: int, a: int, last: int)
    requires ValidTile(g, r, a) && last + 1 == |g[r].slots|
    ensures NeighborList(g, r, a, Others(a, 0, last))
  {
    OthersSpec(a, 0, last);
  }

  /** One step over the neighbours leaves the piece and the other rows
      alone. */
  lemma NeighborsStep(g: seq<RowToggles>, r: int, a: int, ns: seq<int>, s: TileStep)
    requires NeighborList(g, r, a, ns)
    ensures var h := UpdateTiles(g, r, ns, s);
            && SameShape(g, h) && SameRowFlags(g, h) && Tile(h, r, a) == Tile(g, r, a)
            && (forall q :: ValidTile(g, r, q) && q != a ==> Tile(h, r, q) == ApplyStep(s, Tile(g, r, q)))
            && (forall i, q :: ValidTile(g, i, q) && i != r ==> Tile(h, i, q) == Tile(g, i, q))
  {
    UpdateTilesSpec(g, r, ns, s);
  }

  /** The opening's timers, tile by tile. */
  lemma OpenedGridTiles(g: seq<RowToggles>, r: int, a: int, ns: seq<int>)
    requires NeighborList(g, r, a, ns)
    ensures var h := OpenedGrid(g, r, a, ns);
            && SameShape(g, h) && SameRowFlags(g, h)
            && Tile(h, r, a) == Tile(g, r, a).(transforming := false)
            && (forall q :: ValidTile(g, r, q) && q != a ==> Tile(h, r, q) == Revealed(Tile(g, r, q), a).(transforming := false))
            && (forall i, q :: ValidTile(g, i, q) && i != r ==> Tile(h, i, q) == Tile(g, i, q))
  {
    var h1 := UpdateTiles(g, r, [a], ClearStep);
    UpdateTilesSpec(g, r, [a], ClearStep);
    NeighborListSameShape(g, h1, r, a, ns);
    var h2 := UpdateTiles(h1, r, ns, RevealStep(a));
    NeighborsStep(h1, r, a, ns, RevealStep(a));
    NeighborListSameShape(h1, h2, r, a, ns);
    NeighborsStep(h2, r, a, ns, ClearStep);
  }

  lemma OpenGridTiles(ctl: Controller, r: int, a: int, closeButton: bool, pageY: int)
    requires Idle(ctl) && ValidTile(ctl.grid, r, a)
    ensures var h := ShowMoreToggle(ctl, r, a, closeButton, pageY).grid;
            OpenedTiles(ctl.grid, OpenedGrid(h, r, a, Others(a, 0, ctl.config.piecesPerRowZero)), r, a)
  {
    var g := ctl.grid;
    var h := ShowMoreToggle(ctl, r, a, closeButton, pageY).grid;
    var ns := Others(a, 0, ctl.config.piecesPerRowZero);
    ToggleOpensGrid(ctl, r, a, closeButton, pageY);
    OthersNeighborList(g, r, a, ctl.config.piecesPerRowZero);
    NeighborListSameShape(g, h, r, a, ns);
    OpenedGridTiles(h, r, a, ns);
  }

  /** The controller once a piece of an idle grid is opened and every
      timer has fired. */
  function OpenedState(ctl: Controller, r: int, a: int, pageY: int): Controller
    requires ValidTile(ctl.grid, r, a)
  {
    var c := Open(ctl, r, a, pageY);
    Settled(c.(grid := OpenedGrid(c.grid, r, a, Others(a, 0, ctl.config.piecesPerRowZero))),
            ctl.now + ctl.config.transitionTimeFull + SettleDelay)
  }

  /** Opening a piece of an idle grid: after `3 * pieces_per_row` timers
      the controller is settled in the opened state. */
  lemma OpenCycle(ctl: Controller, r: int, a: int, closeButton: bool, pageY: int)
    requires Idle(ctl) && ValidTile(ctl.grid, r, a) && 2 <= ctl.config.piecesPerRow
    ensures Fires(ShowMoreToggle(ctl, r, a, closeButton, pageY), 3 * ctl.config.piecesPerRow,
                  OpenedState(ctl, r, a, pageY))
  {
    var c := ShowMoreToggle(ctl, r, a, closeButton, pageY);
    OpenClick(ctl, r, a, closeButton, pageY);
    OpenedStateEq(ctl, r, a, closeButton, pageY);
    OpenRun(c, r, a, Others(a, 0, ctl.config.piecesPerRowZero), ctl.now);
  }

  lemma OpenedStateEq(ctl: Controller, r: int, a: int, closeButton: bool, pageY: int)
    requires Idle(ctl) && ValidTile(ctl.grid, r, a)
    ensures var c := ShowMoreToggle(ctl, r, a, closeButton, pageY);
            var cfg := c.config;
            && cfg == ctl.config
            && Settled(c.(grid := OpenedGrid(c.grid, r, a, Others(a, 0, ctl.config.piecesPerRowZero))),
                    ctl.now + cfg.transitionTimePadding + cfg.transitionTime + SettleDelay)
              == OpenedState(ctl, r, a, pageY)
  {
    ToggleOpensState(ctl, r, a, closeButton, pageY);
  }

  /** The opened state: the piece is open, the grid shows it, and nothing
      else has changed but the clock and the remembered scroll offset. */
  lemma OpenedStateIs(ctl: Controller, r: int, a: int, pageY: int)
    requires Idle(ctl) && ValidTile(ctl.grid, r, a)
    ensures var o := OpenedState(ctl, r, a, pageY);
            && Opened(o, r, a) && OpenedTiles(ctl.grid, o.grid, r, a)
            && o == ctl.(grid := o.grid, active := Some(Pos(r, a)), activeScrollPos := pageY,
                         now := ctl.now + ctl.config.transitionTimeFull + SettleDelay)
  {
    ToggleOpensState(ctl, r, a, false, pageY);
    OpenGridTiles(ctl, r, a, false, pageY);
    ToggleOpensGrid(ctl, r, a, false, pageY);
  }

  /** `h` is `g` with the open piece `a` of row `r` closed again: the piece
      turned back with its description shut, its neighbours turned back with
      their neighbour images hidden, the row inactive and every other row
      unfaded; no flip is running. */
  ghost predicate ClosedTiles(g: seq<RowToggles>, h: seq<RowToggles>, r: int, a: int) {
    && ValidTile(g, r, a) && SameShape(g, h) && !h[r].activeRow
    && (forall i :: 0 <= i < |g| && i != r ==> h[i].activeRow == g[i].activeRow)
    && Tile(h, r, a) == Flipped(Tile(g, r, a)).(transforming := false, showMoreActive := false, descriptionActive := false)
    && (forall q :: ValidTile(g, r, q) && q != a ==> Tile(h, r, q) == HideBack(Restored(Tile(g, r, q)).(transforming := false), a, true))
    && (forall i, q :: ValidTile(g, i, q) && i != r ==> Tile(h, i, q) == Faded(Tile(g, i, q), false))
  }

  /** The closing's timers, tile by tile. */
  lemma ClosedGridTiles(g: seq<RowToggles>, r: int, a: int, ns: seq<int>)
    requires NeighborList(g, r, a, ns)
    ensures var h := ClosedGrid(g, r, a, ns);
            && SameShape(g, h) && !h[r].activeRow
            && (forall i :: 0 <= i < |g| && i != r ==> h[i].activeRow == g[i].activeRow)
            && Tile(h, r, a) == Flipped(Tile(g, r, a)).(transforming := false, showMoreActive := false, descriptionActive := false)
            && (forall q :: ValidTile(g, r, q) && q != a ==> Tile(h, r, q) == ApplyStep(ClearHideStep(a), Tile(g, r, q)))
            && (forall i, q :: ValidTile(g, i, q) && i != r ==> Tile(h, i, q) == Tile(g, i, q))
  {
    NeighborsStep(g, r, a, ns, ClearHideStep(a));
  }

  /** The closing click and the closing's timers, tile by tile. */
  lemma ClosingTiles(g: seq<RowToggles>, r: int, a: int, last: int)
    requires ValidTile(g, r, a) && last + 1 == |g[r].slots|
    ensures var h := ClickClosedGrid(g, r, a, last);
            && ValidTile(h, r, a)
            && ClosedTiles(g, ClosedGrid(h, r, a, Others(a, 0, last)), r, a)
  {
    var ns := Others(a, 0, last);
    var h := ClickClosedGrid(g, r, a, last);
    NeighborsAndFade(g, r, a, last, RestoreStep, false);
    OthersNeighborList(g, r, a, last);
    NeighborListSameShape(g, h, r, a, ns);
    ClosedGridTiles(h, r, a, ns);
  }

  /** The closing keeps the grid's shape. */
  lemma ClosingShape(g: seq<RowToggles>, r: int, a: int, last: int)
    requires ValidTile(g, r, a) && last + 1 == |g[r].slots|
    ensures var h := ClickClosedGrid(g, r, a, last);
            && ValidTile(h, r, a) && SameShape(g, h)
            && SameShape(g, ClosedGrid(h, r, a, Others(a, 0, last)))
  {
    var ns := Others(a, 0, last);
    var h := ClickClosedGrid(g, r, a, last);
    NeighborsAndFade(g, r, a, last, RestoreStep, false);
    OthersNeighborList(g, r, a, last);
    NeighborListSameShape(g, h, r, a, ns);
    ClosedGridTiles(h, r, a, ns);
  }

  /** The controller once the open piece is closed and every timer has
      fired. */
  function ClosedState(o: Controller, r: int, a: int): Controller
    requires ValidTile(o.grid, r, a)
  {
    var last := o.config.piecesPerRowZero;
    o.(grid := ClosedGrid(ClickClosedGrid(o.grid, r, a, last), r, a, Others(a, 0, last)), active := None,
       now := o.now + o.config.transitionTimeFull + SettleDelay, startCounter := 0, completeCounter := 0,
       currTransforming := false, overflowHidden := false, queue := [])
  }

  lemma ClosedStateEq(o: Controller, r: int, a: int)
    requires Opened(o, r, a)
    ensures var c := CloseClicked(o, r, a);
            && c.config == o.config && ValidTile(c.grid, r, a)
            && Settled(c.(grid := ClosedGrid(c.grid, r, a, Others(a, 0, o.config.piecesPerRowZero)), active := None),
                       o.now + c.config.transitionTimeFull + SettleDelay)
                 == ClosedState(o, r, a)
  {
    ClosingShape(o.grid, r, a, o.config.piecesPerRowZero);
  }

  /** Closing a settled open piece: `2 * pieces_per_row + 3` timers fire and
      the controller is settled in the closed state. */
  lemma CloseCycle(o: Controller, r: int, a: int, row: int, piece: int, closeButton: bool, pageY: int)
    requires Opened(o, r, a) && 2 <= o.config.piecesPerRow
    requires closeButton || Pos(row, piece) != Pos(r, a)
    ensures Fires(ShowMoreToggle(o, row, piece, closeButton, pageY), 2 * o.config.piecesPerRow + 3,
                  ClosedState(o, r, a))
  {
    ToggleIsClose(o, row, piece, closeButton, pageY);
    CloseIs(o, r, a);
    CloseClickedFires(o, r, a);
  }

  lemma CloseClickedFires(o: Controller, r: int, a: int)
    requires Opened(o, r, a) && 2 <= o.config.piecesPerRow
    ensures Fires(CloseClicked(o, r, a), 2 * o.config.piecesPerRow + 3, ClosedState(o, r, a))
  {
    CloseClick(o, r, a);
    ClosedStateEq(o, r, a);
    CloseRun(CloseClicked(o, r, a), r, a, Others(a, 0, o.config.piecesPerRowZero), o.now);
  }

  /** The closed state is idle, ready for the next opening. */
  lemma ClosedStateIdle(o: Controller, r: int, a: int)
    requires Opened(o, r, a)
    ensures Idle(ClosedState(o, r, a))
  {
    ClosingShape(o.grid, r, a, o.config.piecesPerRowZero);
  }

  /** The closed state's grid shows the closing. */
  lemma ClosedStateTiles(o: Controller, r: int, a: int)
    requires Opened(o, r, a)
    ensures ClosedTiles(o.grid, ClosedState(o, r, a).grid, r, a)
  {
    ClosingTiles(o.grid, r, a, o.config.piecesPerRowZero);
  }

  // ---------------------------------------------------------------------------
  // The round trip
  // ---------------------------------------------------------------------------

  /** A resting grid: no row active, and every tile at rest with no hover
      effect (the state `NewToggles` builds). */
  ghost predicate Resting(g: seq<RowToggles>) {
    && (forall i :: 0 <= i < |g| ==> !g[i].activeRow)
    && (forall i, q :: ValidTile(g, i, q) ==> AtRest(Tile(g, i, q)) && !Tile(g, i, q).frontHover)
  }

  /** Opening a piece and closing it again, tile by tile, puts a resting
      grid back as it was: the piece and its neighbours are turned over
      twice, the neighbour images are hidden again and the fade is lifted. */
  lemma RoundTripGrid(g: seq<RowToggles>, h: seq<RowToggles>, k: seq<RowToggles>, r: int, a: int)
    requires Resting(g) && OpenedTiles(g, h, r, a) && ClosedTiles(h, k, r, a)
    ensures k == g
  {
    forall i, q | ValidTile(k, i, q) ensures Tile(k, i, q) == Tile(g, i, q) {
      RoundTripTile(g, h, k, r, a, i, q);
    }
    GridExt(k, g);
  }

  lemma RoundTripTile(g: seq<RowToggles>, h: seq<RowToggles>, k: seq<RowToggles>, r: int, a: int, i: int, q: int)
    requires Resting(g) && OpenedTiles(g, h, r, a) && ClosedTiles(h, k, r, a) && ValidTile(k, i, q)
    ensures Tile(k, i, q) == Tile(g, i, q)
  {
    assert ValidTile(h, i, q) && ValidTile(g, i, q);
    var t := Tile(g, i, q);
    assert AtRest(t) && !t.frontHover;
    if i == r && q == a {
      ActiveRoundTrip(t);
    } else if i == r {
      NeighborRoundTrip(t, a);
    } else {
      FadeRoundTrip(t);
    }
  }

  /** The open piece: turned to its description and back. */
  lemma ActiveRoundTrip(t: Toggle)
    requires AtRest(t) && !t.frontHover
    ensures Flipped(Flipped(t.(showMoreActive := true, descriptionActive := true)).(transforming := false))
              .(transforming := false, showMoreActive := false, descriptionActive := false) == t
  {
  }

  /** A neighbour: turned to the open piece's image and back. */
  lemma NeighborRoundTrip(t: Toggle, a: int)
    requires AtRest(t) && !t.frontHover
    ensures HideBack(Restored(Revealed(t, a).(transforming := false)).(transforming := false), a, true) == t
  {
    var s := HideBack(t, a, false);
    HideBackKeeps(t, a, false);
    RevealRestore(s);
    HideBackTwice(t, a);
  }

  /** Revealing a resting back face and restoring it, each flip run to its
      end, leaves the tile as it was. */
  lemma RevealRestore(s: Toggle)
    requires !s.transform && !s.transforming && !s.descriptionActive && !s.notFlippable && !s.frontHover
    ensures Restored(Flipped(s.(descriptionActive := false, notFlippable := true)).(transforming := false)).(transforming := false) == s
  {
  }

  /** Hiding or showing a neighbour image touches no other flag. */
  lemma HideBackKeeps(t: Toggle, k: int, v: bool)
    ensures var s := HideBack(t, k, v);
      && s.transform == t.transform && s.transforming == t.transforming
      && s.descriptionActive == t.descriptionActive && s.notFlippable == t.notFlippable
      && s.frontHover == t.frontHover && s.showMoreActive == t.showMoreActive
  {
    HideBackIs(t, k, v);
  }

  /** `HideBack` as one record update: only the image flag of slot `k`
      changes (none when `k` is not a slot). */
  lemma HideBackIs(t: Toggle, k: int, v: bool)
    ensures HideBack(t, k, v) == t.(hideBackNbrImg0 := if k == 0 then v else t.hideBackNbrImg0,
                                    hideBackNbrImg1 := if k == 1 then v else t.hideBackNbrImg1,
                                    hideBackNbrImg2 := if k == 2 then v else t.hideBackNbrImg2)
  {
  }

  /** Hiding a neighbour image that was hidden, after showing it, changes
      nothing. */
  lemma HideBackTwice(t: Toggle, a: int)
    requires t.hideBackNbrImg0 && t.hideBackNbrImg1 && t.hideBackNbrImg2
    ensures HideBack(HideBack(t, a, false), a, true) == t
  {
    if a == 0 {
      HideBackTwice0(t);
    } else if a == 1 {
      HideBackTwice1(t);
    } else if a == 2 {
      HideBackTwice2(t);
    } else {
      assert HideBack(t, a, false) == t;
    }
  }

  // One lemma per image slot: kept apart, each equality stays cheap.
  lemma HideBackTwice0(t: Toggle)
    requires t.hideBackNbrImg0
    ensures HideBack(HideBack(t, 0, false), 0, true) == t
  {
    assert HideBack(t, 0, false) == t.(hideBackNbrImg0 := false);
  }

  lemma HideBackTwice1(t: Toggle)
    requires t.hideBackNbrImg1
    ensures HideBack(HideBack(t, 1, false), 1, true) == t
  {
    assert HideBack(t, 1, false) == t.(hideBackNbrImg1 := false);
  }

  lemma HideBackTwice2(t: Toggle)
    requires t.hideBackNbrImg2
    ensures HideBack(HideBack(t, 2, false), 2, true) == t
  {
    assert HideBack(t, 2, false) == t.(hideBackNbrImg2 := false);
  }

  /** A tile of another row: faded and unfaded. */
  lemma FadeRoundTrip(t: Toggle)
    requires AtRest(t)
    ensures Faded(Faded(t, true), false) == t
  {
  }

  /** The round trip on the controller: with no other input, opening a piece
      of a resting idle grid and then closing it leaves the controller as it
      was, but for the clock (two whole flip cycles and their unlocks later)
      and the remembered scroll offset. */
  lemma RoundTrip(ctl: Controller, r: int, a: int, pageY: int)
    requires Idle(ctl) && ValidTile(ctl.grid, r, a) && Resting(ctl.grid)
    ensures var o := OpenedState(ctl, r, a, pageY);
            && Opened(o, r, a)
            && ClosedState(o, r, a)
                 == ctl.(activeScrollPos := pageY,
                         now := ctl.now + 2 * (ctl.config.transitionTimeFull + SettleDelay))
  {
    var o := OpenedState(ctl, r, a, pageY);
    OpenedStateIs(ctl, r, a, pageY);
    ClosedStateTiles(o, r, a);
    RoundTripGrid(ctl.grid, o.grid, ClosedState(o, r, a).grid, r, a);
  }

  /** The same round trip through the clicks and the timers: an opening
      click, its `3 * pieces_per_row` timers, a closing click (the close
      button, or any other piece) and its `2 * pieces_per_row + 3` timers. */
  lemma RoundTripFires(ctl: Controller, r: int, a: int, closeButton: bool, pageY: int,
                       row: int, piece: int, closeButton2: bool, pageY2: int)
    requires Idle(ctl) && ValidTile(ctl.grid, r, a) && Resting(ctl.grid) && 2 <= ctl.config.piecesPerRow
    requires closeButton2 || Pos(row, piece) != Pos(r, a)
    ensures var o := OpenedState(ctl, r, a, pageY);
            && Opened(o, r, a)
            && Fires(ShowMoreToggle(ctl, r, a, closeButton, pageY), 3 * ctl.config.piecesPerRow, o)
            && Fires(ShowMoreToggle(o, row, piece, closeButton2, pageY2), 2 * ctl.config.piecesPerRow + 3,
                     ctl.(activeScrollPos := pageY,
                          now := ctl.now + 2 * (ctl.config.transitionTimeFull + SettleDelay)))
  {
    var o := OpenedState(ctl, r, a, pageY);
    OpenCycle(ctl, r, a, closeButton, pageY);
    RoundTrip(ctl, r, a, pageY);
    CloseCycle(o, r, a, row, piece, closeButton2, pageY2);
  }

  // ---------------------------------------------------------------------------
  // One description at a time
  // ---------------------------------------------------------------------------

  /** The tiles that show a description or the show-more state are exactly
      the one at `p`; none when `p` is `None`. */
  ghost predicate DescribedOnly(g: seq<RowToggles>, p: Option<Pos>) {
    forall i, q :: ValidTile(g, i, q) ==>
      ((Tile(g, i, q).descriptionActive || Tile(g, i, q).showMoreActive) <==> p == Some(Pos(i, q)))
  }

  /** Opening a piece of a grid with no description showing shows exactly
      that piece's. */
  lemma OpenedDescribesOne(g: seq<RowToggles>, h: seq<RowToggles>, r: int, a: int)
    requires DescribedOnly(g, None) && OpenedTiles(g, h, r, a)
    ensures DescribedOnly(h, Some(Pos(r, a)))
  {
    forall i, q | ValidTile(h, i, q)
      ensures (Tile(h, i, q).descriptionActive || Tile(h, i, q).showMoreActive) <==> Some(Pos(r, a)) == Some(Pos(i, q))
    {
      assert ValidTile(g, i, q);
      if i == r && q != a {
        HideBackKeeps(Tile(g, i, q), a, false);
      }
    }
  }

  /** Closing the open piece leaves no description showing. */
  lemma ClosedDescribesNone(g: seq<RowToggles>, h: seq<RowToggles>, r: int, a: int)
    requires DescribedOnly(g, Some(Pos(r, a))) && ClosedTiles(g, h, r, a)
    ensures DescribedOnly(h, None)
  {
    forall i, q | ValidTile(h, i, q)
      ensures !(Tile(h, i, q).descriptionActive || Tile(h, i, q).showMoreActive)
    {
      assert ValidTile(g, i, q);
      if i == r && q != a {
        HideBackKeeps(Restored(Tile(g, i, q)).(transforming := false), a, true);
      }
    }
  }

  /** Between transitions at most one tile shows its description: none while
      idle, the open piece's while it is open, none again once it is closed. */
  lemma CycleDescriptions(ctl: Controller, r: int, a: int, pageY: int)
    requires Idle(ctl) && ValidTile(ctl.grid, r, a) && DescribedOnly(ctl.grid, None)
    ensures var o := OpenedState(ctl, r, a, pageY);
            && Opened(o, r, a)
            && DescribedOnly(o.grid, Some(Pos(r, a)))
            && DescribedOnly(ClosedState(o, r, a).grid, None)
  {
    var o := OpenedState(ctl, r, a, pageY);
    OpenedStateIs(ctl, r, a, pageY);
    OpenedDescribesOne(ctl.grid, o.grid, r, a);
    ClosedStateTiles(o, r, a);
    ClosedDescribesNone(o.grid, ClosedState(o, r, a).grid, r, a);
  }
}
