/** The bookkeeping the desktop controller keeps consistent: the lock is held
    exactly while a batch of `pieces_per_row` flips is under way, every start
    is matched by a completion that is either counted or still pending in a
    timer, and the unlock is pending exactly when every flip has completed. */
module FlipInvariant {
  import opened Wrappers
  import opened AppConfig
  import opened Rows
  import opened Flip
  import opened FlipProps

  /** The tile an action writes to is a tile of the grid. */
  predicate ActionFits(g: seq<RowToggles>, a: Action) {
    match a
    case ClearTransforming(r, p) => ValidTile(g, r, p)
    case RevealNeighbor(r, _, p) => ValidTile(g, r, p)
    case RestoreNeighborDone(r, _, p) => ValidTile(g, r, p)
    case TurnActiveToFront(r, p) => ValidTile(g, r, p)
    case ActiveFrontDone(r, p) => ValidTile(g, r, p)
    case _ => true
  }

  /** How many `flipCompleteTracker` calls a pending callback still leads to:
      one for each flip it belongs to that has not completed. */
  function Owed(a: Action): nat {
    match a
    case FlipDone => 1
    case RevealNeighbor(_, _, _) => 1
    case RestoreNeighborDone(_, _, _) => 1
    case TurnActiveToFront(_, _) => 1
    case ActiveFrontDone(_, _) => 1
    case _ => 0
  }

  function Unlocks(a: Action): nat {
    if a.Settle? then 1 else 0
  }

  /** The sum of `f` over the pending callbacks. */
  function Total(q: seq<Timer>, f: Action -> nat): nat {
    if |q| == 0 then 0 else f(q[0].action) + Total(q[1..], f)
  }

  lemma TotalPair(x: Timer, y: Timer, f: Action -> nat)
    ensures Total([x, y], f) == f(x.action) + f(y.action)
  {
    assert [x, y][1..] == [y];
    assert [y][1..] == [];
    assert Total([y], f) == f(y.action) + Total([], f);
  }

  lemma {:induction false} TotalAppend(a: seq<Timer>, b: seq<Timer>, f: Action -> nat)
    ensures Total(a + b, f) == Total(a, f) + Total(b, f)
    decreases |a|
  {
    if |a| == 0 {
      assert a + b == b;
    } else {
      assert (a + b)[1..] == a[1..] + b;
      TotalAppend(a[1..], b, f);
    }
  }

  /** Taking one timer out of the queue takes its share out of the sum. */
  lemma TotalRemove(q: seq<Timer>, i: nat, f: Action -> nat)
    requires i < |q|
    ensures Total(q[..i] + q[i + 1..], f) + f(q[i].action) == Total(q, f)
  {
    assert q == q[..i] + q[i..];
    assert q[i..][1..] == q[i + 1..];
    TotalAppend(q[..i], q[i..], f);
    TotalAppend(q[..i], q[i + 1..], f);
  }

  /** Every pending timer in `q` is due no earlier than `now` and writes to a
      tile of `g`. */
  predicate Scheduled(g: seq<RowToggles>, now: int, q: seq<Timer>) {
    forall j :: 0 <= j < |q| ==> now <= q[j].due && ActionFits(g, q[j].action)
  }

  lemma ScheduledAppend(g: seq<RowToggles>, now: int, a: seq<Timer>, b: seq<Timer>)
    ensures Scheduled(g, now, a + b) <==> Scheduled(g, now, a) && Scheduled(g, now, b)
  {
    if Scheduled(g, now, a) && Scheduled(g, now, b) {
      forall j | 0 <= j < |a + b| ensures now <= (a + b)[j].due && ActionFits(g, (a + b)[j].action) {
        if j >= |a| {
          assert (a + b)[j] == b[j - |a|];
        }
      }
    }
    if Scheduled(g, now, a + b) {
      forall j | 0 <= j < |a| ensures now <= a[j].due && ActionFits(g, a[j].action) {
        assert (a + b)[j] == a[j];
      }
      forall j | 0 <= j < |b| ensures now <= b[j].due && ActionFits(g, b[j].action) {
        assert (a + b)[j + |a|] == b[j];
      }
    }
  }

  /** Rewriting tiles without changing the grid's shape keeps the timers' targets valid. */
  lemma ScheduledSameShape(g: seq<RowToggles>, h: seq<RowToggles>, now: int, q: seq<Timer>)
    requires SameShape(g, h) && Scheduled(g, now, q)
    ensures Scheduled(h, now, q)
  {
    forall j | 0 <= j < |q| ensures now <= q[j].due && ActionFits(h, q[j].action) {
      FitsSameShape(g, h, q[j].action);
    }
  }

  /** The controller's invariant. */
  predicate Inv(ctl: Controller) {
    var c := ctl.config.piecesPerRow;
    && Shaped(ctl)
    && ctl.startCounter == (if ctl.currTransforming then c else 0)
    && ctl.overflowHidden == ctl.currTransforming
    && 0 <= ctl.completeCounter
    && ctl.completeCounter + Total(ctl.queue, Owed) == ctl.startCounter
    && Total(ctl.queue, Unlocks) == (if ctl.completeCounter == c then 1 else 0)
    && Scheduled(ctl.grid, ctl.now, ctl.queue)
  }

  /** A fresh controller over a grid of full rows satisfies the invariant. */
  lemma NewControllerInv(config: Config, grid: seq<RowToggles>, now: int)
    requires Derived(config) && 1 <= config.piecesPerRow
    requires forall i :: 0 <= i < |grid| ==> |grid[i].slots| == config.piecesPerRow
    ensures Inv(NewController(config, grid, now))
  {
  }

  /** Once every timer has run the grid is unlocked and both counters are
      back at zero: no interleaving of completions leaves it stuck. */
  lemma IdleWhenQueueEmpty(ctl: Controller)
    requires Inv(ctl) && ctl.queue == []
    ensures !ctl.currTransforming && !ctl.overflowHidden && ctl.startCounter == 0 && ctl.completeCounter == 0
  {
  }

  // ---------------------------------------------------------------------------
  // Firing a timer keeps the invariant
  // ---------------------------------------------------------------------------

  /** The invariant, with the callback `a` taken out of the queue and about
      to run at the current time. */
  predicate InvBefore(ctl: Controller, a: Action) {
    Inv(ctl.(queue := ctl.queue + [Timer(ctl.now, a)]))
  }

  lemma Unpack(ctl: Controller, a: Action)
    requires InvBefore(ctl, a)
    ensures var c := ctl.config.piecesPerRow;
            && Shaped(ctl)
            && ctl.startCounter == (if ctl.currTransforming then c else 0)
            && ctl.overflowHidden == ctl.currTransforming
            && 0 <= ctl.completeCounter
            && ctl.completeCounter + Total(ctl.queue, Owed) + Owed(a) == ctl.startCounter
            && Total(ctl.queue, Unlocks) + Unlocks(a) == (if ctl.completeCounter == c then 1 else 0)
            && ActionFits(ctl.grid, a)
            && Scheduled(ctl.grid, ctl.now, ctl.queue)
  {
    var t := Timer(ctl.now, a);
    TotalAppend(ctl.queue, [t], Owed);
    TotalAppend(ctl.queue, [t], Unlocks);
    ScheduledAppend(ctl.grid, ctl.now, ctl.queue, [t]);
    assert [t][0] == t;
  }

  lemma FitsSameShape(g: seq<RowToggles>, h: seq<RowToggles>, a: Action)
    requires SameShape(g, h) && ActionFits(g, a)
    ensures ActionFits(h, a)
  {
  }

  /** The invariant after a callback that appended `added` to the queue, from
      the counts it leaves. */
  lemma KeepsInv(ctl: Controller, a: Action, c: Controller, added: seq<Timer>)
    requires InvBefore(ctl, a)
    requires c.config == ctl.config && c.now == ctl.now && SameShape(ctl.grid, c.grid)
    requires c.active == ctl.active || c.active.None?
    requires c.queue == ctl.queue + added
    requires Scheduled(c.grid, c.now, added)
    requires c.startCounter == (if c.currTransforming then c.config.piecesPerRow else 0)
    requires c.overflowHidden == c.currTransforming
    requires 0 <= c.completeCounter
    requires c.completeCounter + Total(ctl.queue, Owed) + Total(added, Owed) == c.startCounter
    requires Total(ctl.queue, Unlocks) + Total(added, Unlocks)
               == (if c.completeCounter == c.config.piecesPerRow then 1 else 0)
    ensures Inv(c)
  {
    Unpack(ctl, a);
    TotalAppend(ctl.queue, added, Owed);
    TotalAppend(ctl.queue, added, Unlocks);
    ScheduledSameShape(ctl.grid, c.grid, ctl.now, ctl.queue);
    ScheduledAppend(c.grid, c.now, ctl.queue, added);
  }

  lemma ClearKeepsInv(ctl: Controller, r: int, p: int)
    requires InvBefore(ctl, ClearTransforming(r, p))
    ensures Inv(Apply(ctl, ClearTransforming(r, p)))
  {
    Unpack(ctl, ClearTransforming(r, p));
    KeepsInv(ctl, ClearTransforming(r, p), Apply(ctl, ClearTransforming(r, p)), []);
  }

  /** A completion: the count goes up and the unlock is registered when it
      reaches `pieces_per_row`. `c0` is the controller after the callback's
      own tile write. */
  lemma CompletionKeepsInv(ctl: Controller, a: Action, c0: Controller)
    requires InvBefore(ctl, a) && Owed(a) == 1 && Unlocks(a) == 0
    requires c0 == ctl.(grid := c0.grid) && SameShape(ctl.grid, c0.grid)
    ensures Inv(CompleteTracker(c0))
  {
    Unpack(ctl, a);
    var c := CompleteTracker(c0);
    var added := if c.completeCounter == ctl.config.piecesPerRow
                 then [Timer(ctl.now + SettleDelay, Settle)] else [];
    assert Total(added, Unlocks) == (if c.completeCounter == ctl.config.piecesPerRow then 1 else 0);
    assert Total(added, Owed) == 0;
    KeepsInv(ctl, a, c, added);
  }

  lemma RevealKeepsInv(ctl: Controller, r: int, a: int, p: int)
    requires InvBefore(ctl, RevealNeighbor(r, a, p))
    ensures Inv(Apply(ctl, RevealNeighbor(r, a, p)))
  {
    Unpack(ctl, RevealNeighbor(r, a, p));
    var c := Apply(ctl, RevealNeighbor(r, a, p));
    var tt := ctl.config.transitionTime;
    var added := [Timer(ctl.now + tt, ClearTransforming(r, p)), Timer(ctl.now + tt, FlipDone)];
    assert c.queue == ctl.queue + added;
    TotalPair(added[0], added[1], Owed);
    TotalPair(added[0], added[1], Unlocks);
    assert Total(added, Owed) == 1 && Total(added, Unlocks) == 0;
    KeepsInv(ctl, RevealNeighbor(r, a, p), c, added);
  }

  lemma TurnKeepsInv(ctl: Controller, r: int, p: int)
    requires InvBefore(ctl, TurnActiveToFront(r, p))
    ensures Inv(Apply(ctl, TurnActiveToFront(r, p)))
  {
    Unpack(ctl, TurnActiveToFront(r, p));
    var c := Apply(ctl, TurnActiveToFront(r, p));
    var tt := ctl.config.transitionTime;
    var added := [Timer(ctl.now + tt, ClearTransforming(r, p)), Timer(ctl.now + tt, ActiveFrontDone(r, p))];
    assert c.queue == ctl.queue + added;
    TotalPair(added[0], added[1], Owed);
    TotalPair(added[0], added[1], Unlocks);
    assert Total(added, Owed) == 1 && Total(added, Unlocks) == 0;
    KeepsInv(ctl, TurnActiveToFront(r, p), c, added);
  }

  lemma SettleKeepsInv(ctl: Controller)
    requires InvBefore(ctl, Settle)
    ensures Inv(Apply(ctl, Settle))
  {
    Unpack(ctl, Settle);
    KeepsInv(ctl, Settle, Apply(ctl, Settle), []);
  }

  lemma CloseResetKeepsInv(ctl: Controller)
    requires InvBefore(ctl, CloseReset)
    ensures Inv(Apply(ctl, CloseReset))
  {
    Unpack(ctl, CloseReset);
    KeepsInv(ctl, CloseReset, Apply(ctl, CloseReset), []);
  }

  lemma ScrollEndKeepsInv(ctl: Controller)
    requires InvBefore(ctl, ScrollTimeoutEnd)
    ensures Inv(Apply(ctl, ScrollTimeoutEnd))
  {
    Unpack(ctl, ScrollTimeoutEnd);
    KeepsInv(ctl, ScrollTimeoutEnd, Apply(ctl, ScrollTimeoutEnd), []);
  }

  /** Every callback keeps the invariant. */
  lemma ApplyKeepsInv(ctl: Controller, a: Action)
    requires InvBefore(ctl, a)
    ensures Inv(Apply(ctl, a))
  {
    Unpack(ctl, a);
    match a
    case ClearTransforming(r, p) => ClearKeepsInv(ctl, r, p);
    case FlipDone => CompletionKeepsInv(ctl, a, ctl);
    case RevealNeighbor(r, n, p) => RevealKeepsInv(ctl, r, n, p);
    case RestoreNeighborDone(r, n, p) =>
      CompletionKeepsInv(ctl, a, ctl.(grid := SetTile(ctl.grid, r, p, HideBack(Tile(ctl.grid, r, p), n, true))));
    case TurnActiveToFront(r, p) => TurnKeepsInv(ctl, r, p);
    case ActiveFrontDone(r, p) =>
      var t := Tile(ctl.grid, r, p).(showMoreActive := false, descriptionActive := false);
      CompletionKeepsInv(ctl, a, ctl.(grid := SetTile(ctl.grid, r, p, t)));
    case CloseReset => CloseResetKeepsInv(ctl);
    case Settle => SettleKeepsInv(ctl);
    case ScrollTimeoutEnd => ScrollEndKeepsInv(ctl);
  }

  /** Firing the next timer keeps the invariant. */
  lemma FireKeepsInv(ctl: Controller)
    requires Inv(ctl) && |ctl.queue| > 0
    ensures Inv(Fire(ctl))
  {
    var q := ctl.queue;
    var e := Earliest(q);
    var t := q[e];
    var rest := q[..e] + q[e + 1..];
    var c1 := ctl.(now := Max(ctl.now, t.due), queue := rest);
    assert c1.now == t.due;
    var q1 := rest + [Timer(c1.now, t.action)];
    TotalRemove(q, e, Owed);
    TotalRemove(q, e, Unlocks);
    TotalAppend(rest, [Timer(c1.now, t.action)], Owed);
    TotalAppend(rest, [Timer(c1.now, t.action)], Unlocks);
    forall j | 0 <= j < |q1|
      ensures c1.now <= q1[j].due && ActionFits(c1.grid, q1[j].action)
    {
      if j < e {
        assert q1[j] == q[j];
      } else if j < |rest| {
        assert q1[j] == q[j + 1];
      }
    }
    assert InvBefore(c1, t.action);
    ApplyKeepsInv(c1, t.action);
  }

  // ---------------------------------------------------------------------------
  // Clicks, scrolls and the passing of time keep the invariant
  // ---------------------------------------------------------------------------

  /** The invariant after an event handler that appended `added` to the queue. */
  lemma Extends(ctl: Controller, c: Controller, added: seq<Timer>)
    requires Inv(ctl)
    requires c.config == ctl.config && c.now == ctl.now && SameShape(ctl.grid, c.grid)
    requires c.active.Some? ==> ValidTile(c.grid, c.active.value.row, c.active.value.piece)
    requires c.queue == ctl.queue + added
    requires Scheduled(c.grid, c.now, added)
    requires c.startCounter == (if c.currTransforming then c.config.piecesPerRow else 0)
    requires c.overflowHidden == c.currTransforming
    requires 0 <= c.completeCounter
    requires c.completeCounter + Total(ctl.queue, Owed) + Total(added, Owed) == c.startCounter
    requires Total(ctl.queue, Unlocks) + Total(added, Unlocks)
               == (if c.completeCounter == c.config.piecesPerRow then 1 else 0)
    ensures Inv(c)
  {
    TotalAppend(ctl.queue, added, Owed);
    TotalAppend(ctl.queue, added, Unlocks);
    ScheduledSameShape(ctl.grid, c.grid, ctl.now, ctl.queue);
    ScheduledAppend(c.grid, c.now, ctl.queue, added);
  }

  /** Each reveal timer owes one completion. */
  lemma {:induction false} RevealTimersFacts(g: seq<RowToggles>, r: int, a: int, ns: seq<int>, due: int)
    ensures var ts := RevealTimers(r, a, ns, due);
            && |ts| == |ns|
            && Total(ts, Owed) == |ns| && Total(ts, Unlocks) == 0
            && (InRow(g, r, ns) ==>
                  forall j :: 0 <= j < |ts| ==> ts[j].due == due && ActionFits(g, ts[j].action))
    decreases |ns|
  {
    if |ns| > 0 {
      var ts := RevealTimers(r, a, ns, due);
      RevealTimersFacts(g, r, a, ns[1..], due);
      TotalAppend([ts[0]], RevealTimers(r, a, ns[1..], due), Owed);
      TotalAppend([ts[0]], RevealTimers(r, a, ns[1..], due), Unlocks);
      if InRow(g, r, ns) {
        assert InRow(g, r, ns[1..]) by {
          forall i | 0 <= i < |ns[1..]| ensures 0 <= ns[1..][i] < |g[r].slots| {
            assert ns[1..][i] == ns[i + 1];
          }
        }
        forall j | 0 <= j < |ts| ensures ts[j].due == due && ActionFits(g, ts[j].action) {
          if j > 0 {
            assert ts[j] == RevealTimers(r, a, ns[1..], due)[j - 1];
          }
        }
      }
    }
  }

  /** Each neighbour's pair of closing timers owes one completion. */
  lemma {:induction false} RestoreTimersFacts(g: seq<RowToggles>, r: int, a: int, ns: seq<int>, due: int)
    ensures var ts := RestoreTimers(r, a, ns, due);
            && |ts| == 2 * |ns|
            && Total(ts, Owed) == |ns| && Total(ts, Unlocks) == 0
            && (InRow(g, r, ns) ==>
                  forall j :: 0 <= j < |ts| ==> ts[j].due == due && ActionFits(g, ts[j].action))
    decreases |ns|
  {
    if |ns| > 0 {
      var ts := RestoreTimers(r, a, ns, due);
      var pair := [Timer(due, ClearTransforming(r, ns[0])), Timer(due, RestoreNeighborDone(r, a, ns[0]))];
      RestoreTimersFacts(g, r, a, ns[1..], due);
      TotalPair(pair[0], pair[1], Owed);
      TotalPair(pair[0], pair[1], Unlocks);
      TotalAppend(pair, RestoreTimers(r, a, ns[1..], due), Owed);
      TotalAppend(pair, RestoreTimers(r, a, ns[1..], due), Unlocks);
      if InRow(g, r, ns) {
        assert InRow(g, r, ns[1..]) by {
          forall i | 0 <= i < |ns[1..]| ensures 0 <= ns[1..][i] < |g[r].slots| {
            assert ns[1..][i] == ns[i + 1];
          }
        }
        forall j | 0 <= j < |ts| ensures ts[j].due == due && ActionFits(g, ts[j].action) {
          if j > 1 {
            assert ts[j] == RestoreTimers(r, a, ns[1..], due)[j - 2];
          }
        }
      }
    }
  }

  /** The timers the opening branch registers owe one completion per tile
      of the row and target tiles of the row. */
  lemma OpenTimers(g: seq<RowToggles>, row: int, piece: int, last: int, now: int, tt: int, pad: int)
    requires ValidTile(g, row, piece) && last + 1 == |g[row].slots| && 0 <= tt && 0 <= pad
    ensures var added := [Timer(now + tt, ClearTransforming(row, piece)), Timer(now + tt, FlipDone)]
                         + RevealTimers(row, piece, Others(piece, 0, last), now + pad);
            && Total(added, Owed) == last + 1 && Total(added, Unlocks) == 0
            && Scheduled(g, now, added)
  {
    var ns := Others(piece, 0, last);
    var pair := [Timer(now + tt, ClearTransforming(row, piece)), Timer(now + tt, FlipDone)];
    var opening := RevealTimers(row, piece, ns, now + pad);
    OthersCount(piece, last);
    OthersInRow(g, row, piece, last);
    RevealTimersFacts(g, row, piece, ns, now + pad);
    TotalPair(pair[0], pair[1], Owed);
    TotalPair(pair[0], pair[1], Unlocks);
    TotalAppend(pair, opening, Owed);
    TotalAppend(pair, opening, Unlocks);
    assert Scheduled(g, now, pair);
    assert Scheduled(g, now, opening);
    ScheduledAppend(g, now, pair, opening);
  }

  /** Opening a piece starts `pieces_per_row` flips and owes as many
      completions; `c` is any controller with the opening branch's effects. */
  lemma OpenCounts(ctl: Controller, c: Controller, row: int, piece: int)
    requires Inv(ctl) && !ctl.currTransforming && ValidTile(ctl.grid, row, piece)
    requires SameShape(ctl.grid, c.grid) && c.active == Some(Pos(row, piece))
    requires c.startCounter == ctl.config.piecesPerRow && c.completeCounter == ctl.completeCounter
    requires c.currTransforming && c.overflowHidden && c.config == ctl.config && c.now == ctl.now
    requires var tt := ctl.config.transitionTime;
             c.queue == ctl.queue + [Timer(ctl.now + tt, ClearTransforming(row, piece)), Timer(ctl.now + tt, FlipDone)]
                        + RevealTimers(row, piece, Others(piece, 0, ctl.config.piecesPerRowZero),
                                       ctl.now + ctl.config.transitionTimePadding)
    ensures Inv(c)
  {
    var tt := ctl.config.transitionTime;
    var pair := [Timer(ctl.now + tt, ClearTransforming(row, piece)), Timer(ctl.now + tt, FlipDone)];
    var added := pair + RevealTimers(row, piece, Others(piece, 0, ctl.config.piecesPerRowZero),
                                     ctl.now + ctl.config.transitionTimePadding);
    OpenTimers(c.grid, row, piece, ctl.config.piecesPerRowZero, ctl.now, tt, ctl.config.transitionTimePadding);
    assert c.queue == ctl.queue + added;
    Extends(ctl, c, added);
  }

  lemma OpenKeepsInv(ctl: Controller, row: int, piece: int, closeButton: bool, pageY: int)
    requires Inv(ctl) && !ctl.currTransforming && ctl.active.None?
    requires ValidTile(ctl.grid, row, piece)
    ensures Inv(ShowMoreToggle(ctl, row, piece, closeButton, pageY))
  {
    ToggleOpensState(ctl, row, piece, closeButton, pageY);
    ToggleOpensGrid(ctl, row, piece, closeButton, pageY);
    OpenCounts(ctl, ShowMoreToggle(ctl, row, piece, closeButton, pageY), row, piece);
  }

  /** Closing starts `pieces_per_row` flips and owes as many completions;
      `c` is any controller with the closing branch's effects. */
  lemma CloseCounts(ctl: Controller, c: Controller)
    requires Inv(ctl) && !ctl.currTransforming && ctl.active.Some?
    requires SameShape(ctl.grid, c.grid) && c.active == ctl.active
    requires c.startCounter == ctl.config.piecesPerRow && c.completeCounter == ctl.completeCounter
    requires c.currTransforming && c.overflowHidden && c.config == ctl.config && c.now == ctl.now
    requires var r := ctl.active.value.row;
             var a := ctl.active.value.piece;
             c.queue == ctl.queue
                        + RestoreTimers(r, a, Others(a, 0, ctl.config.piecesPerRowZero), ctl.now + ctl.config.transitionTime)
                        + [Timer(ctl.now + ctl.config.transitionTimePadding, TurnActiveToFront(r, a)),
                           Timer(ctl.now + ctl.config.transitionTimeFull, CloseReset)]
    ensures Inv(c)
  {
    var r := ctl.active.value.row;
    var a := ctl.active.value.piece;
    var ns := Others(a, 0, ctl.config.piecesPerRowZero);
    var closing := RestoreTimers(r, a, ns, ctl.now + ctl.config.transitionTime);
    var tail := [Timer(ctl.now + ctl.config.transitionTimePadding, TurnActiveToFront(r, a)),
                 Timer(ctl.now + ctl.config.transitionTimeFull, CloseReset)];
    OthersCount(a, ctl.config.piecesPerRowZero);
    OthersInRow(c.grid, r, a, ctl.config.piecesPerRowZero);
    RestoreTimersFacts(c.grid, r, a, ns, ctl.now + ctl.config.transitionTime);
    TotalPair(tail[0], tail[1], Owed);
    TotalPair(tail[0], tail[1], Unlocks);
    TotalAppend(closing, tail, Owed);
    TotalAppend(closing, tail, Unlocks);
    var added := closing + tail;
    assert c.queue == ctl.queue + added;
    assert Scheduled(c.grid, c.now, tail);
    assert Scheduled(c.grid, c.now, closing);
    ScheduledAppend(c.grid, c.now, closing, tail);
    Extends(ctl, c, added);
  }

  lemma CloseKeepsInv(ctl: Controller)
    requires Inv(ctl) && !ctl.currTransforming && ctl.active.Some?
    ensures Inv(Close(ctl))
  {
    CloseState(ctl);
    CloseTiles(ctl);
    CloseCounts(ctl, Close(ctl));
  }

  /** A click on a piece keeps the invariant, whichever branch it takes. */
  lemma ToggleKeepsInv(ctl: Controller, row: int, piece: int, closeButton: bool, pageY: int)
    requires Inv(ctl)
    requires !ctl.currTransforming && ctl.active.None? ==> ValidTile(ctl.grid, row, piece)
    ensures Inv(ShowMoreToggle(ctl, row, piece, closeButton, pageY))
  {
    if !ctl.currTransforming {
      if ctl.active.None? {
        OpenKeepsInv(ctl, row, piece, closeButton, pageY);
      } else if closeButton || ctl.active.value != Pos(row, piece) {
        ToggleIsClose(ctl, row, piece, closeButton, pageY);
        CloseKeepsInv(ctl);
      }
    }
  }

  /** Registering a timer that owes no completion and does not unlock keeps
      the invariant. */
  lemma AppendNeutral(ctl: Controller, t: Timer)
    requires Inv(ctl) && ctl.now <= t.due && ActionFits(ctl.grid, t.action)
    requires Owed(t.action) == 0 && Unlocks(t.action) == 0
    ensures Inv(ctl.(queue := ctl.queue + [t]))
  {
    var c := ctl.(queue := ctl.queue + [t]);
    TotalAppend(ctl.queue, [t], Owed);
    TotalAppend(ctl.queue, [t], Unlocks);
    assert [t][0] == t;
    ScheduledAppend(ctl.grid, ctl.now, ctl.queue, [t]);
  }

  /** A scroll check keeps the invariant. */
  lemma ScrollKeepsInv(ctl: Controller, pageY: int)
    requires Inv(ctl)
    ensures Inv(ScrollCheck(ctl, pageY))
  {
    if ctl.active.Some? && !ctl.scrollTimeout && !ctl.currTransforming
       && Abs(pageY - ctl.activeScrollPos) > ScrollThreshold {
      var c0 := ctl.(scrollTimeout := true);
      var closed := Close(c0);
      ScrollCloses(ctl, pageY);
      CloseKeepsInv(c0);
      CloseState(c0);
      AppendNeutral(closed, Timer(ctl.now + ctl.config.transitionTimeFull, ScrollTimeoutEnd));
    }
  }

  /** Time passing without a timer falling due keeps the invariant. */
  lemma AdvanceKeepsInv(ctl: Controller, t: int)
    requires Inv(ctl) && ctl.now <= t
    requires forall j :: 0 <= j < |ctl.queue| ==> t <= ctl.queue[j].due
    ensures Inv(Advance(ctl, t))
  {
  }

  // ---------------------------------------------------------------------------
  // Without further input every pending timer eventually runs
  // ---------------------------------------------------------------------------

  /** A measure that every callback lowers: each weighs more than the timers
      it registers. */
  function Weight(a: Action): nat {
    match a
    case RevealNeighbor(_, _, _) => 4
    case TurnActiveToFront(_, _) => 4
    case FlipDone => 2
    case RestoreNeighborDone(_, _, _) => 2
    case ActiveFrontDone(_, _) => 2
    case _ => 1
  }

  /** What a callback registers outweighs nothing it came from. */
  lemma AddsLess(ctl: Controller, a: Action, c: Controller, added: seq<Timer>)
    requires c.queue == ctl.queue + added && Total(added, Weight) < Weight(a)
    ensures Total(c.queue, Weight) < Total(ctl.queue, Weight) + Weight(a)
  {
    TotalAppend(ctl.queue, added, Weight);
  }

  /** A completion registers at most the unlock. */
  lemma CompletionAddsLess(c0: Controller, a: Action)
    requires Weight(a) == 2
    ensures Total(CompleteTracker(c0).queue, Weight) < Total(c0.queue, Weight) + Weight(a)
  {
    var c := CompleteTracker(c0);
    var added := if c.completeCounter == c0.config.piecesPerRow then [Timer(c0.now + SettleDelay, Settle)] else [];
    assert Total(added, Weight) <= 1;
    AddsLess(c0, a, c, added);
  }

  lemma RevealLowersWeight(ctl: Controller, r: int, n: int, p: int)
    ensures Total(Apply(ctl, RevealNeighbor(r, n, p)).queue, Weight) < Total(ctl.queue, Weight) + 4
  {
    var c := Apply(ctl, RevealNeighbor(r, n, p));
    var tt := ctl.config.transitionTime;
    var added := if ValidTile(ctl.grid, r, p)
                 then [Timer(ctl.now + tt, ClearTransforming(r, p)), Timer(ctl.now + tt, FlipDone)] else [];
    if ValidTile(ctl.grid, r, p) {
      TotalPair(added[0], added[1], Weight);
    }
    AddsLess(ctl, RevealNeighbor(r, n, p), c, added);
  }

  lemma TurnLowersWeight(ctl: Controller, r: int, p: int)
    ensures Total(Apply(ctl, TurnActiveToFront(r, p)).queue, Weight) < Total(ctl.queue, Weight) + 4
  {
    var c := Apply(ctl, TurnActiveToFront(r, p));
    var tt := ctl.config.transitionTime;
    var added := if ValidTile(ctl.grid, r, p)
                 then [Timer(ctl.now + tt, ClearTransforming(r, p)), Timer(ctl.now + tt, ActiveFrontDone(r, p))] else [];
    if ValidTile(ctl.grid, r, p) {
      TotalPair(added[0], added[1], Weight);
    }
    AddsLess(ctl, TurnActiveToFront(r, p), c, added);
  }

  /** Every callback registers less weight than it takes away. */
  lemma ApplyLowersWeight(ctl: Controller, a: Action)
    ensures Total(Apply(ctl, a).queue, Weight) < Total(ctl.queue, Weight) + Weight(a)
  {
    match a
    case RevealNeighbor(r, n, p) => RevealLowersWeight(ctl, r, n, p);
    case TurnActiveToFront(r, p) => TurnLowersWeight(ctl, r, p);
    case FlipDone => CompletionAddsLess(ctl, a);
    case RestoreNeighborDone(r, n, p) =>
      if ValidTile(ctl.grid, r, p) {
        CompletionAddsLess(ctl.(grid := SetTile(ctl.grid, r, p, HideBack(Tile(ctl.grid, r, p), n, true))), a);
      }
    case ActiveFrontDone(r, p) =>
      if ValidTile(ctl.grid, r, p) {
        var t := Tile(ctl.grid, r, p).(showMoreActive := false, descriptionActive := false);
        CompletionAddsLess(ctl.(grid := SetTile(ctl.grid, r, p, t)), a);
      }
    case _ =>
  }

  /** Firing a timer lowers the total weight of the queue. */
  lemma FireLowersWeight(ctl: Controller)
    requires |ctl.queue| > 0
    ensures Total(Fire(ctl).queue, Weight) < Total(ctl.queue, Weight)
  {
    var q := ctl.queue;
    var e := Earliest(q);
    TotalRemove(q, e, Weight);
    ApplyLowersWeight(ctl.(now := Max(ctl.now, q[e].due), queue := q[..e] + q[e + 1..]), q[e].action);
  }

  /** Fire timers until none is left; this always ends. */
  function Drain(ctl: Controller): (c: Controller)
    ensures |c.queue| == 0
    decreases Total(ctl.queue, Weight)
  {
    if |ctl.queue| == 0 then ctl
    else
      FireLowersWeight(ctl);
      Drain(Fire(ctl))
  }

  /** Whatever was clicked and scrolled, once the input stops every batch of
      flips completes: the grid ends unlocked with both counters at zero. */
  lemma {:induction false} DrainUnlocks(ctl: Controller)
    requires Inv(ctl)
    ensures var c := Drain(ctl);
            && Inv(c) && !c.currTransforming && !c.overflowHidden
            && c.startCounter == 0 && c.completeCounter == 0
    decreases Total(ctl.queue, Weight)
  {
    if |ctl.queue| == 0 {
      IdleWhenQueueEmpty(ctl);
    } else {
      FireLowersWeight(ctl);
      FireKeepsInv(ctl);
      DrainUnlocks(Fire(ctl));
    }
  }
}
