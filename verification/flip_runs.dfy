/** Runs of the timer queue: the states the controller passes through while
    the timers of a batch of flips fire in order, phase by phase (the
    reveals of an opening, and the pairs of flip end and completion that
    every batch leaves). */
module FlipRuns {
  import opened Wrappers
  import opened AppConfig
  import opened Rows
  import opened Flip

  // ---------------------------------------------------------------------------
  // Running timers
  // ---------------------------------------------------------------------------

  /** Every timer in `q` is due at `d` or later. */
  predicate DueFrom(q: seq<Timer>, d: int) {
    forall j :: 0 <= j < |q| ==> d <= q[j].due
  }

  lemma DueFromAppend(a: seq<Timer>, b: seq<Timer>, d: int)
    requires DueFrom(a, d) && DueFrom(b, d)
    ensures DueFrom(a + b, d)
  {
    forall j | 0 <= j < |a + b| ensures d <= (a + b)[j].due {
      if j >= |a| {
        assert (a + b)[j] == b[j - |a|];
      }
    }
  }

  lemma DueFromLater(q: seq<Timer>, d: int, e: int)
    requires DueFrom(q, d) && e <= d
    ensures DueFrom(q, e)
  {
  }

  /** When the first pending timer is due no later than any other, it is the
      one that fires. */
  lemma EarliestHead(q: seq<Timer>)
    requires |q| > 0 && DueFrom(q, q[0].due)
    ensures Earliest(q) == 0
  {
    var e := Earliest(q);
    assert q[e].due <= q[0].due;
  }

  lemma FireHead(ctl: Controller)
    requires |ctl.queue| > 0 && ctl.now <= ctl.queue[0].due
    requires DueFrom(ctl.queue, ctl.queue[0].due)
    ensures Fire(ctl) == Apply(ctl.(now := ctl.queue[0].due, queue := ctl.queue[1..]), ctl.queue[0].action)
  {
    EarliestHead(ctl.queue);
    PoppedHead(ctl);
  }

  lemma PoppedHead(ctl: Controller)
    requires |ctl.queue| > 0 && ctl.now <= ctl.queue[0].due && Earliest(ctl.queue) == 0
    ensures Popped(ctl) == ctl.(now := ctl.queue[0].due, queue := ctl.queue[1..])
  {
    assert ctl.queue[..0] + ctl.queue[1..] == ctl.queue[1..];
  }

  /** `c1` is `c` after its first pending timer fires, that timer being due
      no later than any other (so the first of the earliest). */
  predicate FiresAs(c: Controller, c1: Controller) {
    && |c.queue| > 0 && c.now <= c.queue[0].due && DueFrom(c.queue, c.queue[0].due)
    && c1 == Apply(c.(now := c.queue[0].due, queue := c.queue[1..]), c.queue[0].action)
  }

  lemma FiresAsFire(c: Controller, c1: Controller)
    requires FiresAs(c, c1)
    ensures |c.queue| > 0 && Fire(c) == c1
  {
    FireHead(c);
  }

  /** `xs` is a chain of `step`: each element is related to the next. */
  ghost predicate Chain<S>(step: (S, S) -> bool, xs: seq<S>) {
    forall i, j :: 0 <= i < |xs| - 1 && j == i + 1 ==> step(xs[i], xs[j])
  }

  function Last<S>(xs: seq<S>): S
    requires |xs| > 0
  {
    xs[|xs| - 1]
  }

  /** An element related to the start of a chain starts a longer chain. */
  lemma ChainCons<S>(step: (S, S) -> bool, c: S, xs: seq<S>)
    requires |xs| > 0 && step(c, xs[0]) && Chain(step, xs)
    ensures Chain(step, [c] + xs) && Last([c] + xs) == Last(xs)
  {
    var ys := [c] + xs;
    forall k | 0 <= k < |ys| - 1 ensures step(ys[k], ys[k + 1]) {
      if k > 0 {
        assert ys[k] == xs[k - 1] && ys[k + 1] == xs[k];
      }
    }
  }

  /** Two chains, the second starting where the first ends, make one. */
  lemma ChainJoin<S>(step: (S, S) -> bool, xs: seq<S>, ys: seq<S>)
    requires |xs| > 0 && |ys| > 0 && Last(xs) == ys[0] && Chain(step, xs) && Chain(step, ys)
    ensures Chain(step, xs + ys[1..]) && |xs + ys[1..]| == |xs| + |ys| - 1
    ensures (xs + ys[1..])[0] == xs[0] && Last(xs + ys[1..]) == Last(ys)
  {
    var zs := xs + ys[1..];
    forall k | 0 <= k < |zs| - 1 ensures step(zs[k], zs[k + 1]) {
      if k < |xs| - 1 {
        assert zs[k] == xs[k] && zs[k + 1] == xs[k + 1];
      } else {
        assert zs[k] == ys[k - |xs| + 1] && zs[k + 1] == ys[k - |xs| + 2];
      }
    }
  }

  /** Firing as many timers as a chain of fired timers has steps ends where
      the chain ends. */
  lemma {:induction false} ChainRuns(xs: seq<Controller>)
    requires |xs| > 0 && Chain(FiresAs, xs)
    ensures Run(xs[0], |xs| - 1) == Last(xs)
    decreases |xs|
  {
    if |xs| > 1 {
      var ys := xs[1..];
      assert Chain(FiresAs, ys) by {
        forall k | 0 <= k < |ys| - 1 ensures FiresAs(ys[k], ys[k + 1]) {
          assert ys[k] == xs[k + 1] && ys[k + 1] == xs[k + 2];
        }
      }
      ChainRuns(ys);
      FiresAsFire(xs[0], xs[1]);
      assert Last(ys) == Last(xs);
    }
  }

  /** From `c`, the next `n` timers fire one after the other, each the first
      of the earliest pending, and leave `w`. */
  ghost predicate Fires(c: Controller, n: nat, w: Controller) {
    exists xs: seq<Controller> :: |xs| == n + 1 && Chain(FiresAs, xs) && xs[0] == c && Last(xs) == w
  }

  /** Such a sequence of firings is what `Run` computes. */
  lemma FiresRun(c: Controller, n: nat, w: Controller)
    requires Fires(c, n, w)
    ensures Run(c, n) == w
  {
    var xs: seq<Controller> :| |xs| == n + 1 && Chain(FiresAs, xs) && xs[0] == c && Last(xs) == w;
    ChainRuns(xs);
  }
  // ---------------------------------------------------------------------------
  // The pairs of timers a batch of flips leaves
  // ---------------------------------------------------------------------------

  /** Per listed tile: the end of its flip and its completion, both due at
      `due`. An opening completes with an empty timer, a closing with the
      hiding of the active piece's neighbour image. */
  function PairTimers(r: int, a: int, ns: seq<int>, due: int, closing: bool): seq<Timer> {
    if |ns| == 0 then []
    else [Timer(due, ClearTransforming(r, ns[0])), Timer(due, if closing then RestoreNeighborDone(r, a, ns[0]) else FlipDone)]
         + PairTimers(r, a, ns[1..], due, closing)
  }

  lemma {:induction false} RestoreTimersArePairs(r: int, a: int, ns: seq<int>, due: int)
    ensures RestoreTimers(r, a, ns, due) == PairTimers(r, a, ns, due, true)
    decreases |ns|
  {
    if |ns| > 0 {
      RestoreTimersArePairs(r, a, ns[1..], due);
    }
  }

  lemma {:induction false} PairTimersDue(r: int, a: int, ns: seq<int>, due: int, closing: bool)
    ensures DueFrom(PairTimers(r, a, ns, due, closing), due)
    decreases |ns|
  {
    if |ns| > 0 {
      PairTimersDue(r, a, ns[1..], due, closing);
      DueFromAppend([Timer(due, ClearTransforming(r, ns[0])),
                     Timer(due, if closing then RestoreNeighborDone(r, a, ns[0]) else FlipDone)],
                    PairTimers(r, a, ns[1..], due, closing), due);
    }
  }

  lemma {:induction false} RevealTimersDue(r: int, a: int, ns: seq<int>, due: int)
    ensures DueFrom(RevealTimers(r, a, ns, due), due)
    decreases |ns|
  {
    if |ns| > 0 {
      RevealTimersDue(r, a, ns[1..], due);
      DueFromAppend([Timer(due, RevealNeighbor(r, a, ns[0]))], RevealTimers(r, a, ns[1..], due), due);
    }
  }

  lemma InRowTail(g: seq<RowToggles>, h: seq<RowToggles>, r: int, ns: seq<int>)
    requires |ns| > 0 && InRow(g, r, ns) && SameShape(g, h)
    ensures ValidTile(g, r, ns[0]) && InRow(h, r, ns[1..])
  {
    assert ns[0] == ns[0];
    forall i | 0 <= i < |ns[1..]| ensures 0 <= ns[1..][i] < |h[r].slots| {
      assert ns[1..][i] == ns[i + 1];
    }
  }

  lemma InRowSameShape(g: seq<RowToggles>, h: seq<RowToggles>, r: int, ns: seq<int>)
    requires InRow(g, r, ns) && SameShape(g, h)
    ensures InRow(h, r, ns)
  {
  }

  // ---------------------------------------------------------------------------
  // The reveals of an opening
  // ---------------------------------------------------------------------------

  /** A reveal callback: the neighbour turns over to the active piece's
      image and registers the end of its flip and its completion. */
  lemma ApplyReveal(ctl: Controller, r: int, a: int, p: int)
    requires ValidTile(ctl.grid, r, p)
    ensures var tt := ctl.config.transitionTime;
            Apply(ctl, RevealNeighbor(r, a, p))
              == ctl.(grid := SetTile(ctl.grid, r, p, Revealed(Tile(ctl.grid, r, p), a)),
                      queue := ctl.queue + [Timer(ctl.now + tt, ClearTransforming(r, p)), Timer(ctl.now + tt, FlipDone)])
  {
    var t := HideBack(Tile(ctl.grid, r, p), a, false).(descriptionActive := false, notFlippable := true);
    SetTileTwice(ctl.grid, r, p, t, Flipped(t));
  }

  /** The end of a neighbour's flip and its completion, as a reveal
      registers them. */
  function RevealPair(r: int, p: int, due: int): seq<Timer> {
    [Timer(due, ClearTransforming(r, p)), Timer(due, FlipDone)]
  }

  /** The first pending reveal of `ns`, at time `d`, taken off the queue
      `RevealTimers(ns) + pre`: the tile turns over to the neighbour image of
      `a` and the end of its flip and its completion are registered. */
  function RevealNext(ctl: Controller, r: int, a: int, ns: seq<int>, pre: seq<Timer>, d: int): Controller
    requires |ns| > 0
  {
    if !ValidTile(ctl.grid, r, ns[0]) then ctl
    else
      ctl.(now := d, grid := SetTile(ctl.grid, r, ns[0], Revealed(Tile(ctl.grid, r, ns[0]), a)),
           queue := RevealTimers(r, a, ns[1..], d) + (pre + RevealPair(r, ns[0], d + ctl.config.transitionTime)))
  }

  /** The reveals of `ns` fired one after the other. */
  function RevealAll(ctl: Controller, r: int, a: int, ns: seq<int>, pre: seq<Timer>, d: int): Controller
    decreases |ns|
  {
    if |ns| == 0 then ctl
    else RevealAll(RevealNext(ctl, r, a, ns, pre, d), r, a, ns[1..],
                   pre + RevealPair(r, ns[0], d + ctl.config.transitionTime), d)
  }

  /** The first of the pending reveals is the timer that fires. */
  lemma RevealFires(ctl: Controller, r: int, a: int, ns: seq<int>, pre: seq<Timer>, d: int)
    requires |ns| > 0 && ValidTile(ctl.grid, r, ns[0]) && ctl.now <= d && DueFrom(pre, d)
    requires ctl.queue == RevealTimers(r, a, ns, d) + pre
    ensures FiresAs(ctl, RevealNext(ctl, r, a, ns, pre, d))
  {
    RevealTimersDue(r, a, ns, d);
    DueFromAppend(RevealTimers(r, a, ns, d), pre, d);
    assert ctl.queue[0] == Timer(d, RevealNeighbor(r, a, ns[0]));
    RevealNextApplies(ctl, r, a, ns, pre, d);
  }

  lemma RevealNextApplies(ctl: Controller, r: int, a: int, ns: seq<int>, pre: seq<Timer>, d: int)
    requires |ns| > 0 && ValidTile(ctl.grid, r, ns[0])
    requires ctl.queue == RevealTimers(r, a, ns, d) + pre
    ensures RevealNext(ctl, r, a, ns, pre, d)
              == Apply(ctl.(now := d, queue := ctl.queue[1..]), RevealNeighbor(r, a, ns[0]))
  {
    var rest := RevealTimers(r, a, ns[1..], d);
    assert ctl.queue[1..] == rest + pre;
    ApplyReveal(ctl.(now := d, queue := ctl.queue[1..]), r, a, ns[0]);
    AppendAssoc(rest, pre, RevealPair(r, ns[0], d + ctl.config.transitionTime));
  }

  /** The states passed through while the reveals of `ns` fire. */
  function RevealTrace(ctl: Controller, r: int, a: int, ns: seq<int>, pre: seq<Timer>, d: int): (xs: seq<Controller>)
    ensures |xs| == |ns| + 1 && xs[0] == ctl
    decreases |ns|
  {
    if |ns| == 0 then [ctl]
    else [ctl] + RevealTrace(RevealNext(ctl, r, a, ns, pre, d), r, a, ns[1..],
                             pre + RevealPair(r, ns[0], d + ctl.config.transitionTime), d)
  }

  /** One reveal fires, and the rest are still at the head of the queue. */
  lemma RevealOnce(ctl: Controller, r: int, a: int, ns: seq<int>, pre: seq<Timer>, d: int)
    requires |ns| > 0 && InRow(ctl.grid, r, ns)
    requires ctl.now <= d && DueFrom(pre, d) && 0 <= ctl.config.transitionTime
    requires ctl.queue == RevealTimers(r, a, ns, d) + pre
    ensures var c1 := RevealNext(ctl, r, a, ns, pre, d);
            var pre1 := pre + RevealPair(r, ns[0], d + ctl.config.transitionTime);
            && FiresAs(ctl, c1)
            && InRow(c1.grid, r, ns[1..]) && c1.now <= d && DueFrom(pre1, d)
            && 0 <= c1.config.transitionTime && c1.queue == RevealTimers(r, a, ns[1..], d) + pre1
  {
    var pair := RevealPair(r, ns[0], d + ctl.config.transitionTime);
    var c1 := RevealNext(ctl, r, a, ns, pre, d);
    InRowTail(ctl.grid, ctl.grid, r, ns);
    RevealFires(ctl, r, a, ns, pre, d);
    InRowTail(ctl.grid, c1.grid, r, ns);
    assert DueFrom(pair, d);
    DueFromAppend(pre, pair, d);
  }

  /** With the reveals at the head of the queue, firing runs them in order. */
  lemma {:induction false} RevealSteps(ctl: Controller, r: int, a: int, ns: seq<int>, pre: seq<Timer>, d: int)
    requires InRow(ctl.grid, r, ns)
    requires ctl.now <= d && DueFrom(pre, d) && 0 <= ctl.config.transitionTime
    requires ctl.queue == RevealTimers(r, a, ns, d) + pre
    ensures Chain(FiresAs, RevealTrace(ctl, r, a, ns, pre, d))
    decreases |ns|
  {
    if |ns| > 0 {
      var pre1 := pre + RevealPair(r, ns[0], d + ctl.config.transitionTime);
      var c1 := RevealNext(ctl, r, a, ns, pre, d);
      RevealOnce(ctl, r, a, ns, pre, d);
      RevealSteps(c1, r, a, ns[1..], pre1, d);
      var xs := RevealTrace(c1, r, a, ns[1..], pre1, d);
      ChainCons(FiresAs, ctl, xs);
    }
  }

  /** The reveals leave, in their place, one pair of timers per neighbour. */
  lemma {:induction false} RevealAllQueue(ctl: Controller, r: int, a: int, ns: seq<int>, pre: seq<Timer>, d: int)
    requires InRow(ctl.grid, r, ns)
    ensures |ns| > 0 ==>
              RevealAll(ctl, r, a, ns, pre, d).queue == pre + PairTimers(r, a, ns, d + ctl.config.transitionTime, false)
    decreases |ns|
  {
    if |ns| > 0 {
      var pair := RevealPair(r, ns[0], d + ctl.config.transitionTime);
      var c1 := RevealNext(ctl, r, a, ns, pre, d);
      InRowTail(ctl.grid, ctl.grid, r, ns);
      InRowTail(ctl.grid, c1.grid, r, ns);
      RevealAllQueue(c1, r, a, ns[1..], pre + pair, d);
      AppendAssoc(pre, pair, PairTimers(r, a, ns[1..], d + ctl.config.transitionTime, false));
    }
  }

  /** The reveal phase of an opening: each listed neighbour turns over to
      the active piece's image, and their pairs of timers queue up behind
      what was pending. */
  lemma RevealAllIs(ctl: Controller, r: int, a: int, ns: seq<int>, pre: seq<Timer>, d: int)
    requires InRow(ctl.grid, r, ns)
    requires ctl.queue == RevealTimers(r, a, ns, d) + pre
    ensures var c := RevealAll(ctl, r, a, ns, pre, d);
            c == ctl.(now := c.now, grid := c.grid, queue := c.queue)
    ensures RevealAll(ctl, r, a, ns, pre, d).now == if |ns| > 0 then d else ctl.now
    ensures RevealAll(ctl, r, a, ns, pre, d).grid == UpdateTiles(ctl.grid, r, ns, RevealStep(a))
    ensures RevealAll(ctl, r, a, ns, pre, d).queue == pre + PairTimers(r, a, ns, d + ctl.config.transitionTime, false)
  {
    RevealAllFrame(ctl, r, a, ns, pre, d);
    RevealAllGrid(ctl, r, a, ns, pre, d);
    RevealAllQueue(ctl, r, a, ns, pre, d);
    if |ns| == 0 {
      assert RevealTimers(r, a, ns, d) == [] && PairTimers(r, a, ns, d + ctl.config.transitionTime, false) == [];
      assert [] + pre == pre + [];
    }
  }

  /** The reveals change nothing but the clock, the grid and the queue. */
  lemma {:induction false} RevealAllFrame(ctl: Controller, r: int, a: int, ns: seq<int>, pre: seq<Timer>, d: int)
    requires InRow(ctl.grid, r, ns)
    ensures var c := RevealAll(ctl, r, a, ns, pre, d);
            && c == ctl.(now := c.now, grid := c.grid, queue := c.queue)
            && c.now == if |ns| > 0 then d else ctl.now
    decreases |ns|
  {
    if |ns| > 0 {
      var c1 := RevealNext(ctl, r, a, ns, pre, d);
      var pre1 := pre + RevealPair(r, ns[0], d + ctl.config.transitionTime);
      InRowTail(ctl.grid, c1.grid, r, ns);
      assert c1 == ctl.(now := d, grid := c1.grid, queue := c1.queue);
      RevealAllFrame(c1, r, a, ns[1..], pre1, d);
      assert RevealAll(ctl, r, a, ns, pre, d) == RevealAll(c1, r, a, ns[1..], pre1, d);
    }
  }

  /** The reveals turn the listed tiles over, one after the other. */
  lemma {:induction false} RevealAllGrid(ctl: Controller, r: int, a: int, ns: seq<int>, pre: seq<Timer>, d: int)
    requires InRow(ctl.grid, r, ns)
    ensures RevealAll(ctl, r, a, ns, pre, d).grid == UpdateTiles(ctl.grid, r, ns, RevealStep(a))
    decreases |ns|
  {
    if |ns| > 0 {
      var c1 := RevealNext(ctl, r, a, ns, pre, d);
      InRowTail(ctl.grid, c1.grid, r, ns);
      RevealAllGrid(c1, r, a, ns[1..], pre + RevealPair(r, ns[0], d + ctl.config.transitionTime), d);
      assert c1.grid == SetTile(ctl.grid, r, ns[0], ApplyStep(RevealStep(a), Tile(ctl.grid, r, ns[0])));
    }
  }

  // ---------------------------------------------------------------------------
  // The pairs of timers: end of flip, then completion
  // ---------------------------------------------------------------------------

  /** The completion timer of a neighbour's flip. */
  function Completion(r: int, a: int, p: int, closing: bool): Action {
    if closing then RestoreNeighborDone(r, a, p) else FlipDone
  }

  /** The unlock the last completion of a batch registers, if `k`
      completions make the batch. */
  function SettleIf(ctl: Controller, k: int, due: int): seq<Timer> {
    if k == ctl.config.piecesPerRow then [Timer(due + SettleDelay, Settle)] else []
  }

  /** The end of the first listed neighbour's flip fires at `e`. */
  function PairMid(ctl: Controller, r: int, a: int, ns: seq<int>, post: seq<Timer>, e: int, closing: bool): Controller
    requires |ns| > 0
  {
    if !ValidTile(ctl.grid, r, ns[0]) then ctl
    else
      ctl.(now := e, grid := SetTile(ctl.grid, r, ns[0], Tile(ctl.grid, r, ns[0]).(transforming := false)),
           queue := [Timer(e, Completion(r, a, ns[0], closing))] + (PairTimers(r, a, ns[1..], e, closing) + post))
  }

  /** Then its completion: counted, and on a closing the neighbour image is
      hidden again. */
  function PairEnd(ctl: Controller, r: int, a: int, ns: seq<int>, post: seq<Timer>, e: int, closing: bool): Controller
    requires |ns| > 0
  {
    if !ValidTile(ctl.grid, r, ns[0]) then ctl
    else
      var g := if closing then SetTile(ctl.grid, r, ns[0], HideBack(Tile(ctl.grid, r, ns[0]), a, true)) else ctl.grid;
      ctl.(now := e, grid := g, completeCounter := ctl.completeCounter + 1,
           queue := PairTimers(r, a, ns[1..], e, closing) + post + SettleIf(ctl, ctl.completeCounter + 1, e))
  }

  /** Every pair of `ns` fired, in order. */
  function PairsAll(ctl: Controller, r: int, a: int, ns: seq<int>, post: seq<Timer>, e: int, closing: bool): Controller
    decreases |ns|
  {
    if |ns| == 0 then ctl
    else PairsAll(PairEnd(PairMid(ctl, r, a, ns, post, e, closing), r, a, ns, post, e, closing),
                  r, a, ns[1..], post, e, closing)
  }

  /** The states passed through while the pairs of `ns` fire. */
  function PairTrace(ctl: Controller, r: int, a: int, ns: seq<int>, post: seq<Timer>, e: int, closing: bool)
    : (xs: seq<Controller>)
    ensures |xs| == 2 * |ns| + 1 && xs[0] == ctl
    decreases |ns|
  {
    if |ns| == 0 then [ctl]
    else
      var mid := PairMid(ctl, r, a, ns, post, e, closing);
      [ctl] + ([mid] + PairTrace(PairEnd(mid, r, a, ns, post, e, closing), r, a, ns[1..], post, e, closing))
  }

  /** The first pending end of flip is the timer that fires. */
  lemma PairMidFires(ctl: Controller, r: int, a: int, ns: seq<int>, post: seq<Timer>, e: int, closing: bool)
    requires |ns| > 0 && ValidTile(ctl.grid, r, ns[0]) && ctl.now <= e && DueFrom(post, e)
    requires ctl.queue == PairTimers(r, a, ns, e, closing) + post
    ensures FiresAs(ctl, PairMid(ctl, r, a, ns, post, e, closing))
  {
    PairHead(r, a, ns, post, e, closing);
  }

  /** The queue of pending pairs starts with the first neighbour's end of
      flip, and nothing in it is due before `e`. */
  lemma PairHead(r: int, a: int, ns: seq<int>, post: seq<Timer>, e: int, closing: bool)
    requires |ns| > 0 && DueFrom(post, e)
    ensures var q := PairTimers(r, a, ns, e, closing) + post;
            && |q| > 0 && q[0] == Timer(e, ClearTransforming(r, ns[0])) && DueFrom(q, e)
            && q[1..] == [Timer(e, Completion(r, a, ns[0], closing))] + (PairTimers(r, a, ns[1..], e, closing) + post)
  {
    var rest := PairTimers(r, a, ns[1..], e, closing);
    var pair := [Timer(e, ClearTransforming(r, ns[0])), Timer(e, Completion(r, a, ns[0], closing))];
    assert PairTimers(r, a, ns, e, closing) == pair + rest;
    PairTimersDue(r, a, ns, e, closing);
    DueFromAppend(PairTimers(r, a, ns, e, closing), post, e);
    AppendAssoc(pair, rest, post);
    assert (pair + rest + post)[1..] == [pair[1]] + (rest + post);
  }

  /** Then its completion fires. */
  lemma PairEndFires(ctl: Controller, r: int, a: int, ns: seq<int>, post: seq<Timer>, e: int, closing: bool)
    requires |ns| > 0 && ValidTile(ctl.grid, r, ns[0]) && ctl.now <= e && DueFrom(post, e)
    requires ctl.queue == [Timer(e, Completion(r, a, ns[0], closing))] + (PairTimers(r, a, ns[1..], e, closing) + post)
    ensures FiresAs(ctl, PairEnd(ctl, r, a, ns, post, e, closing))
  {
    var rest := PairTimers(r, a, ns[1..], e, closing);
    PairTimersDue(r, a, ns[1..], e, closing);
    DueFromAppend(rest, post, e);
    DueFromAppend([Timer(e, Completion(r, a, ns[0], closing))], rest + post, e);
    assert ctl.queue[1..] == rest + post;
  }

  /** One pair fires; the rest are still at the head of the queue. */
  lemma PairOnce(ctl: Controller, r: int, a: int, ns: seq<int>, post: seq<Timer>, e: int, closing: bool)
    requires |ns| > 0 && InRow(ctl.grid, r, ns) && ctl.now <= e && DueFrom(post, e)
    requires ctl.queue == PairTimers(r, a, ns, e, closing) + post
    requires ctl.completeCounter + |ns| <= ctl.config.piecesPerRow
    ensures var mid := PairMid(ctl, r, a, ns, post, e, closing);
            var c1 := PairEnd(mid, r, a, ns, post, e, closing);
            && FiresAs(ctl, mid) && FiresAs(mid, c1)
            && InRow(c1.grid, r, ns[1..]) && c1.now <= e && c1.config == ctl.config
            && c1.completeCounter == ctl.completeCounter + 1
            && (|ns| > 1 ==> c1.queue == PairTimers(r, a, ns[1..], e, closing) + post)
  {
    var mid := PairMid(ctl, r, a, ns, post, e, closing);
    var c1 := PairEnd(mid, r, a, ns, post, e, closing);
    InRowTail(ctl.grid, ctl.grid, r, ns);
    PairMidFires(ctl, r, a, ns, post, e, closing);
    PairEndFires(mid, r, a, ns, post, e, closing);
    InRowTail(ctl.grid, c1.grid, r, ns);
    if |ns| > 1 {
      assert SettleIf(mid, mid.completeCounter + 1, e) == [];
      assert PairTimers(r, a, ns[1..], e, closing) + post + [] == PairTimers(r, a, ns[1..], e, closing) + post;
    }
  }

  /** With the pairs at the head of the queue, firing runs them in order. */
  lemma {:induction false} PairSteps(ctl: Controller, r: int, a: int, ns: seq<int>, post: seq<Timer>, e: int, closing: bool)
    requires InRow(ctl.grid, r, ns) && ctl.now <= e && DueFrom(post, e)
    requires |ns| > 0 ==> ctl.queue == PairTimers(r, a, ns, e, closing) + post
    requires ctl.completeCounter + |ns| <= ctl.config.piecesPerRow
    ensures Chain(FiresAs, PairTrace(ctl, r, a, ns, post, e, closing))
    decreases |ns|
  {
    if |ns| > 0 {
      var mid := PairMid(ctl, r, a, ns, post, e, closing);
      var c1 := PairEnd(mid, r, a, ns, post, e, closing);
      PairOnce(ctl, r, a, ns, post, e, closing);
      PairSteps(c1, r, a, ns[1..], post, e, closing);
      var xs := PairTrace(c1, r, a, ns[1..], post, e, closing);
      ChainCons(FiresAs, mid, xs);
      ChainCons(FiresAs, ctl, [mid] + xs);
    }
  }

  /** The tile update a pair makes: the end of the flip, and on a closing
      the hiding of the neighbour image. */
  function PairStep(a: int, closing: bool): TileStep {
    if closing then ClearHideStep(a) else ClearStep
  }

  /** The pairs turn off every listed neighbour's flip mark, count one
      completion each, and touch nothing else but the clock and the queue. */
  lemma {:induction false} PairsAllIs(ctl: Controller, r: int, a: int, ns: seq<int>, post: seq<Timer>, e: int, closing: bool)
    requires InRow(ctl.grid, r, ns)
    ensures var c := PairsAll(ctl, r, a, ns, post, e, closing);
            c == ctl.(now := c.now, grid := c.grid, completeCounter := c.completeCounter, queue := c.queue)
    ensures PairsAll(ctl, r, a, ns, post, e, closing).now == if |ns| > 0 then e else ctl.now
    ensures PairsAll(ctl, r, a, ns, post, e, closing).grid == UpdateTiles(ctl.grid, r, ns, PairStep(a, closing))
    ensures PairsAll(ctl, r, a, ns, post, e, closing).completeCounter == ctl.completeCounter + |ns|
    decreases |ns|
  {
    if |ns| > 0 {
      var p := ns[0];
      var mid := PairMid(ctl, r, a, ns, post, e, closing);
      var c1 := PairEnd(mid, r, a, ns, post, e, closing);
      InRowTail(ctl.grid, ctl.grid, r, ns);
      InRowTail(ctl.grid, c1.grid, r, ns);
      PairsAllIs(c1, r, a, ns[1..], post, e, closing);
      var t := Tile(ctl.grid, r, p).(transforming := false);
      if closing {
        SetTileTwice(ctl.grid, r, p, t, HideBack(t, a, true));
      }
      assert c1.grid == SetTile(ctl.grid, r, p, ApplyStep(PairStep(a, closing), Tile(ctl.grid, r, p)));
    }
  }

  /** After the last pair only what followed the pairs is left, and the
      unlock when the pairs complete the batch. */
  lemma {:induction false} PairsAllQueue(ctl: Controller, r: int, a: int, ns: seq<int>, post: seq<Timer>, e: int, closing: bool)
    requires |ns| > 0 && InRow(ctl.grid, r, ns)
    ensures PairsAll(ctl, r, a, ns, post, e, closing).queue
              == post + SettleIf(ctl, ctl.completeCounter + |ns|, e)
    decreases |ns|
  {
    var mid := PairMid(ctl, r, a, ns, post, e, closing);
    var c1 := PairEnd(mid, r, a, ns, post, e, closing);
    InRowTail(ctl.grid, ctl.grid, r, ns);
    InRowTail(ctl.grid, c1.grid, r, ns);
    if |ns| > 1 {
      PairsAllQueue(c1, r, a, ns[1..], post, e, closing);
    } else {
      assert PairTimers(r, a, ns[1..], e, closing) == [];
    }
  }

  lemma {:induction false} PairTraceLast(ctl: Controller, r: int, a: int, ns: seq<int>, post: seq<Timer>, e: int, closing: bool)
    ensures Last(PairTrace(ctl, r, a, ns, post, e, closing)) == PairsAll(ctl, r, a, ns, post, e, closing)
    decreases |ns|
  {
    if |ns| > 0 {
      var mid := PairMid(ctl, r, a, ns, post, e, closing);
      var c1 := PairEnd(mid, r, a, ns, post, e, closing);
      PairTraceLast(c1, r, a, ns[1..], post, e, closing);
      var xs := PairTrace(c1, r, a, ns[1..], post, e, closing);
      assert Last([ctl] + ([mid] + xs)) == Last(xs);
    }
  }

  lemma {:induction false} RevealTraceLast(ctl: Controller, r: int, a: int, ns: seq<int>, pre: seq<Timer>, d: int)
    ensures Last(RevealTrace(ctl, r, a, ns, pre, d)) == RevealAll(ctl, r, a, ns, pre, d)
    decreases |ns|
  {
    if |ns| > 0 {
      var pre1 := pre + RevealPair(r, ns[0], d + ctl.config.transitionTime);
      var c1 := RevealNext(ctl, r, a, ns, pre, d);
      RevealTraceLast(c1, r, a, ns[1..], pre1, d);
      var xs := RevealTrace(c1, r, a, ns[1..], pre1, d);
      assert Last([ctl] + xs) == Last(xs);
    }
  }
}
