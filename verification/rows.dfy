/** The rows factory: turns the portfolio's ordered list of pieces into
    per-layout rows (2 and 3 pieces per row, plus the one-per-row mobile list),
    after splitting every piece's images into a primary image and secondary
    images and looking up the neighbour images each tile shows on its back. */
module Rows {
  import opened Wrappers

  /** One image record of the data source: its `src` and the extra data
      (alt text, ...) that sorting strips off. */
  datatype RawImage = RawImage(src: string, alt: string)

  /** A portfolio piece as delivered by the data source; `content` stands for
      every attribute other than the images (title, description, ...), which
      the factory carries along untouched. */
  datatype RawPiece = RawPiece(content: string, images: seq<RawImage>)

  /** A piece after sorting: images reduced to their sources, and the primary
      image (the `primary_img` property, absent when there are no images). */
  datatype SortedPiece = SortedPiece(content: string, images: seq<string>, primaryImg: Option<string>)

  datatype Position = Left | Center | Right

  /** A neighbour entry: normally an image source, but when the neighbour
      piece does not exist the raw neighbour index itself is stored. */
  datatype Neighbor = Img(src: string) | Index(i: int)

  /** The two slots of `nbr_imgs_3_row`; either may be a hole. */
  datatype NbrSlots = NbrSlots(slot0: Option<Neighbor>, slot1: Option<Neighbor>)

  /** A piece after the neighbour pass. */
  datatype Piece = Piece(sorted: SortedPiece, rowPosition: Position,
                         nbrImgs3: NbrSlots, nbrImgs2: Option<Neighbor>)

  /** The per-tile record of CSS class flags (the `toggles` constructor). */
  datatype Toggle = Toggle(
    transform: bool,
    transforming: bool,
    frontHover: bool,
    descriptionActive: bool,
    noFlipHelp: bool,
    notFlippable: bool,
    frontSwapped: bool,
    backSwapped: bool,
    showMoreActive: bool,
    fade: bool,
    hidePrimaryImg: bool,
    hideBackNbrImg0: bool,
    hideBackNbrImg1: bool,
    hideBackNbrImg2: bool,
    hideFrontNbrImg0: bool,
    hideFrontNbrImg1: bool,
    hideFrontNbrImg2: bool)

  /** A row's `toggles` array: one record per slot, plus its `active_row` flag. */
  datatype RowToggles = RowToggles(slots: seq<Toggle>, activeRow: bool)

  datatype Row = Row(pieces: seq<Piece>, toggles: RowToggles)

  /** The `rows` object: `ppr_1` (mobile copies), `ppr_2` and `ppr_3`. */
  datatype Layouts = Layouts(ppr1: seq<SortedPiece>, ppr2: seq<Row>, ppr3: seq<Row>)

  /** The row counts `createRows` writes into the global config. */
  datatype RowCounts = RowCounts(
    ppr1RowCount: int, ppr1RowCountZero: int,
    ppr2RowCount: int, ppr2RowCountZero: int,
    ppr3RowCount: int, ppr3RowCountZero: int,
    rowCount: int, rowCountZero: int)

  // ---------------------------------------------------------------------------
  // sortData
  // ---------------------------------------------------------------------------

  datatype SortedData = SortedData(
    portfolio: seq<SortedPiece>,
    allImages: seq<string>,
    primaryImages: seq<Option<string>>,
    secondaryImages: seq<seq<string>>,
    mobileRows: seq<SortedPiece>)

  /** The image records reduced to their sources. */
  function Srcs(images: seq<RawImage>): (r: seq<string>)
    ensures |r| == |images|
    ensures forall i :: 0 <= i < |images| ==> r[i] == images[i].src
  {
    seq(|images|, i requires 0 <= i < |images| => images[i].src)
  }

  /** Reference definition: every piece's image sources, concatenated in order. */
  function AllSrcs(portfolio: seq<RawPiece>): seq<string> {
    if |portfolio| == 0 then [] else Srcs(portfolio[0].images) + AllSrcs(portfolio[1..])
  }

  lemma {:induction false} AllSrcsSnoc(portfolio: seq<RawPiece>, last: RawPiece)
    ensures AllSrcs(portfolio + [last]) == AllSrcs(portfolio) + Srcs(last.images)
    decreases |portfolio|
  {
    if |portfolio| == 0 {
      assert [last][1..] == [];
    } else {
      assert (portfolio + [last])[1..] == portfolio[1..] + [last];
      AllSrcsSnoc(portfolio[1..], last);
    }
  }

  /** JavaScript `arr[i] = v` on an array: an index past the end extends the
      array, leaving holes (`undefined`) in between. */
  function ArraySet<T>(arr: seq<Option<T>>, i: nat, v: T): (r: seq<Option<T>>)
    ensures |r| == (if i < |arr| then |arr| else i + 1)
    ensures r[i] == Some(v)
    ensures forall j :: 0 <= j < |r| && j != i ==> r[j] == (if j < |arr| then arr[j] else None)
  {
    if i < |arr| then arr[i := Some(v)]
    else arr + seq(i - |arr|, _ => None) + [Some(v)]
  }

  /** The piece with its images reduced to sources and its primary image set. */
  function SortPiece(raw: RawPiece): SortedPiece {
    var srcs := Srcs(raw.images);
    SortedPiece(raw.content, srcs, if |srcs| > 0 then Some(srcs[0]) else None)
  }

  /** `sortData`: one pass over the pieces building the sorted pieces, the list
      of all images, the (holey) primary image array, the secondary image lists
      and the mobile copies. The mobile copy is taken before `primary_img` is
      assigned, so it carries no primary image. */
  function SortData(portfolio: seq<RawPiece>): (d: SortedData)
    ensures |d.portfolio| == |portfolio| && |d.secondaryImages| == |portfolio|
    ensures |d.mobileRows| == |portfolio| && |d.primaryImages| <= |portfolio|
    decreases |portfolio|
  {
    if |portfolio| == 0 then SortedData([], [], [], [], [])
    else
      var p := |portfolio| - 1;
      var raw := portfolio[p];
      var d := SortData(portfolio[..p]);
      var srcs := Srcs(raw.images);
      SortedData(
        d.portfolio + [SortPiece(raw)],
        d.allImages + srcs,
        if |srcs| > 0 then ArraySet(d.primaryImages, p, srcs[0]) else d.primaryImages,
        d.secondaryImages + [if |srcs| > 0 then srcs[1..] else []],
        d.mobileRows + [SortedPiece(raw.content, srcs, None)])
  }

  /** Piece `p` of the sorted data against its raw piece: the sources replace
      the image records, the first becomes the primary image and the rest,
      in order, the secondary images; the mobile copy has the sources but no
      primary image. */
  predicate SortedAt(raw: RawPiece, d: SortedData, p: nat)
    requires p < |d.portfolio| && p < |d.mobileRows| && p < |d.secondaryImages|
  {
    && d.portfolio[p].content == raw.content
    && d.portfolio[p].images == Srcs(raw.images)
    && d.mobileRows[p] == d.portfolio[p].(primaryImg := None)
    && (|raw.images| > 0 ==>
          && d.portfolio[p].primaryImg == Some(raw.images[0].src)
          && [raw.images[0].src] + d.secondaryImages[p] == d.portfolio[p].images)
    && (|raw.images| == 0 ==> d.portfolio[p].primaryImg == None && d.secondaryImages[p] == [])
  }

  /** Every piece is sorted as `SortedAt` says. */
  lemma {:induction false} SortDataPieces(portfolio: seq<RawPiece>)
    ensures var d := SortData(portfolio);
            forall p :: 0 <= p < |portfolio| ==> SortedAt(portfolio[p], d, p)
    decreases |portfolio|
  {
    if |portfolio| > 0 {
      var n := |portfolio| - 1;
      SortDataPieces(portfolio[..n]);
      forall p | 0 <= p < |portfolio| ensures SortedAt(portfolio[p], SortData(portfolio), p) {
        if p < n {
          SortDataKeeps(portfolio, p);
        } else {
          SortDataLast(portfolio);
        }
      }
    }
  }

  /** The pieces before the last are sorted as they were without it. */
  lemma {:induction false} SortDataKeeps(portfolio: seq<RawPiece>, p: nat)
    requires p < |portfolio| - 1
    requires SortedAt(portfolio[..|portfolio| - 1][p], SortData(portfolio[..|portfolio| - 1]), p)
    ensures SortedAt(portfolio[p], SortData(portfolio), p)
  {
    var n := |portfolio| - 1;
    var d := SortData(portfolio);
    var d' := SortData(portfolio[..n]);
    assert d.portfolio[p] == d'.portfolio[p] && d.mobileRows[p] == d'.mobileRows[p];
    assert d.secondaryImages[p] == d'.secondaryImages[p];
    assert portfolio[..n][p] == portfolio[p];
  }

  /** The last piece is sorted by the last step. */
  lemma {:induction false} SortDataLast(portfolio: seq<RawPiece>)
    requires |portfolio| > 0
    ensures SortedAt(portfolio[|portfolio| - 1], SortData(portfolio), |portfolio| - 1)
  {
    var srcs := Srcs(portfolio[|portfolio| - 1].images);
    if |srcs| > 0 {
      assert [srcs[0]] + srcs[1..] == srcs;
    }
  }

  /** `all_images` is the in-order concatenation of every piece's sources. */
  lemma {:induction false} SortDataAllImages(portfolio: seq<RawPiece>)
    ensures SortData(portfolio).allImages == AllSrcs(portfolio)
    decreases |portfolio|
  {
    if |portfolio| > 0 {
      var n := |portfolio| - 1;
      SortDataAllImages(portfolio[..n]);
      AllSrcsSnoc(portfolio[..n], portfolio[n]);
      assert portfolio[..n] + [portfolio[n]] == portfolio;
    }
  }

  /** `primary_images` has piece `p`'s primary image at index `p`, a hole for a
      piece without images, and ends at the last piece that has images. */
  lemma {:induction false} SortDataPrimaryImages(portfolio: seq<RawPiece>)
    ensures var d := SortData(portfolio);
            && (forall p :: 0 <= p < |d.primaryImages| ==>
                  d.primaryImages[p] ==
                    (if |portfolio[p].images| > 0 then Some(portfolio[p].images[0].src) else None))
            && (forall p :: |d.primaryImages| <= p < |portfolio| ==> portfolio[p].images == [])
    decreases |portfolio|
  {
    if |portfolio| > 0 {
      var n := |portfolio| - 1;
      SortDataPrimaryImages(portfolio[..n]);
      var d := SortData(portfolio);
      var d' := SortData(portfolio[..n]);
      forall p | 0 <= p < |d.primaryImages|
        ensures d.primaryImages[p] ==
                  (if |portfolio[p].images| > 0 then Some(portfolio[p].images[0].src) else None)
      {
        if p < n {
          assert portfolio[..n][p] == portfolio[p];
          if p >= |d'.primaryImages| {
            assert portfolio[..n][p].images == [];
          }
        }
      }
      forall p | |d.primaryImages| <= p < |portfolio|
        ensures portfolio[p].images == []
      {
        assert |d'.primaryImages| <= |d.primaryImages|;
        if p < n {
          assert portfolio[..n][p] == portfolio[p];
        }
      }
    }
  }

  // ---------------------------------------------------------------------------
  // addNeighborImages
  // ---------------------------------------------------------------------------

  /** `secondary_images[idx][k]` behind the `typeof ... != 'undefined'` check:
      a missing neighbour piece leaves the raw index; a missing image is
      `undefined`. */
  function Lookup(sec: seq<seq<string>>, idx: int, k: nat): Option<Neighbor> {
    if 0 <= idx < |sec| then
      (if k < |sec[idx]| then Some(Img(sec[idx][k])) else None)
    else Some(Index(idx))
  }

  /** JavaScript truthiness of a neighbour value. */
  predicate Truthy(v: Option<Neighbor>) {
    match v
    case None => false
    case Some(Img(s)) => s != ""
    case Some(Index(i)) => i != 0
  }

  /** `if (neighbor) list[k] = neighbor`: a falsy value leaves a hole. */
  function Kept(v: Option<Neighbor>): Option<Neighbor> {
    if Truthy(v) then v else None
  }

  /** The 3-per-row lookup, keyed by `p mod 3`. */
  function Neighbors3(sec: seq<seq<string>>, p: nat): (Position, NbrSlots) {
    var m := p % 3;
    if m == 0 then
      (Left, NbrSlots(Kept(Lookup(sec, p + 1, 0)), Kept(Lookup(sec, p + 2, 0))))
    else if m == 1 then
      (Center, NbrSlots(Kept(Lookup(sec, p - 1, 0)), Kept(Lookup(sec, p + 1, 1))))
    else
      (Right, NbrSlots(Kept(Lookup(sec, p - 2, 1)), Kept(Lookup(sec, p - 1, 1))))
  }

  /** The 2-per-row lookup, keyed by `p mod 2`. */
  function Neighbors2(sec: seq<seq<string>>, p: nat): (Position, Option<Neighbor>) {
    if p % 2 == 0 then (Left, Kept(Lookup(sec, p + 1, 0)))
    else (Right, Kept(Lookup(sec, p - 1, 0)))
  }

  /** The neighbour pass for piece `p`; the 2-per-row pass runs second and
      overwrites the row position the 3-per-row pass assigned. */
  function AddNeighbors(piece: SortedPiece, sec: seq<seq<string>>, p: nat): Piece {
    var (pos3, nbr3) := Neighbors3(sec, p);
    var afterThree := Piece(piece, pos3, nbr3, None);
    var (pos2, nbr2) := Neighbors2(sec, p);
    afterThree.(rowPosition := pos2, nbrImgs2 := nbr2)
  }

  /** `addNeighborImages`. */
  function AddNeighborImages(pieces: seq<SortedPiece>, sec: seq<seq<string>>): (r: seq<Piece>)
    ensures |r| == |pieces|
    ensures forall p :: 0 <= p < |pieces| ==> r[p].sorted == pieces[p]
    ensures forall p :: 0 <= p < |pieces| ==> r[p].rowPosition == (if p % 2 == 0 then Left else Right)
    ensures forall p :: 0 <= p < |pieces| ==>
              r[p].nbrImgs3 == Neighbors3(sec, p).1 && r[p].nbrImgs2 == Neighbors2(sec, p).1
  {
    seq(|pieces|, p requires 0 <= p < |pieces| => AddNeighbors(pieces[p], sec, p))
  }

  /** Image `k` of piece `q`'s secondary images, if it has one. */
  function SecondaryAt(sec: seq<seq<string>>, q: nat, k: nat): Option<Neighbor>
    requires q < |sec|
  {
    if k < |sec[q]| then Some(Img(sec[q][k])) else None
  }

  function Slot(s: NbrSlots, k: nat): Option<Neighbor> {
    if k == 0 then s.slot0 else s.slot1
  }

  /** Piece `3k + j` stands in row `k`, slot `j`, and is even exactly when `j`
      and `k` have the same parity. */
  lemma RowOfThree(k: nat, j: nat)
    requires j < 3
    ensures (3 * k + j) / 3 == k && (3 * k + j) % 3 == j
    ensures ((3 * k + j) % 2 == 0) == (j % 2 == k % 2)
  {
  }

  /** In a complete row `k` of three, the piece in slot `j` has the position of
      that slot, and its neighbour slot for the row-mate in slot `i` (slot 0 for
      its leftmost mate, slot 1 for the other) holds that mate's secondary
      image whose index is `j`'s rank among the mate's own mates: each piece
      hands its first secondary image to its leftmost mate and its second to
      the other. */
  lemma RowMates3(sec: seq<seq<string>>, k: nat, j: nat, i: nat)
    requires j < 3 && i < 3 && i != j && 3 * k + 3 <= |sec|
    ensures Neighbors3(sec, 3 * k + j).0 == [Left, Center, Right][j]
    ensures Slot(Neighbors3(sec, 3 * k + j).1, if i < j then i else i - 1)
              == Kept(SecondaryAt(sec, 3 * k + i, if j < i then j else j - 1))
  {
    RowOfThree(k, j);
  }

  /** In a complete row `k` of two, the piece in slot `j` is on the left or the
      right accordingly and shows its mate's first secondary image. */
  lemma RowMates2(sec: seq<seq<string>>, k: nat, j: nat)
    requires j < 2 && 2 * k + 2 <= |sec|
    ensures Neighbors2(sec, 2 * k + j).0 == [Left, Right][j]
    ensures Neighbors2(sec, 2 * k + j).1 == Kept(SecondaryAt(sec, 2 * k + 1 - j, 0))
  {
    assert (2 * k + j) % 2 == j;
  }

  /** A neighbour slot holds a raw index exactly when its neighbour piece is
      past the end of the list: a missing forward neighbour of a short last
      row is stored as its (truthy) index instead of being left out. */
  lemma MissingNeighborKeepsIndex(sec: seq<seq<string>>, p: nat)
    requires p < |sec|
    ensures var s := Neighbors3(sec, p).1;
            && (p % 3 == 0 && p + 1 >= |sec| ==> s.slot0 == Some(Index(p + 1)))
            && (p % 3 == 0 && p + 2 >= |sec| ==> s.slot1 == Some(Index(p + 2)))
            && (p % 3 == 1 && p + 1 >= |sec| ==> s.slot1 == Some(Index(p + 1)))
            && (s.slot0.Some? && s.slot0.value.Index? ==> s.slot0.value.i >= |sec|)
            && (s.slot1.Some? && s.slot1.value.Index? ==> s.slot1.value.i >= |sec|)
    ensures var n := Neighbors2(sec, p).1;
            && (p % 2 == 0 && p + 1 >= |sec| ==> n == Some(Index(p + 1)))
            && (n.Some? && n.value.Index? ==> n.value.i >= |sec|)
  {
  }

  /** A neighbour without the required secondary image is skipped, which can
      leave slot 0 a hole while slot 1 is filled. */
  lemma SkippedNeighborLeavesHole()
    ensures Neighbors3([[], [], ["x", "y"]], 1).1 == NbrSlots(None, Some(Img("y")))
  {
  }

  // ---------------------------------------------------------------------------
  // rowSplitter / createRows
  // ---------------------------------------------------------------------------

  /** `new toggles()`: every flag off except the neighbour-image hiding flags. */
  function NewToggles(): Toggle {
    Toggle(false, false, false, false, false, false, false, false, false, false, false,
           true, true, true, true, true, true)
  }

  /** A record in its resting state: no flip, no description, not faded, every
      neighbour image hidden. */
  predicate AtRest(t: Toggle) {
    && !t.transform && !t.transforming && !t.descriptionActive && !t.showMoreActive
    && !t.notFlippable && !t.fade
    && t.hideBackNbrImg0 && t.hideBackNbrImg1 && t.hideBackNbrImg2
  }

  lemma NewTogglesAtRest()
    ensures AtRest(NewToggles())
    ensures !NewToggles().frontHover && !NewToggles().noFlipHelp && !NewToggles().hidePrimaryImg
    ensures NewToggles().hideFrontNbrImg0 && NewToggles().hideFrontNbrImg1 && NewToggles().hideFrontNbrImg2
  {
  }

  function Min(a: int, b: int): int {
    if a <= b then a else b
  }

  /** `rowSplitter`: splice up to `c` pieces off the front (they leave the list
      whether or not a row results); a row is returned only when exactly `c`
      pieces were taken. */
  function RowSplitter(pieces: seq<Piece>, c: nat): (r: (seq<Piece>, Option<Row>))
    ensures r.0 == pieces[Min(c, |pieces|)..]
    ensures r.1.Some? <==> c <= |pieces|
    ensures r.1.Some? ==>
              && r.1.value.pieces + r.0 == pieces
              && |r.1.value.pieces| == c
              && |r.1.value.toggles.slots| == c
              && (forall t :: 0 <= t < c ==> r.1.value.toggles.slots[t] == NewToggles())
              && !r.1.value.toggles.activeRow
  {
    var taken := Min(c, |pieces|);
    var newRow := pieces[..taken];
    var rest := pieces[taken..];
    if |newRow| == c then
      assert newRow + rest == pieces;
      (rest, Some(Row(newRow, RowToggles(seq(c, _ => NewToggles()), false))))
    else (rest, None)
  }

  /** The splitting loop of `createRows` for one layout: `iterations` calls of
      `rowSplitter`, each on what the previous calls left. */
  function SplitRows(pieces: seq<Piece>, c: nat, iterations: nat): seq<Row>
    decreases iterations
  {
    if iterations == 0 then []
    else
      var (rest, row) := RowSplitter(pieces, c);
      (if row.Some? then [row.value] else []) + SplitRows(rest, c, iterations - 1)
  }

  /** A freshly built row: `c` pieces, `c` new toggle records, not active. */
  predicate FreshRow(row: Row, c: nat) {
    && |row.toggles.slots| == c
    && (forall t :: 0 <= t < c ==> row.toggles.slots[t] == NewToggles())
    && !row.toggles.activeRow
  }

  lemma {:induction false} SplitEmpty(c: nat, iterations: nat)
    requires c > 0
    ensures SplitRows([], c, iterations) == []
    decreases iterations
  {
    if iterations > 0 {
      SplitEmpty(c, iterations - 1);
    }
  }

  /** `m` rows of `c` pieces: the offset of row `m` (kept as a recursive sum so
      that the proofs below stay within linear arithmetic). */
  function Times(m: nat, c: nat): nat {
    if m == 0 then 0 else Times(m - 1, c) + c
  }

  lemma {:induction false} TimesLiteral(m: nat, c: nat)
    requires c == 2 || c == 3
    ensures Times(m, c) == c * m
  {
    if m > 0 {
      TimesLiteral(m - 1, c);
    }
  }

  lemma SliceOfSuffix<T>(s: seq<T>, d: nat, a: nat, len: nat)
    requires d + a + len <= |s|
    ensures s[d..][a .. a + len] == s[d + a .. d + a + len]
  {
  }

  /** With at least |pieces| iterations, the loop yields as many rows as fit:
      the pieces left over are fewer than `c`. */
  lemma {:induction false} SplitRowsCount(pieces: seq<Piece>, c: nat, iterations: nat)
    requires c > 0 && iterations >= |pieces|
    ensures var rows := SplitRows(pieces, c, iterations);
            Times(|rows|, c) <= |pieces| < Times(|rows|, c) + c
    decreases iterations
  {
    if |pieces| < c {
      if iterations > 0 {
        SplitEmpty(c, iterations - 1);
      }
    } else {
      SplitRowsCount(pieces[c..], c, iterations - 1);
      var _ := SplitRowsCons(pieces, c, iterations);
    }
  }

  /** Row `k` of the loop's result holds the `c` consecutive pieces starting at
      `k * c`, in order. */
  lemma {:induction false} SplitRowsChunk(pieces: seq<Piece>, c: nat, iterations: nat, k: nat)
    requires c > 0 && k < |SplitRows(pieces, c, iterations)|
    ensures Times(k, c) + c <= |pieces|
    ensures SplitRows(pieces, c, iterations)[k].pieces == pieces[Times(k, c) .. Times(k, c) + c]
    decreases iterations
  {
    if c <= |pieces| {
      var row := SplitRowsCons(pieces, c, iterations);
      if k > 0 {
        var rest := pieces[c..];
        SplitRowsChunk(rest, c, iterations - 1, k - 1);
        ChunkShift(pieces, c, SplitRows(rest, c, iterations - 1)[k - 1].pieces, k - 1);
      }
    } else {
      SplitEmpty(c, iterations - 1);
    }
  }

  /** One iteration with enough pieces yields a row of the first `c` pieces. */
  lemma SplitRowsCons(pieces: seq<Piece>, c: nat, iterations: nat) returns (row: Row)
    requires c <= |pieces| && iterations > 0
    ensures row.pieces == pieces[..c]
    ensures SplitRows(pieces, c, iterations) == [row] + SplitRows(pieces[c..], c, iterations - 1)
  {
    row := RowSplitter(pieces, c).1.value;
  }

  /** A chunk of the pieces after the first row is a chunk of the whole list,
      one row further on. */
  lemma ChunkShift(pieces: seq<Piece>, c: nat, chunk: seq<Piece>, j: nat)
    requires c <= |pieces|
    requires Times(j, c) + c <= |pieces| - c
    requires chunk == pieces[c..][Times(j, c) .. Times(j, c) + c]
    ensures Times(j + 1, c) + c <= |pieces|
    ensures chunk == pieces[Times(j + 1, c) .. Times(j + 1, c) + c]
  {
    SliceOfSuffix(pieces, c, Times(j, c), c);
  }

  /** Every row the loop yields carries `c` fresh toggle records and an
      inactive row flag. */
  lemma {:induction false} SplitRowsFresh(pieces: seq<Piece>, c: nat, iterations: nat)
    ensures forall k :: 0 <= k < |SplitRows(pieces, c, iterations)| ==>
              FreshRow(SplitRows(pieces, c, iterations)[k], c)
    decreases iterations
  {
    if iterations > 0 {
      var (rest, row) := RowSplitter(pieces, c);
      SplitRowsFresh(rest, c, iterations - 1);
      var rows := SplitRows(pieces, c, iterations);
      var tail := SplitRows(rest, c, iterations - 1);
      assert rows == (if row.Some? then [row.value] else []) + tail;
    }
  }

  /** The row layout for a literal row size, in plain arithmetic. */
  lemma SplitRowsLiteral(pieces: seq<Piece>, c: nat)
    requires c == 2 || c == 3
    ensures var rows := SplitRows(pieces, c, |pieces|);
            && |rows| == |pieces| / c
            && forall k :: 0 <= k < |rows| ==>
                 && c * k + c <= |pieces|
                 && rows[k].pieces == pieces[c * k .. c * k + c]
                 && FreshRow(rows[k], c)
  {
    var rows := SplitRows(pieces, c, |pieces|);
    SplitRowsCount(pieces, c, |pieces|);
    SplitRowsFresh(pieces, c, |pieces|);
    TimesLiteral(|rows|, c);
    forall k | 0 <= k < |rows|
      ensures c * k + c <= |pieces| && rows[k].pieces == pieces[c * k .. c * k + c]
    {
      SplitRowsChunk(pieces, c, |pieces|, k);
      TimesLiteral(k, c);
    }
  }

  /** `createRows`: split the 2- and 3-per-row layouts from their own copies
      of the pieces, keep the mobile copies as the 1-per-row layout, and
      compute the row counts (`row_count` follows the configured layout, the
      3-per-row one for anything but 2). */
  function CreateRows(portfolio: seq<Piece>, mobileRows: seq<SortedPiece>, piecesPerRow: int)
    : (r: (Layouts, RowCounts))
    ensures r.0.ppr1 == mobileRows
    ensures |r.0.ppr2| == |portfolio| / 2 && |r.0.ppr3| == |portfolio| / 3
    ensures forall k :: 0 <= k < |r.0.ppr2| ==>
              2 * k + 2 <= |portfolio| && r.0.ppr2[k].pieces == portfolio[2 * k .. 2 * k + 2]
              && FreshRow(r.0.ppr2[k], 2)
    ensures forall k :: 0 <= k < |r.0.ppr3| ==>
              3 * k + 3 <= |portfolio| && r.0.ppr3[k].pieces == portfolio[3 * k .. 3 * k + 3]
              && FreshRow(r.0.ppr3[k], 3)
    ensures r.1.ppr1RowCount == |portfolio| && r.1.ppr1RowCountZero == |portfolio| - 1
    ensures r.1.ppr2RowCount == |portfolio| / 2 && r.1.ppr2RowCountZero == |portfolio| / 2 - 1
    ensures r.1.ppr3RowCount == |portfolio| / 3 && r.1.ppr3RowCountZero == |portfolio| / 3 - 1
    ensures piecesPerRow == 2 ==> r.1.rowCount == |portfolio| / 2 && r.1.rowCountZero == |portfolio| / 2 - 1
    ensures piecesPerRow != 2 ==> r.1.rowCount == |portfolio| / 3 && r.1.rowCountZero == |portfolio| / 3 - 1
  {
    var n := |portfolio|;
    var rows2 := SplitRows(portfolio, 2, n);
    var rows3 := SplitRows(portfolio, 3, n);
    SplitRowsLiteral(portfolio, 2);
    SplitRowsLiteral(portfolio, 3);
    var count2 := |rows2|;
    var count3 := |rows3|;
    var selected := if piecesPerRow == 2 then count2 else count3;
    (Layouts(mobileRows, rows2, rows3),
     RowCounts(n, n - 1, count2, count2 - 1, count3, count3 - 1, selected, selected - 1))
  }

  /** The factory pipeline without its I/O: sort, add neighbours, create rows. */
  function BuildLayouts(portfolio: seq<RawPiece>, piecesPerRow: int): (Layouts, RowCounts) {
    var sorted := SortData(portfolio);
    var pieces := AddNeighborImages(sorted.portfolio, sorted.secondaryImages);
    CreateRows(pieces, sorted.mobileRows, piecesPerRow)
  }

  /** Slot `j` of row `k` of the built 3-per-row layout is piece `3k + j` of
      the neighbour pass. */
  lemma BuildLayoutsSlot(portfolio: seq<RawPiece>, piecesPerRow: int, k: nat, j: nat)
    requires k < |BuildLayouts(portfolio, piecesPerRow).0.ppr3| && j < 3
    ensures var sorted := SortData(portfolio);
            var piece := BuildLayouts(portfolio, piecesPerRow).0.ppr3[k].pieces[j];
            && 3 * k + 3 <= |sorted.portfolio|
            && piece.sorted == sorted.portfolio[3 * k + j]
            && piece.rowPosition == (if (3 * k + j) % 2 == 0 then Left else Right)
            && piece.nbrImgs3 == Neighbors3(sorted.secondaryImages, 3 * k + j).1
  {
    var sorted := SortData(portfolio);
    var pieces := AddNeighborImages(sorted.portfolio, sorted.secondaryImages);
    var layouts := CreateRows(pieces, sorted.mobileRows, piecesPerRow).0;
    assert layouts.ppr3[k].pieces == pieces[3 * k .. 3 * k + 3];
  }

  /** End to end: in the 3-per-row layout, slot `j` of row `k` is piece
      `3k + j` with its content, image sources, primary image and row
      position. */
  lemma BuildLayoutsThree(portfolio: seq<RawPiece>, piecesPerRow: int, k: nat, j: nat)
    requires k < |BuildLayouts(portfolio, piecesPerRow).0.ppr3| && j < 3
    ensures var piece := BuildLayouts(portfolio, piecesPerRow).0.ppr3[k].pieces[j];
            var raw := portfolio[3 * k + j];
            && piece.sorted.images == Srcs(raw.images)
            && piece.sorted.content == raw.content
            && (|raw.images| > 0 ==> piece.sorted.primaryImg == Some(raw.images[0].src))
            && piece.rowPosition == (if j % 2 == k % 2 then Left else Right)
  {
    BuildLayoutsSlot(portfolio, piecesPerRow, k, j);
    SortDataPieces(portfolio);
    RowOfThree(k, j);
  }

  /** End to end: the neighbour slot of the piece in slot `j` of row `k` that
      belongs to the row-mate in slot `i` holds that mate's secondary image,
      as `RowMates3` says. */
  lemma BuildLayoutsThreeMates(portfolio: seq<RawPiece>, piecesPerRow: int, k: nat, j: nat, i: nat)
    requires k < |BuildLayouts(portfolio, piecesPerRow).0.ppr3| && j < 3 && i < 3 && i != j
    ensures var piece := BuildLayouts(portfolio, piecesPerRow).0.ppr3[k].pieces[j];
            var sec := SortData(portfolio).secondaryImages;
            && 3 * k + 3 <= |sec|
            && Slot(piece.nbrImgs3, if i < j then i else i - 1)
                 == Kept(SecondaryAt(sec, 3 * k + i, if j < i then j else j - 1))
  {
    var sec := SortData(portfolio).secondaryImages;
    BuildLayoutsSlot(portfolio, piecesPerRow, k, j);
    RowMates3(sec, k, j, i);
  }
}
