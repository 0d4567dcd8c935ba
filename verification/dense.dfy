/** `pieces_dense_representation`: the sparse lists of the chosen scheme
    scattered into a zero 8 x 8 x dim array with NumPy's index rules. */
module Dense {
  import opened Outcome
  import opened Text
  import opened DataSpecs
  import opened Placement
  import opened Tensors
  import opened Encoding

  /** Where NumPy writes for an index already known to be in range:
      a negative index counts back from the end of the axis. */
  function Wrap(i: int, n: nat): nat
    requires -(n as int) <= i < n
  {
    if i < 0 then i + n else i
  }

  /** List position `k` holds indices NumPy accepts. */
  predicate InRange(sp: Sparse, depth: nat, k: nat)
    requires k < |sp.indicesX| && k < |sp.indicesY| && k < |sp.indicesZ|
  {
    -8 <= sp.indicesX[k] < 8 && -8 <= sp.indicesY[k] < 8 && -(depth as int) <= sp.indicesZ[k] < depth
  }

  /** The first `n` positions of the lists, all of the same length. */
  predicate Covers(sp: Sparse, n: nat)
  {
    n <= |sp.indicesX| && n <= |sp.indicesY| && n <= |sp.indicesZ| && n <= |sp.values|
  }

  /** Reference value of a cell after the first `n` assignments: the value
      of the last assignment whose (wrapped) indices hit it, or 0. */
  function LastWrite(sp: Sparse, depth: nat, n: nat, r: nat, c: nat, l: nat): int
    requires Covers(sp, n) && forall k :: 0 <= k < n ==> InRange(sp, depth, k)
  {
    if n == 0 then 0
    else
      assert InRange(sp, depth, n - 1);
      if Wrap(sp.indicesX[n-1], 8) == r && Wrap(sp.indicesY[n-1], 8) == c && Wrap(sp.indicesZ[n-1], depth) == l
      then sp.values[n-1]
      else LastWrite(sp, depth, n - 1, r, c, l)
  }

  /** The assignment loop of `pieces_dense_representation`, run over the
      first `n` positions of the zipped lists on a board of zeros: each
      position writes its value at its (layer, row, column). An index outside the axis
      raises `IndexError` and abandons the board. */
  function Scatter(sp: Sparse, depth: nat, n: nat): (res: Result<Tensor>)
    requires Covers(sp, n)
    ensures res.Ok? <==> forall k :: 0 <= k < n ==> InRange(sp, depth, k)
    ensures res.Err? ==> res.error == IndexError
    ensures res.Ok? ==> Shaped(res.value, depth)
    ensures res.Ok? ==> forall r, c, l :: 0 <= r < 8 && 0 <= c < 8 && 0 <= l < depth ==>
      res.value[r][c][l] == LastWrite(sp, depth, n, r, c, l)
  {
    if n == 0 then Ok(Zeros(depth))
    else
      match Scatter(sp, depth, n - 1)
      case Err(e) => Err(e)
      case Ok(t) =>
        match NpIndex(sp.indicesX[n-1], 8)
        case Err(e) => assert !InRange(sp, depth, n - 1); Err(e)
        case Ok(r) =>
          match NpIndex(sp.indicesY[n-1], 8)
          case Err(e) => assert !InRange(sp, depth, n - 1); Err(e)
          case Ok(c) =>
            match NpIndex(sp.indicesZ[n-1], depth)
            case Err(e) => assert !InRange(sp, depth, n - 1); Err(e)
            case Ok(l) => Ok(Put(t, depth, r, c, l, sp.values[n-1]))
  }

  /** Reference value of a cell of the dense array: the value of the last
      entry on that square whose piece goes to that layer, or 0. */
  function Cell(es: seq<Entry>, scheme: Scheme, r: nat, c: nat, l: nat): int
    requires AllPieces(es)
  {
    if |es| == 0 then 0
    else
      var e := es[|es|-1];
      if e.row == r && e.col == c && LayerOf(scheme, e.piece) == l then ValueOf(scheme, e.piece)
      else Cell(es[..|es|-1], scheme, r, c, l)
  }

  /** Every cell of `t` holds its reference value. */
  predicate DenseOf(t: Tensor, es: seq<Entry>, scheme: Scheme)
    requires AllPieces(es)
  {
    Shaped(t, scheme.Layers()) &&
    forall r, c, l :: 0 <= r < 8 && 0 <= c < 8 && 0 <= l < scheme.Layers() ==> t[r][c][l] == Cell(es, scheme, r, c, l)
  }

  /** The list positions NumPy accepts are those of entries on the board. */
  lemma InRangeOnBoard(sp: Sparse, es: seq<Entry>, scheme: Scheme, n: nat)
    requires Lists(sp, es, scheme) && n <= |es|
    ensures (forall k :: 0 <= k < n ==> InRange(sp, scheme.Layers(), k)) <==> OnBoard(es[..n])
  {
    forall k | 0 <= k < n
      ensures InRange(sp, scheme.Layers(), k) <==> es[..n][k].row < 8 && es[..n][k].col < 8
    {
      assert es[..n][k] == es[k];
    }
  }

  /** With the lists of on-board entries, the last assignment to a cell is
      the last entry on its square and layer. */
  lemma {:induction false} LastWriteCell(sp: Sparse, es: seq<Entry>, scheme: Scheme, n: nat, r: nat, c: nat, l: nat)
    requires Lists(sp, es, scheme) && n <= |es| && OnBoard(es[..n])
    ensures Covers(sp, n) && forall k :: 0 <= k < n ==> InRange(sp, scheme.Layers(), k)
    ensures AllPieces(es[..n])
    ensures LastWrite(sp, scheme.Layers(), n, r, c, l) == Cell(es[..n], scheme, r, c, l)
  {
    InRangeOnBoard(sp, es, scheme, n);
    if n > 0 {
      assert es[..n][..n-1] == es[..n-1];
      assert es[..n][n-1] == es[n-1];
      assert OnBoard(es[..n-1]);
      LastWriteCell(sp, es, scheme, n - 1, r, c, l);
    }
  }

  /** Scattering the lists of the entries `es` succeeds exactly when every
      entry is on the board, and then writes each entry's value at its own
      square and layer. */
  lemma ScatterEntries(sp: Sparse, es: seq<Entry>, scheme: Scheme)
    requires Lists(sp, es, scheme)
    ensures Covers(sp, |es|)
    ensures Scatter(sp, scheme.Layers(), |es|).Ok? <==> OnBoard(es)
    ensures Scatter(sp, scheme.Layers(), |es|).Ok? ==> DenseOf(Scatter(sp, scheme.Layers(), |es|).value, es, scheme)
  {
    assert es[..|es|] == es;
    InRangeOnBoard(sp, es, scheme, |es|);
    if OnBoard(es) {
      var t := Scatter(sp, scheme.Layers(), |es|).value;
      forall r, c, l | 0 <= r < 8 && 0 <= c < 8 && 0 <= l < scheme.Layers()
        ensures t[r][c][l] == Cell(es, scheme, r, c, l)
      {
        LastWriteCell(sp, es, scheme, |es|, r, c, l);
      }
    }
  }

  /** `pieces_dense_representation(dim)`. A `dim` other than 6 or 12 raises
      `ValueError`; an unknown letter `KeyError`; a piece read past the
      eighth rank or the eighth file `IndexError`. Otherwise every cell holds
      the value of the piece standing there if that piece's layer is the
      cell's layer, and 0 elsewhere. */
  function PiecesDense(p: string, dim: int): (res: Result<Tensor>)
    ensures res.Ok? <==> (dim == 6 || dim == 12) && Recognised(p) && OnBoard(Entries(p))
    ensures !(dim == 6 || dim == 12) ==> res == Err(ValueError)
    ensures (dim == 6 || dim == 12) && !Recognised(p) ==> res == Err(KeyError)
    ensures (dim == 6 || dim == 12) && Recognised(p) && !OnBoard(Entries(p)) ==> res == Err(IndexError)
    ensures res.Ok? ==> AllPieces(Entries(p)) && DenseOf(res.value, Entries(p), if dim == 6 then Six else Twelve)
  {
    match SchemeFor(dim)
    case Err(e) => Err(e)
    case Ok(scheme) =>
      match SparseOf(p, scheme)
      case Err(e) => Err(e)
      case Ok(sp) =>
        var es := Entries(p);
        ScatterEntries(sp, es, scheme);
        Scatter(sp, scheme.Layers(), |es|)
  }

  /** Some entry stands on square (r, c). */
  predicate Occupied(es: seq<Entry>, r: nat, c: nat)
  {
    exists k :: 0 <= k < |es| && es[k].row == r && es[k].col == c
  }

  lemma {:induction false} CellEmpty(es: seq<Entry>, scheme: Scheme, r: nat, c: nat, l: nat)
    requires AllPieces(es) && !Occupied(es, r, c)
    ensures Cell(es, scheme, r, c, l) == 0
  {
    if |es| > 0 {
      var init := es[..|es|-1];
      assert !Occupied(init, r, c) by {
        forall k | 0 <= k < |init| ensures !(init[k].row == r && init[k].col == c) {
          assert init[k] == es[k];
        }
      }
      CellEmpty(init, scheme, r, c, l);
    }
  }

  /** In sorted entries the square of entry `k` shows that entry's piece:
      its value on the piece's layer and 0 on every other layer. */
  lemma {:induction false} CellOfEntry(es: seq<Entry>, scheme: Scheme, k: nat, l: nat)
    requires AllPieces(es) && Sorted(es) && k < |es|
    ensures Cell(es, scheme, es[k].row, es[k].col, l) ==
      if LayerOf(scheme, es[k].piece) == l then ValueOf(scheme, es[k].piece) else 0
  {
    var n := |es|;
    var init := es[..n-1];
    if k == n - 1 {
      if LayerOf(scheme, es[k].piece) != l {
        assert !Occupied(init, es[k].row, es[k].col) by {
          forall j | 0 <= j < n - 1 ensures !(init[j].row == es[k].row && init[j].col == es[k].col) {
            assert init[j] == es[j] && Before(es[j], es[k]);
          }
        }
        CellEmpty(init, scheme, es[k].row, es[k].col, l);
      }
    } else {
      assert Before(es[k], es[n-1]);
      assert init[k] == es[k];
      CellOfEntry(init, scheme, k, l);
    }
  }

  /** Every square of the dense array shows exactly the piece the placement
      puts there: on an occupied square its value on its layer and 0 on the
      others; on an empty square 0 everywhere. */
  lemma DenseSquares(p: string, dim: int)
    requires PiecesDense(p, dim).Ok?
    ensures var es, t, scheme := Entries(p), PiecesDense(p, dim).value, if dim == 6 then Six else Twelve;
      AllPieces(es) && Shaped(t, dim) &&
      (forall k, l :: 0 <= k < |es| && 0 <= l < dim ==>
        t[es[k].row][es[k].col][l] == if LayerOf(scheme, es[k].piece) == l then ValueOf(scheme, es[k].piece) else 0) &&
      (forall r, c, l :: 0 <= r < 8 && 0 <= c < 8 && 0 <= l < dim && !Occupied(es, r, c) ==> t[r][c][l] == 0)
  {
    var es, t, scheme := Entries(p), PiecesDense(p, dim).value, if dim == 6 then Six else Twelve;
    forall k, l | 0 <= k < |es| && 0 <= l < dim
      ensures t[es[k].row][es[k].col][l] == if LayerOf(scheme, es[k].piece) == l then ValueOf(scheme, es[k].piece) else 0
    {
      CellOfEntry(es, scheme, k, l);
    }
    forall r, c, l | 0 <= r < 8 && 0 <= c < 8 && 0 <= l < dim && !Occupied(es, r, c)
      ensures t[r][c][l] == 0
    {
      CellEmpty(es, scheme, r, c, l);
    }
  }

  /** On the board, flat positions are distinct for distinct (square,
      layer) triples: the flat index is a mixed-radix numeral. */
  lemma FlatIndexOnBoard(e: Entry, scheme: Scheme, r: nat, c: nat, l: nat)
    requires e.piece in Pieces && e.row < 8 && e.col < 8 && r < 8 && c < 8 && l < scheme.Layers()
    ensures FlatIndex(e, scheme) < 64 * scheme.Layers()
    ensures FlatIndex(e, scheme) == scheme.Layers() * (8 * r + c) + l <==>
      e.row == r && e.col == c && LayerOf(scheme, e.piece) == l
  {
    var a, b := 8 * e.row + e.col, 8 * r + c;
    var m := LayerOf(scheme, e.piece);
    assert a < 64 && b < 64;
    if scheme.Six? {
      assert FlatIndex(e, scheme) == 6 * a + m;
      if a < b { assert 6 * a + m < 6 * (a + 1) <= 6 * b; }
      if b < a { assert 6 * b + l < 6 * (b + 1) <= 6 * a; }
    } else {
      assert FlatIndex(e, scheme) == 12 * a + m;
      if a < b { assert 12 * a + m < 12 * (a + 1) <= 12 * b; }
      if b < a { assert 12 * b + l < 12 * (b + 1) <= 12 * a; }
    }
  }

  lemma {:induction false} FlatCellIsCell(es: seq<Entry>, scheme: Scheme, r: nat, c: nat, l: nat)
    requires AllPieces(es) && OnBoard(es) && r < 8 && c < 8 && l < scheme.Layers()
    ensures FlatCell(es, scheme, scheme.Layers() * (8 * r + c) + l) == Cell(es, scheme, r, c, l)
  {
    if |es| > 0 {
      var init := es[..|es|-1];
      FlatIndexOnBoard(es[|es|-1], scheme, r, c, l);
      assert OnBoard(init) by {
        forall k | 0 <= k < |init| ensures init[k].row < 8 && init[k].col < 8 {
          assert init[k] == es[k];
        }
      }
      FlatCellIsCell(init, scheme, r, c, l);
    }
  }

  /** When every piece of the placement is on the board, the flat vector
      and the dense array of the same scheme hold the same numbers: position
      `layers * (8 row + col) + layer` of the one is cell (row, col, layer)
      of the other. */
  lemma FlatDenseAgree(p: string, scheme: Scheme)
    requires Recognised(p) && OnBoard(Entries(p))
    ensures FlatVector(p, scheme).Ok? && PiecesDense(p, scheme.Layers()).Ok?
    ensures forall r, c, l :: 0 <= r < 8 && 0 <= c < 8 && 0 <= l < scheme.Layers() ==>
      FlatVector(p, scheme).value[scheme.Layers() * (8 * r + c) + l] == PiecesDense(p, scheme.Layers()).value[r][c][l]
  {
    var es := Entries(p);
    RecognisedEntries(p);
    forall k | 0 <= k < |es| ensures FlatIndex(es[k], scheme) < 64 * scheme.Layers() {
      FlatIndexOnBoard(es[k], scheme, 0, 0, 0);
    }
    assert FitsFlat(es, scheme);
    var v, t := FlatVector(p, scheme).value, PiecesDense(p, scheme.Layers()).value;
    forall r, c, l | 0 <= r < 8 && 0 <= c < 8 && 0 <= l < scheme.Layers()
      ensures v[scheme.Layers() * (8 * r + c) + l] == t[r][c][l]
    {
      FlatIndexOnBoard(Entry(r, c, 'p'), scheme, r, c, l);
      FlatCellIsCell(es, scheme, r, c, l);
    }
  }

  /** The sum of the values of the entries whose piece goes to layer `l`. */
  function LayerWeight(es: seq<Entry>, scheme: Scheme, l: nat): int
    requires AllPieces(es)
  {
    if |es| == 0 then 0
    else
      var e := es[|es|-1];
      LayerWeight(es[..|es|-1], scheme, l) + (if LayerOf(scheme, e.piece) == l then ValueOf(scheme, e.piece) else 0)
  }

  /** One more step of the scatter writes entry `n - 1` at its square. */
  lemma ScatterStep(sp: Sparse, es: seq<Entry>, scheme: Scheme, n: nat)
    requires Lists(sp, es, scheme) && 0 < n <= |es| && OnBoard(es[..n])
    ensures Covers(sp, n) && Scatter(sp, scheme.Layers(), n).Ok? && Scatter(sp, scheme.Layers(), n - 1).Ok?
    ensures es[n-1].row < 8 && es[n-1].col < 8
    ensures Scatter(sp, scheme.Layers(), n).value ==
      Put(Scatter(sp, scheme.Layers(), n - 1).value, scheme.Layers(), es[n-1].row, es[n-1].col,
          LayerOf(scheme, es[n-1].piece), ValueOf(scheme, es[n-1].piece))
  {
    InRangeOnBoard(sp, es, scheme, n);
    assert es[..n][n-1] == es[n-1];
  }

  /** In sorted on-board entries, the cell entry `n - 1` writes is still 0
      before the write. */
  lemma ScatterFresh(sp: Sparse, es: seq<Entry>, scheme: Scheme, n: nat)
    requires Lists(sp, es, scheme) && Sorted(es) && 0 < n <= |es| && OnBoard(es[..n])
    ensures Covers(sp, n - 1) && Scatter(sp, scheme.Layers(), n - 1).Ok?
    ensures es[n-1].row < 8 && es[n-1].col < 8
    ensures Scatter(sp, scheme.Layers(), n - 1).value[es[n-1].row][es[n-1].col][LayerOf(scheme, es[n-1].piece)] == 0
  {
    var e := es[n-1];
    OnBoardInit(es, n);
    LastWriteCell(sp, es, scheme, n - 1, e.row, e.col, LayerOf(scheme, e.piece));
    CellFresh(es, scheme, n);
  }

  /** The entries before an on-board prefix's last one are on the board. */
  lemma OnBoardInit(es: seq<Entry>, n: nat)
    requires 0 < n <= |es| && OnBoard(es[..n])
    ensures OnBoard(es[..n-1]) && es[n-1].row < 8 && es[n-1].col < 8
  {
    var prefix, init := es[..n], es[..n-1];
    assert prefix[n-1] == es[n-1];
    forall k | 0 <= k < |init| ensures init[k].row < 8 && init[k].col < 8 {
      assert init[k] == prefix[k];
    }
  }

  /** In sorted entries the cell entry `n - 1` writes holds nothing yet. */
  lemma CellFresh(es: seq<Entry>, scheme: Scheme, n: nat)
    requires AllPieces(es) && Sorted(es) && 0 < n <= |es|
    ensures AllPieces(es[..n-1])
    ensures Cell(es[..n-1], scheme, es[n-1].row, es[n-1].col, LayerOf(scheme, es[n-1].piece)) == 0
  {
    var init := es[..n-1];
    assert forall k :: 0 <= k < |init| ==> init[k] == es[k];
    SortedFresh(es, n);
    CellEmpty(init, scheme, es[n-1].row, es[n-1].col, LayerOf(scheme, es[n-1].piece));
  }

  /** In sorted entries no earlier entry shares the square of entry `n - 1`. */
  lemma SortedFresh(es: seq<Entry>, n: nat)
    requires Sorted(es) && 0 < n <= |es|
    ensures !Occupied(es[..n-1], es[n-1].row, es[n-1].col)
  {
    var init, e := es[..n-1], es[n-1];
    forall j | 0 <= j < |init| ensures !(init[j].row == e.row && init[j].col == e.col) {
      assert init[j] == es[j] && Before(es[j], e);
    }
  }

  /** Scattering sorted on-board entries one by one adds each entry's value
      to its layer's sum: every write lands on a cell still 0. */
  lemma {:induction false} ScatterPlaneSum(sp: Sparse, es: seq<Entry>, scheme: Scheme, n: nat, l: nat)
    requires Lists(sp, es, scheme) && Sorted(es) && n <= |es| && OnBoard(es[..n]) && l < scheme.Layers()
    ensures Covers(sp, n) && AllPieces(es[..n])
    ensures Scatter(sp, scheme.Layers(), n).Ok?
    ensures PlaneSum(Scatter(sp, scheme.Layers(), n).value, scheme.Layers(), l) == LayerWeight(es[..n], scheme, l)
  {
    var depth := scheme.Layers();
    InRangeOnBoard(sp, es, scheme, n);
    if n == 0 {
      ZerosSums(depth);
    } else {
      var init := es[..n-1];
      assert es[..n][..n-1] == init;
      assert es[..n][n-1] == es[n-1];
      assert OnBoard(init);
      ScatterPlaneSum(sp, es, scheme, n - 1, l);
      ScatterStep(sp, es, scheme, n);
      ScatterFresh(sp, es, scheme, n);
      var e := es[n-1];
      PlaneSumPut(Scatter(sp, depth, n - 1).value, depth, e.row, e.col, LayerOf(scheme, e.piece), ValueOf(scheme, e.piece), l);
    }
  }

  /** The sum of layer `l` of the dense array is the total value of the
      pieces that go to layer `l`. */
  lemma DensePlaneSum(p: string, dim: int, l: nat)
    requires PiecesDense(p, dim).Ok? && l < dim
    ensures AllPieces(Entries(p))
    ensures PlaneSum(PiecesDense(p, dim).value, dim, l) == LayerWeight(Entries(p), if dim == 6 then Six else Twelve, l)
  {
    var scheme := if dim == 6 then Six else Twelve;
    var es := Entries(p);
    var sp := SparseOf(p, scheme).value;
    assert es[..|es|] == es;
    ScatterPlaneSum(sp, es, scheme, |es|, l);
  }

  lemma {:induction false} LayerWeightTwelve(es: seq<Entry>, l: nat)
    requires AllPieces(es) && l < 12
    ensures LayerWeight(es, Twelve, l) == CountPiece(es, Pieces[l])
  {
    if |es| > 0 {
      LayerOfTwelve(es[|es|-1].piece, l);
      LayerWeightTwelve(es[..|es|-1], l);
    }
  }

  lemma {:induction false} LayerWeightSix(es: seq<Entry>, l: nat)
    requires AllPieces(es) && l < 6
    ensures LayerWeight(es, Six, l) == CountPiece(es, Pieces[2 * l]) - CountPiece(es, Pieces[2 * l + 1])
  {
    if |es| > 0 {
      var x := es[|es|-1].piece;
      LayerOfSix(x, l);
      SixColours(l);
      LayerWeightSix(es[..|es|-1], l);
    }
  }

  /** Twelve layers: the sum of layer `l` counts the occurrences of the
      letter `Pieces[l]` in the placement. */
  lemma TwelvePlaneCounts(p: string, l: nat)
    requires PiecesDense(p, 12).Ok? && l < 12
    ensures PlaneSum(PiecesDense(p, 12).value, 12, l) == CountChar(p, Pieces[l])
  {
    DensePlaneSum(p, 12, l);
    LayerWeightTwelve(Entries(p), l);
    PieceLetters();
    EntriesCount(p, Pieces[l]);
  }

  /** Six layers: the sum of layer `l` is the number of black pieces of that
      type less the number of white ones. */
  lemma SixPlaneBalance(p: string, l: nat)
    requires PiecesDense(p, 6).Ok? && l < 6
    ensures PlaneSum(PiecesDense(p, 6).value, 6, l) == CountChar(p, Pieces[2 * l]) - CountChar(p, Pieces[2 * l + 1])
    ensures IsLower(Pieces[2 * l]) && Pieces[2 * l + 1] == SwapCase(Pieces[2 * l])
  {
    DensePlaneSum(p, 6, l);
    SixColours(l);
    LayerWeightSix(Entries(p), l);
    PieceLetters();
    EntriesCount(p, Pieces[2 * l]);
    EntriesCount(p, Pieces[2 * l + 1]);
  }

  /** A well-formed placement of known letters encodes without error in
      both layouts, and the two layouts agree. */
  lemma WellFormedEncodings(p: string, scheme: Scheme)
    requires WellFormed(p) && Recognised(p)
    ensures FlatVector(p, scheme).Ok? && PiecesDense(p, scheme.Layers()).Ok?
    ensures forall r, c, l :: 0 <= r < 8 && 0 <= c < 8 && 0 <= l < scheme.Layers() ==>
      FlatVector(p, scheme).value[scheme.Layers() * (8 * r + c) + l] == PiecesDense(p, scheme.Layers()).value[r][c][l]
  {
    WellFormedOnBoard(p);
    FlatDenseAgree(p, scheme);
  }

  lemma EightThenPawn()
    ensures Recognised("8p") && Entries("8p") == [Entry(0, 8, 'p')]
  {
    var p := "8p";
    assert p[..1] == "8" && "8"[..0] == "";
    assert Column("8") == 8 && Row("8") == 0 && Entries("8") == [];
  }

  /** A ninth square in a rank: the flat vector puts the piece on the next
      rank's first square, the dense array raises `IndexError`. */
  lemma OverfullRank()
    ensures FlatVector("8p", Twelve).Ok? && FlatVector("8p", Twelve).value[96] == 1
    ensures PiecesDense("8p", 12) == Err(IndexError)
  {
    EightThenPawn();
    var es := Entries("8p");
    assert !OnBoard(es) by {
      assert es[0].col == 8;
    }
    assert FlatIndex(es[0], Twelve) == 96;
    assert FitsFlat(es, Twelve);
    assert FlatCell(es, Twelve, 96) == 1;
  }
}
