/** The auxiliary planes and the full board of
    poseval/common/transformations.py: the two-layer castling plane, the
    one-layer en-passant plane, the fifteen-layer stack, and the `transform`
    dispatch on a tag. Unlike the placement scan, these planes use the row
    `rank - 1`, so rank 1 is row 0. */
module Planes {
  import opened Outcome
  import opened Text
  import opened DataSpecs
  import opened Tensors
  import opened FenRecord
  import opened Placement
  import opened Encoding
  import opened Dense

  /** A right stored as a number, as NumPy stores a `bool`. */
  function Bit(b: bool): (n: nat)
    ensures n <= 1 && (n == 1 <==> b)
  {
    if b then 1 else 0
  }

  /** The four squares the castling plane marks. */
  lemma CornerSquares()
    ensures SquareTo8x8("g8") == Ok((7, 6)) && SquareTo8x8("g1") == Ok((0, 6))
    ensures SquareTo8x8("c8") == Ok((7, 2)) && SquareTo8x8("c1") == Ok((0, 2))
  {
  }

  /** `castling_vector_8x8x2`: black's rights on layer 1 at g8 (king side)
      and c8 (queen side), white's on layer 0 at g1 and c1; every other cell
      is 0. */
  function CastlingPlane(f: Fen): (t: Tensor)
    ensures Shaped(t, 2)
    ensures forall r, c, l :: 0 <= r < 8 && 0 <= c < 8 && 0 <= l < 2 ==>
      t[r][c][l] ==
        if (r, c, l) == (7, 6, 1) then Bit('k' in f.castling)
        else if (r, c, l) == (0, 6, 0) then Bit('K' in f.castling)
        else if (r, c, l) == (7, 2, 1) then Bit('q' in f.castling)
        else if (r, c, l) == (0, 2, 0) then Bit('Q' in f.castling)
        else 0
  {
    var v := f.CastlingVector();
    CornerSquares();
    var g8, g1, c8, c1 := SquareTo8x8("g8"), SquareTo8x8("g1"), SquareTo8x8("c8"), SquareTo8x8("c1");
    var t0 := Zeros(2);
    var t1 := Put(t0, 2, g8.value.0, g8.value.1, 1, Bit(v[0]));
    var t2 := Put(t1, 2, g1.value.0, g1.value.1, 0, Bit(v[1]));
    var t3 := Put(t2, 2, c8.value.0, c8.value.1, 1, Bit(v[2]));
    Put(t3, 2, c1.value.0, c1.value.1, 0, Bit(v[3]))
  }

  /** The castling plane sums to the number of rights the field grants. */
  lemma CastlingPlaneTotal(f: Fen)
    ensures Total(CastlingPlane(f), 2) ==
      Bit('k' in f.castling) + Bit('K' in f.castling) + Bit('q' in f.castling) + Bit('Q' in f.castling)
  {
    var t0 := Zeros(2);
    var t1 := Put(t0, 2, 7, 6, 1, Bit('k' in f.castling));
    var t2 := Put(t1, 2, 0, 6, 0, Bit('K' in f.castling));
    var t3 := Put(t2, 2, 7, 2, 1, Bit('q' in f.castling));
    var t4 := Put(t3, 2, 0, 2, 0, Bit('Q' in f.castling));
    ZerosSums(2);
    TotalPut(t0, 2, 7, 6, 1, Bit('k' in f.castling));
    TotalPut(t1, 2, 0, 6, 0, Bit('K' in f.castling));
    TotalPut(t2, 2, 7, 2, 1, Bit('q' in f.castling));
    TotalPut(t3, 2, 0, 2, 0, Bit('Q' in f.castling));
    assert CastlingPlane(f) == t4 by {
      CornerSquares();
    }
  }

  /** The cases spelled out for the castling plane: all four rights sum to
      4; the white king-side right alone sums to 1 and sits at g1. */
  lemma CastlingExamples(f: Fen)
    ensures f.castling == "KQkq" ==> Total(CastlingPlane(f), 2) == 4
    ensures f.castling == "K" ==> Total(CastlingPlane(f), 2) == 1 && CastlingPlane(f)[0][6][0] == 1
  {
    CastlingPlaneTotal(f);
  }

  /** The field is falsy for the en-passant test: `-` (read as `None`) or
      the empty string. */
  predicate NoEnPassant(ep: string)
  {
    ep == "-" || ep == ""
  }

  /** `en_passant_vector_8x8x1`: zeros when there is no target square;
      otherwise a single 1 at (rank - 1, file). Rank digit 0 gives row -1,
      which NumPy reads as row 7; rank digit 9 gives row 8, which raises
      `IndexError`; the conversion's own errors pass through. */
  function EnPassantPlane(f: Fen): (res: Result<Tensor>)
    ensures NoEnPassant(f.enPassant) ==> res == Ok(Zeros(1))
    ensures res.Ok? <==> (NoEnPassant(f.enPassant) ||
      (|f.enPassant| >= 2 && f.enPassant[0] in Files && '0' <= f.enPassant[1] <= '8'))
    ensures !NoEnPassant(f.enPassant) && |f.enPassant| < 2 ==> res == Err(IndexError)
    ensures |f.enPassant| >= 2 && !IsDigit(f.enPassant[1]) ==> res == Err(ValueError)
    ensures |f.enPassant| >= 2 && IsDigit(f.enPassant[1]) && f.enPassant[0] !in Files ==> res == Err(ValueError)
    ensures |f.enPassant| >= 2 && f.enPassant[0] in Files && f.enPassant[1] == '9' ==> res == Err(IndexError)
    ensures res.Ok? ==> Shaped(res.value, 1)
    ensures res.Ok? && !NoEnPassant(f.enPassant) ==>
      var row, col := (DigitValue(f.enPassant[1]) + 7) % 8, IndexOf(Files, f.enPassant[0]);
      forall r, c :: 0 <= r < 8 && 0 <= c < 8 ==> res.value[r][c][0] == if r == row && c == col then 1 else 0
  {
    assert f.Fields()[3] == f.enPassant;
    match f.EnPassantTargetSquare()
    case None => Ok(Zeros(1))
    case Some(square) =>
      if square == "" then Ok(Zeros(1))
      else MarkSquare(square)
  }

  /** The marking step of `get_en_passant_vector`: on a plane of zeros, the
      cell that `string_square_to_8x8` gives for the square is set to 1. */
  function MarkSquare(square: string): (res: Result<Tensor>)
    ensures res.Ok? <==> |square| >= 2 && square[0] in Files && '0' <= square[1] <= '8'
    ensures |square| < 2 ==> res == Err(IndexError)
    ensures |square| >= 2 && !IsDigit(square[1]) ==> res == Err(ValueError)
    ensures |square| >= 2 && IsDigit(square[1]) && square[0] !in Files ==> res == Err(ValueError)
    ensures |square| >= 2 && square[0] in Files && square[1] == '9' ==> res == Err(IndexError)
    ensures res.Ok? ==> Shaped(res.value, 1)
    ensures res.Ok? ==>
      var row, col := (DigitValue(square[1]) + 7) % 8, IndexOf(Files, square[0]);
      forall r, c :: 0 <= r < 8 && 0 <= c < 8 ==> res.value[r][c][0] == if r == row && c == col then 1 else 0
  {
    match SquareTo8x8(square)
    case Err(e) => Err(e)
    case Ok((row, col)) =>
      match NpIndex(row, 8)
      case Err(e) => Err(e)
      case Ok(r) => Ok(Put(Zeros(1), 1, r, col, 0, 1))
  }

  /** The en-passant plane holds one 1 when there is a target square. */
  lemma EnPassantPlaneTotal(f: Fen)
    requires EnPassantPlane(f).Ok?
    ensures Total(EnPassantPlane(f).value, 1) == if NoEnPassant(f.enPassant) then 0 else 1
  {
    ZerosSums(1);
    if !NoEnPassant(f.enPassant) {
      var (row, col) := SquareTo8x8(f.enPassant).value;
      TotalPut(Zeros(1), 1, NpIndex(row, 8).value, col, 0, 1);
    }
  }

  /** A legal target square marks its own cell, and rank digit 0 wraps
      round to the last row as NumPy's negative index does. */
  lemma EnPassantExamples(f: Fen)
    ensures f.enPassant == "e3" ==> EnPassantPlane(f).Ok? && EnPassantPlane(f).value[2][4][0] == 1
    ensures f.enPassant == "e0" ==> EnPassantPlane(f).Ok? && EnPassantPlane(f).value[7][4][0] == 1
  {
    assert IndexOf(Files, 'e') == 4;
  }

  /** Rank digit 9 runs off the board and a one-character field has no
      rank: both raise `IndexError`. */
  lemma EnPassantOutOfRange(f: Fen)
    ensures f.enPassant == "e9" ==> EnPassantPlane(f) == Err(IndexError)
    ensures f.enPassant == "3" ==> EnPassantPlane(f) == Err(IndexError)
  {
  }

  /** `full_board_representation(dim)`: twelve piece layers, the two
      castling layers and the en-passant layer, stacked in that order. A
      `dim` of 6 raises `NotImplementedError`; any other `dim` but 12 fails in
      the dense encoder with `ValueError`; the dense encoder's errors come
      before the en-passant plane's. */
  function FullBoard(f: Fen, dim: int): (res: Result<Tensor>)
    ensures res.Ok? <==> dim == 12 && PiecesDense(f.placement, 12).Ok? && EnPassantPlane(f).Ok?
    ensures dim == 6 ==> res == Err(NotImplementedError)
    ensures dim != 6 && dim != 12 ==> res == Err(ValueError)
    ensures dim == 12 && PiecesDense(f.placement, 12).Err? ==> res == Err(PiecesDense(f.placement, 12).error)
    ensures dim == 12 && PiecesDense(f.placement, 12).Ok? && EnPassantPlane(f).Err? ==> res == Err(EnPassantPlane(f).error)
    ensures res.Ok? ==> Shaped(res.value, 15)
  {
    if dim == 6 then Err(NotImplementedError)
    else
      match PiecesDense(f.placement, dim)
      case Err(e) => Err(e)
      case Ok(d) =>
        match EnPassantPlane(f)
        case Err(e) => Err(e)
        case Ok(ep) => Ok(Stack(d, 12, CastlingPlane(f), 2, ep, 1))
  }

  /** A fifteen-layer board is the stack of its three parts. */
  lemma FullBoardStack(f: Fen)
    requires FullBoard(f, 12).Ok?
    ensures PiecesDense(f.placement, 12).Ok? && EnPassantPlane(f).Ok?
    ensures FullBoard(f, 12).value == Stack(PiecesDense(f.placement, 12).value, 12, CastlingPlane(f), 2, EnPassantPlane(f).value, 1)
  {
  }

  /** The fifteen layers of the full board: layers 0-11 show the pieces
      (each occupied square holds 1 on its letter's layer), layers 12-13 the
      castling rights, layer 14 the en-passant square. */
  lemma FullBoardLayers(f: Fen)
    requires FullBoard(f, 12).Ok?
    ensures Shaped(FullBoard(f, 12).value, 15) && OnBoard(Entries(f.placement))
    ensures var t, es := FullBoard(f, 12).value, Entries(f.placement);
      AllPieces(es) &&
      (forall k, l :: 0 <= k < |es| && 0 <= l < 12 ==>
        t[es[k].row][es[k].col][l] == if Pieces[l] == es[k].piece then 1 else 0) &&
      (forall r, c, l :: 0 <= r < 8 && 0 <= c < 8 && 0 <= l < 12 && !Occupied(es, r, c) ==> t[r][c][l] == 0) &&
      (forall r, c :: 0 <= r < 8 && 0 <= c < 8 ==>
        t[r][c][12] == CastlingPlane(f)[r][c][0] && t[r][c][13] == CastlingPlane(f)[r][c][1] &&
        t[r][c][14] == EnPassantPlane(f).value[r][c][0])
  {
    FullBoardStack(f);
    var t, es := FullBoard(f, 12).value, Entries(f.placement);
    FullBoardPieces(f.placement, t, CastlingPlane(f), EnPassantPlane(f).value);
  }

  /** The piece layers of a stack over the twelve-layer dense array. */
  lemma FullBoardPieces(p: string, t: Tensor, cp: Tensor, ep: Tensor)
    requires PiecesDense(p, 12).Ok? && Shaped(cp, 2) && Shaped(ep, 1)
    requires t == Stack(PiecesDense(p, 12).value, 12, cp, 2, ep, 1)
    ensures var es := Entries(p);
      AllPieces(es) &&
      (forall k, l :: 0 <= k < |es| && 0 <= l < 12 ==>
        t[es[k].row][es[k].col][l] == if Pieces[l] == es[k].piece then 1 else 0) &&
      (forall r, c, l :: 0 <= r < 8 && 0 <= c < 8 && 0 <= l < 12 && !Occupied(es, r, c) ==> t[r][c][l] == 0)
  {
    var es, d := Entries(p), PiecesDense(p, 12).value;
    DenseSquares(p, 12);
    forall k, l | 0 <= k < |es| && 0 <= l < 12
      ensures t[es[k].row][es[k].col][l] == if Pieces[l] == es[k].piece then 1 else 0
    {
      LayerOfTwelve(es[k].piece, l);
    }
  }

  /** A well-formed placement of known letters with a usable en-passant
      field gives a fifteen-layer board. */
  lemma FullBoardWellFormed(f: Fen)
    requires WellFormed(f.placement) && Recognised(f.placement) && EnPassantPlane(f).Ok?
    ensures FullBoard(f, 12).Ok? && Shaped(FullBoard(f, 12).value, 15)
  {
    WellFormedEncodings(f.placement, Twelve);
  }

  /** What `transform` returns: a flat vector or the sparse lists. */
  datatype Encoded = FlatEncoding(vector: seq<int>) | SparseEncoding(lists: Sparse)

  /** `Fen.transform(tag)`: the four tags pick the flat or the sparse
      encoder with six or twelve layers; any other tag raises `ValueError`. */
  function Transform(f: Fen, tag: string): (res: Result<Encoded>)
    ensures tag !in {Vector6Flat, Vector12Flat, Tensor6Sparse, Tensor12Sparse} ==> res == Err(ValueError)
    ensures tag in {Tensor6Sparse, Tensor12Sparse} ==>
      (res.Ok? <==> Recognised(f.placement)) && (res.Err? ==> res.error == KeyError) &&
      (res.Ok? ==> (res.value.SparseEncoding? &&
        Lists(res.value.lists, Entries(f.placement), if tag == Tensor6Sparse then Six else Twelve)))
    ensures tag in {Vector6Flat, Vector12Flat} ==>
      var scheme := if tag == Vector6Flat then Six else Twelve;
      (res.Ok? <==> Recognised(f.placement) && FitsFlat(Entries(f.placement), scheme)) &&
      (res.Ok? ==> res.value.FlatEncoding? && |res.value.vector| == 64 * scheme.Layers()) &&
      (res.Ok? ==> FlatOf(res.value.vector, Entries(f.placement), scheme)) &&
      (res.Err? ==> res.error == KeyError || res.error == IndexError) &&
      (res.Err? && res.error == KeyError ==> !Recognised(f.placement)) &&
      (res.Err? && Recognised(f.placement) ==> res.error == IndexError)
  {
    if tag == Vector6Flat then Lift(FlatVector(f.RawBoard(), Six))
    else if tag == Vector12Flat then Lift(FlatVector(f.RawBoard(), Twelve))
    else if tag == Tensor6Sparse then LiftSparse(SparseOf(f.RawBoard(), Six))
    else if tag == Tensor12Sparse then LiftSparse(SparseOf(f.RawBoard(), Twelve))
    else Err(ValueError)
  }

  function Lift(r: Result<seq<int>>): (res: Result<Encoded>)
    ensures res.Ok? <==> r.Ok?
    ensures res.Ok? ==> res.value == FlatEncoding(r.value)
    ensures res.Err? ==> res.error == r.error
  {
    match r
    case Ok(v) => Ok(FlatEncoding(v))
    case Err(e) => Err(e)
  }

  function LiftSparse(r: Result<Sparse>): (res: Result<Encoded>)
    ensures res.Ok? <==> r.Ok?
    ensures res.Ok? ==> res.value == SparseEncoding(r.value)
    ensures res.Err? ==> res.error == r.error
  {
    match r
    case Ok(v) => Ok(SparseEncoding(v))
    case Err(e) => Err(e)
  }
}
