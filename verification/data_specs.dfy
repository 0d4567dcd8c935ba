/** The fixed configuration of the encoder (`DataSpecs` in
    poseval/common/transformations.py): the transformation tags, the two
    piece tables, the file letters and the algebraic-square conversion. */
module DataSpecs {
  import opened Outcome
  import opened Text

  /** Tags accepted by `Fen.transform`. */
  const Tensor6Sparse: string := "tensor6x8x8"
  const Vector6Flat: string := "vector6x8x8"
  const Tensor12Sparse: string := "tensor12x8x8"
  const Vector12Flat: string := "vector12x8x8"

  /** The twelve piece letters, in the order the tables list them; in the
      twelve-layer scheme, layer `l` holds the letter `Pieces[l]`. */
  const Pieces: string := "pPnNbBrRqQkK"

  const PieceLayer6: map<char, int> := map[
    'p' := 0, 'P' := 0, 'n' := 1, 'N' := 1, 'b' := 2, 'B' := 2,
    'r' := 3, 'R' := 3, 'q' := 4, 'Q' := 4, 'k' := 5, 'K' := 5]

  const PieceValue6: map<char, int> := map[
    'p' := 1, 'P' := -1, 'n' := 1, 'N' := -1, 'b' := 1, 'B' := -1,
    'r' := 1, 'R' := -1, 'q' := 1, 'Q' := -1, 'k' := 1, 'K' := -1]

  const PieceLayer12: map<char, int> := map[
    'p' := 0, 'P' := 1, 'n' := 2, 'N' := 3, 'b' := 4, 'B' := 5,
    'r' := 6, 'R' := 7, 'q' := 8, 'Q' := 9, 'k' := 10, 'K' := 11]

  const PieceValue12: map<char, int> := map[
    'p' := 1, 'P' := 1, 'n' := 1, 'N' := 1, 'b' := 1, 'B' := 1,
    'r' := 1, 'R' := 1, 'q' := 1, 'Q' := 1, 'k' := 1, 'K' := 1]

  /** `col_list`: file letters, file `a` at index 0. */
  const Files: string := "abcdefgh"

  /** The two piece tables. */
  datatype Scheme = Six | Twelve {

    function Layers(): nat
    {
      if Six? then 6 else 12
    }

    /** The piece-to-layer table. Six layers: one per piece type, shared by
        both colours. Twelve layers: one per piece letter. */
    function LayerMap(): (m: map<char, int>)
      ensures m.Keys == set c | c in Pieces
      ensures forall i :: 0 <= i < |Pieces| ==> m[Pieces[i]] == if Six? then i / 2 else i
    {
      if Six? then Layer6Table(); PieceLayer6 else Layer12Table(); PieceLayer12
    }

    /** The piece-to-value table. Six layers: +1 for a black (lower-case)
        piece, -1 for a white one. Twelve layers: always 1. */
    function ValueMap(): (m: map<char, int>)
      ensures m.Keys == set c | c in Pieces
      ensures Six? ==> forall c :: c in m ==> m[c] == (if IsLower(c) then 1 else -1)
      ensures Twelve? ==> forall c :: c in m ==> m[c] == 1
    {
      if Six? then Value6Table(); PieceValue6 else Value12Table(); PieceValue12
    }
  }

  lemma Layer6Table()
    ensures PieceLayer6.Keys == set c | c in Pieces
    ensures forall i :: 0 <= i < |Pieces| ==> PieceLayer6[Pieces[i]] == i / 2
  {
  }

  lemma Layer12Table()
    ensures PieceLayer12.Keys == set c | c in Pieces
    ensures forall i :: 0 <= i < |Pieces| ==> PieceLayer12[Pieces[i]] == i
  {
  }

  lemma Value6Table()
    ensures PieceValue6.Keys == set c | c in Pieces
    ensures forall c :: c in PieceValue6 ==> PieceValue6[c] == (if IsLower(c) then 1 else -1)
  {
  }

  lemma Value12Table()
    ensures PieceValue12.Keys == set c | c in Pieces
    ensures forall c :: c in PieceValue12 ==> PieceValue12[c] == 1
  {
  }

  /** The `dim` dispatch of `pieces_dense_representation`. */
  function SchemeFor(dim: int): (r: Result<Scheme>)
    ensures r.Ok? <==> dim == 6 || dim == 12
    ensures r.Ok? ==> r.value.Layers() == dim
    ensures r.Err? ==> r.error == ValueError
  {
    if dim == 6 then Ok(Six)
    else if dim == 12 then Ok(Twelve)
    else Err(ValueError)
  }

  /** `list.index`: the first position holding `c`. */
  function IndexOf(s: string, c: char): (i: nat)
    requires c in s
    ensures i < |s| && s[i] == c && c !in s[..i]
  {
    if s[0] == c then 0 else 1 + IndexOf(s[1..], c)
  }

  lemma FilesDistinct()
    ensures Distinct(Files)
  {
  }

  /** In a word of distinct letters the position of each letter is unique. */
  lemma IndexOfDistinct(s: string, j: nat)
    requires Distinct(s) && j < |s|
    ensures IndexOf(s, s[j]) == j
  {
  }

  /** `string_square_to_8x8`: a square name becomes (rank - 1, file index).
      The rank is read first (`IndexError` for a string shorter than two,
      `ValueError` for a non-digit), then the file (`ValueError` for a letter
      outside a-h); characters after the second are ignored. The row counts
      from rank 1 upward, the opposite direction from the placement scan. */
  function SquareTo8x8(square: string): (r: Result<(int, nat)>)
    ensures r.Ok? <==> |square| >= 2 && IsDigit(square[1]) && square[0] in Files
    ensures |square| < 2 ==> r == Err(IndexError)
    ensures r.Err? && |square| >= 2 ==> r.error == ValueError
    ensures r.Ok? ==> -1 <= r.value.0 <= 8 && r.value.1 < 8
    ensures r.Ok? ==> DigitChar(r.value.0 + 1) == square[1] && Files[r.value.1] == square[0]
  {
    if |square| < 2 then Err(IndexError)
    else if !IsDigit(square[1]) then Err(ValueError)
    else if square[0] !in Files then Err(ValueError)
    else Ok((DigitValue(square[1]) - 1, IndexOf(Files, square[0])))
  }

  /** The algebraic name of a board cell given as (rank - 1, file index). */
  function SquareName(row: nat, col: nat): string
    requires row < 8 && col < 8
  {
    [Files[col], DigitChar(row + 1)]
  }

  /** `SquareTo8x8` inverts `SquareName` on the 64 squares, and a legal
      two-character name survives the round trip the other way. */
  lemma SquareRoundTrip(row: nat, col: nat)
    requires row < 8 && col < 8
    ensures SquareTo8x8(SquareName(row, col)) == Ok((row, col))
  {
    FilesDistinct();
    IndexOfDistinct(Files, col);
  }

  lemma SquareNameRoundTrip(square: string)
    requires |square| == 2 && square[0] in Files && '1' <= square[1] <= '8'
    ensures SquareTo8x8(square).Ok?
    ensures var (row, col) := SquareTo8x8(square).value;
      0 <= row < 8 && SquareName(row, col) == square
  {
  }

  /** The cases spelled out for the conversion: `a1`, `h8`, `e4`, and the
      upper-case file of `E4` that fails. */
  lemma SquareExamples()
    ensures SquareTo8x8("a1") == Ok((0, 0))
    ensures SquareTo8x8("h8") == Ok((7, 7))
    ensures SquareTo8x8("e4") == Ok((3, 4))
    ensures SquareTo8x8("E4") == Err(ValueError)
  {
  }
}
