# FEN position encoder, modelled in Dafny

This project models `poseval/common/transformations.py` of a chess
position-evaluation package. That file holds the `DataSpecs` tables and the
`Fen` class. A `Fen` takes a FEN string (Forsyth–Edwards Notation, six
space-separated fields) and produces the following:

- its fields and their accessors (castling rights, side to move, en-passant
  target);
- a colour flip of the whole record (`flip`);
- three encodings of the piece placement (sparse index lists, a flat vector,
  a dense 8 x 8 x layers array), each with six or twelve layers;
- a two-layer castling plane and a one-layer en-passant plane;
- the fifteen-layer full board;
- the `transform` dispatch on an encoding tag.

Everything is a pure function. A Python exception becomes an `Err` of the
`Outcome.Error` datatype, which has one variant per exception the code can
raise: `MalformedFenString`, `KeyError`, `ValueError`, `IndexError` and
`NotImplementedError`. NumPy arrays become `Tensors.Tensor`, which is
`seq<seq<seq<int>>>` indexed `[row][col][layer]`. NumPy's index rules are
written out: a negative index counts back from the end, and any other
out-of-range index raises.

Modules, in dependency order:

- `Outcome`: the error and result types.
- `Text`: the string primitives `str.split`, `str.join` and the case swap.
- `DataSpecs`: the tables and `string_square_to_8x8`.
- `Tensors`: zeros, single-cell assignment, `dstack` and sums.
- `FenRecord`: the parsed record and its accessors.
- `Flip`: the colour flip.
- `Placement`: the character scan shared by the encoders.
- `Encoding`: the sparse and flat encoders.
- `Dense`: the dense encoder.
- `Planes`: the castling plane, the en-passant plane, the full board and
  `transform`.

Where the code differs from its tests, or from what a reader would expect, the model follows the code:

- **Flipping the placement.** `flip_position` reverses the order of the
  ranks and swaps the colours, but keeps the order of the squares within a
  rank. The result is a vertical mirror. The flip tests in
  `poseval/tests/test_fen.py` expect a 180° rotation, and `Flip.FlipPositionExample`
  shows the difference on a two-rank board.
- **Flipping the en-passant square.** `flip_en_passant` maps file index `i`
  to `8 - i` and rank `n` to `9 - n`. File `a` therefore raises
  `IndexError`, and the other files are mirrored around `e`.
- **A bad file letter.** `string_square_to_8x8` raises `ValueError` (from
  `list.index`) for a file letter outside `a`–`h`. The test expects
  `KeyError`.
- **The six-layer full board.** `full_board_representation(6)` raises
  `NotImplementedError`. The test expects a nine-layer board.

## Model

| member | source | states |
|---|---|---|
| Text.Split | poseval/common/transformations.py:47 | splitting on one character gives one more field than there are separators, and no field contains the separator |
| Text.JoinSplit | poseval/common/transformations.py:47-48 | re-joining the fields of a split restores the string, so a parsed record remembers its text |
| Text.SplitJoin | poseval/common/transformations.py:121 | splitting a join of separator-free fields gives the fields back |
| Text.SwapCase | poseval/common/transformations.py:150-157 | `_reverse_piece` turns each lower-case letter into the upper-case form of the same letter and each upper-case letter into the lower-case form of the same letter, and leaves every non-letter (digits, '/') unchanged |
| Text.SwapCaseInvolution | poseval/common/transformations.py:150-157 | swapping the case twice is the identity |
| DataSpecs.Scheme.LayerMap | poseval/common/transformations.py:18-31 | both layer tables have the twelve piece letters as keys; the twelve-layer table gives letter `Pieces[i]` layer `i`, the six-layer table layer `i / 2`, so one layer per piece type |
| DataSpecs.Scheme.ValueMap | poseval/common/transformations.py:23-36 | both value tables cover the twelve letters; six layers: +1 for a black (lower-case) piece and -1 for a white one; twelve layers: always 1 |
| DataSpecs.SchemeFor | poseval/common/transformations.py:220-227 | only `dim` 6 and 12 select a table pair; any other `dim` raises `ValueError` |
| DataSpecs.IndexOf | poseval/common/transformations.py:42 | `list.index` finds the first position holding the letter |
| DataSpecs.SquareTo8x8 | poseval/common/transformations.py:40-42 | a square converts exactly when its second character is a digit and its first a file letter; a string shorter than two raises `IndexError` and a bad character `ValueError`; the result is (rank - 1, file index), with the rank row between -1 and 8 |
| DataSpecs.SquareRoundTrip | poseval/common/transformations.py:40-42 | every one of the 64 squares, named and converted back, gives its own (row, column) |
| DataSpecs.SquareNameRoundTrip | poseval/common/transformations.py:40-42 | a legal two-character square name is recovered from its (row, column) |
| DataSpecs.SquareExamples | poseval/common/transformations.py:40-42 | `a1` is (0, 0), `h8` is (7, 7) and `e4` is (3, 4); the upper-case `E4` raises `ValueError` |
| Tensors.Zeros | poseval/common/transformations.py:221 | the NumPy array of zeros of shape 8 x 8 x depth has that shape and is 0 everywhere |
| Tensors.Put | poseval/common/transformations.py:230 | a single-cell assignment changes that cell and no other |
| Tensors.NpIndex | poseval/common/transformations.py:230 | NumPy accepts an index in `[-n, n)`, and a negative one counts back from the end; anything else raises `IndexError` |
| Tensors.Stack | poseval/common/transformations.py:215-218 | `np.dstack` puts the layers of the first array first, then the second's, then the third's |
| FenRecord.Parse | poseval/common/transformations.py:46-53 | a string parses exactly when it has five spaces (six fields); otherwise `MalformedFenStringError`; a parsed record prints back as the same string and has no space in any field |
| FenRecord.Fen.CanCastle | poseval/common/transformations.py:55-65 | a castling right is granted exactly when its letter occurs somewhere in the castling field; the four accessors `CanCastleWhiteKing`, `CanCastleBlackKing`, `CanCastleBlackQueen` and `CanCastleWhiteQueen` ask this for `K`, `k`, `q` and `Q` |
| FenRecord.Fen.NextToMove | poseval/common/transformations.py:67-68 | the side to move is the second field exactly as written, with no check that it is `w` or `b` |
| FenRecord.Fen.CastlingVector | poseval/common/transformations.py:70-76 | four rights in the order black king side, white king side, black queen side, white queen side |
| FenRecord.Fen.EnPassantTargetSquare | poseval/common/transformations.py:78-79 | no target square exactly when the fourth field is `-`; otherwise the field unchanged (even when it is empty or not a square) |
| FenRecord.Fen.RawBoard | poseval/common/transformations.py:93-94 | the raw board is the first field, the piece placement |
| FenRecord.ParsedAccessors | poseval/common/transformations.py:46-94 | on a parsed string every accessor reads the corresponding space-separated field of the text: placement, side, castling letters, en-passant field, and the castling vector in its fixed order |
| FenRecord.ParseFenstring | poseval/common/transformations.py:46-53 | the printed form of any space-free record parses back into that record |
| Flip.FlipSide | poseval/common/transformations.py:117 | the new side is always `w` or `b`, and it is `w` exactly when the old side was `b` |
| Flip.FlipSideInvolution | poseval/common/transformations.py:117 | on `w` and `b` the side toggle changes the side and undoes itself |
| Flip.SwapRankInvolution | poseval/common/transformations.py:125 | colour-swapping a rank twice restores it |
| Flip.FlipPosition | poseval/common/transformations.py:123-125 | the flipped placement has as many ranks as before, and its rank `i` is the colour-swapped rank `n - 1 - i` of the original |
| Flip.FlipPositionInvolution | poseval/common/transformations.py:123-125 | flipping a placement twice restores the string |
| Flip.FlipPositionExample | poseval/common/transformations.py:123-125 | `K7/8` becomes `8/k7`: the king changes rank and colour but stays on file a |
| Flip.FlipCastling | poseval/common/transformations.py:127-135 | `-` is kept; otherwise the result lists, in the order `KQkq`, exactly the letters whose opposite-colour letter the field held; unknown characters are dropped |
| Flip.FlipCastlingInvolution | poseval/common/transformations.py:127-135 | on `-` or a field in `KQkq` order, flipping the castling rights twice restores the field |
| Flip.FlipCastlingRights | poseval/common/transformations.py:127-135 | after the flip each colour holds, right by right, the rights the other colour held |
| Flip.FlipEnPassant | poseval/common/transformations.py:137-144 | `-` is kept; a two-character field with a file letter other than `a` and a digit converts, with the new file at index `8 - index` and the new rank `9 - rank`; a square on file `a` raises `IndexError`; any other field raises `ValueError` |
| Flip.FlipEnPassantInvolution | poseval/common/transformations.py:137-144 | on `-` and the squares of files b-h, the en-passant rewrite undoes itself |
| Flip.FlipEnPassantExamples | poseval/common/transformations.py:137-144 | `e3` becomes `e6` and `b3` becomes `h6`; `a3` raises `IndexError` and `e10` raises `ValueError` |
| Flip.Flip | poseval/common/transformations.py:116-121 | a flip succeeds exactly when the en-passant rewrite does, and otherwise fails with its error; on success the clocks are kept, the side toggles to `w` or `b`, and the placement, castling and en-passant fields are exactly the flipped ones (`FlipPosition`, `FlipCastling`, `FlipEnPassant`); so `-` castling is kept, the castling rights swap colour, and an en-passant square stays present or absent |
| Flip.FlipTwice | poseval/common/transformations.py:116-121 | a record with side `w` or `b`, normalised castling and an en-passant field off file `a` is restored by two flips, and its flip is again such a record |
| Flip.FlipSpaceFree | poseval/common/transformations.py:116-121 | the flip of a parsed record prints as a string that parses back into the flipped record |
| Flip.FlipTwiceThroughText | poseval/tests/test_fen.py:58-63 | parsing, flipping, printing, re-parsing and flipping again gives back the original FEN string |
| Placement.Entries | poseval/common/transformations.py:159-178 | the scan emits only characters that are neither digits nor '/', in strict row-major order (so never two on one square), each before the scan's current position |
| Placement.ColumnIsWidth | poseval/common/transformations.py:167-178 | the column counter equals the squares covered so far in the current rank: digit values plus one per piece |
| Placement.EntryOrigins | poseval/common/transformations.py:167-178 | every entry comes from a position of the field: its row counts the '/' before it and its column is the width of its rank up to it |
| Placement.EntriesCount | poseval/common/transformations.py:167-178 | the scan emits each piece letter exactly as often as it occurs in the field |
| Placement.PieceFits | poseval/common/transformations.py:167-178 | in a placement of eight ranks of width eight, each piece is read while both counters are below 8 |
| Placement.WellFormedOnBoard | poseval/common/transformations.py:167-178 | every entry of a well-formed placement lies on the 8 x 8 board |
| Encoding.LayerOf | poseval/common/transformations.py:174 | the layer is below the layer count; twelve layers: layer `l` holds only letter `Pieces[l]`; six layers: layer `l` holds the two colours of one piece type |
| Encoding.ValueOf | poseval/common/transformations.py:177 | the value written is 1, except -1 for a white piece in the six-layer scheme |
| Encoding.LayerOfTwelve | poseval/common/transformations.py:28-31 | a letter goes to layer `l` of the twelve-layer scheme exactly when it is `Pieces[l]` |
| Encoding.LayerOfSix | poseval/common/transformations.py:18-21 | a letter goes to layer `l` of the six-layer scheme exactly when it is `Pieces[2 l]` or `Pieces[2 l + 1]` |
| Encoding.SparseOf | poseval/common/transformations.py:159-180 | the sparse lists exist exactly when every piece letter is in the tables (otherwise `KeyError`); then the four lists are, entry by entry, the scan's row, column, layer and value |
| Encoding.FlatVector | poseval/common/transformations.py:182-196 | the flat vector exists exactly when all letters are known and every piece's position `layers * (8 row + col) + layer` is inside the vector; an unknown letter gives `KeyError`, an overflow `IndexError`; each position holds the value of the last piece written there, or 0 |
| Dense.Scatter | poseval/common/transformations.py:228-230 | the scatter loop succeeds exactly when every index triple is one NumPy accepts, and then each cell holds the value of the last assignment that reached it, or 0 |
| Dense.ScatterEntries | poseval/common/transformations.py:228-230 | scattering the scan's lists succeeds exactly when every entry is on the board, and then each cell holds its reference value |
| Dense.PiecesDense | poseval/common/transformations.py:220-231 | the dense array exists exactly when `dim` is 6 or 12, all letters are known and all pieces are on the board; the errors are `ValueError`, `KeyError` and `IndexError`, in that order of precedence; each cell holds the value of the piece on that square and layer, or 0 |
| Dense.DenseSquares | poseval/common/transformations.py:220-231 | each occupied square shows its piece's value on that piece's layer and 0 on the other layers; an empty square is 0 on every layer |
| Dense.FlatIndexOnBoard | poseval/common/transformations.py:194 | for on-board pieces the flat position is inside the vector and determines square and layer uniquely |
| Dense.FlatDenseAgree | poseval/common/transformations.py:182-196 | when all pieces are on the board, both encoders succeed, and flat position `layers * (8 row + col) + layer` equals dense cell (row, col, layer) |
| Dense.WellFormedEncodings | poseval/common/transformations.py:182-231 | a well-formed placement of known letters encodes without error in both layouts, and the layouts agree |
| Dense.OverfullRank | poseval/common/transformations.py:182-196 | for `8p` the flat vector puts the pawn at position 96 (the next rank's first square), while the dense array raises `IndexError` |
| Dense.DensePlaneSum | poseval/common/transformations.py:220-231 | the sum of a dense layer is the total value of the pieces that go to that layer |
| Dense.TwelvePlaneCounts | poseval/common/transformations.py:220-231 | in the twelve-layer array, layer `l` sums to the number of occurrences of letter `Pieces[l]` in the placement |
| Dense.SixPlaneBalance | poseval/common/transformations.py:220-231 | in the six-layer array, layer `l` sums to the count of black pieces of that type minus the count of white ones |
| Planes.CastlingPlane | poseval/common/transformations.py:198-204 | black's king-side and queen-side rights sit on layer 1 at g8 and c8; white's sit on layer 0 at g1 and c1; every other cell is 0 |
| Planes.CastlingPlaneTotal | poseval/common/transformations.py:198-204 | the castling plane sums to the number of rights granted |
| Planes.CastlingExamples | poseval/tests/test_fen.py:74-80 | `KQkq` sums to 4; `K` alone sums to 1, with its mark at (0, 6, 0) |
| Planes.EnPassantPlane | poseval/common/transformations.py:206-210 | `-` and the empty field give zeros; a field whose first character is a file letter and whose second is a digit 0-8 gives a single 1 at (rank - 1 mod 8, file); a short field and rank 9 raise `IndexError`; a non-digit or a bad file raises `ValueError` |
| Planes.MarkSquare | poseval/common/transformations.py:208-209 | marking a square succeeds exactly when its first character is a file letter and its second a digit 0-8; it then holds a single 1 at (rank - 1 mod 8, file); a short string and rank 9 raise `IndexError`, and a non-digit or a bad file raises `ValueError` |
| Planes.EnPassantPlaneTotal | poseval/common/transformations.py:206-210 | the en-passant plane sums to 1 when there is a target square, and to 0 otherwise |
| Planes.EnPassantExamples | poseval/common/transformations.py:206-210 | `e3` marks (2, 4); `e0` wraps to row 7 |
| Planes.EnPassantOutOfRange | poseval/common/transformations.py:206-210 | `e9` and `3` raise `IndexError` |
| Planes.FullBoard | poseval/common/transformations.py:212-218 | the full board exists exactly when `dim` is 12 and both the dense array and the en-passant plane exist; `dim` 6 raises `NotImplementedError`, other values `ValueError`; dense errors come before en-passant errors; the result has fifteen layers |
| Planes.FullBoardLayers | poseval/common/transformations.py:212-218 | layers 0-11 show each piece as a 1 on its letter's layer and are 0 on empty squares; layers 12-13 are the castling plane and layer 14 is the en-passant plane |
| Planes.FullBoardWellFormed | poseval/common/transformations.py:212-218 | a well-formed placement of known letters with a usable en-passant field always yields the fifteen-layer board |
| Planes.Transform | poseval/common/transformations.py:81-114 | the two flat tags give, under the flat encoder's success condition, flat vectors of 384 or 768 numbers whose every position holds the value of the last piece written there, or 0; their errors are `KeyError` (only for an unknown letter) or `IndexError` (the only one for known letters); the two sparse tags give the sparse lists of their scheme, or `KeyError`; any other tag raises `ValueError` |

## Left out

- NumPy's float dtype: cells hold integers, since every value written is 0, 1 or -1.
- Non-ASCII text: `str.isdigit`, `int`, `islower` and `upper`/`lower` are modelled on ASCII only. Python also treats other Unicode digits and cased letters as such.
- `Flip.Flip`: when the en-passant rewrite raises, the Python object has already rewritten its side, placement and castling fields. The model returns only the error, not that half-updated record.
- `Encoding.FlatVector`: when a placement has both an unknown letter and an overflowing position, the contract does not say which error is raised first. The body raises the error of whichever character comes first.
- `Planes.Transform`: the flat tags inherit the same gap. When both an unknown letter and an overflow occur, the contract allows either `KeyError` or `IndexError`.
- `AlreadyWhiteError` and `reverse_square`: the exception is never raised, and the method body is empty.
- The `isinstance` guard of `_reverse_piece`: every field is a string, so the guard's other branch cannot be reached.
- The default argument of `transform`: the model takes the tag as a parameter, so a call with no tag is `Transform(f, Vector6Flat)`.
- The test harness (pytest, NumPy comparisons).
