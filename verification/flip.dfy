/** `Fen.flip` and its four parts: toggle the side to move, mirror the
    placement vertically while swapping piece colours, rebuild the castling
    field, and rewrite the en-passant square. */
module Flip {
  import opened Outcome
  import opened Text
  import opened DataSpecs
  import opened FenRecord

  /** The side toggle of `Fen.flip`: "b" becomes "w", and any other value,
      "w" included, becomes "b". */
  function FlipSide(side: string): (r: string)
    ensures r == "w" || r == "b"
    ensures r == "w" <==> side == "b"
  {
    if side == "b" then "w" else "b"
  }

  lemma FlipSideInvolution(side: string)
    requires side == "w" || side == "b"
    ensures FlipSide(side) != side && FlipSide(FlipSide(side)) == side
  {
  }

  /** `_reverse_piece` applied to every character of one rank; digits and
      every other non-letter are left as they are. */
  function SwapRank(rank: string): string
  {
    seq(|rank|, i requires 0 <= i < |rank| => SwapCase(rank[i]))
  }

  /** A character of a swapped rank is the swap of a character of the rank;
      so a non-letter such as '/' or ' ' appears in one iff in the other. */
  lemma SwapRankCharacters(rank: string, x: char)
    requires x in SwapRank(rank)
    ensures SwapCase(x) in rank
  {
    var j :| 0 <= j < |rank| && SwapRank(rank)[j] == x;
    SwapCaseInvolution(rank[j]);
  }

  lemma SwapRankInvolution(rank: string)
    ensures SwapRank(SwapRank(rank)) == rank
  {
    forall i | 0 <= i < |rank| ensures SwapRank(SwapRank(rank))[i] == rank[i] {
      SwapCaseInvolution(rank[i]);
    }
  }

  /** `flip_position`: the ranks in reverse order, each with its piece
      colours swapped. The order of the squares inside a rank is kept, so
      this is a vertical mirror, not a rotation. */
  function FlipPosition(placement: string): (r: string)
    ensures var before, after := Split(placement, '/'), Split(r, '/');
      |after| == |before| &&
      forall i :: 0 <= i < |after| ==> after[i] == SwapRank(before[|before| - 1 - i])
  {
    var ranks := Split(placement, '/');
    var flipped := FlipRanks(ranks);
    FlipRanksSlashFree(ranks);
    var r := Join(flipped, '/');
    SplitJoin(flipped, '/');
    FlipPositionRanks(placement, r, ranks, flipped);
    r
  }

  /** The rank-by-rank reading of the result of `FlipPosition`. */
  lemma FlipPositionRanks(placement: string, r: string, ranks: seq<string>, flipped: seq<string>)
    requires ranks == Split(placement, '/') && flipped == FlipRanks(ranks) && Split(r, '/') == flipped
    ensures var before, after := Split(placement, '/'), Split(r, '/');
      |after| == |before| &&
      forall i :: 0 <= i < |after| ==> after[i] == SwapRank(before[|before| - 1 - i])
  {
  }

  /** The ranks last first, each colour-swapped. */
  function FlipRanks(ranks: seq<string>): (flipped: seq<string>)
    ensures |flipped| == |ranks|
    ensures forall i :: 0 <= i < |ranks| ==> flipped[i] == SwapRank(ranks[|ranks| - 1 - i])
  {
    seq(|ranks|, i requires 0 <= i < |ranks| => SwapRank(ranks[|ranks| - 1 - i]))
  }

  /** Swapping colours never makes a '/', so the flipped ranks can be
      joined and split again. */
  lemma FlipRanksSlashFree(ranks: seq<string>)
    requires forall j :: 0 <= j < |ranks| ==> '/' !in ranks[j]
    ensures forall i :: 0 <= i < |ranks| ==> '/' !in FlipRanks(ranks)[i]
  {
    var flipped := FlipRanks(ranks);
    forall i | 0 <= i < |flipped| ensures '/' !in flipped[i] {
      if '/' in flipped[i] {
        SwapRankCharacters(ranks[|ranks| - 1 - i], '/');
      }
    }
  }

  /** Flipping the placement twice gives back the original string. */
  lemma FlipPositionInvolution(placement: string)
    ensures FlipPosition(FlipPosition(placement)) == placement
  {
    var ranks := Split(placement, '/');
    var n := |ranks|;
    var q := FlipPosition(placement);
    var back := FlipPosition(q);
    var once, twice := Split(q, '/'), Split(back, '/');
    forall i | 0 <= i < n ensures twice[i] == ranks[i] {
      assert twice[i] == SwapRank(once[n - 1 - i]);
      assert once[n - 1 - i] == SwapRank(ranks[i]);
      SwapRankInvolution(ranks[i]);
    }
    assert twice == ranks;
    JoinSplit(placement, '/');
    JoinSplit(back, '/');
  }

  /** Flipping never introduces a character the placement lacked, up to case:
      in particular no space appears. */
  lemma FlipPositionSpaceFree(placement: string)
    requires ' ' !in placement
    ensures ' ' !in FlipPosition(placement)
  {
    var ranks := Split(placement, '/');
    var n := |ranks|;
    var flipped := FlipRanks(ranks);
    if ' ' in Join(flipped, '/') {
      JoinCharacters(flipped, '/', ' ');
      var i :| 0 <= i < n && ' ' in flipped[i];
      SwapRankCharacters(ranks[n - 1 - i], ' ');
      SplitCharacters(placement, '/', n - 1 - i, ' ');
    }
  }

  lemma SplitK()
    ensures Split("K", '/') == ["K"]
  {
    assert "K"[..0] == "";
    var k := Split("K", '/');
    assert |k| == 1 && k[0] == "K";
  }

  lemma SplitK7()
    ensures Split("K7", '/') == ["K7"]
  {
    SplitK();
    assert "K7"[..1] == "K";
    var k := Split("K7", '/');
    assert |k| == 1 && k[0] == "K7";
  }

  lemma SplitK7Slash()
    ensures Split("K7/", '/') == ["K7", ""]
  {
    SplitK7();
    var s := "K7/";
    assert s[..|s|-1] == "K7" && s[|s|-1] == '/';
    assert Split(s, '/') == Split("K7", '/') + [[]];
  }

  lemma SplitKingRank()
    ensures Split("K7/8", '/') == ["K7", "8"]
  {
    SplitK7Slash();
    var s := "K7/8";
    assert s[..|s|-1] == "K7/" && s[|s|-1] == '8';
    var k := Split(s, '/');
    assert k == ["K7"] + [[] + ['8']];
    assert |k| == 2 && k[0] == "K7" && k[1] == "8";
  }

  /** The white king on a8 of a two-rank board ends on a1 as a black king,
      still on file a: the ranks are mirrored, not rotated. */
  lemma FlipPositionExample()
    ensures FlipPosition("K7/8") == "8/k7"
  {
    SplitKingRank();
    var r := FlipPosition("K7/8");
    var after := Split(r, '/');
    assert after[0] == SwapRank("8") == "8";
    assert after[1] == SwapRank("K7") == "k7";
    assert after == ["8", "k7"];
    JoinSplit(r, '/');
  }

  /** The loop of `flip_castling`: scan `order` and append the colour-swapped
      letter of each one present in `field`. */
  function CastlingScan(order: string, field: string): string
  {
    if |order| == 0 then []
    else (if order[0] in field then [SwapCase(order[0])] else []) + CastlingScan(order[1..], field)
  }

  /** `flip_castling`: "-" stays; otherwise the swapped letters of those of
      `k`, `q`, `K`, `Q` present, in the normalised order `KQkq`. Any other
      character of the field is dropped. */
  function FlipCastling(castling: string): (r: string)
    ensures castling == "-" ==> r == "-"
    ensures castling != "-" ==> IsSubsequence(r, "KQkq")
    ensures castling != "-" ==> forall x :: x in r <==> x in "KQkq" && SwapCase(x) in castling
  {
    if castling == "-" then castling
    else
      CastlingScanUnrolled(castling);
      CastlingScan("kqKQ", castling)
  }

  /** The four steps of the `kqKQ` scan, each keeping or dropping one letter
      of `KQkq`. */
  lemma CastlingScanUnrolled(castling: string)
    ensures var r := CastlingScan("kqKQ", castling);
      && IsSubsequence(r, "KQkq")
      && forall x :: x in r <==> x in "KQkq" && SwapCase(x) in castling
  {
    CastlingScanSteps(castling);
    KeptLetters('k' in castling, 'q' in castling, 'K' in castling, 'Q' in castling);
    var r := CastlingScan("kqKQ", castling);
    forall x ensures x in r <==> x in "KQkq" && SwapCase(x) in castling {
      if x == 'K' {
        assert SwapCase(x) == 'k';
      } else if x == 'Q' {
        assert SwapCase(x) == 'q';
      } else if x == 'k' {
        assert SwapCase(x) == 'K';
      } else if x == 'q' {
        assert SwapCase(x) == 'Q';
      }
    }
  }

  /** Keeping any choice of the letters of `KQkq`, in that order. */
  lemma KeptLetters(bk: bool, bq: bool, wk: bool, wq: bool)
    ensures var r := (if bk then "K" else "") + (if bq then "Q" else "") + (if wk then "k" else "") + (if wq then "q" else "");
      && IsSubsequence(r, "KQkq")
      && forall x :: x in r <==> (x == 'K' && bk) || (x == 'Q' && bq) || (x == 'k' && wk) || (x == 'q' && wq)
  {
    var d := if wq then "q" else "";
    var c := (if wk then "k" else "") + d;
    var b := (if bq then "Q" else "") + c;
    assert "KQkq"[1..] == "Qkq" && "Qkq"[1..] == "kq" && "kq"[1..] == "q" && "q"[1..] == "";
    PrependOptional(wq, "q", "");
    assert d == d + "";
    PrependOptional(wk, "kq", d);
    PrependOptional(bq, "Qkq", c);
    PrependOptional(bk, "KQkq", b);
    assert (if bk then "K" else "") + (if bq then "Q" else "") + (if wk then "k" else "") + d
      == (if bk then "K" else "") + b;
  }

  lemma CastlingScanSteps(castling: string)
    ensures CastlingScan("kqKQ", castling)
      == (if 'k' in castling then "K" else "") + (if 'q' in castling then "Q" else "")
       + (if 'K' in castling then "k" else "") + (if 'Q' in castling then "q" else "")
  {
    var s0, s1, s2, s3 := "kqKQ", "qKQ", "KQ", "Q";
    assert s0[0] == 'k' && s0[1..] == s1;
    assert s1[0] == 'q' && s1[1..] == s2;
    assert s2[0] == 'K' && s2[1..] == s3;
    assert s3[0] == 'Q' && s3[1..] == "";
    assert SwapCase('k') == 'K' && SwapCase('q') == 'Q' && SwapCase('K') == 'k' && SwapCase('Q') == 'q';
    var d := if 'Q' in castling then "q" else "";
    assert CastlingScan(s3, castling) == d + CastlingScan("", castling);
    var c := (if 'K' in castling then "k" else "") + d;
    assert CastlingScan(s2, castling) == c;
    var b := (if 'q' in castling then "Q" else "") + c;
    assert CastlingScan(s1, castling) == b;
  }

  /** A castling field `flip_castling` can produce. */
  predicate NormalCastling(castling: string)
  {
    castling == "-" || IsSubsequence(castling, "KQkq")
  }

  /** On a normalised field, flipping the castling rights twice is the
      identity. */
  lemma FlipCastlingInvolution(castling: string)
    requires NormalCastling(castling)
    ensures FlipCastling(FlipCastling(castling)) == castling
  {
    if castling != "-" {
      var once := FlipCastling(castling);
      var twice := FlipCastling(once);
      forall x ensures x in twice <==> x in castling {
        if x in castling {
          SubsequenceCharacters(castling, "KQkq", x);
        }
        SwapCaseInvolution(x);
      }
      assert Distinct("KQkq");
      SubsequenceDeterminedByMembers(twice, castling, "KQkq");
    }
  }

  /** `flip_en_passant`: "-" stays. Otherwise the field must be two
      characters (`ValueError`), a file letter (`ValueError`) and a digit
      (`ValueError`); the new file is the letter at position 8 minus the old
      file's index in the file list, which raises `IndexError` for file `a`, and the new rank is `9 - rank`. Files are
      therefore mirrored around `e` (b<->h, c<->g, d<->f), not kept. */
  function FlipEnPassant(square: string): (r: Result<string>)
    ensures square == "-" ==> r == Ok("-")
    ensures r.Ok? <==> square == "-" || (|square| == 2 && square[0] in Files && square[0] != 'a' && IsDigit(square[1]))
    ensures r.Err? ==> (r.error == IndexError <==> |square| == 2 && square[0] == 'a' && IsDigit(square[1]))
    ensures r.Err? ==> r.error == IndexError || r.error == ValueError
    ensures r.Ok? && square != "-" ==>
      && |r.value| == 2 && r.value[0] in Files && IsDigit(r.value[1])
      && IndexOf(Files, r.value[0]) == 8 - IndexOf(Files, square[0])
      && DigitValue(r.value[1]) == 9 - DigitValue(square[1])
  {
    if square == "-" then Ok(square)
    else if |square| != 2 then Err(ValueError)
    else if square[0] !in Files then Err(ValueError)
    else if !IsDigit(square[1]) then Err(ValueError)
    else
      var newCol := 8 - IndexOf(Files, square[0]);
      var newLine := 8 - DigitValue(square[1]) + 1;
      if newCol < |Files| then
        FilesDistinct();
        IndexOfDistinct(Files, newCol);
        Ok([Files[newCol], DigitChar(newLine)])
      else Err(IndexError)
  }

  /** An en-passant field `flip_en_passant` accepts. */
  predicate FlippableSquare(square: string)
  {
    square == "-" || (|square| == 2 && square[0] in Files && square[0] != 'a' && IsDigit(square[1]))
  }

  /** On files b-h the en-passant rewrite is an involution. */
  lemma FlipEnPassantInvolution(square: string)
    requires FlippableSquare(square)
    ensures FlipEnPassant(square).Ok?
    ensures FlippableSquare(FlipEnPassant(square).value)
    ensures FlipEnPassant(FlipEnPassant(square).value) == Ok(square)
  {
    if square != "-" {
      var once := FlipEnPassant(square).value;
      var i := IndexOf(Files, square[0]);
      FilesDistinct();
      IndexOfDistinct(Files, i);
      var twice := FlipEnPassant(once).value;
      IndexOfDistinct(Files, 8 - IndexOf(Files, once[0]));
      assert twice[0] == square[0];
      assert DigitChar(DigitValue(twice[1])) == DigitChar(DigitValue(square[1]));
      assert twice == square;
    }
  }

  /** `e3` becomes `e6` and `b3` becomes `h6`; a square on file `a` fails. */
  lemma FlipEnPassantExamples()
    ensures FlipEnPassant("e3") == Ok("e6")
    ensures FlipEnPassant("b3") == Ok("h6")
    ensures FlipEnPassant("a3") == Err(IndexError)
    ensures FlipEnPassant("e10") == Err(ValueError)
  {
  }

  /** `Fen.flip`. The Python method rewrites the side, the placement and the
      castling field in place before the en-passant rewrite can raise; here a
      failing flip just returns the error. */
  function Flip(f: Fen): (r: Result<Fen>)
    ensures r.Ok? <==> FlipEnPassant(f.enPassant).Ok?
    ensures r.Err? ==> r.error == FlipEnPassant(f.enPassant).error
    ensures r.Ok? ==> var g := r.value;
      && g.halfmove == f.halfmove && g.fullmove == f.fullmove
      && (g.NextToMove() == "w" <==> f.NextToMove() == "b")
      && (g.NextToMove() == "w" || g.NextToMove() == "b")
      && g.placement == FlipPosition(f.placement)
      && g.castling == FlipCastling(f.castling)
      && g.enPassant == FlipEnPassant(f.enPassant).value
      && (f.castling == "-" ==> g.castling == "-")
      && (f.castling != "-" ==>
            && (g.CanCastleWhiteKing() <==> f.CanCastleBlackKing())
            && (g.CanCastleWhiteQueen() <==> f.CanCastleBlackQueen())
            && (g.CanCastleBlackKing() <==> f.CanCastleWhiteKing())
            && (g.CanCastleBlackQueen() <==> f.CanCastleWhiteQueen()))
      && (g.EnPassantTargetSquare().None? <==> f.EnPassantTargetSquare().None?)
  {
    match FlipEnPassant(f.enPassant)
    case Err(e) => Err(e)
    case Ok(square) =>
      FlipCastlingRights(f.castling);
      Ok(Fen(FlipPosition(f.placement), FlipSide(f.side), FlipCastling(f.castling), square, f.halfmove, f.fullmove))
  }

  /** The flipped castling field grants each colour the rights the other
      colour had. */
  lemma FlipCastlingRights(castling: string)
    ensures castling != "-" ==>
      && ('K' in FlipCastling(castling) <==> 'k' in castling)
      && ('Q' in FlipCastling(castling) <==> 'q' in castling)
      && ('k' in FlipCastling(castling) <==> 'K' in castling)
      && ('q' in FlipCastling(castling) <==> 'Q' in castling)
  {
    assert SwapCase('k') == 'K' && SwapCase('q') == 'Q' && SwapCase('K') == 'k' && SwapCase('Q') == 'q';
    assert 'K' in "KQkq" && 'Q' in "KQkq" && 'k' in "KQkq" && 'q' in "KQkq";
  }

  /** The records a double flip restores: side "w" or "b", a normalised
      castling field and an en-passant field off file `a`. */
  predicate Reversible(f: Fen)
  {
    && (f.side == "w" || f.side == "b")
    && NormalCastling(f.castling)
    && FlippableSquare(f.enPassant)
  }

  /** Flipping a reversible record twice restores it. */
  lemma FlipTwice(f: Fen)
    requires Reversible(f)
    ensures Flip(f).Ok? && Reversible(Flip(f).value)
    ensures Flip(Flip(f).value) == Ok(f)
  {
    FlipSideInvolution(f.side);
    FlipPositionInvolution(f.placement);
    FlipCastlingInvolution(f.castling);
    FlipEnPassantInvolution(f.enPassant);
  }

  /** A flip keeps every field free of spaces, so its string form parses
      back into the same record. */
  lemma FlipSpaceFree(f: Fen)
    requires f.SpaceFree() && Flip(f).Ok?
    ensures Flip(f).value.SpaceFree()
    ensures Parse(Flip(f).value.Fenstring()) == Flip(f)
  {
    FlippedFieldsSpaceFree(f);
    ParseFenstring(Flip(f).value);
  }

  /** No field of the flipped record holds a space. */
  lemma FlippedFieldsSpaceFree(f: Fen)
    requires f.SpaceFree() && Flip(f).Ok?
    ensures Flip(f).value.SpaceFree()
  {
    var g := Flip(f).value;
    assert f.Fields()[0] == f.placement && f.Fields()[2] == f.castling && f.Fields()[3] == f.enPassant;
    assert f.Fields()[4] == g.halfmove && f.Fields()[5] == g.fullmove;
    FlipPositionSpaceFree(f.placement);
    FlipCastlingSpaceFree(f.castling);
    FlipEnPassantSpaceFree(f.enPassant);
    SpaceFreeFields(g);
  }

  lemma SpaceFreeFields(g: Fen)
    requires ' ' !in g.placement && ' ' !in g.castling && ' ' !in g.enPassant
    requires g.side == "w" || g.side == "b"
    requires ' ' !in g.halfmove && ' ' !in g.fullmove
    ensures g.SpaceFree()
  {
    forall i | 0 <= i < 6 ensures ' ' !in g.Fields()[i] {
      assert g.Fields()[i] in [g.placement, g.side, g.castling, g.enPassant, g.halfmove, g.fullmove];
    }
  }

  lemma FlipCastlingSpaceFree(castling: string)
    requires ' ' !in castling
    ensures ' ' !in FlipCastling(castling)
  {
  }

  lemma FlipEnPassantSpaceFree(square: string)
    requires ' ' !in square && FlipEnPassant(square).Ok?
    ensures ' ' !in FlipEnPassant(square).value
  {
    if square != "-" {
      var r := FlipEnPassant(square).value;
      assert ' ' !in Files;
      assert r == [r[0], r[1]];
    }
  }

  /** What the flip-twice test does: parse, flip, re-parse the flipped
      string, flip again, and compare the string with the input. */
  lemma FlipTwiceThroughText(s: string)
    requires Parse(s).Ok? && Reversible(Parse(s).value)
    ensures var once := Flip(Parse(s).value);
      && once.Ok?
      && Parse(once.value.Fenstring()) == once
      && Flip(once.value).Ok?
      && Flip(once.value).value.Fenstring() == s
  {
    var f := Parse(s).value;
    FlipTwice(f);
    FlipSpaceFree(f);
  }
}
