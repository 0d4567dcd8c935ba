/** The FEN record (`Fen` in poseval/common/transformations.py): a FEN
    string split on single spaces into exactly six fields, with the
    accessors the encoders read. */
module FenRecord {
  import opened Outcome
  import opened Text

  /** The six fields of a FEN string, in order. */
  datatype Fen = Fen(
    placement: string,   // piece placement, rank 8 first, ranks separated by '/'
    side: string,        // side to move
    castling: string,    // castling availability
    enPassant: string,   // en-passant target square or "-"
    halfmove: string,    // halfmove clock
    fullmove: string)    // fullmove number
  {
    /** `elems`. */
    function Fields(): seq<string>
    {
      [placement, side, castling, enPassant, halfmove, fullmove]
    }

    /** `fenstring`: the fields joined by single spaces. */
    function Fenstring(): string
    {
      Join(Fields(), ' ')
    }

    /** No field holds a space, as is the case for every parsed record. */
    predicate SpaceFree()
    {
      forall i :: 0 <= i < 6 ==> ' ' !in Fields()[i]
    }

    /** `can_castle_*`: a right is granted when its letter occurs anywhere
        in the castling field (`elems[2]`). */
    function CanCastle(right: char): (b: bool)
      ensures b <==> exists i :: 0 <= i < |Fields()[2]| && Fields()[2][i] == right
    {
      assert Fields()[2] == castling;
      right in castling
    }

    function CanCastleWhiteKing(): bool { CanCastle('K') }
    function CanCastleBlackKing(): bool { CanCastle('k') }
    function CanCastleBlackQueen(): bool { CanCastle('q') }
    function CanCastleWhiteQueen(): bool { CanCastle('Q') }

    /** `next_to_move`: the second field, as written. */
    function NextToMove(): (s: string)
      ensures s == Fields()[1]
    {
      side
    }

    /** Rights in the order black king side, white king side, black queen
        side, white queen side. */
    function CastlingVector(): (v: seq<bool>)
      ensures |v| == 4
      ensures v[0] == CanCastleBlackKing() && v[1] == CanCastleWhiteKing()
      ensures v[2] == CanCastleBlackQueen() && v[3] == CanCastleWhiteQueen()
    {
      [CanCastleBlackKing(), CanCastleWhiteKing(), CanCastleBlackQueen(), CanCastleWhiteQueen()]
    }

    /** `en_passant_target_square`: `None` for "-", otherwise the fourth
        field unchanged. */
    function EnPassantTargetSquare(): (r: Option<string>)
      ensures r.None? <==> Fields()[3] == "-"
      ensures r.Some? ==> r.value == Fields()[3]
    {
      if enPassant == "-" then None else Some(enPassant)
    }

    /** `raw_board`: the first field, the piece placement. */
    function RawBoard(): (s: string)
      ensures s == Fields()[0]
    {
      placement
    }
  }

  /** `Fen(fenstring)`: split on the single character ' ' (so two adjacent
      spaces give an empty field) and insist on six fields. */
  function Parse(s: string): (r: Result<Fen>)
    ensures r.Ok? <==> CountChar(s, ' ') == 5
    ensures r.Err? ==> r.error == MalformedFenString
    ensures r.Ok? ==> r.value.Fenstring() == s && r.value.SpaceFree()
  {
    var elems := Split(s, ' ');
    if |elems| != 6 then Err(MalformedFenString)
    else
      var f := Fen(elems[0], elems[1], elems[2], elems[3], elems[4], elems[5]);
      assert f.Fields() == elems;
      JoinSplit(s, ' ');
      Ok(f)
  }

  /** The accessors of a parsed record read the fields of the FEN string
      itself: the placement is the text before the first space, the side
      the text between the first and second, and so on. */
  lemma ParsedAccessors(s: string)
    requires Parse(s).Ok?
    ensures var f, elems := Parse(s).value, Split(s, ' ');
      && f.RawBoard() == elems[0]
      && f.NextToMove() == elems[1]
      && (f.CanCastleWhiteKing() <==> 'K' in elems[2])
      && (f.CanCastleBlackKing() <==> 'k' in elems[2])
      && (f.CanCastleBlackQueen() <==> 'q' in elems[2])
      && (f.CanCastleWhiteQueen() <==> 'Q' in elems[2])
      && (f.EnPassantTargetSquare() == if elems[3] == "-" then None else Some(elems[3]))
      && f.CastlingVector() == ['k' in elems[2], 'K' in elems[2], 'q' in elems[2], 'Q' in elems[2]]
  {
    var f, elems := Parse(s).value, Split(s, ' ');
    assert f.Fields() == elems;
  }

  /** Re-parsing the string form of a record gives the record back. */
  lemma ParseFenstring(f: Fen)
    requires f.SpaceFree()
    ensures Parse(f.Fenstring()) == Ok(f)
  {
    SplitJoin(f.Fields(), ' ');
  }
}
