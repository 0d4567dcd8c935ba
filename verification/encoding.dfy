/** The three piece encodings of poseval/common/transformations.py: the
    sparse index lists, the flat vector and the dense 8 x 8 x layers array,
    each in the six-layer and the twelve-layer scheme. All three read the
    placement field through the scan of module `Placement`; here they are
    related to its entries and to one another. */
module Encoding {
  import opened Outcome
  import opened Text
  import opened DataSpecs
  import opened Placement

  /** Every character the scan treats as a piece is one of the twelve
      letters the tables know; any other one raises `KeyError`. */
  predicate Recognised(p: string)
  {
    forall i :: 0 <= i < |p| ==> IsPieceChar(p[i]) ==> p[i] in Pieces
  }

  lemma RecognisedSnoc(p: string)
    requires |p| > 0
    ensures Recognised(p) <==>
      Recognised(p[..|p|-1]) && (IsPieceChar(p[|p|-1]) ==> p[|p|-1] in Pieces)
  {
    var init := p[..|p|-1];
    assert forall i :: 0 <= i < |init| ==> init[i] == p[i];
  }

  /** The layer a piece letter goes to. Twelve layers: layer `l` holds the
      letter `Pieces[l]`. Six layers: layer `l` holds the black and white
      letters of one piece type, `Pieces[2 l]` and `Pieces[2 l + 1]`. */
  function LayerOf(scheme: Scheme, c: char): (l: nat)
    requires c in Pieces
    ensures l < scheme.Layers()
    ensures scheme.Twelve? ==> Pieces[l] == c
    ensures scheme.Six? ==> Pieces[2 * l] == c || Pieces[2 * l + 1] == c
  {
    var i := IndexOf(Pieces, c);
    assert scheme.LayerMap()[Pieces[i]] == if scheme.Six? then i / 2 else i;
    assert i == 2 * (i / 2) || i == 2 * (i / 2) + 1;
    scheme.LayerMap()[c]
  }

  /** The value written for a piece letter: always 1 with twelve layers;
      with six, +1 for a black (lower-case) piece and -1 for a white one. */
  function ValueOf(scheme: Scheme, c: char): (v: int)
    requires c in Pieces
    ensures v == if scheme.Six? && !IsLower(c) then -1 else 1
  {
    scheme.ValueMap()[c]
  }

  /** Within a scheme the layer of a letter identifies it up to colour. */
  lemma LayerOfTwelve(c: char, l: nat)
    requires c in Pieces && l < 12
    ensures LayerOf(Twelve, c) == l <==> c == Pieces[l]
  {
    if c == Pieces[l] {
      assert Twelve.LayerMap()[Pieces[l]] == l;
    }
  }

  lemma LayerOfSix(c: char, l: nat)
    requires c in Pieces && l < 6
    ensures LayerOf(Six, c) == l <==> c == Pieces[2 * l] || c == Pieces[2 * l + 1]
  {
    if c == Pieces[2 * l] || c == Pieces[2 * l + 1] {
      var j := if Pieces[2 * l] == c then 2 * l else 2 * l + 1;
      assert Six.LayerMap()[Pieces[j]] == j / 2;
    }
  }

  /** The six-layer pairs: `Pieces[2 l]` is the black letter of a piece
      type and `Pieces[2 l + 1]` the white one. */
  lemma SixColours(l: nat)
    requires l < 6
    ensures IsLower(Pieces[2 * l]) && !IsLower(Pieces[2 * l + 1])
    ensures Pieces[2 * l + 1] == SwapCase(Pieces[2 * l])
  {
    if l == 0 {} else if l == 1 {} else if l == 2 {} else if l == 3 {} else if l == 4 {} else {}
  }

  /** The twelve letters are all read as pieces by the scan. */
  lemma PieceLetters()
    ensures forall i :: 0 <= i < |Pieces| ==> IsPieceChar(Pieces[i])
  {
  }

  /** Every entry carries a letter the tables know. */
  predicate AllPieces(es: seq<Entry>)
  {
    forall k :: 0 <= k < |es| ==> es[k].piece in Pieces
  }

  lemma RecognisedEntries(p: string)
    requires Recognised(p)
    ensures AllPieces(Entries(p))
  {
    var es := Entries(p);
    forall k | 0 <= k < |es| ensures es[k].piece in Pieces {
      var i :| 0 <= i < |p| && p[i] == es[k].piece;
    }
  }

  /** The dictionary `_raw_board_to_sparse_representation` returns. */
  datatype Sparse = Sparse(indicesX: seq<int>, indicesY: seq<int>, indicesZ: seq<int>, values: seq<int>)

  /** The four lists hold, entry by entry, the row, the column, the layer
      and the value of the entries `es`. */
  predicate Lists(sp: Sparse, es: seq<Entry>, scheme: Scheme)
  {
    AllPieces(es) &&
    |sp.indicesX| == |es| && |sp.indicesY| == |es| && |sp.indicesZ| == |es| && |sp.values| == |es| &&
    forall k :: 0 <= k < |es| ==>
      sp.indicesX[k] == es[k].row && sp.indicesY[k] == es[k].col &&
      sp.indicesZ[k] == LayerOf(scheme, es[k].piece) && sp.values[k] == ValueOf(scheme, es[k].piece)
  }

  /** `_raw_board_to_sparse_representation`, one character at a time. */
  function SparseOf(p: string, scheme: Scheme): (r: Result<Sparse>)
    ensures r.Ok? <==> Recognised(p)
    ensures r.Err? ==> r.error == KeyError
    ensures r.Ok? ==> Lists(r.value, Entries(p), scheme)
  {
    if |p| == 0 then Ok(Sparse([], [], [], []))
    else
      var init, c := p[..|p|-1], p[|p|-1];
      RecognisedSnoc(p);
      match SparseOf(init, scheme)
      case Err(e) => Err(e)
      case Ok(sp) =>
        if !IsPieceChar(c) then Ok(sp)
        else if c !in Pieces then Err(KeyError)
        else
          Ok(Sparse(sp.indicesX + [Row(init)], sp.indicesY + [Column(init)],
                    sp.indicesZ + [LayerOf(scheme, c)], sp.values + [ValueOf(scheme, c)]))
  }

  /** The position in the flat vector written for an entry: layers vary
      fastest, then columns, then rows. */
  function FlatIndex(e: Entry, scheme: Scheme): nat
    requires e.piece in Pieces
  {
    scheme.Layers() * (8 * e.row + e.col) + LayerOf(scheme, e.piece)
  }

  /** Every entry's flat position lies inside the 64-square vector. */
  predicate FitsFlat(es: seq<Entry>, scheme: Scheme)
  {
    AllPieces(es) && forall k :: 0 <= k < |es| ==> FlatIndex(es[k], scheme) < 64 * scheme.Layers()
  }

  /** Reference value of flat position `i`: the value of the last entry
      written there, or 0. */
  function FlatCell(es: seq<Entry>, scheme: Scheme, i: int): int
    requires AllPieces(es)
  {
    if |es| == 0 then 0
    else
      var e := es[|es|-1];
      if FlatIndex(e, scheme) == i then ValueOf(scheme, e.piece) else FlatCell(es[..|es|-1], scheme, i)
  }

  /** `v` is the flat vector of the entries `es`: 64 squares of layers,
      each position holding its reference value. */
  predicate FlatOf(v: seq<int>, es: seq<Entry>, scheme: Scheme)
    requires AllPieces(es)
  {
    |v| == 64 * scheme.Layers() && forall i :: 0 <= i < |v| ==> v[i] == FlatCell(es, scheme, i)
  }

  lemma FitsFlatSnoc(es: seq<Entry>, e: Entry, scheme: Scheme)
    requires AllPieces(es) && e.piece in Pieces
    ensures AllPieces(es + [e])
    ensures FitsFlat(es + [e], scheme) <==> FitsFlat(es, scheme) && FlatIndex(e, scheme) < 64 * scheme.Layers()
  {
    assert forall k :: 0 <= k < |es| ==> (es + [e])[k] == es[k];
    assert (es + [e])[|es|] == e;
  }

  /** Writing one more entry into the flat vector of `es` gives the flat
      vector of `es + [e]`. */
  lemma FlatStep(v: seq<int>, es: seq<Entry>, e: Entry, scheme: Scheme)
    requires AllPieces(es) && e.piece in Pieces && FlatOf(v, es, scheme)
    requires FlatIndex(e, scheme) < |v|
    ensures AllPieces(es + [e])
    ensures FlatOf(v[FlatIndex(e, scheme) := ValueOf(scheme, e.piece)], es + [e], scheme)
  {
    FitsFlatSnoc(es, e, scheme);
    assert (es + [e])[..|es|] == es;
  }

  lemma FlatEmpty(scheme: Scheme)
    ensures FlatOf(seq(64 * scheme.Layers(), i => 0), [], scheme)
  {
  }

  /** What one more character does to the scan's entries and to the two
      success conditions of the flat encoder. */
  lemma ScanSnoc(p: string, scheme: Scheme)
    requires |p| > 0
    ensures var init, c := p[..|p|-1], p[|p|-1];
      && (Recognised(p) <==> Recognised(init) && (IsPieceChar(c) ==> c in Pieces))
      && (!IsPieceChar(c) ==> Entries(p) == Entries(init))
      && (IsPieceChar(c) ==> Entries(p) == Entries(init) + [Entry(Row(init), Column(init), c)])
      && (Recognised(p) && FitsFlat(Entries(p), scheme) ==> FitsFlat(Entries(init), scheme))
  {
    var init, c := p[..|p|-1], p[|p|-1];
    RecognisedSnoc(p);
    if Recognised(p) && IsPieceChar(c) {
      RecognisedEntries(init);
      FitsFlatSnoc(Entries(init), Entry(Row(init), Column(init), c), scheme);
    }
  }

  /** `_raw_board_to_flat_vector`, one character at a time. An unknown
      letter raises `KeyError`; a position past the end of the list raises
      `IndexError`. A rank that runs past eight squares does not raise: its
      extra pieces land on the following rank's squares. */
  function FlatVector(p: string, scheme: Scheme): (r: Result<seq<int>>)
    ensures r.Ok? <==> Recognised(p) && FitsFlat(Entries(p), scheme)
    ensures r.Err? ==> r.error == KeyError || r.error == IndexError
    ensures r.Err? && r.error == KeyError ==> !Recognised(p)
    ensures Recognised(p) && r.Err? ==> r.error == IndexError
    ensures r.Ok? ==> FlatOf(r.value, Entries(p), scheme)
  {
    if |p| == 0 then FlatEmpty(scheme); Ok(seq(64 * scheme.Layers(), i => 0))
    else
      var init, c := p[..|p|-1], p[|p|-1];
      ScanSnoc(p, scheme);
      match FlatVector(init, scheme)
      case Err(e) => Err(e)
      case Ok(v) =>
        if !IsPieceChar(c) then Ok(v)
        else if c !in Pieces then Err(KeyError)
        else
          var e := Entry(Row(init), Column(init), c);
          FitsFlatSnoc(Entries(init), e, scheme);
          if FlatIndex(e, scheme) < |v| then
            FlatStep(v, Entries(init), e, scheme);
            Ok(v[FlatIndex(e, scheme) := ValueOf(scheme, c)])
          else Err(IndexError)
  }
}
