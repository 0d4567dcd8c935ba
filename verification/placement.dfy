/** The left-to-right scan of the placement field shared by
    `_raw_board_to_sparse_representation` and `_raw_board_to_flat_vector`:
    a row counter bumped by every '/', a column counter reset by '/',
    advanced by a digit's value or by one for any other character, and one
    entry per character that is neither a digit nor '/'. */
module Placement {
  import opened Text

  /** A character the scan treats as a piece. */
  predicate IsPieceChar(c: char)
  {
    !IsDigit(c) && c != '/'
  }

  /** The row counter after the scan has read `s`. */
  function Row(s: string): nat
  {
    CountChar(s, '/')
  }

  /** The column counter after the scan has read `s`. */
  function Column(s: string): nat
  {
    if |s| == 0 then 0
    else
      var c := s[|s|-1];
      if IsDigit(c) then Column(s[..|s|-1]) + DigitValue(c)
      else if c == '/' then 0
      else Column(s[..|s|-1]) + 1
  }

  /** The squares one character of a rank covers. */
  function Span(c: char): nat
  {
    if IsDigit(c) then DigitValue(c) else 1
  }

  /** The squares a rank covers: its digits' values plus one per piece. */
  function Width(rank: string): nat
  {
    if |rank| == 0 then 0 else Span(rank[0]) + Width(rank[1..])
  }

  lemma {:induction false} WidthAppend(a: string, b: string)
    ensures Width(a + b) == Width(a) + Width(b)
  {
    if |a| > 0 {
      assert (a + b)[0] == a[0];
      assert (a + b)[1..] == a[1..] + b;
      WidthAppend(a[1..], b);
    } else {
      assert a + b == b;
    }
  }

  /** The column counter is the width of the part of the current rank read
      so far: the digits' values plus the pieces earlier in that rank. */
  lemma {:induction false} ColumnIsWidth(s: string)
    ensures Column(s) == Width(Split(s, '/')[Row(s)])
  {
    if |s| > 0 {
      var init := s[..|s|-1];
      var c := s[|s|-1];
      ColumnIsWidth(init);
      if c != '/' {
        var last := Split(init, '/')[Row(init)];
        assert Split(s, '/')[Row(s)] == last + [c];
        WidthAppend(last, [c]);
        assert Width([c]) == Span(c);
      }
    }
  }

  /** One sparse entry: where the piece stands in scan coordinates (row 0 is
      the first rank of the field, column 0 is file a) and which character
      it is. */
  datatype Entry = Entry(row: nat, col: nat, piece: char)

  /** Strict row-major order of squares. */
  predicate Before(a: Entry, b: Entry)
  {
    a.row < b.row || (a.row == b.row && a.col < b.col)
  }

  /** Entries in strict row-major order. */
  predicate Sorted(es: seq<Entry>)
  {
    forall j, k :: 0 <= j < k < |es| ==> Before(es[j], es[k])
  }

  /** The entries the scan emits for `s`, in emission order. They are in
      strict row-major order, so no two share a square, and every one lies
      before the scan's current position. */
  function Entries(s: string): (es: seq<Entry>)
    ensures forall k :: 0 <= k < |es| ==> IsPieceChar(es[k].piece) && es[k].piece in s
    ensures forall k :: 0 <= k < |es| ==> es[k].row < Row(s) || (es[k].row == Row(s) && es[k].col < Column(s))
    ensures Sorted(es)
  {
    if |s| == 0 then []
    else
      var init := s[..|s|-1];
      var c := s[|s|-1];
      assert forall x :: x in init ==> x in s;
      if IsPieceChar(c) then Entries(init) + [Entry(Row(init), Column(init), c)]
      else Entries(init)
  }

  /** Entry `e` is what the scan emits at position `i` of `s`: the piece
      there, the number of '/' before it, and the width of its rank up to it. */
  predicate EmittedAt(s: string, i: nat, e: Entry)
    requires i < |s|
  {
    e.piece == s[i] && e.row == CountChar(s[..i], '/') && e.col == Width(Split(s[..i], '/')[CountChar(s[..i], '/')])
  }

  /** Some position of `s` emits `e`. */
  predicate EmittedSomewhere(s: string, e: Entry)
  {
    exists i :: 0 <= i < |s| && EmittedAt(s, i, e)
  }

  /** Every entry of the scan comes from a piece character of the field. */
  lemma {:induction false} EntryOrigins(s: string)
    ensures forall k :: 0 <= k < |Entries(s)| ==> EmittedSomewhere(s, Entries(s)[k])
  {
    if |s| > 0 {
      var init := s[..|s|-1];
      EntryOrigins(init);
      var es := Entries(s);
      forall k | 0 <= k < |es|
        ensures EmittedSomewhere(s, es[k])
      {
        if k < |Entries(init)| {
          assert EmittedSomewhere(init, Entries(init)[k]);
          var i :| 0 <= i < |init| && EmittedAt(init, i, Entries(init)[k]);
          assert es[k] == Entries(init)[k];
          assert init[..i] == s[..i];
          assert EmittedAt(s, i, es[k]);
        } else {
          ColumnIsWidth(init);
          assert EmittedAt(s, |s| - 1, es[k]);
        }
      }
    }
  }

  /** How many entries carry the piece `x`. */
  function CountPiece(es: seq<Entry>, x: char): nat
  {
    if |es| == 0 then 0
    else CountPiece(es[..|es|-1], x) + (if es[|es|-1].piece == x then 1 else 0)
  }

  /** The scan emits one entry per occurrence of each piece character. */
  lemma {:induction false} EntriesCount(s: string, x: char)
    requires IsPieceChar(x)
    ensures CountPiece(Entries(s), x) == CountChar(s, x)
  {
    if |s| > 0 {
      var init := s[..|s|-1];
      EntriesCount(init, x);
      var es := Entries(s);
      if IsPieceChar(s[|s|-1]) {
        assert es[..|es|-1] == Entries(init);
      }
    }
  }

  /** The placement has eight ranks and each covers eight squares. */
  predicate WellFormed(placement: string)
  {
    var ranks := Split(placement, '/');
    |ranks| == 8 && forall i :: 0 <= i < 8 ==> Width(ranks[i]) == 8
  }

  /** Every entry lies on the 8 x 8 board. */
  predicate OnBoard(es: seq<Entry>)
  {
    forall k :: 0 <= k < |es| ==> es[k].row < 8 && es[k].col < 8
  }

  /** A prefix of a rank covers no more squares than the rank. */
  lemma WidthPrefix(a: string, b: string)
    requires a <= b
    ensures Width(a) <= Width(b)
  {
    assert b == a + b[|a|..];
    WidthAppend(a, b[|a|..]);
  }

  /** In a well-formed placement a piece at position `i` is read while both
      counters are below 8. */
  lemma PieceFits(placement: string, i: nat)
    requires WellFormed(placement) && i < |placement| && IsPieceChar(placement[i])
    ensures Row(placement[..i]) < 8 && Column(placement[..i]) < 8
  {
    var upto := placement[..i+1];
    assert upto[..i] == placement[..i];
    SplitPrefix(placement, i + 1, '/');
    var a, b := Split(upto, '/'), Split(placement, '/');
    assert Row(upto) == Row(placement[..i]);
    ColumnIsWidth(upto);
    WidthPrefix(a[|a|-1], b[|a|-1]);
  }

  /** In a well-formed placement every entry lies on the board. */
  lemma WellFormedOnBoard(placement: string)
    requires WellFormed(placement)
    ensures OnBoard(Entries(placement))
  {
    PrefixOnBoard(placement, |placement|);
    assert placement[..|placement|] == placement;
  }

  lemma {:induction false} PrefixOnBoard(placement: string, j: nat)
    requires WellFormed(placement) && j <= |placement|
    ensures OnBoard(Entries(placement[..j]))
  {
    if j > 0 {
      PrefixOnBoard(placement, j - 1);
      assert placement[..j][..j-1] == placement[..j-1];
      if IsPieceChar(placement[j-1]) {
        PieceFits(placement, j - 1);
      }
    }
  }
}
