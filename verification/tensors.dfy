/** The NumPy side of the encoder: zero-initialised 8 x 8 x depth arrays,
    single-cell assignment with NumPy's index rules, depth stacking and
    sums. Cell values are always small integers, so no floating point. */
module Tensors {
  import opened Outcome

  /** An 8 x 8 x depth array, indexed `t[row][col][layer]`. */
  type Tensor = seq<seq<seq<int>>>

  predicate Shaped(t: Tensor, depth: nat)
  {
    |t| == 8 && forall r :: 0 <= r < 8 ==> |t[r]| == 8 && forall c :: 0 <= c < 8 ==> |t[r][c]| == depth
  }

  /** A NumPy array of zeros of shape 8 x 8 x depth. */
  function Zeros(depth: nat): (t: Tensor)
    ensures Shaped(t, depth)
    ensures forall r, c, l :: 0 <= r < 8 && 0 <= c < 8 && 0 <= l < depth ==> t[r][c][l] == 0
  {
    seq(8, r => seq(8, c => seq(depth, l => 0)))
  }

  /** A NumPy item assignment on in-range indices: the cell at (row, col,
      layer) takes the value `v` and no other cell changes. */
  function Put(t: Tensor, depth: nat, row: nat, col: nat, layer: nat, v: int): (u: Tensor)
    requires Shaped(t, depth) && row < 8 && col < 8 && layer < depth
    ensures Shaped(u, depth)
    ensures forall r, c, l :: 0 <= r < 8 && 0 <= c < 8 && 0 <= l < depth ==>
      u[r][c][l] == if r == row && c == col && l == layer then v else t[r][c][l]
  {
    t[row := t[row][col := t[row][col][layer := v]]]
  }

  /** How NumPy reads one integer index into an axis of length `n`: a
      negative index counts back from the end, anything else out of range
      raises `IndexError`. */
  function NpIndex(i: int, n: nat): (r: Result<nat>)
    ensures r.Ok? <==> -(n as int) <= i < n
    ensures r.Err? ==> r.error == IndexError
    ensures r.Ok? ==> r.value < n && (r.value == i || r.value == i + n)
  {
    if 0 <= i < n then Ok(i)
    else if -(n as int) <= i < 0 then Ok(i + n)
    else Err(IndexError)
  }

  /** `np.dstack((a, b, c))`: the layers of `a`, then of `b`, then of `c`. */
  function Stack(a: Tensor, da: nat, b: Tensor, db: nat, c: Tensor, dc: nat): (t: Tensor)
    requires Shaped(a, da) && Shaped(b, db) && Shaped(c, dc)
    ensures Shaped(t, da + db + dc)
    ensures forall r, col, l :: 0 <= r < 8 && 0 <= col < 8 && 0 <= l < da + db + dc ==>
      t[r][col][l] == if l < da then a[r][col][l] else if l < da + db then b[r][col][l - da] else c[r][col][l - da - db]
  {
    seq(8, r requires 0 <= r < 8 => seq(8, col requires 0 <= col < 8 => a[r][col] + b[r][col] + c[r][col]))
  }

  function Sum(s: seq<int>): int
  {
    if |s| == 0 then 0 else Sum(s[..|s|-1]) + s[|s|-1]
  }

  /** The 64 cells of one layer, rank by rank. */
  function PlaneRowSums(t: Tensor, depth: nat, layer: nat): seq<int>
    requires Shaped(t, depth) && layer < depth
  {
    seq(8, r requires 0 <= r < 8 => Sum(seq(8, c requires 0 <= c < 8 => t[r][c][layer])))
  }

  /** The NumPy sum of one layer over all 64 squares. */
  function PlaneSum(t: Tensor, depth: nat, layer: nat): int
    requires Shaped(t, depth) && layer < depth
  {
    Sum(PlaneRowSums(t, depth, layer))
  }

  /** `np.sum(t, axis=(0, 1, 2))`. */
  function Total(t: Tensor, depth: nat): int
    requires Shaped(t, depth)
  {
    Sum(seq(depth, l requires 0 <= l < depth => PlaneSum(t, depth, l)))
  }

  lemma {:induction false} SumUpdate(s: seq<int>, i: nat, x: int)
    requires i < |s|
    ensures Sum(s[i := x]) == Sum(s) - s[i] + x
  {
    var n := |s|;
    if i == n - 1 {
      assert s[i := x][..n-1] == s[..n-1];
    } else {
      assert s[i := x][..n-1] == s[..n-1][i := x];
      SumUpdate(s[..n-1], i, x);
    }
  }

  lemma {:induction false} SumZeros(s: seq<int>)
    requires forall i :: 0 <= i < |s| ==> s[i] == 0
    ensures Sum(s) == 0
  {
    if |s| > 0 {
      SumZeros(s[..|s|-1]);
    }
  }

  /** Writing `v` into one cell moves the sum of that cell's layer by the
      difference and leaves every other layer's sum alone. */
  lemma PlaneSumPut(t: Tensor, depth: nat, row: nat, col: nat, layer: nat, v: int, l: nat)
    requires Shaped(t, depth) && row < 8 && col < 8 && layer < depth && l < depth
    ensures PlaneSum(Put(t, depth, row, col, layer, v), depth, l)
      == PlaneSum(t, depth, l) + (if l == layer then v - t[row][col][layer] else 0)
  {
    var u := Put(t, depth, row, col, layer, v);
    var before, after := PlaneRowSums(t, depth, l), PlaneRowSums(u, depth, l);
    if l != layer {
      forall r | 0 <= r < 8 ensures after[r] == before[r] {
        assert seq(8, c requires 0 <= c < 8 => u[r][c][l]) == seq(8, c requires 0 <= c < 8 => t[r][c][l]);
      }
      assert after == before;
    } else {
      var cells := seq(8, c requires 0 <= c < 8 => t[row][c][l]);
      var cells' := seq(8, c requires 0 <= c < 8 => u[row][c][l]);
      assert cells' == cells[col := v];
      SumUpdate(cells, col, v);
      assert after == before[row := Sum(cells')];
      SumUpdate(before, row, Sum(cells'));
    }
  }

  lemma TotalPut(t: Tensor, depth: nat, row: nat, col: nat, layer: nat, v: int)
    requires Shaped(t, depth) && row < 8 && col < 8 && layer < depth
    ensures Total(Put(t, depth, row, col, layer, v), depth) == Total(t, depth) - t[row][col][layer] + v
  {
    var u := Put(t, depth, row, col, layer, v);
    var before := seq(depth, l requires 0 <= l < depth => PlaneSum(t, depth, l));
    var after := seq(depth, l requires 0 <= l < depth => PlaneSum(u, depth, l));
    forall l | 0 <= l < depth
      ensures after[l] == before[l] + (if l == layer then v - t[row][col][layer] else 0)
    {
      PlaneSumPut(t, depth, row, col, layer, v, l);
    }
    assert after == before[layer := before[layer] + v - t[row][col][layer]];
    SumUpdate(before, layer, before[layer] + v - t[row][col][layer]);
  }

  lemma ZerosSums(depth: nat)
    ensures forall l :: 0 <= l < depth ==> PlaneSum(Zeros(depth), depth, l) == 0
    ensures Total(Zeros(depth), depth) == 0
  {
    var z := Zeros(depth);
    forall l | 0 <= l < depth
      ensures PlaneSum(z, depth, l) == 0
    {
      forall r | 0 <= r < 8
        ensures Sum(seq(8, c requires 0 <= c < 8 => z[r][c][l])) == 0
      {
        SumZeros(seq(8, c requires 0 <= c < 8 => z[r][c][l]));
      }
      SumZeros(PlaneRowSums(z, depth, l));
    }
    SumZeros(seq(depth, l requires 0 <= l < depth => PlaneSum(z, depth, l)));
  }
}
