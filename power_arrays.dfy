/** The script that sums powers of an array: `practice_map`, the loop bound
    of `get_scale_coef`, and `sum_along_direction`, the column sums of a
    vector of rows. The `f64` entries of the rows are `real` here. */
module PowerArrays {
  import opened RustInt
  import ZernikeCalc

  /** The closure of `practice_map`: even numbers doubled, odd ones kept. */
  function EvenDoubled(i: nat): nat {
    if i % 2 == 0 then 2 * i else i
  }

  /** `practice_map(n)`: `(0..n).map(..).collect()`, built one index at a time. */
  function PracticeMap(n: nat): (r: seq<nat>)
    ensures |r| == n
    ensures forall i :: 0 <= i < n && i % 2 == 0 ==> r[i] == 2 * i
    ensures forall i :: 0 <= i < n && i % 2 == 1 ==> r[i] == i
  {
    if n == 0 then [] else PracticeMap(n - 1) + [EvenDoubled(n - 1)]
  }

  /** `max_idx` of `get_scale_coef`: `(n as f32 - m as f32) / 2.0 + 1.0`,
      cast back to `i32`. */
  function ScaleMaxIdx(n: int, m: int): (r: int)
    requires InI32(n) && InI32(m)
    ensures InI32(r)
    ensures m <= n ==> r >= 1
    ensures n < m - 3 ==> r < 0
  {
    F32AsI32(((n as real) - (m as real)) / 2.0 + 1.0)
  }

  /** For `n >= m`, the float computation of `get_scale_coef` comes to the
      integer `(n - m) / 2 + 1`, rounded down, as long as that fits in `i32`. */
  lemma ScaleMaxIdxTruncates(n: int, m: int)
    requires InI32(n) && InI32(m) && m <= n
    requires (n - m) / 2 + 1 <= I32_MAX
    ensures ScaleMaxIdx(n, m) == (n - m) / 2 + 1
  {
    var d := n - m;
    var x := ((n as real) - (m as real)) / 2.0 + 1.0;
    assert d == 2 * (d / 2) + d % 2;
    assert x == (d / 2 + 1) as real + (d % 2) as real / 2.0;
    assert TruncReal(x) == d / 2 + 1;
  }

  /** On the orders `r_nm` evaluates (`0 <= m <= n`, `n - m` even), the bound
      of `get_scale_coef` is the number of terms of `r_nm`. Up to `n = 2^24`
      every `f32` step of `get_scale_coef` is exact, so the float computation
      agrees with this exact one; above it the cast of `n` can round. */
  lemma ScaleMaxIdxMatchesRadial(n: int, m: int)
    requires InI32(m) && 0 <= m <= n <= 0x100_0000 && (n - m) % 2 == 0
    ensures ScaleMaxIdx(n, m) == |ZernikeCalc.Exponents(n, m)| == ZernikeCalc.MaxIdx(n, m)
  {
    ScaleMaxIdxTruncates(n, m);
    ZernikeCalc.ExponentsShape(n, m);
    HalvingAgrees(n - m);
  }

  /** The sum of column `c` over `rows`; a row too short to have column `c`
      adds nothing. */
  function ColumnSum(rows: seq<seq<real>>, c: nat): real {
    if rows == [] then 0.0
    else
      var last := rows[|rows| - 1];
      ColumnSum(rows[..|rows| - 1], c) + (if c < |last| then last[c] else 0.0)
  }

  /** Column sums add up over a split of the rows. */
  lemma {:induction false} ColumnSumAppend(a: seq<seq<real>>, b: seq<seq<real>>, c: nat)
    ensures ColumnSum(a + b, c) == ColumnSum(a, c) + ColumnSum(b, c)
  {
    if b != [] {
      assert (a + b)[..|a + b| - 1] == a + b[..|b| - 1];
      ColumnSumAppend(a, b[..|b| - 1], c);
    } else {
      assert a + b == a;
    }
  }

  /** A row too short to have column `c` adds nothing to that column, wherever
      it stands among the rows. */
  lemma ColumnSumSkipsShortRow(a: seq<seq<real>>, row: seq<real>, b: seq<seq<real>>, c: nat)
    requires |row| <= c
    ensures ColumnSum(a + [row] + b, c) == ColumnSum(a + b, c)
  {
    assert [row][..0] == [];
    ColumnSumAppend(a + [row], b, c);
    ColumnSumAppend(a, [row], c);
    ColumnSumAppend(a, b, c);
  }

  /** `sum_along_direction`: a zero buffer as long as the first row, to which
      every row is added entry by entry. `arr[0]` panics on no rows, and
      `result[i]` on a row longer than the first. */
  method SumAlongDirection(arr: seq<seq<real>>) returns (r: seq<real>)
    requires |arr| > 0
    requires forall k :: 0 <= k < |arr| ==> |arr[k]| <= |arr[0]|
    ensures |r| == |arr[0]|
    ensures forall c :: 0 <= c < |r| ==> r[c] == ColumnSum(arr, c)
  {
    var shape := |arr[0]|;
    var result := new real[shape](_ => 0.0);
    for k := 0 to |arr|
      invariant forall c :: 0 <= c < shape ==> result[c] == ColumnSum(arr[..k], c)
    {
      var eachVec := arr[k];
      assert arr[..k + 1][..k] == arr[..k];
      for i := 0 to |eachVec|
        invariant forall c :: 0 <= c < i ==> result[c] == ColumnSum(arr[..k + 1], c)
        invariant forall c :: i <= c < shape ==> result[c] == ColumnSum(arr[..k], c)
      {
        result[i] := result[i] + eachVec[i];
      }
    }
    assert arr[..|arr|] == arr;
    r := result[..];
  }

  /** The calls of the script's `main` apart from `linspace`. */
  method PowerArraysExample() returns (mapped: seq<nat>, maxIdx: int, res: seq<real>)
    ensures mapped == [0, 1, 4, 3, 8, 5, 12, 7, 16, 9]
    ensures maxIdx == 1
    ensures res == [12.0, 15.0, 18.0]
  {
    mapped := PracticeMap(10);
    ScaleMaxIdxTruncates(1, 1);
    maxIdx := ScaleMaxIdx(1, 1);
    var vec2d := [[1.0, 2.0, 3.0], [4.0, 5.0, 6.0], [7.0, 8.0, 9.0]];
    res := SumAlongDirection(vec2d);
    var one, two := vec2d[..1], vec2d[..2];
    assert one[..0] == [] && two[..1] == one && vec2d[..2] == two;
    assert ColumnSum(one, 0) == 1.0 && ColumnSum(one, 1) == 2.0 && ColumnSum(one, 2) == 3.0;
    assert ColumnSum(two, 0) == 5.0 && ColumnSum(two, 1) == 7.0 && ColumnSum(two, 2) == 9.0;
  }
}
