/** The Zernike exploration script: a record of two counters updated in place,
    `zeros_like`, the dispatch on the evaluation mode, and the radial term loop
    of `r_nm`.

    Samples are `f64` in the program and `real` here. The program calls
    `x.powei(exp)`, which is no method of `f64`, so the power of a sample is a
    parameter `pow` and nothing is claimed about its values. The program adds
    each vector of powers to the accumulator with `r += poly`, which is read as
    element-wise addition. No coefficient multiplies the powers. */
module ZernikeCalc {
  import opened RustInt

  /** A vector of zeros as long as `arr`, like numpy's `zeros_like`. */
  function ZerosLike(arr: seq<real>): (r: seq<real>)
    ensures |r| == |arr|
    ensures forall i :: 0 <= i < |r| ==> r[i] == 0.0
  {
    seq(|arr|, _ => 0.0)
  }

  /** `i32::abs` panics (in a debug build) on `i32::MIN` only. */
  predicate AbsInRange(x: int) {
    InI32(x) && x != I32_MIN
  }

  /** The early return of `r_nm`: `(|n| - |m|) % 2 != 0`, with Rust's `%`. */
  predicate OddOrder(n: int, m: int) {
    RemT(Abs(n) - Abs(m), 2) != 0
  }

  /** `max_idx` of `r_nm`: the exclusive end of `for j in 0..max_idx`, with
      Rust's `/`. */
  function MaxIdx(n: int, m: int): int {
    DivT(Abs(n) - Abs(m), 2) + 1
  }

  /** The exponents `|n| - 2j` that the loop of `r_nm` visits, in order. */
  function Exponents(n: int, m: int): seq<int> {
    if OddOrder(n, m) || MaxIdx(n, m) <= 0 then []
    else seq(MaxIdx(n, m), j => Abs(n) - 2 * j)
  }

  /** The powers `pow(x, e)` for the exponents `e` of `exps`, added up in order. */
  function PowerSum(x: real, exps: seq<int>, pow: (real, int) -> real): real {
    if exps == [] then 0.0
    else PowerSum(x, exps[..|exps| - 1], pow) + pow(x, exps[|exps| - 1])
  }

  /** What `r_nm` returns: for each sample, its powers over `Exponents(n, m)`
      added up. */
  function Radial(n: int, m: int, rho: seq<real>, pow: (real, int) -> real): seq<real> {
    seq(|rho|, i requires 0 <= i < |rho| => PowerSum(rho[i], Exponents(n, m), pow))
  }

  /** There are no terms exactly when the order is odd or `|m|` exceeds `|n|`.
      Otherwise there are `(|n| - |m|) / 2 + 1`, the first exponent is `|n|`,
      each is 2 below the one before, and the last is `|m|`, so none is
      negative. */
  lemma ExponentsShape(n: int, m: int)
    ensures Exponents(n, m) == [] <==> (Abs(n) - Abs(m)) % 2 != 0 || Abs(n) < Abs(m)
    ensures Exponents(n, m) != [] ==>
      var e := Exponents(n, m);
      && |e| == (Abs(n) - Abs(m)) / 2 + 1
      && e[0] == Abs(n)
      && e[|e| - 1] == Abs(m)
      && (forall j :: 0 < j < |e| ==> e[j] == e[j - 1] - 2)
      && (forall j :: 0 <= j < |e| ==> Abs(m) <= e[j] <= Abs(n))
  {
    HalvingAgrees(Abs(n) - Abs(m));
  }

  /** `r_nm` sees `n` and `m` only through their absolute values. */
  lemma RadialDependsOnAbs(n: int, m: int, rho: seq<real>, pow: (real, int) -> real)
    ensures Radial(n, m, rho, pow) == Radial(Abs(n), Abs(m), rho, pow)
    ensures Radial(n, m, rho, pow) == Radial(-n, -m, rho, pow)
  {
    SameExponents(n, m, Abs(n), Abs(m));
    SameExponents(n, m, -n, -m);
  }

  /** Orders with the same absolute values visit the same exponents. */
  lemma SameExponents(n: int, m: int, n': int, m': int)
    requires Abs(n) == Abs(n') && Abs(m) == Abs(m')
    ensures Exponents(n, m) == Exponents(n', m')
  {
    assert OddOrder(n, m) == OddOrder(n', m');
    assert MaxIdx(n, m) == MaxIdx(n', m');
  }

  /** On an odd order, and when `|m|` exceeds `|n|`, `r_nm` gives zeros. */
  lemma RadialVanishes(n: int, m: int, rho: seq<real>, pow: (real, int) -> real)
    requires (Abs(n) - Abs(m)) % 2 != 0 || Abs(n) < Abs(m)
    ensures Radial(n, m, rho, pow) == ZerosLike(rho)
  {
    ExponentsShape(n, m);
  }

  /** `Radial` keeps the length and order of the samples: entry `i` depends on
      `rho[i]` alone. */
  lemma RadialPointwise(n: int, m: int, rho: seq<real>, rho': seq<real>, pow: (real, int) -> real, i: nat)
    requires i < |rho| && i < |rho'| && rho[i] == rho'[i]
    ensures |Radial(n, m, rho, pow)| == |rho|
    ensures Radial(n, m, rho, pow)[i] == Radial(n, m, rho', pow)[i]
  {
  }

  /** The record that counts fitted coefficients (`n_zern`) and keeps the
      limit index (`n_lim`); both are `i32`. */
  class Zernike {
    var nZern: int
    var nLim: int

    /** `Zernike::new`: both counters start at 0. */
    constructor ()
      ensures nZern == 0 && nLim == 0
    {
      nZern, nLim := 0, 0;
    }

    /** `get_n_zern`: stores the number of coefficients, cast from `usize`
        to `i32`, and leaves `n_lim` alone. */
    method GetNZern(x: seq<real>)
      modifies this
      ensures InI32(nZern)
      ensures nZern == AsI32(|x|)
      ensures |x| <= I32_MAX ==> nZern == |x|
      ensures nLim == old(nLim)
    {
      nZern := AsI32(|x|);
    }

    /** `r_nm`: zeros on an odd order; otherwise the powers `|n| - 2j` of
        every sample, for `j` in `0..max_idx`, added into a zero vector. */
    method RNm(n: int, m: int, rho: seq<real>, pow: (real, int) -> real) returns (r: seq<real>)
      requires AbsInRange(n) && AbsInRange(m)
      ensures r == Radial(n, m, rho, pow)
      ensures |r| == |rho|
      ensures OddOrder(n, m) ==> r == ZerosLike(rho)
    {
      var nAbs, mAbs := Abs(n), Abs(m);
      r := ZerosLike(rho);
      if RemT(nAbs - mAbs, 2) != 0 {
        HalvingAgrees(nAbs - mAbs);
        RadialVanishes(n, m, rho, pow);
        return;
      }
      var maxIdx := DivT(nAbs - mAbs, 2) + 1;
      ghost var e := Exponents(n, m);
      assert |e| == if maxIdx <= 0 then 0 else maxIdx;
      var j := 0;
      while j < maxIdx
        invariant 0 <= j <= |e|
        invariant |r| == |rho|
        invariant forall i :: 0 <= i < |rho| ==> r[i] == PowerSum(rho[i], e[..j], pow)
      {
        var exp := nAbs - 2 * j;
        var poly := seq(|rho|, i requires 0 <= i < |rho| => pow(rho[i], exp));
        assert e[..j + 1][..j] == e[..j];
        r := seq(|rho|, i requires 0 <= i < |rho| => r[i] + poly[i]);
        j := j + 1;
      }
      assert e[..j] == e;
    }

    /** `z_nm`: the mode `"Standard"` evaluates `r_nm`; any other mode gives
        zeros as long as `rho`. The angles `theta` are not used. */
    method ZNm(n: int, m: int, rho: seq<real>, theta: seq<real>, mode: string, pow: (real, int) -> real)
      returns (r: seq<real>)
      requires InI32(n) && InI32(m)
      requires mode == "Standard" ==> AbsInRange(n) && AbsInRange(m)
      ensures |r| == |rho|
      ensures mode == "Standard" ==> r == Radial(n, m, rho, pow)
      ensures mode != "Standard" ==> r == ZerosLike(rho)
    {
      if mode == "Standard" {
        r := RNm(n, m, rho, pow);
      } else {
        r := ZerosLike(rho);
      }
    }
  }

  /** The steps of the script's `main` that the model covers: six
      coefficients give `n_zern == 6`, and `zeros_like` of them six zeros. */
  method ZernikeExample() returns (nZern: int, zeros: seq<real>)
    ensures nZern == 6
    ensures zeros == [0.0, 0.0, 0.0, 0.0, 0.0, 0.0]
  {
    var zern := new Zernike();
    var coef := [1.0, 1.0, 1.0, 1.0, 1.0, 1.0];
    zern.GetNZern(coef);
    nZern := zern.nZern;
    zeros := ZerosLike(coef);
  }
}
