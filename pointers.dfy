/** Passing by value, by shared reference and by mutable reference. A
    reference is a `Cell` object holding one value; the `f64` of `modifies`
    is `real` here. */
module Pointers {
  import opened RustInt

  /** A memory location that a reference points to. */
  class Cell<T> {
    var value: T

    constructor (v: T)
      ensures value == v
    {
      value := v;
    }
  }

  /** `func`: one more than `x`. The `i32` addition panics on overflow in a
      debug build, so `x` must be below `i32::MAX`. */
  function Func(x: int): (r: int)
    requires InI32(x) && x < I32_MAX
    ensures InI32(r)
    ensures r == x + 1
  {
    x + 1
  }

  /** `by_ref`: one more than the value behind a shared reference, which it
      only reads; it is `func` of that value. */
  method ByRef(x: Cell<int>) returns (r: int)
    requires InI32(x.value) && x.value < I32_MAX
    ensures r == Func(x.value)
  {
    r := x.value + 1;
  }

  /** `modifies`: writes 1.0 through a mutable reference, whatever was there,
      and touches nothing else. */
  method Modifies(x: Cell<real>)
    modifies x
    ensures x.value == 1.0
  {
    x.value := 1.0;
  }

  /** The script's `main`: `func(10)`, `by_ref(&20)`, `by_ref(&41)`, and a
      value of 0.0 passed to `modifies`. The borrowed 20 is unchanged. */
  method PointersExample() returns (res1: int, res2: int, res3: int, j: int, someVal: real)
    ensures res1 == 11 && res2 == 21 && res3 == 42
    ensures j == 20
    ensures someVal == 1.0
  {
    res1 := Func(10);
    var jRef := new Cell(20);
    res2 := ByRef(jRef);
    j := jRef.value;
    var lit := new Cell(41);
    res3 := ByRef(lit);
    var someValRef := new Cell(0.0);
    Modifies(someValRef);
    someVal := someValRef.value;
  }
}
