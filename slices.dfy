/** Arrays and slices of `i32`: `do_sum`, and the bounds-checked `get` of a
    slice with its `unwrap_or` default. */
module Slices {
  import opened RustInt

  datatype Option<T> = None | Some(value: T)

  /** The sum of a sequence, adding its elements from the front. */
  function Sum(s: seq<int>): int {
    if s == [] then 0 else Sum(s[..|s| - 1]) + s[|s| - 1]
  }

  /** Sums add up over a split of the sequence. */
  lemma {:induction false} SumAppend(a: seq<int>, b: seq<int>)
    ensures Sum(a + b) == Sum(a) + Sum(b)
  {
    if b != [] {
      assert (a + b)[..|a + b| - 1] == a + b[..|b| - 1];
      SumAppend(a, b[..|b| - 1]);
    } else {
      assert a + b == a;
    }
  }

  /** `do_sum`: adds the slice into an `i32` accumulator. Each `+=` panics on
      overflow in a debug build, so every partial sum must fit in `i32`. The
      slice is borrowed shared, so the method does not modify it. */
  method DoSum(arr: array<int>) returns (sum: int)
    requires forall i :: 0 <= i < arr.Length ==> InI32(arr[i])
    requires forall k :: 0 <= k <= arr.Length ==> InI32(Sum(arr[..k]))
    ensures sum == Sum(arr[..])
    ensures arr.Length == 0 ==> sum == 0
    ensures InI32(sum)
  {
    sum := 0;
    for i := 0 to arr.Length
      invariant sum == Sum(arr[..i])
    {
      assert arr[..i + 1][..i] == arr[..i];
      assert InI32(sum + arr[i]) by {
        assert InI32(Sum(arr[..i + 1]));
      }
      sum := sum + arr[i];
    }
    assert arr[..arr.Length] == arr[..];
  }

  /** A slice's `get(i)`: the element at `i`, or `None` from the length on. */
  function Get<T>(s: seq<T>, i: nat): (r: Option<T>)
    ensures r.Some? <==> i < |s|
    ensures r.Some? ==> r.value == s[i]
  {
    if i < |s| then Some(s[i]) else None
  }

  /** `Option::unwrap_or`. */
  function UnwrapOr<T>(o: Option<T>, default: T): T {
    match o
    case Some(v) => v
    case None => default
  }

  /** A lookup with a default gives the element below the length and the
      default from the length on; and the `is_some` test written out by hand
      gives the same value as `unwrap_or`. */
  lemma GetOrDefault<T>(s: seq<T>, i: nat, default: T)
    ensures i < |s| ==> UnwrapOr(Get(s, i), default) == s[i]
    ensures i >= |s| ==> UnwrapOr(Get(s, i), default) == default
    ensures UnwrapOr(Get(s, i), default)
         == (if Get(s, i).Some? then Get(s, i).value else default)
  {
  }

  /** The script's `main`: the first element, the sum, and the lookups on the
      two-element slice `&arr[0..2]`. */
  method ArraysExample() returns (first: int, total: int, theFirst: Option<int>, theLast: Option<int>,
                                  myLast: int, myOtherLast: int)
    ensures first == 10 && total == 210
    ensures theFirst == Some(10) && theLast == None
    ensures myLast == -1 && myOtherLast == -1
  {
    var arr := new int[6] [10, 20, 30, 40, 50, 60];
    first := arr[0];
    assert arr[..] == [10, 20, 30, 40, 50, 60];
    forall k | 0 <= k <= arr.Length
      ensures InI32(Sum(arr[..k]))
    {
      PrefixSumsOfExample(k);
    }
    total := DoSum(arr);
    PrefixSumsOfExample(6);
    assert arr[..] == arr[..6];
    var slice1 := arr[0..2];
    theFirst := Get(slice1, 0);
    theLast := Get(slice1, 2);
    myLast := match theLast case Some(v) => v case None => -1;
    myOtherLast := UnwrapOr(Get(slice1, 2), -1);
  }

  /** The partial sums of `[10, 20, 30, 40, 50, 60]`: 0, 10, 30, 60, 100, 150
      and 210. */
  lemma PrefixSumsOfExample(k: nat)
    requires k <= 6
    ensures Sum([10, 20, 30, 40, 50, 60][..k]) == [0, 10, 30, 60, 100, 150, 210][k]
  {
    var s := [10, 20, 30, 40, 50, 60];
    assert s[..1][..0] == [] && Sum(s[..1]) == 10;
    assert s[..2][..1] == s[..1] && Sum(s[..2]) == 30;
    assert s[..3][..2] == s[..2] && Sum(s[..3]) == 60;
    assert s[..4][..3] == s[..3] && Sum(s[..4]) == 100;
    assert s[..5][..4] == s[..4] && Sum(s[..5]) == 150;
    assert s[..6][..5] == s[..5] && Sum(s[..6]) == 210;
  }
}
