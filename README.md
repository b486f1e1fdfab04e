# Rust study snippets: the integer, sequence and record helpers

This project models the small helpers of a Rust study collection that
compute something: the index and parity logic of an unfinished Zernike
radial polynomial script (`practice/p1.rs`, `practice/p2_array_pw.rs`), the
column sum of a vector of rows, the even-doubling `practice_map`, the
accumulated slice sum `do_sum` with its `i32` overflow guard, a slice lookup
with a default, a person record with its full name and copy, and the by-value,
by-reference and by-mutable-reference functions of the pointer exercise.

Modules follow the source files:

- `RustInt` (shared): `i32` bounds, Rust's truncating `/` and `%`, the
  `usize as i32` cast (wrap-around), and the `f32 as i32` cast (round toward
  zero, then saturate).
- `ZernikeCalc` (`practice/p1.rs`): the `Zernike` record as a class whose
  methods update its counters, `zeros_like`, the mode dispatch of `z_nm` and
  the term loop of `r_nm`.
- `PowerArrays` (`practice/p2_array_pw.rs`): `practice_map`, the bound of
  `get_scale_coef`, and `sum_along_direction` over an array buffer.
- `Slices` (`2-arrays/21_arrays.rs`): `do_sum` over an array it only reads,
  `get` and `unwrap_or`.
- `Structs` (`3-structs/31_struct_basics.rs`): `Person` as a value.
- `Pointers` (`1-basics/17_pointers.rs`): a reference is a `Cell` object;
  `by_ref` only reads it, `modifies` writes it.

Floating-point values (`f64` samples, row entries, the `modifies` target)
are `real`. Rust's `/` and `%` truncate toward zero, Dafny's are Euclidean;
`r_nm` is written with the truncating operators, and `RustInt.HalvingAgrees`
shows that for the divisor 2 the odd test has the same truth value either
way and the halving of an even number is exact.

`r_nm` calls `x.powei(exp)`, which is no method of `f64`, and adds vectors
with `r += poly`, which Rust does not define on `Vec`. The model takes the
power of a sample as a parameter `pow` and reads `+=` as element-wise
addition, so its result is, per sample, `pow(rho[i], |n| - 2j)` added up over
`j`. Nothing is claimed about the value of `pow`, and no coefficient
multiplies the powers: the factorial coefficient exists only as a comment.

The code raises no error for `|m| > |n|`: with an even difference the loop
bound is at most 0 and the result is all zeros (see
`ZernikeCalc.RadialVanishes`). It dispatches on the mode string inside
`z_nm` and falls back to zeros for an unknown mode.

## Model

| member | source | states |
|---|---|---|
| `RustInt.RemT` | practice/p1.rs:48 | Rust's `%`: `a == b * q + r` with the truncated quotient, `abs(r) < abs(b)`, and `r` carries the sign of `a` |
| `RustInt.DivT` | practice/p1.rs:52 | Rust's `/`: `b * q` is the multiple of `b` nearest to `a` on the side of 0 (within `abs(b)` of `a`, never beyond it, with the sign of `a`) |
| `RustInt.HalvingAgrees` | practice/p1.rs:48-52 | for divisor 2, Rust's `%` is non-zero exactly when Dafny's is, and on even numbers Rust's `/` is exact and equals Dafny's |
| `RustInt.AsI32` | practice/p1.rs:17 | `usize as i32` lands in `i32`, is congruent to the length modulo 2^32, and is the length itself when that fits |
| `RustInt.TruncReal` | practice/p2_array_pw.rs:19 | a float-to-integer cast rounds toward zero: within 1 of `x`, on the side of 0 |
| `RustInt.F32AsI32` | practice/p2_array_pw.rs:19 | `f32 as i32` is the truncated value when it fits and saturates at `i32::MIN`/`i32::MAX` otherwise |
| `ZernikeCalc.ZerosLike` | practice/p1.rs:69-72 | same length as the input, every entry 0 |
| `ZernikeCalc.ExponentsShape` | practice/p1.rs:48-54 | the loop of `r_nm` has no terms exactly when `abs(n) - abs(m)` is odd or negative; otherwise `(abs(n) - abs(m))/2 + 1` terms whose exponents start at `abs(n)`, step down by 2, end at `abs(m)` and are never negative |
| `ZernikeCalc.RadialDependsOnAbs` | practice/p1.rs:44-45 | the result of `r_nm` depends on `n` and `m` only through their absolute values |
| `ZernikeCalc.RadialVanishes` | practice/p1.rs:46-53 | on an odd `abs(n) - abs(m)`, and when `abs(m) > abs(n)`, the result is `zeros_like(rho)` |
| `ZernikeCalc.RadialPointwise` | practice/p1.rs:55 | the result is as long as the samples and entry `i` depends on `rho[i]` alone |
| `ZernikeCalc.Zernike.constructor` | practice/p1.rs:11-13 | `new` sets `n_zern = 0` and `n_lim = 0` |
| `ZernikeCalc.Zernike.GetNZern` | practice/p1.rs:15-18 | `n_zern` becomes an `i32`: the input's length cast to `i32` (the length itself when it fits) and `n_lim` is unchanged |
| `ZernikeCalc.Zernike.RNm` | practice/p1.rs:42-61 | the loop accumulates, per sample, the powers over the exponents `abs(n) - 2j`, `j` in `0..max_idx`; zeros on an odd order; requires `n`, `m` other than `i32::MIN`, where `abs` panics |
| `ZernikeCalc.Zernike.ZNm` | practice/p1.rs:28-40 | mode `"Standard"` gives `r_nm(n, m, rho)`, any other mode a zero vector as long as `rho` |
| `ZernikeCalc.ZernikeExample` | practice/p1.rs:76-87 | six coefficients give `n_zern == 6` and six zeros |
| `PowerArrays.PracticeMap` | practice/p2_array_pw.rs:10-15 | exactly `n` elements; element `i` is `2*i` for even `i` and `i` for odd `i` |
| `PowerArrays.ScaleMaxIdx` | practice/p2_array_pw.rs:17-19 | `max_idx` of `get_scale_coef` is an `i32`, at least 1 whenever `n >= m` (the loop it bounds runs at least once) and negative once `m` exceeds `n` by more than 3 |
| `PowerArrays.ScaleMaxIdxTruncates` | practice/p2_array_pw.rs:17-19 | for `n >= m`, `max_idx` is `(n - m)/2 + 1` rounded down, as long as that fits in `i32` |
| `PowerArrays.ScaleMaxIdxMatchesRadial` | practice/p2_array_pw.rs:18-19 | for `0 <= m <= n <= 2^24` with `n - m` even (where every `f32` step is exact), `get_scale_coef`'s bound equals `r_nm`'s `max_idx` and its number of terms |
| `PowerArrays.ColumnSumAppend` | practice/p2_array_pw.rs:29-33 | column sums over the rows add up over any split of the rows |
| `PowerArrays.ColumnSumSkipsShortRow` | practice/p2_array_pw.rs:31-32 | a row too short to have column `c` adds nothing to column `c`, wherever it stands among the rows |
| `PowerArrays.SumAlongDirection` | practice/p2_array_pw.rs:24-36 | the result is as long as the first row and entry `c` is the sum of `row[c]` over every row long enough to have it; requires a first row and no row longer than it, where the source panics |
| `PowerArrays.PowerArraysExample` | practice/p2_array_pw.rs:42-57 | `practice_map(10)`, `get_scale_coef(1, 1) == 1`, and the column sums `[12, 15, 18]` of the 3x3 example |
| `Slices.SumAppend` | 2-arrays/21_arrays.rs:46-48 | the accumulated sum adds up over any split of the sequence |
| `Slices.DoSum` | 2-arrays/21_arrays.rs:39-50 | returns the sum of all elements (0 for an empty slice), never leaves `i32`, and does not modify the slice; requires every partial sum to fit in `i32`, where `+=` panics |
| `Slices.Get` | 2-arrays/21_arrays.rs:24-25 | `get(i)` is `Some(s[i])` exactly when `i` is below the length, `None` otherwise |
| `Slices.GetOrDefault` | 2-arrays/21_arrays.rs:31-35 | `get(i).unwrap_or(d)` is the element below the length and `d` from the length on, the same as the hand-written `is_some` test |
| `Slices.ArraysExample` | 2-arrays/21_arrays.rs:3-36 | first element 10, sum 210, and on `&arr[0..2]`: `get(0)` is `Some(10)`, `get(2)` is `None`, and both defaults give -1 |
| `Slices.PrefixSumsOfExample` | 2-arrays/21_arrays.rs:4-16 | the partial sums of `[10, 20, 30, 40, 50, 60]` are 0, 10, 30, 60, 100, 150, 210 |
| `Structs.NewPerson` | 3-structs/31_struct_basics.rs:11-19 | the first argument is stored as the first name and the second as the last name |
| `Structs.FullName` | 3-structs/31_struct_basics.rs:26-28 | as long as both names plus one: the first name, then a single space, then the last name |
| `Structs.MakeCopy` | 3-structs/31_struct_basics.rs:30-35 | the copy equals the original, which is unchanged |
| `Structs.FullNameInjective` | 3-structs/31_struct_basics.rs:27 | with no space in the first names, equal full names mean equal persons |
| `Structs.PersonExample` | 3-structs/31_struct_basics.rs:50-66 | `Person::new("Jack", "Jonhson").full_name()` is `"Jack Jonhson"` and the copy has the same names |
| `Pointers.Func` | 1-basics/17_pointers.rs:3-6 | `x + 1`, in `i32`; requires `x < i32::MAX`, where the addition panics |
| `Pointers.ByRef` | 1-basics/17_pointers.rs:8-11 | `by_ref(&x) == func(x)`; it has no write permission, so the referenced value is unchanged |
| `Pointers.Modifies` | 1-basics/17_pointers.rs:21-27 | the referenced value becomes 1.0 whatever it was, and nothing else changes |
| `Pointers.PointersExample` | 1-basics/17_pointers.rs:29-47 | `func(10) == 11`, `by_ref(&20) == 21` with 20 unchanged, `by_ref(&41) == 42`, and `some_val` is 1.0 after `modifies` |

## Left out

- The numeric value of `r_nm`: `powei` is a parameter (it is no method of `f64`), and the factorial coefficient that appears only as a comment in `practice/p2_array_pw.rs` is not modelled.
- `get_limit_index` (`practice/p1.rs:20-26`): it works through `f32` `sqrt` and `ceil`, which are floating-point numerics; `ZernikeExample` therefore skips the call and says nothing about `n_lim`.
- `linspace` (`practice/p2_array_pw.rs:4-8`): floating-point numerics.
- PowerArrays.ScaleMaxIdx: computes in exact arithmetic; the `f32` rounding of the casts, the subtraction, the halving and the `+ 1.0` is not modelled, so the value can differ once `abs(n)`, `abs(m)` or `abs(n - m)` exceeds 2^24 (for `n = 16777215`, `m = -16777212` the `f32` computation gives 16777215, the model 16777214; for `n = 33554430`, `m = 33554434` the cast of `m` rounds to 2^25 and the `f32` bound is 0, where the model's is -1).
- PowerArrays.ScaleMaxIdxTruncates: states the exact-arithmetic value, so it shares the limit of the line above.
- PowerArrays.ScaleMaxIdxMatchesRadial: requires `n <= 2^24`; above it the `f32` cast of `n` can round (for `n = 16777219`, `m = 1` the `f32` bound is 8388611 while `r_nm` has 8388610 terms).
- PowerArrays.PracticeMap: `2*i` is unbounded here; a `usize` overflow would need a vector longer than half the address space.
- PowerArrays.SumAlongDirection: entries are `real`, so `f64` rounding of the sums is not modelled.
- Every `println!`, `Person::say_hi`, and the parts of each `main` that only print.
- The files that are float-only demonstrations, print-only demonstrations, do not compile, or demonstrate thread spawning; none of them computes a value that another part uses.
