/**
 * The unbounded natural-number component the calculator is built on
 * (`components.naturalnumber.NaturalNumber2`).  Only its contract is
 * modelled: a register holds a `nat`, and each mutating operation
 * updates it in place exactly as the component's documentation promises.  The digit
 * representation and the algorithms behind the operations are not part
 * of this model.
 */
module NaturalNumber {

  /** Java's `int`, a 32-bit two's-complement integer. */
  newtype int32 = x: int | -0x8000_0000 <= x < 0x8000_0000

  /** `Integer.MAX_VALUE`. */
  const INT_MAX: nat := 0x7FFF_FFFF

  /** `b` raised to the power `e`, with the convention `0^0 == 1`. */
  function Pow(b: nat, e: nat): nat
  {
    if e == 0 then 1 else b * Pow(b, e - 1)
  }

  /** `r` is the integer `n`-th root of `x`: `r^n <= x < (r+1)^n`. */
  ghost predicate IsRoot(r: nat, x: nat, n: nat)
  {
    Pow(r, n) <= x < Pow(r + 1, n)
  }

  /** Multiplying by a natural number is monotone, on either side. */
  lemma MulMonotone(x: nat, y: nat, c: nat)
    requires x <= y
    ensures x * c <= y * c && c * x <= c * y
  {
  }

  /** Raising to a fixed power is monotone in the base. */
  lemma {:induction false} PowMonotone(a: nat, b: nat, n: nat)
    requires a <= b
    ensures Pow(a, n) <= Pow(b, n)
  {
    if n > 0 {
      PowMonotone(a, b, n - 1);
      MulMonotone(a, b, Pow(a, n - 1));
      MulMonotone(Pow(a, n - 1), Pow(b, n - 1), b);
    }
  }

  /** For a positive exponent, `b^n` is at least `b`. */
  lemma {:induction false} PowAtLeastBase(b: nat, n: nat)
    requires n >= 1
    ensures Pow(b, n) >= b
  {
    if n > 1 && b > 0 {
      PowAtLeastBase(b, n - 1);
      MulMonotone(1, Pow(b, n - 1), b);
    }
  }

  /** `1^n == 1` for every exponent. */
  lemma {:induction false} PowOne(n: nat)
    ensures Pow(1, n) == 1
  {
    if n > 0 {
      PowOne(n - 1);
    }
  }

  /** Binary search for the root inside the half-open range `[lo, hi)`. */
  function RootSearch(x: nat, n: nat, lo: nat, hi: nat): (r: nat)
    requires lo < hi
    requires Pow(lo, n) <= x < Pow(hi, n)
    ensures lo <= r < hi
    ensures IsRoot(r, x, n)
    decreases hi - lo
  {
    if hi - lo == 1 then
      lo
    else
      var mid := (lo + hi) / 2;
      if Pow(mid, n) <= x then RootSearch(x, n, mid, hi) else RootSearch(x, n, lo, mid)
  }

  /** The integer `n`-th root of `x`, as computed by `NaturalNumber.root`. */
  function IntRoot(x: nat, n: nat): (r: nat)
    requires n >= 1
    ensures Pow(r, n) <= x < Pow(r + 1, n)
  {
    PowAtLeastBase(x + 1, n);
    RootSearch(x, n, 0, x + 1)
  }

  /** Any `k` with `k^n <= x` is at most the root: the root is the greatest such value. */
  lemma RootIsGreatest(r: nat, x: nat, n: nat, k: nat)
    requires IsRoot(r, x, n)
    requires Pow(k, n) <= x
    ensures k <= r
  {
    if k > r {
      PowMonotone(r + 1, k, n);
    }
  }

  /** The root is the only value with `r^n <= x < (r+1)^n`. */
  lemma RootUnique(r: nat, s: nat, x: nat, n: nat)
    requires IsRoot(r, x, n) && IsRoot(s, x, n)
    ensures r == s
  {
    RootIsGreatest(r, x, n, s);
    RootIsGreatest(s, x, n, r);
  }

  /** Boundary cases of the root: the root of 0 is 0 and the root of 1 is 1, for any index. */
  lemma RootOfZeroAndOne(n: nat)
    requires n >= 1
    ensures IntRoot(0, n) == 0
    ensures IntRoot(1, n) == 1
  {
    PowOne(n);
    PowAtLeastBase(2, n);
    assert IsRoot(0, 0, n);
    RootUnique(IntRoot(0, n), 0, 0, n);
    assert IsRoot(1, 1, n);
    RootUnique(IntRoot(1, n), 1, 1, n);
  }

  /** A mutable natural number: `NaturalNumber2`. */
  class NN {
    var v: nat

    /** `new NaturalNumber2()`: a zero-valued number. */
    constructor ()
      ensures v == 0
    {
      v := 0;
    }

    /** `new NaturalNumber2(i)` for a non-negative `int`. */
    constructor FromInt(i: int32)
      requires i >= 0
      ensures v == i as int
    {
      v := i as int;
    }

    /** `newInstance`: a fresh zero-valued number independent of this one. */
    method NewInstance() returns (r: NN)
      ensures fresh(r) && r.v == 0
    {
      r := new NN();
    }

    /** `clear`: the value becomes 0. */
    method Clear()
      modifies this
      ensures v == 0
    {
      v := 0;
    }

    /** `copyFrom`: this takes a copy of `src`'s value; `src` keeps its value. */
    method CopyFrom(src: NN)
      modifies this
      ensures v == old(src.v) && src.v == old(src.v)
    {
      v := src.v;
    }

    /** `transferFrom`: this takes `src`'s value and `src` becomes 0. */
    method TransferFrom(src: NN)
      requires src != this
      modifies this, src
      ensures v == old(src.v) && src.v == 0
    {
      v := src.v;
      src.v := 0;
    }

    /** `compareTo`: the sign of the result orders this against `o`. */
    method CompareTo(o: NN) returns (c: int32)
      ensures c < 0 <==> v < o.v
      ensures c == 0 <==> v == o.v
      ensures c > 0 <==> v > o.v
    {
      c := if v < o.v then -1 else if v == o.v then 0 else 1;
    }

    /** `isZero`. */
    method IsZero() returns (z: bool)
      ensures z <==> v == 0
    {
      z := v == 0;
    }

    /** `toInt`: defined only when the value fits in an `int`. */
    method ToInt() returns (i: int32)
      requires v <= INT_MAX
      ensures i as int == v
    {
      i := v as int32;
    }

    /** `multiplyBy10`: appends the decimal digit `k`. */
    method MultiplyBy10(k: int32)
      requires 0 <= k < 10
      modifies this
      ensures v == 10 * old(v) + k as int
    {
      v := 10 * v + k as int;
    }

    /** `add`: this becomes `this + o`; `o` keeps its value unless it is this. */
    method Add(o: NN)
      modifies this
      ensures v == old(v) + old(o.v)
    {
      v := v + o.v;
    }

    /** `subtract`: defined only when `o <= this`, so the result is never negative. */
    method Subtract(o: NN)
      requires o.v <= v
      modifies this
      ensures v == old(v) - old(o.v)
    {
      v := v - o.v;
    }

    /** `multiply`: this becomes `this * o`. */
    method Multiply(o: NN)
      modifies this
      ensures v == old(v) * old(o.v)
    {
      v := v * o.v;
    }

    /**
     * `divide`: this becomes the quotient and a fresh number holding the
     * remainder is returned; defined only for a non-zero divisor.
     */
    method Divide(o: NN) returns (rem: NN)
      requires o.v != 0
      modifies this
      ensures fresh(rem)
      ensures v == old(v) / old(o.v) && rem.v == old(v) % old(o.v)
    {
      var q, r := v / o.v, v % o.v;
      rem := new NN();
      rem.v := r;
      v := q;
    }

    /** `power`: this becomes `this^p`. */
    method Power(p: int32)
      requires p >= 0
      modifies this
      ensures v == Pow(old(v), p as int)
    {
      v := Pow(v, p as int);
    }

    /** `root`: this becomes the greatest `r` with `r^k <= this`. */
    method Root(k: int32)
      requires k >= 2
      modifies this
      ensures Pow(v, k as int) <= old(v) < Pow(v + 1, k as int)
    {
      v := IntRoot(v, k as int);
    }
  }
}
