/** Finite sums of reals, and the exchange of a double sum. */
module Sums {

  ghost function Sum(n: nat, f: nat -> real): real {
    if n == 0 then 0.0 else Sum(n - 1, f) + f(n - 1)
  }

  lemma {:induction false} SumEq(n: nat, f: nat -> real, g: nat -> real)
    requires forall i :: 0 <= i < n ==> f(i) == g(i)
    ensures Sum(n, f) == Sum(n, g)
  {
    if n > 0 { SumEq(n - 1, f, g); }
  }

  lemma {:induction false} SumPlus(n: nat, f: nat -> real, g: nat -> real, h: nat -> real)
    requires forall i :: 0 <= i < n ==> h(i) == f(i) + g(i)
    ensures Sum(n, h) == Sum(n, f) + Sum(n, g)
  {
    if n > 0 { SumPlus(n - 1, f, g, h); }
  }

  ghost function Scaled(c: real, f: nat -> real): nat -> real {
    (i: nat) => c * f(i)
  }

  lemma {:induction false} SumScaled(n: nat, c: real, f: nat -> real)
    ensures Sum(n, Scaled(c, f)) == c * Sum(n, f)
  {
    if n > 0 {
      SumScaled(n - 1, c, f);
      assert c * (Sum(n - 1, f) + f(n - 1)) == c * Sum(n - 1, f) + c * f(n - 1);
    }
  }

  /** A sum whose terms each move by `c` times a rate moves by `c` times the rates' sum. */
  lemma {:induction false} SumMoves(n: nat, before: nat -> real, after: nat -> real, c: real, rate: nat -> real)
    requires forall i :: 0 <= i < n ==> after(i) == before(i) + Scaled(c, rate)(i)
    ensures Sum(n, after) == Sum(n, before) + c * Sum(n, rate)
  {
    hide Sum;
    SumPlus(n, before, Scaled(c, rate), after);
    SumScaled(n, c, rate);
  }

  lemma {:induction false} SumZero(n: nat, f: nat -> real)
    requires forall i :: 0 <= i < n ==> f(i) == 0.0
    ensures Sum(n, f) == 0.0
  {
    if n > 0 { SumZero(n - 1, f); }
  }

  lemma {:induction false} SumOfOne(n: nat, f: nat -> real, s: nat)
    requires s < n && forall i :: 0 <= i < n && i != s ==> f(i) == 0.0
    ensures Sum(n, f) == f(s)
  {
    if s == n - 1 { SumZero(n - 1, f); } else { SumOfOne(n - 1, f, s); }
  }

  lemma {:induction false} SumOfTwo(n: nat, f: nat -> real, s: nat, t: nat)
    requires s < n && t < n && s != t
    requires forall i :: 0 <= i < n && i != s && i != t ==> f(i) == 0.0
    ensures Sum(n, f) == f(s) + f(t)
  {
    if s == n - 1 { SumOfOne(n - 1, f, t); }
    else if t == n - 1 { SumOfOne(n - 1, f, s); }
    else { SumOfTwo(n - 1, f, s, t); }
  }

  ghost function Row(n: nat, g: (nat, nat) -> real): nat -> real {
    (j: nat) => Sum(n, (i: nat) => g(j, i))
  }

  ghost function Column(m: nat, g: (nat, nat) -> real): nat -> real {
    (i: nat) => Sum(m, (j: nat) => g(j, i))
  }

  lemma {:induction false} Exchange(m: nat, n: nat, g: (nat, nat) -> real)
    ensures Sum(m, Row(n, g)) == Sum(n, Column(m, g))
  {
    if m == 0 {
      SumZero(n, Column(m, g));
    } else {
      Exchange(m - 1, n, g);
      SumPlus(n, Column(m - 1, g), (i: nat) => g(m - 1, i), Column(m, g));
    }
  }
}
