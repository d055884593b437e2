/** Exact integer combinatorics behind the score-distribution builder:
    the factorial of Precompute.py, binomial coefficients, powers, the
    binomial theorem and multinomial coefficients of placement vectors.
 */
module Combinatorics {

  /** `factorial(n)` as written: 1 for 0 and 1, 0 for any negative
      argument, and `n * factorial(n - 1)` above 1. */
  function Factorial(n: int): (r: int)
    ensures n < 0 ==> r == 0
    ensures n >= 0 ==> r >= 1
    ensures n >= 1 ==> r >= n
    decreases if n < 0 then 0 else n
  {
    if n == 0 || n == 1 then 1
    else if n < 0 then 0
    else n * Factorial(n - 1)
  }

  /** Product of the integers `lo .. hi`, a reference definition of n!. */
  function RangeProduct(lo: int, hi: int): (r: int)
    decreases hi - lo
  {
    if hi < lo then 1 else RangeProduct(lo, hi - 1) * hi
  }

  /** For every natural `n`, `factorial(n)` is `1 * 2 * ... * n`. */
  lemma {:induction false} FactorialIsRangeProduct(n: nat)
    ensures Factorial(n) == RangeProduct(1, n)
  {
    if n >= 2 {
      assert Factorial(n - 1) == RangeProduct(1, n - 1) by {
        FactorialIsRangeProduct(n - 1);
      }
      FactorialStep(n);
      assert RangeProduct(1, n) == RangeProduct(1, n - 1) * n;
    }
  }

  /** Binomial coefficients by Pascal's rule. */
  function Binom(n: nat, k: nat): (r: nat)
  {
    if k == 0 then 1
    else if n == 0 then 0
    else Binom(n - 1, k - 1) + Binom(n - 1, k)
  }

  function Pow(b: int, e: nat): (r: int)
  {
    if e == 0 then 1 else b * Pow(b, e - 1)
  }

  lemma {:induction false} PowNonnegative(b: int, e: nat)
    requires b >= 0
    ensures Pow(b, e) >= 0
  {
    if e > 0 {
      PowNonnegative(b, e - 1);
      MulNonnegative(b, Pow(b, e - 1));
    }
  }

  lemma {:induction false} PowPositive(b: int, e: nat)
    requires b >= 1
    ensures Pow(b, e) >= 1
  {
    if e > 0 {
      PowPositive(b, e - 1);
      MulPositive(b, Pow(b, e - 1));
    }
  }

  lemma MulNonnegative(x: int, y: int)
    requires x >= 0 && y >= 0
    ensures x * y >= 0
  {
  }

  lemma MulPositive(x: int, y: int)
    requires x >= 1 && y >= 1
    ensures x * y >= 1
  {
  }

  lemma {:induction false} BinomAbove(n: nat, k: nat)
    requires k > n
    ensures Binom(n, k) == 0
  {
    if n > 0 {
      BinomAbove(n - 1, k - 1);
      BinomAbove(n - 1, k);
    }
  }

  lemma {:induction false} BinomDiagonal(n: nat)
    ensures Binom(n, n) == 1
  {
    if n > 0 {
      BinomDiagonal(n - 1);
      BinomAbove(n - 1, n);
    }
  }

  /** `C(a + b, a) * a! * b! == (a + b)!`: the quotient formula for the
      binomial coefficient. */
  lemma {:induction false} BinomFactorial(a: nat, b: nat)
    ensures Binom(a + b, a) * Factorial(a) * Factorial(b) == Factorial(a + b)
    decreases a + b
  {
    if a == 0 || b == 0 {
      BinomFactorialBase(a, b);
    } else {
      BinomFactorial(a - 1, b);
      BinomFactorial(a, b - 1);
      BinomFactorialStep(a, b);
    }
  }

  lemma BinomFactorialBase(a: nat, b: nat)
    requires a == 0 || b == 0
    ensures Binom(a + b, a) * Factorial(a) * Factorial(b) == Factorial(a + b)
  {
    if a == 0 {
      assert Binom(b, 0) == 1;
    } else {
      BinomDiagonal(a);
    }
  }

  /** Pascal's rule carries the quotient formula from `(a - 1, b)` and
      `(a, b - 1)` to `(a, b)`. */
  lemma BinomFactorialStep(a: nat, b: nat)
    requires a >= 1 && b >= 1
    requires Binom(a - 1 + b, a - 1) * Factorial(a - 1) * Factorial(b) == Factorial(a - 1 + b)
    requires Binom(a + (b - 1), a) * Factorial(a) * Factorial(b - 1) == Factorial(a + (b - 1))
    ensures Binom(a + b, a) * Factorial(a) * Factorial(b) == Factorial(a + b)
  {
    var n := a + b;
    var x, y := Binom(n - 1, a - 1), Binom(n - 1, a);
    var fa, fb, fn := Factorial(a - 1), Factorial(b - 1), Factorial(n - 1);
    assert x * fa * Factorial(b) == fn;
    assert y * Factorial(a) * fb == fn;
    FactorialStep(a);
    FactorialStep(b);
    FactorialStep(n);
    PascalStep(x, y, a, b, fa, fb, fn, Binom(n, a), Factorial(a), Factorial(b), Factorial(n));
  }

  lemma FactorialStep(n: int)
    requires n >= 1
    ensures Factorial(n) == n * Factorial(n - 1)
  {
  }

  /** The arithmetic of one step of `BinomFactorial`, with the factorials
      named so that the products stay small: `x`, `y` are the two Pascal
      terms, `fa`, `fb`, `fn` the factorials one below `a`, `b`, `a + b`,
      and `bn`, `fa'`, `fb'`, `fn'` the quantities at the step itself. */
  lemma PascalStep(x: int, y: int, a: int, b: int, fa: int, fb: int, fn: int,
                   bn: int, fa': int, fb': int, fn': int)
    requires bn == x + y && fa' == a * fa && fb' == b * fb && fn' == (a + b) * fn
    requires x * fa * fb' == fn
    requires y * fa' * fb == fn
    ensures bn * fa' * fb' == fn'
  {
    calc {
      (x + y) * (a * fa) * (b * fb);
      a * (x * fa * (b * fb)) + b * (y * (a * fa) * fb);
      a * fn + b * fn;
    }
  }

  /** `U(n, x, i) = sum of C(n, j) * x^(n-j) for j = i .. n`. */
  function BinomSuffix(n: nat, x: int, i: nat): (r: int)
    decreases n + 1 - i
  {
    if i > n then 0 else Binom(n, i) * Pow(x, n - i) + BinomSuffix(n, x, i + 1)
  }

  /** Pascal's rule lifted to the suffix sums. */
  lemma {:induction false} BinomSuffixStep(n: nat, x: int, i: nat)
    ensures BinomSuffix(n + 1, x, i + 1) == BinomSuffix(n, x, i) + x * BinomSuffix(n, x, i + 1)
    decreases n + 1 - i
  {
    if i > n {
    } else if i == n {
      BinomDiagonal(n);
      BinomDiagonal(n + 1);
      assert BinomSuffix(n + 1, x, n + 1) == 1;
      assert BinomSuffix(n, x, n) == 1;
    } else {
      BinomSuffixStep(n, x, i + 1);
      var p := Pow(x, n - i - 1);
      assert Pow(x, n - i) == x * p;
      SuffixArith(Binom(n, i), Binom(n, i + 1), p, x,
                  BinomSuffix(n, x, i + 1), BinomSuffix(n, x, i + 2));
    }
  }

  lemma SuffixArith(bi: int, bj: int, p: int, x: int, u1: int, u2: int)
    requires u1 == bj * p + u2
    ensures (bi + bj) * (x * p) + (u1 + x * u2) == (bi * (x * p) + u1) + x * u1
  {
  }

  /** The binomial theorem in the form `sum C(n, j) x^(n-j) == (x + 1)^n`. */
  lemma {:induction false} BinomialTheorem(n: nat, x: int)
    ensures BinomSuffix(n, x, 0) == Pow(x + 1, n)
  {
    if n > 0 {
      var m := n - 1;
      BinomialTheorem(m, x);
      BinomSuffixStep(m, x, 0);
      assert BinomSuffix(n, x, 0) == Pow(x, n) + BinomSuffix(n, x, 1);
      assert BinomSuffix(m, x, 0) == Pow(x, m) + BinomSuffix(m, x, 1);
      assert Pow(x, n) == x * Pow(x, m);
      TheoremArith(Pow(x, m), BinomSuffix(m, x, 1), x);
    }
  }

  lemma TheoremArith(p: int, u: int, x: int)
    ensures x * p + ((p + u) + x * u) == (x + 1) * (p + u)
  {
  }

  /** Sum of the entries of a vector, accumulated from the front as the
      source's loops do. */
  function Sum(v: seq<int>): (r: int)
  {
    if |v| == 0 then 0 else Sum(v[..|v| - 1]) + v[|v| - 1]
  }

  predicate NonNegative(v: seq<int>)
  {
    forall i :: 0 <= i < |v| ==> v[i] >= 0
  }

  lemma {:induction false} SumFront(v: seq<int>)
    requires |v| > 0
    ensures Sum(v) == v[0] + Sum(v[1..])
  {
    if |v| > 1 {
      SumFront(v[..|v| - 1]);
      assert v[..|v| - 1][1..] == v[1..][..|v| - 2];
    }
  }

  lemma {:induction false} SumAppend(a: seq<int>, b: seq<int>)
    ensures Sum(a + b) == Sum(a) + Sum(b)
  {
    if |b| > 0 {
      SumAppend(a, b[..|b| - 1]);
      assert (a + b)[..|a + b| - 1] == a + b[..|b| - 1];
    } else {
      assert a + b == a;
    }
  }

  lemma {:induction false} SumNonnegative(v: seq<int>)
    requires NonNegative(v)
    ensures Sum(v) >= 0
  {
    if |v| > 0 {
      SumNonnegative(v[..|v| - 1]);
    }
  }

  /** Product of the factorials of the entries. */
  function ProdFact(v: seq<int>): (r: int)
  {
    if |v| == 0 then 1 else Factorial(v[0]) * ProdFact(v[1..])
  }

  /** The multinomial coefficient `(v[0] + ... + v[n-1])! / (v[0]! ... v[n-1]!)`
      as a product of binomial coefficients. */
  function Multinomial(v: seq<int>): (r: int)
    requires NonNegative(v)
  {
    if |v| == 0 then 1
    else
      SumNonnegative(v[1..]);
      Binom(v[0] + Sum(v[1..]), v[0]) * Multinomial(v[1..])
  }

  lemma {:induction false} MultinomialNonnegative(v: seq<int>)
    requires NonNegative(v)
    ensures Multinomial(v) >= 0
  {
    if |v| > 0 {
      MultinomialNonnegative(v[1..]);
      SumNonnegative(v[1..]);
      MulNonnegative(Binom(v[0] + Sum(v[1..]), v[0]), Multinomial(v[1..]));
    }
  }

  /** `multinomial(v) * prod v[i]! == (sum v)!`: the multinomial coefficient
      is the quotient of the factorials, with no remainder. */
  lemma {:induction false} MultinomialFactorials(v: seq<int>)
    requires NonNegative(v)
    ensures Multinomial(v) * ProdFact(v) == Factorial(Sum(v))
  {
    if |v| > 0 {
      var t := v[1..];
      MultinomialFactorials(t);
      SumFront(v);
      SumNonnegative(t);
      BinomFactorial(v[0], Sum(t));
      MultinomialArith(Binom(v[0] + Sum(t), v[0]), Multinomial(t),
                       Factorial(v[0]), ProdFact(t), Factorial(Sum(t)), Factorial(Sum(v)));
    }
  }

  lemma MultinomialArith(b: int, m: int, fa: int, p: int, fs: int, f: int)
    requires m * p == fs
    requires b * fa * fs == f
    ensures (b * m) * (fa * p) == f
  {
    calc {
      (b * m) * (fa * p);
      b * fa * (m * p);
      b * fa * fs;
    }
  }

  /** A zero vector has multinomial coefficient 1. */
  lemma {:induction false} MultinomialZeros(n: nat)
    ensures NonNegative(Zeros(n)) && Multinomial(Zeros(n)) == 1 && Sum(Zeros(n)) == 0
  {
    if n > 0 {
      MultinomialZeros(n - 1);
      assert Zeros(n)[1..] == Zeros(n - 1);
      SumFront(Zeros(n));
    }
  }

  function Zeros(n: nat): (z: seq<int>)
    ensures |z| == n
  {
    if n == 0 then [] else [0] + Zeros(n - 1)
  }

}
