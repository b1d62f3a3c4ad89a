/** Small arithmetic vocabulary shared by the other modules: minima, rounding up,
    and sums of a function over the indices below a bound. */
module Arith {

  datatype Option<+T> = None | Some(value: T)

  function Min(a: int, b: int): (r: int)
    ensures r <= a && r <= b && (r == a || r == b)
  {
    if a < b then a else b
  }

  function Max(a: int, b: int): (r: int)
    ensures a <= r && b <= r && (r == a || r == b)
  {
    if a < b then b else a
  }

  /** Least `q` whose product with `b` reaches `a` (Rust's `div_ceil`). */
  function DivCeil(a: nat, b: nat): (q: nat)
    requires b > 0
    ensures a <= q * b
    ensures a == 0 ==> q == 0
    ensures a > 0 ==> q > 0 && (q - 1) * b < a
  {
    (a + b - 1) / b
  }

  lemma MulMono(a: nat, b: nat, c: nat)
    requires a <= b
    ensures a * c <= b * c
  {
  }

  lemma MulStep(a: nat, b: nat, c: nat)
    requires a < b
    ensures a * c + c <= b * c
  {
    MulMono(a + 1, b, c);
    assert (a + 1) * c == a * c + c;
  }

  /** `x / d` is the only quotient `q` with `q * d <= x < q * d + d`. */
  lemma DivUnique(x: nat, d: nat, q: nat)
    requires d > 0
    requires q * d <= x < q * d + d
    ensures x / d == q
  {
    var k := x / d;
    assert k * d <= x < k * d + d;
    if k < q {
      MulStep(k, q, d);
    } else if q < k {
      MulStep(q, k, d);
    }
  }

  /** `k <= x / d` exactly when `k * d` still fits in `x`. */
  lemma DivIsGreatest(x: nat, d: nat, k: nat)
    requires d > 0
    ensures k <= x / d <==> k * d <= x
  {
    var q := x / d;
    assert q * d <= x < q * d + d;
    if k <= q {
      MulMono(k, q, d);
    } else {
      MulStep(q, k, d);
    }
  }

  /** `f(0) + ... + f(n - 1)`. */
  function SumTo(f: nat -> int, n: nat): (r: int) {
    if n == 0 then 0 else SumTo(f, n - 1) + f(n - 1)
  }

  lemma {:induction false} SumToSame(f: nat -> int, g: nat -> int, n: nat)
    requires forall i: nat :: i < n ==> f(i) == g(i)
    ensures SumTo(f, n) == SumTo(g, n)
  {
    if n > 0 {
      SumToSame(f, g, n - 1);
    }
  }

  /** Changing one summand moves the sum by exactly that change. */
  lemma {:induction false} SumToUpdate(f: nat -> int, g: nat -> int, p: nat, n: nat)
    requires p < n
    requires forall i: nat :: i < n && i != p ==> f(i) == g(i)
    ensures SumTo(g, n) == SumTo(f, n) - f(p) + g(p)
  {
    if p == n - 1 {
      SumToSame(f, g, n - 1);
    } else {
      SumToUpdate(f, g, p, n - 1);
    }
  }

  /** A sum of naturals bounds each of its summands. */
  lemma {:induction false} SumToBounds(f: nat -> int, n: nat)
    requires forall i: nat :: i < n ==> f(i) >= 0
    ensures SumTo(f, n) >= 0
    ensures forall i: nat :: i < n ==> f(i) <= SumTo(f, n)
  {
    if n > 0 {
      SumToBounds(f, n - 1);
    }
  }

  /** A vanishing sum of naturals has only vanishing summands, and conversely. */
  lemma {:induction false} SumToZero(f: nat -> int, n: nat)
    requires forall i: nat :: i < n ==> f(i) >= 0
    ensures SumTo(f, n) == 0 <==> forall i: nat :: i < n ==> f(i) == 0
  {
    SumToBounds(f, n);
    if forall i: nat :: i < n ==> f(i) == 0 {
      SumToSame(f, _ => 0, n);
      SumToConstant(0, n);
    }
  }

  lemma {:induction false} SumToConstant(c: int, n: nat)
    ensures SumTo(_ => c, n) == c * n
  {
    if n > 0 {
      SumToConstant(c, n - 1);
    }
  }
}
