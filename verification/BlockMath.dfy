/** Division facts for a block size that is only known at run time. */
module BlockMath {

  /** Rust's `div_ceil`: the number of blocks of size `b` that hold `n` tokens. */
  function CeilDiv(n: nat, b: nat): (q: nat)
    requires b > 0
    ensures n <= q * b < n + b
  {
    DivModIs(n + b - 1, b, (n + b - 1) / b, (n + b - 1) % b);
    (n + b - 1) / b
  }

  /** Quotient and remainder are determined by the division equation. */
  lemma DivModUnique(b: nat, q: int, r: int, q': int, r': int)
    requires 0 <= r < b && 0 <= r' < b
    requires q * b + r == q' * b + r'
    ensures q == q' && r == r'
  {
    if q < q' {
      MulMonotone(q + 1, q', b);
    } else if q' < q {
      MulMonotone(q' + 1, q, b);
    }
  }

  lemma MulMonotone(x: int, y: int, b: nat)
    requires x <= y
    ensures x * b <= y * b
  {
    assert (y - x) * b == y * b - x * b;
  }

  /** `/` and `%` are the quotient and remainder of the division equation. */
  lemma DivModIs(n: nat, b: nat, q: int, r: int)
    requires b > 0
    requires (q == n / b && r == n % b) || (n == q * b + r && 0 <= r < b)
    ensures n == q * b + r && 0 <= r < b && q == n / b && r == n % b
    ensures 0 <= q
  {
    assert n == (n / b) * b + n % b;
    if n == q * b + r && 0 <= r < b {
      DivModUnique(b, q, r, n / b, n % b);
    }
  }

  /** The block count is fixed by the two bounds that define it. */
  lemma CeilDivIs(n: nat, b: nat, q: int)
    requires b > 0 && n <= q * b < n + b
    ensures CeilDiv(n, b) == q
  {
    var c := CeilDiv(n, b);
    DivModUnique(b, q, n + b - 1 - q * b, c, n + b - 1 - c * b);
  }

  lemma CeilDivMonotone(m: nat, n: nat, b: nat)
    requires b > 0 && m <= n
    ensures CeilDiv(m, b) <= CeilDiv(n, b)
  {
    var p, q := CeilDiv(m, b), CeilDiv(n, b);
    if q < p {
      MulMonotone(q + 1, p, b);
    }
  }

  /** Adding one token opens a block exactly when the old length is a multiple of the size. */
  lemma CeilDivSucc(n: nat, b: nat)
    requires b >= 2
    ensures (n + 1) % b == 1 <==> n % b == 0
    ensures CeilDiv(n + 1, b) == CeilDiv(n, b) + (if n % b == 0 then 1 else 0)
    ensures CeilDiv(n, b) == n / b + (if n % b == 0 then 0 else 1)
    ensures n % b == 0 ==> (n + 1) / b == n / b && n == (n / b) * b
  {
    var q, r := n / b, n % b;
    DivModIs(n, b, q, r);
    assert (q + 1) * b == q * b + b;
    if r + 1 < b {
      DivModIs(n + 1, b, q, r + 1);
    } else {
      DivModIs(n + 1, b, q + 1, 0);
    }
    CeilDivIs(n, b, q + (if r == 0 then 0 else 1));
    CeilDivIs(n + 1, b, q + 1);
  }
}
