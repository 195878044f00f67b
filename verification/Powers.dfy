/** Powers of two and ten, and the smaller of two numbers. */
module Powers {
  function Min(a: int, b: int): (m: int)
    ensures m <= a && m <= b && m in {a, b}
  {
    if a < b then a else b
  }

  function Pow2(n: nat): nat { if n == 0 then 1 else 2 * Pow2(n - 1) }

  function Pow10(n: nat): nat { if n == 0 then 1 else 10 * Pow10(n - 1) }

  lemma Pow10Of19()
    ensures Pow10(19) == 10_000_000_000_000_000_000
  {
    assert Pow10(5) == 100_000;
    assert Pow10(10) == 10_000_000_000;
    assert Pow10(15) == 1_000_000_000_000_000;
  }

  lemma {:induction false} Pow2Grows(n: nat, m: nat)
    requires n <= m
    ensures 1 <= Pow2(n) <= Pow2(m)
  {
    if n < m {
      Pow2Grows(n, m - 1);
    } else if n > 0 {
      Pow2Grows(n - 1, n - 1);
    }
  }
}
