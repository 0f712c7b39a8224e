/** What identifies a remainder, for the two rings of this project. */
module Remainders {

  /** The only multiple of `m` strictly between -m and m is 0. */
  lemma SmallMultiple(k: int, m: int)
    requires m > 0 && -m < k * m < m
    ensures k == 0
  {
    assert (-k) * m == -(k * m);
    if k > 0 { MulGrows(k, m); }
    if k < 0 { MulGrows(-k, m); }
  }

  lemma {:induction false} MulGrows(k: nat, m: nat)
    requires k > 0
    ensures k * m >= m
  {
    if k > 1 {
      MulGrows(k - 1, m);
      assert k * m == (k - 1) * m + m;
    }
  }

  lemma RemainderUnique(a: nat, m: nat, q: nat, r: nat)
    requires m > 0 && r < m && a == q * m + r
    ensures a % m == r
  {
    var q', r' := a / m, a % m;
    assert a == q' * m + r';
    assert (q - q') * m == q * m - q' * m;
    SmallMultiple(q - q', m);
  }

  lemma DivideAgain(a: nat, m: nat)
    requires m > 0
    ensures a == (a / m) * m + a % m
  {
  }

  lemma Distribute(p: int, q: int, m: int)
    ensures (q - p) * m == q * m - p * m
  {
  }

  /** Numbers with the same remainder are at least `m` apart. */
  lemma SameRemainder(a: nat, b: nat, m: nat)
    requires m > 0 && a < b && a % m == b % m
    ensures a + m <= b
  {
    DivideAgain(a, m);
    DivideAgain(b, m);
    Distribute(a / m, b / m, m);
    var k := b / m - a / m;
    assert k * m == b - a;
    if b < a + m { SmallMultiple(k, m); }
  }
}
