/** Facts about integer division. */
module Arithmetic {

  function Abs(x: int): nat {
    if x < 0 then -x else x
  }

  lemma Monotone(x: int, y: int, n: int)
    requires 0 <= n && x <= y
    ensures x * n <= y * n
  {
  }

  lemma Cancel(x: int, y: int, n: int)
    requires 0 < n && x * n < y * n
    ensures x < y
  {
    if y <= x {
      Monotone(y, x, n);
    }
  }

  lemma Distribute(x: int, n: int)
    ensures (x + 1) * n == x * n + n
  {
  }

  lemma Unique(q: int, r: int, b: int, a: int, n: int)
    requires 0 <= a < n && 0 <= r < n && q * n + r == b * n + a
    ensures q == b && r == a
  {
    Distribute(q, n);
    Distribute(b, n);
    Cancel(q, b + 1, n);
    Cancel(b, q + 1, n);
  }

  lemma Division(x: int, n: int)
    requires 0 < n
    ensures x == x / n * n + x % n && 0 <= x % n < n
  {
  }

  /** Division undoes row-major numbering. */
  lemma Digits(a: int, b: int, n: int)
    requires 0 <= a < n
    ensures (a + b * n) % n == a && (a + b * n) / n == b
  {
    var x := a + b * n;
    Division(x, n);
    Unique(x / n, x % n, b, a, n);
  }

  lemma Bounded(a: int, b: int, n: int, m: int)
    requires 0 <= a < n && 0 <= b < m
    ensures 0 <= a + b * n < n * m
  {
    assert 0 <= b * n <= (m - 1) * n;
    assert (m - 1) * n == n * m - n;
  }

  /** A coordinate within a whole number of chunks lies in one of them. */
  lemma Quotient(x: int, size: int, chunk: int)
    requires 0 <= x < size && 0 < chunk && size % chunk == 0
    ensures 0 <= x / chunk < size / chunk && 0 <= x % chunk < chunk && x / chunk * chunk + x % chunk == x
  {
    Division(x, chunk);
    Division(size, chunk);
    Cancel(x / chunk, size / chunk, chunk);
    Distribute(x / chunk, chunk);
    Cancel(-1, x / chunk, chunk);
  }

  lemma Positive(a: int, b: int)
    requires 0 < a && 0 < b
    ensures 0 < a * b
  {
  }
}
