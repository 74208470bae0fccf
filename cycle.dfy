/**
 * Circular index arithmetic of the carousels and the lightbox. JavaScript's `%`
 * truncates toward zero (the remainder takes the sign of the dividend), unlike
 * Dafny's Euclidean `%`, so it is written out here.
 */
module Cycle {

  /** JavaScript's `a % b` for a positive divisor: the remainder keeps the sign of `a`. */
  function JsRem(a: int, b: int): (r: int)
    requires b > 0
    ensures a >= 0 ==> 0 <= r < b
    ensures a <= 0 ==> -b < r <= 0
    ensures r % b == a % b
  {
    var r := if a >= 0 then a % b else -((-a) % b);
    JsRemCongruent(a, b, r);
    r
  }

  lemma JsRemCongruent(a: int, b: int, r: int)
    requires b > 0
    requires r == if a >= 0 then a % b else -((-a) % b)
    ensures r % b == a % b
  {
    if a >= 0 {
      ModUnique(r, b, 0, r);
    } else {
      var s, q := (-a) % b, (-a) / b;
      assert -a == q * b + s;
      if s == 0 {
        assert a == (-q) * b + 0;
        ModUnique(a, b, -q, 0);
        ModUnique(0, b, 0, 0);
      } else {
        assert a == (-q - 1) * b + (b - s);
        ModUnique(a, b, -q - 1, b - s);
        ModUnique(r, b, -1, b - s);
      }
    }
  }

  /**
   * The normalisation of `showSlide` and `showTestimonial`: `(n + len) % len`.
   * For every target the callers produce (`n >= -len`) the result is a valid
   * index congruent to `n`; below that, JavaScript's remainder goes negative.
   */
  function Wrap(n: int, len: int): (r: int)
    requires len >= 1
    ensures n >= -len ==> 0 <= r < len && r == n % len
    ensures n < -len ==> -len < r <= 0
  {
    var r := JsRem(n + len, len);
    assert n >= -len ==> r == n % len by {
      if n >= -len { ModShift(n, len); }
    }
    r
  }

  /** A target that is already a valid index is kept as it is. */
  lemma WrapKeepsValidIndex(i: int, len: int)
    requires 0 <= i < len
    ensures Wrap(i, len) == i
  {
    ModUnique(i, len, 0, i);
  }

  /** Going back from the first item lands on the last. */
  lemma PrevOfFirstIsLast(len: int)
    requires len >= 1
    ensures Wrap(0 - 1, len) == len - 1
  {
  }

  /** Going forward from the last item lands on the first. */
  lemma NextOfLastIsFirst(len: int)
    requires len >= 1
    ensures Wrap(len - 1 + 1, len) == 0
  {
  }

  /** With a single item, next and previous both stay at index 0. */
  lemma SingleItemIsFixed()
    ensures Wrap(0 + 1, 1) == 0 && Wrap(0 - 1, 1) == 0
  {
  }

  /** Next and previous undo each other on every valid index. */
  lemma NextPrevInverse(i: int, len: int)
    requires 0 <= i < len
    ensures Wrap(Wrap(i + 1, len) - 1, len) == i
    ensures Wrap(Wrap(i - 1, len) + 1, len) == i
  {
    ModUnique(i, len, 0, i);
    if i + 1 < len {
      ModUnique(i + 1, len, 0, i + 1);
    } else {
      ModUnique(i + 1, len, 1, 0);
      ModUnique(-1, len, -1, len - 1);
    }
    if i > 0 {
      ModUnique(i - 1, len, 0, i - 1);
    } else {
      ModUnique(-1, len, -1, len - 1);
      ModUnique(len, len, 1, 0);
    }
  }

  /** The index reached from `i` by `k` successive calls of next. */
  function Advance(i: int, k: nat, len: int): (r: int)
    requires len >= 1 && 0 <= i < len
    ensures 0 <= r < len
  {
    if k == 0 then i else Wrap(Advance(i, k - 1, len) + 1, len)
  }

  /** `k` calls of next move the index `k` places round the circle. */
  lemma {:induction false} AdvanceIsRotation(i: int, k: nat, len: int)
    requires len >= 1 && 0 <= i < len
    ensures Advance(i, k, len) == (i + k) % len
  {
    if k > 0 {
      AdvanceIsRotation(i, k - 1, len);
      ModSucc(i + k - 1, len);
    }
  }

  /** `len` calls of next from any index come back to it. */
  lemma {:induction false} FullCircle(i: int, len: int)
    requires len >= 1 && 0 <= i < len
    ensures Advance(i, len, len) == i
  {
    AdvanceIsRotation(i, len, len);
    ModShift(i, len);
    ModUnique(i, len, 0, i);
  }

  lemma MulAtLeast(d: int, m: int)
    requires d >= 1 && m > 0
    ensures d * m >= m
  {
    if d > 1 {
      MulAtLeast(d - 1, m);
      assert d * m == (d - 1) * m + m;
    }
  }

  /** Euclidean division has a unique quotient and remainder. */
  lemma ModUnique(x: int, m: int, q: int, r: int)
    requires m > 0 && 0 <= r < m && x == q * m + r
    ensures x % m == r
  {
    var q', r' := x / m, x % m;
    assert x == q' * m + r';
    assert (q - q') * m == r' - r;
    if q > q' {
      MulAtLeast(q - q', m);
    } else if q < q' {
      MulAtLeast(q' - q, m);
    }
  }

  lemma ModShift(x: int, m: int)
    requires m > 0
    ensures (x + m) % m == x % m
  {
    var q := x / m;
    assert x == q * m + x % m;
    assert x + m == (q + 1) * m + x % m;
    ModUnique(x + m, m, q + 1, x % m);
  }

  lemma ModSucc(a: int, len: int)
    requires len >= 1
    ensures (a % len + 1) % len == (a + 1) % len
  {
    var q := a / len;
    assert a == q * len + a % len;
    if a % len + 1 == len {
      assert a + 1 == (q + 1) * len + 0;
      ModUnique(a + 1, len, q + 1, 0);
      ModUnique(len, len, 1, 0);
    } else {
      assert a + 1 == q * len + (a % len + 1);
      ModUnique(a + 1, len, q, a % len + 1);
      ModUnique(a % len + 1, len, 0, a % len + 1);
    }
  }

  /**
   * The lightbox's own formulas, `(i + 1) % len` and `(i - 1 + len) % len`, agree
   * with the carousel normalisation on every valid index.
   */
  lemma LightboxFormulasAgree(i: int, len: int)
    requires 0 <= i < len
    ensures JsRem(i + 1, len) == Wrap(i + 1, len)
    ensures JsRem(i - 1 + len, len) == Wrap(i - 1, len)
  {
  }
}
