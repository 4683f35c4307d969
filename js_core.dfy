/** The few pieces of JavaScript semantics the server's arithmetic depends on:
    `undefined` as an Option, the truncating remainder operator `%`, reading an
    array element by a possibly out-of-range index, and `Array.prototype.indexOf`. */
module JsCore {

  /** A UTF-16 code unit: what `charCodeAt` returns and what `length` counts. */
  type CodeUnit = c: int | 0 <= c < 0x1_0000

  /** `undefined` (None) or a defined value. */
  datatype Option<T> = None | Some(value: T)

  /** JavaScript's `a % n` for integers and a positive modulus: the result takes the
      sign of `a` (truncating division), unlike Dafny's Euclidean `%`. */
  function JsRem(a: int, n: int): (r: int)
    requires n > 0
    ensures -n < r < n
    ensures a >= 0 ==> r == a % n
    ensures a <= 0 ==> r <= 0
    ensures (a - r) % n == 0
  {
    RemainderMultiples(a, n);
    if a >= 0 then a % n else -((-a) % n)
  }

  /** Removing the remainder, or adding back the remainder of the negation, leaves a
      multiple of n. */
  lemma RemainderMultiples(a: int, n: int)
    requires n > 0
    ensures (a - a % n) % n == 0
    ensures (a + (-a) % n) % n == 0
  {
    ModUnique(a - a % n, n, a / n, 0);
    ModUnique(a + (-a) % n, n, -((-a) / n), 0);
  }

  /** `table[i]` in JavaScript: `undefined` unless `i` is a valid index. A negative
      zero index (such as the value of `-10 % 10`) is read as index 0, which is what
      the integer 0 gives here. */
  function Lookup<T>(table: seq<T>, i: int): (r: Option<T>)
    ensures r.Some? <==> 0 <= i < |table|
    ensures r.Some? ==> r.value == table[i]
  {
    if 0 <= i < |table| then Some(table[i]) else None
  }

  /** `table.indexOf(x)`: the first position holding `x`, or -1; looking for
      `undefined` (None) in a table of defined values gives -1. */
  function IndexOf<T(==)>(table: seq<T>, x: Option<T>): (k: int)
    ensures -1 <= k < |table|
    ensures k >= 0 ==> x == Some(table[k]) && forall j :: 0 <= j < k ==> Some(table[j]) != x
    ensures k == -1 ==> forall j :: 0 <= j < |table| ==> Some(table[j]) != x
  {
    if |table| == 0 then -1
    else if Some(table[0]) == x then 0
    else
      var k := IndexOf(table[1..], x);
      if k == -1 then -1 else k + 1
  }

  /** Every value of the table occurs at exactly one position. */
  predicate Distinct<T(==)>(table: seq<T>) {
    forall i, j :: 0 <= i < j < |table| ==> table[i] != table[j]
  }

  /** In a table without repetitions, `indexOf` undoes indexing. */
  lemma IndexOfLookup<T>(table: seq<T>, k: int)
    requires Distinct(table)
    requires 0 <= k < |table|
    ensures IndexOf(table, Some(table[k])) == k
  {
  }

  /** A JavaScript remainder is a usable (non-negative) index exactly when the
      dividend is non-negative or a multiple of the modulus, and it is then the
      mathematical remainder. */
  lemma JsRemIndex(a: int, n: int)
    requires n > 0
    ensures JsRem(a, n) >= 0 <==> a >= 0 || a % n == 0
    ensures JsRem(a, n) >= 0 ==> JsRem(a, n) == a % n
  {
    if a < 0 {
      var b := -a;
      assert b == n * (b / n) + b % n;
      if b % n == 0 {
        ModUnique(a, n, -(b / n), 0);
      } else {
        assert a == n * (-(b / n) - 1) + (n - b % n);
        ModUnique(a, n, -(b / n) - 1, n - b % n);
      }
    }
  }

  lemma MulAtLeast(n: int, d: int)
    requires n > 0 && d >= 1
    ensures n * d >= n
    decreases d
  {
    if d > 1 {
      MulAtLeast(n, d - 1);
      assert n * d == n * (d - 1) + n;
    }
  }

  /** The quotient-remainder decomposition is unique. */
  lemma ModUnique(a: int, n: int, q: int, r: int)
    requires n > 0 && 0 <= r < n && a == n * q + r
    ensures a % n == r
  {
    var q', r' := a / n, a % n;
    assert a == n * q' + r';
    if q' < q {
      assert n * (q - q') == r' - r;
      MulAtLeast(n, q - q');
    } else if q' > q {
      assert n * (q' - q) == r - r';
      MulAtLeast(n, q' - q);
    }
  }

  /** The quotient of the quotient-remainder decomposition is unique too. */
  lemma DivUnique(a: int, n: int, q: int, r: int)
    requires n > 0 && 0 <= r < n && a == n * q + r
    ensures a / n == q
  {
    ModUnique(a, n, q, r);
  }

  /** Adding one and reducing commutes with reducing and adding one. */
  lemma ModSucc(c: int, n: int)
    requires n > 0
    ensures (c + 1) % n == (c % n + 1) % n
  {
    var q, r := c / n, c % n;
    assert c == n * q + r;
    if r + 1 < n {
      ModUnique(c + 1, n, q, r + 1);
      ModUnique(r + 1, n, 0, r + 1);
    } else {
      ModUnique(c + 1, n, q + 1, 0);
      ModUnique(r + 1, n, 1, 0);
    }
  }

  /** Reducing modulo a multiple of n first does not change the remainder modulo n. */
  lemma ModOfMod(a: int, n: int, m: int)
    requires n > 0 && m > 0
    ensures (a % (n * m)) % n == a % n
  {
    var q, r := a / (n * m), a % (n * m);
    assert a == (n * m) * q + r;
    var q2, r2 := r / n, r % n;
    assert r == n * q2 + r2;
    assert a == n * (m * q + q2) + r2;
    ModUnique(a, n, m * q + q2, r2);
  }
}
