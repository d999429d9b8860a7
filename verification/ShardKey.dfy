/** Shard routing (pkg/shardkey/shardkey.go). Go divides toward zero and its int64
    negation wraps at the least value; both are written out here. */
module ShardKey {

  const MIN_INT64: int := -0x8000_0000_0000_0000
  const MAX_INT64: int := 0x7fff_ffff_ffff_ffff

  predicate IsInt64(x: int) {
    MIN_INT64 <= x <= MAX_INT64
  }

  function Abs(x: int): nat {
    if x < 0 then -x else x
  }

  /** Go's `/` for a positive divisor. */
  function GoDiv(x: int, y: int): int
    requires y > 0
  {
    if x >= 0 then x / y else -((-x) / y)
  }

  /** Go's `%` for a positive divisor: the remainder has the sign of the dividend. */
  function GoMod(x: int, y: int): int
    requires y > 0
  {
    if x >= 0 then x % y else -((-x) % y)
  }

  /** Go's unary minus on int64. */
  function Neg64(x: int): int {
    if x == MIN_INT64 then x else -x
  }

  function DBIndex(userId: int, dbCount: int): (r: int)
    ensures 0 < dbCount <= MAX_INT64 ==> 0 <= r < dbCount
  {
    if dbCount <= 0 then 0
    else
      var idx := GoMod(userId, dbCount);
      if idx < 0 then Neg64(idx) else idx
  }

  function TableIndex(userId: int, dbCount: int, tableCount: int): int {
    if dbCount <= 0 || tableCount <= 0 then 0
    else
      var bucket := GoDiv(userId, dbCount);
      var b := if bucket < 0 then Neg64(bucket) else bucket;
      GoMod(b, tableCount)
  }

  /** DBIndex folds negative ids onto their absolute value. */
  lemma DBIndexIsEven(userId: int, dbCount: int)
    requires 0 < dbCount <= MAX_INT64
    ensures DBIndex(userId, dbCount) == Abs(userId) % dbCount
    ensures DBIndex(-userId, dbCount) == DBIndex(userId, dbCount)
  {
  }

  lemma MulAtLeast(m: int, k: int)
    requires m > 0 && k >= 1
    ensures m * k >= m && m * k >= k
  {
    assert m * k == m * (k - 1) + m;
    assert m * (k - 1) >= 0;
    assert m * k == (m - 1) * k + k;
    assert (m - 1) * k >= 0;
  }

  lemma DivShrinks(x: nat, y: int)
    requires y > 0
    ensures 0 <= x / y <= x
    ensures y > 1 && x > 0 ==> x / y < x
  {
    var q := x / y;
    assert x == y * q + x % y;
    if q > 0 {
      MulAtLeast(y, q);
      if y > 1 {
        MulAtLeast(y - 1, q);
        assert y * q == (y - 1) * q + q;
      }
    }
  }

  /** TableIndex leaves its range on exactly one id, the least int64, with one database,
      and then exactly when the table count does not divide 2^63. */
  lemma TableIndexInRangeIff(userId: int, dbCount: int, tableCount: int)
    requires IsInt64(userId) && 0 < dbCount <= MAX_INT64 && 0 < tableCount <= MAX_INT64
    ensures 0 <= TableIndex(userId, dbCount, tableCount) < tableCount
            <==> !(userId == MIN_INT64 && dbCount == 1 && (-MIN_INT64) % tableCount != 0)
  {
    if userId < 0 {
      DivShrinks(-userId, dbCount);
    }
  }

  /** For non-negative ids the pair (table, database) is the mixed-radix form of the id. */
  lemma MixedRadix(u: nat, d: int, t: int)
    requires 0 < d <= MAX_INT64 && 0 < t
    ensures 0 <= TableIndex(u, d, t) < t
    ensures d * t > 0
    ensures u % (d * t) == d * TableIndex(u, d, t) + DBIndex(u, d)
  {
    var q, r := u / d, u % d;
    assert q >= 0 by { DivShrinks(u, d); }
    var qq, rr := q / t, q % t;
    assert TableIndex(u, d, t) == rr && DBIndex(u, d) == r;
    PosTimesPos(d, t);
    Distribute(d, t, qq, rr);
    RadixBound(d, t, rr, r);
    assert u == (d * t) * qq + (d * rr + r) by {
      assert u == d * q + r;
      assert q == t * qq + rr;
    }
    ModUnique(u, d * t, qq, d * rr + r);
  }

  lemma PosTimesPos(a: int, b: int)
    requires a > 0 && b > 0
    ensures a * b > 0
  {
  }

  lemma Distribute(d: int, t: int, qq: int, rr: int)
    ensures d * (t * qq + rr) == (d * t) * qq + d * rr
  {
  }

  lemma RadixBound(d: int, t: int, rr: int, r: int)
    requires d > 0 && 0 <= rr < t && 0 <= r < d
    ensures 0 <= d * rr + r < d * t
  {
    assert d * rr <= d * (t - 1);
  }

  lemma ModUnique(x: int, m: int, q: int, r: int)
    requires m > 0 && x == m * q + r && 0 <= r < m
    ensures x % m == r && x / m == q
  {
    QuotientUnique(m, x / m, x % m, q, r);
  }

  lemma QuotientUnique(m: int, q: int, r: int, q': int, r': int)
    requires m > 0 && 0 <= r < m && 0 <= r' < m
    requires m * q + r == m * q' + r'
    ensures q == q' && r == r'
  {
    assert m * (q - q') == r' - r && m * (q' - q) == r - r';
    if q > q' { MulAtLeast(m, q - q'); }
    if q < q' { MulAtLeast(m, q' - q); }
  }

  /** In a window of m consecutive integers each residue occurs exactly once, at `ResidueAt`. */
  function ResidueAt(base: int, m: int, r: int): (x: int)
    requires m > 0 && 0 <= r < m
    ensures base <= x < base + m && x % m == r
  {
    var s := (r - base % m) % m;
    var x := base + s;
    assert x % m == r by {
      var c := base / m;
      assert base == m * c + base % m;
      var e := r - base % m;
      if e >= 0 {
        ModUnique(e, m, 0, e);
        ModUnique(x, m, c, r);
      } else {
        ModUnique(e, m, -1, e + m);
        assert x == m * (c + 1) + r;
        ModUnique(x, m, c + 1, r);
      }
    }
    x
  }

  lemma ResidueUnique(base: int, m: int, x: int, y: int)
    requires m > 0 && base <= x < base + m && base <= y < base + m && x % m == y % m
    ensures x == y
  {
    var dq := x / m - y / m;
    assert x - y == m * dq;
    if dq > 0 { MulAtLeast(m, dq); }
    if dq < 0 { MulAtLeast(m, -dq); }
  }

  /** Any d*t consecutive ids hit every (database, table) pair exactly once. */
  lemma EveryTableOnce(base: nat, d: int, t: int, db: int, table: int)
    requires 0 < d <= MAX_INT64 && 0 < t && 0 <= db < d && 0 <= table < t
    ensures exists u: nat :: base <= u < base + d * t && DBIndex(u, d) == db && TableIndex(u, d, t) == table
                             && forall v: nat ::
                                  (base <= v < base + d * t && DBIndex(v, d) == db && TableIndex(v, d, t) == table)
                                  ==> v == u
  {
    PosTimesPos(d, t);
    RadixBound(d, t, table, db);
    var u := ResidueAt(base, d * t, d * table + db);
    MixedRadix(u, d, t);
    ModUnique(d * table + db, d, table, db);
    ModUnique(d * TableIndex(u, d, t) + DBIndex(u, d), d, TableIndex(u, d, t), DBIndex(u, d));
    assert DBIndex(u, d) == db && TableIndex(u, d, t) == table;
    forall v: nat | base <= v < base + d * t && DBIndex(v, d) == db && TableIndex(v, d, t) == table
      ensures v == u
    {
      MixedRadix(v, d, t);
      ResidueUnique(base, d * t, u, v);
    }
  }

  /** Any k*d consecutive ids give each database exactly k of them. */
  lemma {:induction false} EvenSpread(base: nat, d: int, k: nat, db: int)
    requires 0 < d <= MAX_INT64 && 0 <= db < d
    ensures |set u | base <= u < base + k * d && DBIndex(u, d) == db| == k
  {
    var whole := set u | base <= u < base + k * d && DBIndex(u, d) == db;
    if k == 0 {
      assert whole == {};
    } else {
      EvenSpread(base, d, k - 1, db);
      var front := set u | base <= u < base + (k - 1) * d && DBIndex(u, d) == db;
      var last := base + (k - 1) * d;
      assert last + d == base + k * d && last >= base;
      var x := ResidueAt(last, d, db);
      forall u | last <= u < last + d && DBIndex(u, d) == db ensures u == x {
        ResidueUnique(last, d, u, x);
      }
      assert whole == front + {x};
    }
  }
}
