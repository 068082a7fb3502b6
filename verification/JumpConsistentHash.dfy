/** Jump consistent hashing: packages/common/src/ciphers/jump-consistent-hash.ts. */
module JumpHashing {

  const MULTIPLIER := 2862933555777941757
  const TWO_TO_31 := 0x8000_0000
  const TWO_TO_33 := 0x2_0000_0000
  const TWO_TO_53 := 0x20_0000_0000_0000
  const TWO_TO_64 := 0x1_0000_0000_0000_0000

  // ----- dividing doubles -----

  function Distance(x: real, y: real): real { if x < y then y - x else x - y }

  /** What the division of two doubles rounds to: within half a unit in the last place of the quotient, and at least as near
      to it as every whole number that is a double. */
  ghost predicate NearestDouble(q: real, a: nat, d: nat)
    requires d > 0
  {
    var exact := a as real / d as real;
    && Distance(q, exact) * TWO_TO_53 as real <= exact
    && forall n: nat :: n <= TWO_TO_53 ==> NoFurther(q, n, exact)
  }

  predicate NoFurther(q: real, n: nat, exact: real) { Distance(q, exact) <= Distance(n as real, exact) }

  /** The division of the host. Both operands of a jump are doubles without rounding. */
  type Division = (nat, nat) -> real

  ghost predicate Rounds(divide: Division) {
    forall b: nat, d: nat :: b < TWO_TO_31 && 0 < d <= TWO_TO_31 + 1 ==> NearestDouble(divide(Dividend(b), d), Dividend(b), d)
  }

  function Dividend(b: nat): nat { (b + 1) * TWO_TO_31 }

  lemma RoundedAtLeast(q: real, a: nat, d: nat, n: nat)
    requires d > 0 && NearestDouble(q, a, d) && n <= TWO_TO_53 && n * d <= a
    ensures q >= n as real
  {
    var exact := a as real / d as real;
    assert exact * d as real == a as real;
    assert n as real * d as real == (n * d) as real;
    RealFactor(exact - n as real, d as real);
    assert NoFurther(q, n, exact);
  }

  lemma RealFactor(x: real, d: real)
    requires d > 0.0 && x * d >= 0.0
    ensures x >= 0.0
  {}

  lemma RealFactorPositive(x: real, d: real)
    requires d > 0.0 && x * d > 0.0
    ensures x > 0.0
  {}

  /** While the dividend is below 2^53, the floor of the rounded quotient is that of the exact quotient. */
  lemma DoubleQuotientIsExact(q: real, a: nat, d: nat)
    requires d > 0 && NearestDouble(q, a, d) && a < TWO_TO_53
    ensures q.Floor == a / d
  {
    var exact, m := a as real / d as real, a / d;
    WholeQuotient(a, d);
    AtMostDividend(m, d, a);
    RoundedAtLeast(q, a, d, m);
    RoundedBelow(q, exact, m, a, d);
  }

  lemma WholeQuotient(a: nat, d: nat)
    requires d > 0
    ensures (a / d) * d <= a <= (a / d) * d + (d - 1)
    ensures (a as real / d as real) * d as real == a as real
  {}

  lemma RoundedBelow(q: real, exact: real, m: nat, a: nat, d: nat)
    requires d > 0 && m * d <= a <= m * d + (d - 1) && exact * d as real == a as real && a < TWO_TO_53
    requires (q - exact) * TWO_TO_53 as real <= exact
    ensures q < (m + 1) as real
  {
    RealGap(a, d, m, exact);
    ScaledBound((q - exact) * TWO_TO_53 as real, exact, d);
    var error := (q - exact) * d as real;
    assert error * TWO_TO_53 as real == ((q - exact) * TWO_TO_53 as real) * d as real;
    assert error < 1.0;
    assert ((m + 1) as real - q) * d as real == ((m + 1) as real - exact) * d as real - error;
    RealFactorPositive((m + 1) as real - q, d as real);
  }

  lemma AtMostDividend(m: nat, d: nat, a: nat)
    requires d > 0 && m * d <= a
    ensures m <= a
  {
    if m > 0 { assert m * d == m + m * (d - 1); }
  }

  lemma ScaledBound(x: real, y: real, d: nat)
    requires x <= y
    ensures x * d as real <= y * d as real
  {
    assert (y - x) * d as real >= 0.0;
  }

  lemma RealGap(a: nat, d: nat, m: nat, exact: real)
    requires d > 0 && m * d <= a <= m * d + (d - 1) && exact * d as real == a as real
    ensures ((m + 1) as real - exact) * d as real >= 1.0
  {
    assert ((m + 1) as real - exact) * d as real == (m + 1) as real * d as real - a as real;
    assert (m + 1) as real * d as real == ((m + 1) * d) as real;
    assert (m + 1) * d == m * d + d;
  }

  // ----- the jumps -----

  function NextKey(key: nat): (k: nat)
    ensures 1 <= k <= TWO_TO_64
  {
    (key * MULTIPLIER) % TWO_TO_64 + 1
  }

  /** The jump from bucket `b`, for the key that step has just produced. */
  function Jump(divide: Division, b: nat, key: nat): int {
    divide(Dividend(b), key / TWO_TO_33 + 1).Floor
  }

  /** A jump goes forward, except for the one key 2^64, whose jump stays where it is. */
  lemma JumpAdvances(divide: Division, b: nat, key: nat)
    requires Rounds(divide) && 1 <= key <= TWO_TO_64 && b < TWO_TO_31
    ensures if key < TWO_TO_64 then Jump(divide, b, key) >= b + 1 else Jump(divide, b, key) == b
  {
    hide NearestDouble;
    var a, d := Dividend(b), key / TWO_TO_33 + 1;
    var q := divide(a, d);
    assert NearestDouble(q, a, d);
    if key < TWO_TO_64 {
      assert d <= TWO_TO_31;
      ProductGrows(b + 1, d, TWO_TO_31);
      RoundedAtLeast(q, a, d, b + 1);
    } else {
      assert b * d <= a;
      RoundedAtLeast(q, a, d, b);
      StandingQuotient(q, b);
    }
  }

  lemma ProductGrows(x: nat, low: nat, high: nat)
    requires low <= high
    ensures x * low <= x * high
  {}

  /** The quotient by 2^31 + 1 stays below the next whole number, also rounded. */
  lemma StandingQuotient(q: real, b: nat)
    requires b < TWO_TO_31 && NearestDouble(q, Dividend(b), TWO_TO_31 + 1)
    ensures q < (b + 1) as real
  {
    var exact := Dividend(b) as real / (TWO_TO_31 + 1) as real;
    assert exact * (TWO_TO_31 + 1) as real == (b + 1) as real * TWO_TO_31 as real;
    assert (q - exact) * TWO_TO_53 as real <= exact;
    assert exact > 0.0;
    assert (b + 1) as real - exact == exact / TWO_TO_31 as real;
  }

  /** After the standing jump comes the key 1. */
  lemma AfterStanding()
    ensures NextKey(TWO_TO_64) == 1
  {
    assert (TWO_TO_64 * MULTIPLIER) % TWO_TO_64 == 0;
  }

  /** 1 unless the next jump is certain to leave a standing position. */
  function Standing(key: nat): nat { if key == TWO_TO_64 then 0 else 1 }

  lemma Progress(divide: Division, key: nat, j: nat)
    requires Rounds(divide) && j < TWO_TO_31
    ensures var k, j' := NextKey(key), Jump(divide, j, NextKey(key));
      j' > j || (j' == j && Standing(k) < Standing(key))
  {
    hide Rounds, NextKey, Jump;
    JumpAdvances(divide, j, NextKey(key));
    AfterStanding();
  }

  /** The last bucket reached before a jump leaves the range. */
  ghost function Bucket(divide: Division, key: nat, b: int, j: nat, buckets: nat): int
    requires Rounds(divide) && buckets <= TWO_TO_31
    decreases buckets - j, Standing(key)
  {
    if j >= buckets then b
    else
      Progress(divide, key, j);
      Bucket(divide, NextKey(key), j, Jump(divide, j, NextKey(key)), buckets)
  }

  ghost function GetBucketSpec(divide: Division, key: nat, buckets: nat): int
    requires Rounds(divide) && buckets <= TWO_TO_31
  {
    Bucket(divide, key, -1, 0, buckets)
  }

  class JumpConsistentHash {
    const divide: Division

    constructor (divide: Division)
      ensures this.divide == divide
    {
      this.divide := divide;
    }

    method GetBucket(key: nat, buckets: int) returns (r: int)
      requires Rounds(divide) && buckets <= TWO_TO_31
      ensures buckets > 0 ==> r == GetBucketSpec(divide, key, buckets) && 0 <= r < buckets
      ensures buckets <= 0 ==> r == -1
    {
      hide Rounds;
      var k: nat := key;
      var b: int := -1;
      var j: nat := 0;
      while j < buckets
        invariant buckets <= 0 ==> j == 0 && b == -1
        invariant buckets > 0 ==> Bucket(divide, k, b, j, buckets) == GetBucketSpec(divide, key, buckets)
        invariant j == 0 || 0 <= b < buckets
        decreases buckets - j, Standing(k)
      {
        Progress(divide, k, j);
        b := j;
        k := NextKey(k);
        j := Jump(divide, b, k);
      }
      r := b;
    }
  }

  lemma {:induction false} BucketInRange(divide: Division, key: nat, b: int, j: nat, buckets: nat)
    requires Rounds(divide) && buckets <= TWO_TO_31 && -1 <= b < buckets && (b >= 0 || j < buckets)
    ensures var r := Bucket(divide, key, b, j, buckets); 0 <= r < buckets && (r == b || r >= j)
    decreases buckets - j, Standing(key)
  {
    if j < buckets {
      hide Rounds;
      Progress(divide, key, j);
      BucketInRange(divide, NextKey(key), j, Jump(divide, j, NextKey(key)), buckets);
    }
  }

  /** Growing the number of buckets keeps a key where it is, or moves it to one of the added buckets. */
  lemma {:induction false} GrowingMovesForward(divide: Division, key: nat, b: int, j: nat, buckets: nat, more: nat)
    requires Rounds(divide) && buckets <= more <= TWO_TO_31 && -1 <= b < buckets && (b >= 0 || j < buckets)
    ensures var r := Bucket(divide, key, b, j, more);
      r == Bucket(divide, key, b, j, buckets) || buckets <= r < more
    decreases buckets - j, Standing(key)
  {
    if j < buckets {
      hide Rounds;
      Progress(divide, key, j);
      GrowingMovesForward(divide, NextKey(key), j, Jump(divide, j, NextKey(key)), buckets, more);
    } else {
      BucketInRange(divide, key, b, j, more);
    }
  }

  /** Keys move only into new buckets: for one bucket more, a key keeps its bucket or gets the added one. */
  lemma GetBucketIsConsistent(divide: Division, key: nat, buckets: nat, more: nat)
    requires Rounds(divide) && 1 <= buckets <= more <= TWO_TO_31
    ensures var before, after := GetBucketSpec(divide, key, buckets), GetBucketSpec(divide, key, more);
      && 0 <= before < buckets
      && (after == before || buckets <= after < more)
      && (more == buckets + 1 ==> after == before || after == buckets)
  {
    hide Rounds;
    BucketInRange(divide, key, -1, 0, buckets);
    GrowingMovesForward(divide, key, -1, 0, buckets, more);
  }

  /** Below 2^22 buckets every jump is that of whole numbers, whatever the rounding. */
  lemma JumpIsExact(divide: Division, b: nat, key: nat)
    requires Rounds(divide) && 1 <= key <= TWO_TO_64 && b + 1 < 0x40_0000
    ensures Jump(divide, b, key) == (b + 1) * TWO_TO_31 / (key / TWO_TO_33 + 1)
  {
    hide NearestDouble;
    var a, d := Dividend(b), key / TWO_TO_33 + 1;
    assert NearestDouble(divide(a, d), a, d);
    DoubleQuotientIsExact(divide(a, d), a, d);
  }

  // ----- the hash in whole numbers -----

  /** What multiplication by MULTIPLIER is undone by, modulo 2^64. */
  const INVERSE := 16133697096952638549

  /** No two keys below 2^64 have one successor: the sequences of different keys never meet. */
  lemma NextKeyIsOneToOne(key: nat, other: nat)
    requires key < TWO_TO_64 && other < TWO_TO_64
    ensures NextKey(key) == NextKey(other) <==> key == other
  {
    Undone(key);
    Undone(other);
  }

  lemma Undone(key: nat)
    requires key < TWO_TO_64
    ensures ((NextKey(key) - 1) * INVERSE) % TWO_TO_64 == key
  {
    var whole, rest := key * MULTIPLIER / TWO_TO_64, NextKey(key) - 1;
    assert MULTIPLIER * INVERSE == 1 + 2503948805982125087 * TWO_TO_64;
    assert rest == key * MULTIPLIER - whole * TWO_TO_64;
    var turns := key * 2503948805982125087 - whole * INVERSE;
    assert rest * INVERSE == key + turns * TWO_TO_64;
    Remainder(rest * INVERSE, turns, key);
  }

  lemma Remainder(x: nat, turns: int, r: nat)
    requires x == r + turns * TWO_TO_64 && r < TWO_TO_64
    ensures x % TWO_TO_64 == r
  {}

  function WholeJump(b: nat, key: nat): nat { (b + 1) * TWO_TO_31 / (key / TWO_TO_33 + 1) }

  lemma WholeProgress(key: nat, j: nat)
    requires j < TWO_TO_31
    ensures var k, j' := NextKey(key), WholeJump(j, NextKey(key));
      j' > j || (j' == j && Standing(k) < Standing(key))
  {
    hide NextKey;
    AfterStanding();
    WholeJumpAdvances(j, NextKey(key));
  }

  lemma WholeJumpAdvances(b: nat, key: nat)
    requires 1 <= key <= TWO_TO_64 && b < TWO_TO_31
    ensures if key < TWO_TO_64 then WholeJump(b, key) >= b + 1 else WholeJump(b, key) == b
  {
    var d := key / TWO_TO_33 + 1;
    if key < TWO_TO_64 {
      ProductGrows(b + 1, d, TWO_TO_31);
      QuotientAtLeast((b + 1) * TWO_TO_31, d, b + 1);
    } else {
      assert (b + 1) * TWO_TO_31 == b * d + (TWO_TO_31 - b);
      Quotient((b + 1) * TWO_TO_31, d, b);
    }
  }

  lemma QuotientAtLeast(a: nat, d: nat, n: nat)
    requires d > 0 && n * d <= a
    ensures a / d >= n
  {
    var q := a / d;
    WholeQuotient(a, d);
    NegativeFactor(n - q - 1, d);
  }

  lemma NegativeFactor(x: int, d: nat)
    ensures x * d < 0 ==> x < 0
  {}

  lemma Quotient(a: nat, d: nat, n: nat)
    requires d > 0 && n * d <= a < n * d + d
    ensures a / d == n
  {
    QuotientAtLeast(a, d, n);
    WholeQuotient(a, d);
    NegativeFactor(a / d - n - 1, d);
  }

  /** The same jumps, in whole numbers only. */
  function WholeBucket(key: nat, b: int, j: nat, buckets: nat): int
    requires buckets <= TWO_TO_31
    decreases buckets - j, Standing(key)
  {
    if j >= buckets then b
    else
      WholeProgress(key, j);
      WholeBucket(NextKey(key), j, WholeJump(j, NextKey(key)), buckets)
  }

  lemma {:induction false} BucketIsWhole(divide: Division, key: nat, b: int, j: nat, buckets: nat)
    requires Rounds(divide) && buckets < 0x40_0000
    ensures Bucket(divide, key, b, j, buckets) == WholeBucket(key, b, j, buckets)
    decreases buckets - j, Standing(key)
  {
    if j < buckets {
      hide Rounds, NextKey, Jump;
      Progress(divide, key, j);
      JumpIsExact(divide, j, NextKey(key));
      BucketIsWhole(divide, NextKey(key), j, Jump(divide, j, NextKey(key)), buckets);
    }
  }

  lemma OneJump(key: nat, b: int, j: nat, buckets: nat, key': nat, j': nat)
    requires j < buckets <= TWO_TO_31 && key' == NextKey(key) && j' == WholeJump(j, key')
    ensures WholeBucket(key, b, j, buckets) == WholeBucket(key', j, j', buckets)
    ensures j' >= buckets ==> WholeBucket(key, b, j, buckets) == j
  {}

  /** Some buckets under any division that rounds to nearest, as the tests of the hash have them. */
  lemma TestedBuckets(divide: Division)
    requires Rounds(divide)
    ensures GetBucketSpec(divide, 10863919174838991, 11) == 6
    ensures GetBucketSpec(divide, 2016238256797177309, 11) == 3
    ensures GetBucketSpec(divide, 1673758223894951030, 11) == 5
  {
    hide Rounds, WholeBucket, Bucket;
    BucketIsWhole(divide, 10863919174838991, -1, 0, 11);
    OneJump(10863919174838991, -1, 0, 11, 15338245430585482900, 1);
    OneJump(15338245430585482900, 0, 1, 11, 5933173489119344709, 6);
    OneJump(5933173489119344709, 1, 6, 11, 8788550385278913586, 14);
    BucketIsWhole(divide, 2016238256797177309, -1, 0, 11);
    OneJump(2016238256797177309, -1, 0, 11, 12903227573725907818, 1);
    OneJump(12903227573725907818, 0, 1, 11, 11844368311907542979, 3);
    OneJump(11844368311907542979, 1, 3, 11, 180926120691014584, 407);
    BucketIsWhole(divide, 1673758223894951030, -1, 0, 11);
    OneJump(1673758223894951030, -1, 0, 11, 17589054521876969631, 1);
    OneJump(17589054521876969631, 0, 1, 11, 12443334236689696036, 2);
    OneJump(12443334236689696036, 1, 2, 11, 10780278642648044693, 5);
    OneJump(10780278642648044693, 2, 5, 11, 2769203112368277314, 39);
  }
}
