/** Compression of amounts: trailing decimal zeros are counted off. */
module Amount {

  const MAX_MONEY := 21_000_000 * 100_000_000
  const UINT64 := 0x1_0000_0000_0000_0000

  function Wrap(n: nat): nat {
    n % UINT64
  }

  function Pow10(e: nat): (p: nat)
    ensures p >= 1
  {
    if e == 0 then 1 else 10 * Pow10(e - 1)
  }

  // n without up to 9 - e more of its trailing zeros, and e plus their number.
  function Strip(n: nat, e: nat): (r: (nat, nat))
    requires n > 0 && e <= 9
    ensures r.0 > 0 && e <= r.1 <= 9
    ensures r.1 < 9 ==> r.0 % 10 != 0
    decreases 9 - e
  {
    if n % 10 == 0 && e < 9 then Strip(n / 10, e + 1) else (n, e)
  }

  function Compress(n: nat): nat {
    if n == 0 then 0
    else
      var (m, e) := Strip(n, 0);
      Joined(m, e)
  }

  // One number for a stripped amount and its number of zeros.
  function Joined(m: nat, e: nat): nat
    requires m > 0 && e <= 9 && (e < 9 ==> m % 10 != 0)
  {
    if e < 9 then 1 + (m / 10 * 9 + m % 10 - 1) * 10 + e else 1 + (m - 1) * 10 + 9
  }

  // The stripped amount and the number of zeros that x > 0 stands for.
  function Parts(x: nat): (r: (nat, nat))
    requires x > 0
    ensures r.0 > 0 && r.1 <= 9
    ensures r.1 < 9 ==> r.0 % 10 != 0
  {
    var e, y := (x - 1) % 10, (x - 1) / 10;
    if e < 9 then (y / 9 * 10 + y % 9 + 1, e) else (y + 1, e)
  }

  function Decompress(x: nat): nat {
    if x == 0 then 0 else Parts(x).0 * Pow10(Parts(x).1)
  }

  lemma TenTimes(m: nat, p: nat)
    ensures m * (10 * p) == 10 * m * p == 10 * (m * p)
    ensures m > 0 && p > 0 ==> m * p > 0
  {
  }

  lemma {:induction false} StripIsDivision(n: nat, e: nat)
    requires n > 0 && e <= 9
    ensures Strip(n, e).0 * Pow10(Strip(n, e).1) == n * Pow10(e)
    decreases 9 - e
  {
    if n % 10 == 0 && e < 9 {
      StripIsDivision(n / 10, e + 1);
      TenTimes(n / 10, Pow10(e));
    }
  }

  lemma StripOnce(p: nat, e: nat)
    requires p > 0 && e < 9
    ensures Strip(10 * p, e) == Strip(p, e + 1)
  {
  }

  lemma StripStops(m: nat, e: nat)
    requires m > 0 && e <= 9 && (e < 9 ==> m % 10 != 0)
    ensures Strip(m, e) == (m, e) && m * Pow10(0) == m
  {
  }

  lemma OneMoreZero(m: nat, k: nat)
    requires m > 0 && k > 0
    ensures m * Pow10(k) == 10 * (m * Pow10(k - 1)) > 0
  {
    TenTimes(m, Pow10(k - 1));
  }

  // Zeros that were counted are found again.
  lemma {:induction false} StripFindsZeros(m: nat, k: nat, e: nat)
    requires m > 0 && e + k <= 9 && (e + k < 9 ==> m % 10 != 0)
    ensures m * Pow10(k) > 0 && Strip(m * Pow10(k), e) == (m, e + k)
    decreases k
  {
    hide Pow10, Strip;
    if k > 0 {
      OneMoreZero(m, k);
      StripFindsZeros(m, k - 1, e + 1);
      StripOnce(m * Pow10(k - 1), e);
    } else {
      StripStops(m, e);
    }
  }

  lemma PartsOfJoined(m: nat, e: nat)
    requires m > 0 && e <= 9 && (e < 9 ==> m % 10 != 0)
    ensures Joined(m, e) > 0 && Parts(Joined(m, e)) == (m, e)
  {
    if e < 9 {
      var q, d := m / 10, m % 10;
      var y := q * 9 + d - 1;
      assert y / 9 == q && y % 9 == d - 1;
      assert (y * 10 + e) % 10 == e && (y * 10 + e) / 10 == y;
    }
  }

  lemma JoinedParts(x: nat)
    requires x > 0
    ensures Joined(Parts(x).0, Parts(x).1) == x
  {
    var e, y := (x - 1) % 10, (x - 1) / 10;
    assert x - 1 == y * 10 + e;
    if e < 9 {
      var q, d := y / 9, y % 9;
      assert (q * 10 + d + 1) / 10 == q && (q * 10 + d + 1) % 10 == d + 1;
    }
  }

  lemma NoZeros()
    ensures Pow10(0) == 1
  {
  }

  lemma WrapMultiple(k: nat, n: nat)
    ensures Wrap(k * UINT64 + n) == Wrap(n)
  {
  }

  // Multiplying after a wrap-around wraps to the same.
  lemma WrapTimes(n: nat, p: nat)
    ensures Wrap(Wrap(n) * p) == Wrap(n * p)
  {
    var k, r := n / UINT64, Wrap(n);
    assert n == k * UINT64 + r;
    assert n * p == k * p * UINT64 + r * p;
    WrapMultiple(k * p, r * p);
  }

  lemma OneZeroLess(n: nat, e: nat)
    requires e > 0
    ensures Wrap(Wrap(n * 10) * Pow10(e - 1)) == Wrap(n * Pow10(e))
  {
    WrapTimes(n * 10, Pow10(e - 1));
    TenTimes(n, Pow10(e - 1));
  }

  lemma DecompressCompress(n: nat)
    ensures Decompress(Compress(n)) == n
  {
    hide Strip, Parts, Joined;
    if n > 0 {
      var (m, e) := Strip(n, 0);
      PartsOfJoined(m, e);
      StripIsDivision(n, 0);
    }
  }

  lemma CompressDecompress(x: nat)
    ensures Compress(Decompress(x)) == x
  {
    hide Strip, Parts, Joined, Pow10;
    if x > 0 {
      var (m, e) := Parts(x);
      StripFindsZeros(m, e, 0);
      JoinedParts(x);
    }
  }

  // The greatest amount without a trailing zero that is compressed without a wrap-around.
  // ---------- The layout ----------

  // Nine times what stands before the last digit that is not 0, that digit less one, and
  // the number of zeros after it.
  lemma CompressedLayout(q: nat, d: nat, e: nat)
    requires 1 <= d <= 9 && e < 9
    ensures Compress((10 * q + d) * Pow10(e)) == 1 + 10 * (9 * q + d - 1) + e
  {
    hide Strip, Pow10;
    var m := 10 * q + d;
    assert m % 10 == d && m / 10 == q;
    StripFindsZeros(m, e, 0);
  }

  // Nine zeros or more: what stands before the nine, less one.
  lemma CompressedLong(m: nat)
    requires m > 0
    ensures Compress(m * Pow10(9)) == 10 * m
  {
    hide Strip, Pow10;
    StripFindsZeros(m, 9, 0);
  }

  lemma Powers()
    ensures Pow10(0) == 1 && Pow10(6) == 1_000_000 && Pow10(8) == 100_000_000 && Pow10(9) == 1_000_000_000
  {
    assert Pow10(3) == 1_000;
  }

  // A hundredth of a coin, a coin, fifty of them, and all there are.
  lemma SomeAmounts()
    ensures Compress(0) == 0 && Compress(1) == 1
    ensures Compress(1_000_000) == 7 && Compress(100_000_000) == 9
    ensures Compress(5_000_000_000) == 50 && Compress(2_100_000_000_000_000) == 21_000_000
  {
    hide Strip, Pow10;
    Powers();
    CompressedLayout(0, 1, 0);
    CompressedLayout(0, 1, 6);
    CompressedLayout(0, 1, 8);
    CompressedLong(5);
    CompressedLong(2_100_000);
  }

  const LAST_UNWRAPPED := 2_049_638_230_412_172_402

  // Which 64-bit numbers have a 64-bit compression.
  predicate Fits(n: nat) {
    n % 10 == 0 || n <= LAST_UNWRAPPED
  }

  lemma {:induction false} StripShrinks(n: nat, e: nat)
    requires n > 0 && e <= 9
    ensures Strip(n, e).0 <= n
    decreases 9 - e
  {
    if n % 10 == 0 && e < 9 {
      StripShrinks(n / 10, e + 1);
    }
  }

  lemma CompressFits(n: nat)
    requires n < UINT64
    ensures Compress(n) < UINT64 <==> Fits(n)
  {
    if n == 0 {
    } else if n % 10 == 0 {
      StripShrinks(n / 10, 1);
      JoinedIsSmall(Strip(n, 0).0, Strip(n, 0).1);
    } else {
      assert Strip(n, 0) == (n, 0);
    }
  }

  lemma FirstWrapped()
    ensures LAST_UNWRAPPED + 1 < UINT64 <= Compress(LAST_UNWRAPPED + 1)
  {
    CompressFits(LAST_UNWRAPPED + 1);
  }

  // The same for decompression: what is left must not exceed what its zeros leave room for.
  lemma DecompressFits(x: nat)
    requires x > 0
    ensures Decompress(x) < UINT64 <==> Parts(x).0 <= (UINT64 - 1) / Pow10(Parts(x).1)
  {
    hide Parts, Pow10;
    DivisionBound(Parts(x).0, Pow10(Parts(x).1), UINT64 - 1);
  }

  lemma DivisionBound(m: nat, p: nat, k: nat)
    requires p > 0
    ensures m * p <= k <==> m <= k / p
  {
    var q := k / p;
    assert q * p <= k < q * p + p;
    if m <= q {
      assert m * p <= q * p;
    } else {
      assert m * p >= (q + 1) * p == q * p + p;
    }
  }

  // Arithmetic on uint64_t.  Money amounts are compressed without a wrap-around.
  method CompressAmount(amount: nat) returns (x: nat)
    requires amount < UINT64
    ensures x == Wrap(Compress(amount)) < UINT64
    ensures x == Compress(amount) <==> Fits(amount)
    ensures amount <= MAX_MONEY ==> x == Compress(amount)
  {
    CompressFits(amount);
    if amount == 0 {
      return 0;
    }
    var n, e := amount, 0;
    while n % 10 == 0 && e < 9
      invariant n > 0 && 0 <= e <= 9 && n <= amount && Strip(n, e) == Strip(amount, 0)
      invariant e > 0 ==> 10 * n <= amount
      decreases 9 - e
    {
      n := n / 10;
      e := e + 1;
    }
    JoinedIsSmall(n, e);
    x := JoinParts(n, e);
  }

  lemma JoinedIsSmall(m: nat, e: nat)
    requires m > 0 && e <= 9 && (e < 9 ==> m % 10 != 0)
    ensures Joined(m, e) <= 10 * m
  {
  }

  lemma WrapSum(n: nat, k: nat)
    ensures Wrap(Wrap(n) + k) == Wrap(n + k)
  {
  }

  lemma NoWrap(n: nat)
    ensures n < UINT64 ==> Wrap(n) == n
  {
  }

  // Only the factor 10 can make it wrap around.
  method JoinParts(m: nat, e: nat) returns (x: nat)
    requires 0 < m < UINT64 && e <= 9 && (e < 9 ==> m % 10 != 0)
    requires e == 9 ==> 10 * m < UINT64
    ensures x == Wrap(Joined(m, e))
    ensures Joined(m, e) < UINT64 ==> x == Joined(m, e)
  {
    hide Wrap;
    var n := m;
    if e < 9 {
      var d := n % 10;
      n := n / 10;
      assert n * 9 + d - 1 < UINT64;
      WrapSum((n * 9 + d - 1) * 10, 1 + e);
      x := Wrap(Wrap((n * 9 + d - 1) * 10) + (1 + e));
      NoWrap(Joined(m, e));
    } else {
      NoWrap(Joined(m, e));
      x := 1 + (n - 1) * 10 + 9;
    }
  }

  method DecompressAmount(compressed: nat) returns (n: nat)
    requires compressed < UINT64
    ensures n == Wrap(Decompress(compressed))
    ensures Decompress(compressed) < UINT64 ==> n == Decompress(compressed)
  {
    hide Pow10, Strip, Parts, Wrap;
    NoZeros();
    NoWrap(Decompress(compressed));
    if compressed == 0 {
      return 0;
    }
    var e;
    n, e := TakeApart(compressed);
    while e > 0
      invariant 0 <= e <= 9 && n < UINT64 && Wrap(n * Pow10(e)) == Wrap(Decompress(compressed))
    {
      OneZeroLess(n, e);
      WrapIsSmall(n * 10);
      n := Wrap(n * 10);
      e := e - 1;
    }
    NoWrap(n);
  }

  lemma WrapIsSmall(n: nat)
    ensures Wrap(n) < UINT64
  {
  }

  method TakeApart(compressed: nat) returns (n: nat, e: nat)
    requires 0 < compressed < UINT64
    ensures (n, e) == Parts(compressed) && n < UINT64
  {
    var x := compressed - 1;
    e := x % 10;
    x := x / 10;
    if e < 9 {
      var d := x % 9 + 1;
      x := x / 9;
      n := x * 10 + d;
    } else {
      n := x + 1;
    }
  }
}
