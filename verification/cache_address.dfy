// Address arithmetic of the two-level cache: the 64-bit shifts of the source
// against plain division and remainder.
module CacheAddress {
  import opened Basics

  /** `addr_t`: an unsigned 64-bit integer. */
  type Addr = a: int | 0 <= a < Pow2(64) witness 0

  /** The cast of `log2` to an unsigned integer: the floor of the logarithm. */
  function Log2(n: nat): (r: nat)
    requires n >= 1
    ensures Pow2(r) <= n < Pow2(r + 1)
  {
    if n == 1 then 0 else Log2(n / 2) + 1
  }

  // 64-bit unsigned shifts; a shift by 64 or more is undefined in C.
  function ShiftLeft(a: Addr, k: nat): Addr
    requires k < 64
  {
    (a * Pow2(k)) % Pow2(64)
  }

  function ShiftRight(a: Addr, k: nat): (r: Addr)
    requires k < 64
  {
    DivWithin(a, Pow2(k));
    a / Pow2(k)
  }

  lemma DivWithin(a: nat, m: nat)
    requires m >= 1
    ensures 0 <= a / m <= a
  {
  }

  lemma {:induction false} Pow2Add(m: nat, n: nat)
    ensures Pow2(m + n) == Pow2(m) * Pow2(n)
  {
    if m == 0 {
    } else {
      Pow2Add(m - 1, n);
      calc {
        Pow2(m + n);
        2 * Pow2(m - 1 + n);
        2 * (Pow2(m - 1) * Pow2(n));
        (2 * Pow2(m - 1)) * Pow2(n);
      }
    }
  }

  lemma {:induction false} Pow2Monotone(m: nat, n: nat)
    requires m <= n
    ensures Pow2(m) <= Pow2(n)
  {
    if m < n {
      Pow2Monotone(m, n - 1);
    }
  }

  lemma ModScale(a: nat, m: nat, n: nat)
    requires m >= 1 && n >= 1
    ensures m * n >= 1
    ensures (a * m) % (m * n) == m * (a % n)
  {
    var q, r := a / n, a % n;
    assert m * n >= 1 by { assert m * n >= m * 1; }
    assert m * r < m * n;
    assert 0 <= m * r;
    assert a * m == q * (m * n) + m * r by {
      calc {
        a * m;
        (q * n + r) * m;
        (q * n) * m + r * m;
        q * (n * m) + m * r;
        q * (m * n) + m * r;
      }
    }
    DivisionUnique(a * m, m * n, q, m * r);
  }

  /** Shifting left and then right by k keeps exactly the low 64 - k bits. */
  lemma ShiftPairIsMod(a: Addr, k: nat)
    requires k < 64
    ensures ShiftRight(ShiftLeft(a, k), k) == a % Pow2(64 - k)
  {
    var m, n := Pow2(k), Pow2(64 - k);
    Pow2Add(k, 64 - k);
    ModScale(a, m, n);
    DivisionUnique(m * (a % n), m, a % n, 0);
  }

  /** The digits of a below m * n. */
  function Low(a: nat, m: nat, n: nat): int
    requires m >= 1 && n >= 1
  {
    ((a / m) % n) * m + a % m
  }

  lemma LowDigits(a: nat, m: nat, n: nat)
    requires m >= 1 && n >= 1
    ensures 0 <= Low(a, m, n) < m * n
    ensures a == ((a / m) / n) * (m * n) + Low(a, m, n)
  {
    var q, r := a / m, a % m;
    MulMonotone(0, q % n, m);
    MulMonotone(q % n, n - 1, m);
    Regroup(q / n, n, m, q % n, r);
  }

  /** Dividing by m, then by n, against dividing once by m * n. */
  lemma DivDiv(a: nat, m: nat, n: nat)
    requires m >= 1 && n >= 1
    ensures m * n >= 1
    ensures (a / m) / n == a / (m * n)
    ensures a % (m * n) == Low(a, m, n)
  {
    LowDigits(a, m, n);
    DivisionUnique(a, m * n, (a / m) / n, Low(a, m, n));
  }

  lemma ModDiv(a: nat, m: nat, n: nat)
    requires m >= 1 && n >= 1
    ensures m * n >= 1
    ensures (a % (m * n)) / m == (a / m) % n
  {
    DivDiv(a, m, n);
    DivisionUnique(Low(a, m, n), m, (a / m) % n, a % m);
  }

  lemma Regroup(q: int, n: int, m: int, r': int, r: int)
    ensures (q * n + r') * m + r == q * (m * n) + (r' * m + r)
  {
  }

  // ---- Geometry -------------------------------------------------------------

  /** What the initialisation derives from block size, cache size and ways. */
  datatype Geometry = Geometry(offsetBits: nat, indexBits: nat, sets: nat, ways: nat) {
    /** Shifts stay below 64 bits, `ways` fits the 128 slots, every index has a set. */
    ghost predicate Valid() {
      && 1 <= offsetBits + indexBits < 64
      && 1 <= ways <= 128
      && Pow2(indexBits) <= sets
    }

    function Tag(a: Addr): (t: int)
      requires Valid()
    {
      ShiftRight(a, indexBits + offsetBits)
    }

    /** The set index, with the two opposite shifts of the source. */
    function Index(a: Addr): int
      requires Valid()
    {
      var tagBits := 64 - indexBits - offsetBits;
      var inSet := ShiftRight(ShiftLeft(a, tagBits), tagBits);
      ShiftRight(inSet, offsetBits)
    }
  }

  /** The arguments are C ints; the one-byte, one-set geometry would shift by 64. */
  ghost predicate ValidArguments(blockSize: int, cacheSize: int, ways: int) {
    && 1 <= blockSize && 1 <= ways <= 128
    && blockSize * ways <= cacheSize < Pow2(31)
    && (blockSize >= 2 || cacheSize / (blockSize * ways) >= 2)
  }

  function MakeGeometry(blockSize: int, cacheSize: int, ways: int): (g: Geometry)
    requires ValidArguments(blockSize, cacheSize, ways)
    ensures g.Valid() && g.ways == ways
  {
    ArgumentsGiveShifts(blockSize, cacheSize, ways);
    var sets := cacheSize / (blockSize * ways);
    Geometry(Log2(blockSize), Log2(sets), sets, ways)
  }

  /** The sets fill the cache but for less than one more of them; both bit counts are floors of
      logarithms. */
  lemma GeometryMeaning(blockSize: int, cacheSize: int, ways: int)
    requires ValidArguments(blockSize, cacheSize, ways)
    ensures var g := MakeGeometry(blockSize, cacheSize, ways);
      && g.sets * (ways * blockSize) <= cacheSize < (g.sets + 1) * (ways * blockSize)
      && Pow2(g.offsetBits) <= blockSize < Pow2(g.offsetBits + 1)
      && Pow2(g.indexBits) <= g.sets < Pow2(g.indexBits + 1)
  {
    ArgumentsGiveShifts(blockSize, cacheSize, ways);
    var line := blockSize * ways;
    assert line == ways * blockSize;
    QuotientFits(cacheSize, line, cacheSize / line);
  }

  lemma QuotientFits(a: nat, m: nat, q: nat)
    requires m >= 1 && q == a / m
    ensures q * m <= a < (q + 1) * m
  {
    assert a == q * m + a % m;
  }

  /** Two powers of two below the factors of a number below 2^31 have exponents summing below 31. */
  lemma ExponentsFit(a: nat, b: nat, k: nat, l: nat)
    requires Pow2(k) <= a && Pow2(l) <= b && a * b < Pow2(31)
    ensures k + l < 31
  {
    MulMonotone(Pow2(k), a, Pow2(l));
    MulMonotone(Pow2(l), b, a);
    Pow2Add(k, l);
    Pow2Below(k + l, 31);
  }

  lemma ArgumentsGiveShifts(blockSize: int, cacheSize: int, ways: int)
    requires ValidArguments(blockSize, cacheSize, ways)
    ensures blockSize * ways >= 1 && cacheSize / (blockSize * ways) >= 1
    ensures 1 <= Log2(blockSize) + Log2(cacheSize / (blockSize * ways)) < 64
  {
    MulMonotone(1, ways, blockSize);
    var line := blockSize * ways;
    QuotientPositive(cacheSize, line);
    var sets := cacheSize / line;
    MulMonotone(blockSize, line, sets);
    ExponentsFit(blockSize, sets, Log2(blockSize), Log2(sets));
    assert Pow2(0 + 1) == 2;
  }

  lemma QuotientPositive(a: int, m: int)
    requires 1 <= m <= a
    ensures a / m >= 1 && (a / m) * m <= a
  {
    MulMonotone(1, a / m, m);
  }

  lemma {:induction false} Pow2Below(k: nat, n: nat)
    requires Pow2(k) < Pow2(n)
    ensures k < n
  {
    if n <= k {
      Pow2Monotone(n, k);
    }
  }

  // ---- What the split means --------------------------------------------------

  /** Tag, index and offset are the quotient, the middle digits and the remainder. */
  lemma SplitIsDivMod(g: Geometry, a: Addr)
    requires g.Valid()
    ensures g.Index(a) == (a / Pow2(g.offsetBits)) % Pow2(g.indexBits)
    ensures g.Tag(a) == (a / Pow2(g.offsetBits)) / Pow2(g.indexBits)
    ensures 0 <= g.Index(a) < g.sets
    ensures 0 <= g.Tag(a) < Pow2(64) - 1
  {
    var m, n := Pow2(g.offsetBits), Pow2(g.indexBits);
    ShiftPairIsMod(a, 64 - g.indexBits - g.offsetBits);
    Pow2Add(g.offsetBits, g.indexBits);
    DivDiv(a, m, n);
    ModDiv(a, m, n);
    Pow2Monotone(1, g.offsetBits + g.indexBits);
    assert Pow2(1) == 2;
    assert g.Tag(a) == a / (m * n);
    assert a / (m * n) <= a / 2 by {
      DivAntitone(a, 2, m * n);
    }
  }

  lemma DivAntitone(a: nat, m: nat, n: nat)
    requires 1 <= m <= n
    ensures a / n <= a / m
  {
    MulMonotone(m, n, a / n);
    assert (a / n) * m <= a;
    QuotientAtLeast(a, m, a / n);
  }

  lemma QuotientAtLeast(a: nat, m: nat, q: nat)
    requires m >= 1 && q * m <= a
    ensures q <= a / m
  {
    var p := a / m;
    if p + 1 <= q {
      MulMonotone(p + 1, q, m);
    }
  }

  /** Two-level digits: b and o are the digits of a exactly when they rebuild it. */
  lemma DigitsRebuild(a: nat, m: nat, b: int, o: nat)
    requires m >= 1 && o < m
    ensures a == b * m + o <==> b == a / m && o == a % m
  {
    if a == b * m + o {
      DivisionUnique(a, m, b, o);
    }
  }

  lemma ThreeDigitsRebuild(a: nat, m: nat, n: nat, t: nat, i: nat, o: nat)
    requires m >= 1 && o < m && n >= 1 && i < n
    ensures a == (t * n + i) * m + o <==> t == a / m / n && i == (a / m) % n && o == a % m
  {
    DigitsRebuild(a, m, t * n + i, o);
    DigitsRebuild(a / m, n, t, i);
  }

  function Rebuild(g: Geometry, tag: int, index: int, offset: int): int {
    (tag * Pow2(g.indexBits) + index) * Pow2(g.offsetBits) + offset
  }

  /** Tag, index and offset rebuild the address, and no other triple does. */
  lemma SplitRebuilds(g: Geometry, a: Addr, t: nat, i: nat, o: nat)
    requires g.Valid()
    requires i < Pow2(g.indexBits) && o < Pow2(g.offsetBits)
    ensures a == Rebuild(g, t, i, o) <==> t == g.Tag(a) && i == g.Index(a) && o == a % Pow2(g.offsetBits)
  {
    SplitIsDivMod(g, a);
    ThreeDigitsRebuild(a, Pow2(g.offsetBits), Pow2(g.indexBits), t, i, o);
  }
}
