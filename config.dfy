/**
 * Machine widths and the build-time constants of the paging engine.
 *
 * The page size, the size of a page-table entry, the simulated physical
 * memory size and the virtual address-space size are compile-time macros of
 * the engine's header. Here they are the fields of a `Config`, each written
 * as a shift so that every size is a power of two by construction, and
 * `Config.Valid` collects what the engine silently relies on.
 */
module VmConfig {

  const U32: nat := 0x1_0000_0000
  const U64: nat := 0x1_0000_0000_0000_0000
  const INT_MAX: int := 0x7FFF_FFFF

  /** C `unsigned int`, a 64-bit pointer value, and C `int`. */
  type u32 = x: nat | x < U32
  type u64 = x: nat | x < U64
  type i32 = x: int | -0x8000_0000 <= x <= 0x7FFF_FFFF

  /** Division and remainder of naturals, kept apart so that their ranges are proved once. */
  function Quotient(x: nat, n: nat): nat
    requires n > 0
  {
    x / n
  }

  function Remainder(x: nat, n: nat): (r: nat)
    requires n > 0
    ensures r < n
  {
    x % n
  }

  /** The null pointer. */
  const NULL: nat := 0

  function Pow2(k: nat): (r: nat)
    ensures r >= 1
  {
    if k == 0 then 1 else 2 * Pow2(k - 1)
  }

  /**
   * The page geometry. `pageShift` is log2(PGSIZE), `pteShift` is
   * log2(sizeof(pte_t)), `memShift` is log2(MEMSIZE) and `maxMemShift` is
   * log2(MAX_MEMSIZE).
   */
  datatype Config = Config(pageShift: nat, pteShift: nat, memShift: nat, maxMemShift: nat)
  {
    function PgSize(): nat { Pow2(pageShift) }
    function PteSize(): nat { Pow2(pteShift) }
    function MemSize(): nat { Pow2(memShift) }
    function MaxMemSize(): nat { Pow2(maxMemShift) }

    /** PHYSICAL_BITMAP_SIZE, MEMSIZE / PGSIZE: one entry per physical frame. */
    function PhysicalBitmapSize(): nat
      requires Valid()
    { Pow2(memShift - pageShift) }

    /** VIRTUAL_BITMAP_SIZE, MAX_MEMSIZE / PGSIZE: one entry per virtual page. */
    function VirtualBitmapSize(): nat
      requires Valid()
    { Pow2(maxMemShift - pageShift) }

    /** PAGE_TABLE_SIZE, PGSIZE / sizeof(pte_t): the number of entries that fit on a page. */
    function PageTableSize(): nat
      requires Valid()
    { Pow2(pageShift - pteShift) }

    /** PAGE_DIRECTORY_SIZE, defined equal to PAGE_TABLE_SIZE. */
    function PageDirectorySize(): nat
      requires Valid()
    { PageTableSize() }

    /** The number of distinct frame numbers a 32-bit address holds, 2^32 / PGSIZE. */
    function AddressableFrames(): nat
      requires Valid()
    { Pow2(32 - pageShift) }

    /**
     * An entry fits in a page, a page fits in either memory, virtual
     * addresses fit the `unsigned int` that translation casts them to, the
     * `int` loop counters over the bitmaps do not overflow, and the page
     * directory's frames fit in physical memory
     * (PAGE_DIRECTORY_SIZE <= PHYSICAL_BITMAP_SIZE, in shifts).
     */
    predicate Valid()
    {
      && pteShift <= pageShift <= memShift
      && pageShift <= maxMemShift <= 32
      && memShift - pageShift < 31
      && maxMemShift - pageShift < 31
      && pageShift - pteShift <= memShift - pageShift
    }
  }

  lemma {:induction false} Pow2Add(a: nat, b: nat)
    ensures Pow2(a + b) == Pow2(a) * Pow2(b)
  {
    if a > 0 {
      Pow2Add(a - 1, b);
      assert Pow2(a + b) == 2 * Pow2(a - 1 + b);
    }
  }

  lemma {:induction false} Pow2Monotone(a: nat, b: nat)
    requires a <= b
    ensures Pow2(a) <= Pow2(b)
  {
    if a < b {
      Pow2Monotone(a, b - 1);
    }
  }

  /** The quotient and remainder of a division are the only pair that fits. */
  lemma DivModUnique(x: int, m: int, q: int, r: int)
    requires m > 0 && 0 <= r < m && x == q * m + r
    ensures x / m == q && x % m == r
  {
    var q', r' := x / m, x % m;
    assert x == q' * m + r';
    MulSub(q, q', m);
    if q > q' {
      MulAtLeast(q - q', m);
    } else if q < q' {
      MulSub(q', q, m);
      MulAtLeast(q' - q, m);
    }
  }

  lemma MulSub(a: int, b: int, m: int)
    ensures (a - b) * m == a * m - b * m
  {
  }

  lemma MulAtLeast(a: int, m: int)
    requires a >= 1 && m >= 0
    ensures a * m >= m
  {
    assert a * m == (a - 1) * m + m;
  }

  /** (x mod (m * n)) keeps the residue of x modulo n. */
  lemma ModOfMultipleMod(x: int, n: int, m: int)
    requires n > 0 && m > 0
    ensures (x % (m * n)) % n == x % n
  {
    var k, low := x / (m * n), x % (m * n);
    assert x == k * (m * n) + low;
    var q, r := low / n, low % n;
    assert low == q * n + r;
    assert x == (k * m + q) * n + r by {
      assert k * (m * n) == (k * m) * n;
      MulAdd(k * m, q, n);
    }
    DivModUnique(x, n, k * m + q, r);
  }

  /** A number is its quotient times the divisor plus its remainder. */
  lemma DivModRebuild(x: int, n: int)
    requires n > 0
    ensures x == (x / n) * n + x % n && 0 <= x % n < n
  {
  }

  /** One more than the quotient, times the divisor, exceeds the dividend. */
  lemma QuotientPlusOneCovers(x: int, n: int)
    requires n > 0
    ensures (x / n + 1) * n > x
  {
    DivModRebuild(x, n);
    MulAdd(x / n, 1, n);
  }

  /** Two divisions in a row split `x` into three digits that rebuild it. */
  lemma TwoLevelSplit(x: nat, n: nat, t: nat)
    requires n > 0 && t > 0
    ensures (x / n / t) * t + (x / n) % t == x / n
    ensures ((x / n / t) * t + (x / n) % t) * n + x % n == x
  {
    DivModRebuild(x, n);
    DivModRebuild(x / n, t);
  }

  /** A number below `a * n` has a quotient by `n` below `a`. */
  lemma QuotientBelow(x: nat, a: nat, n: nat)
    requires n > 0 && x < a * n
    ensures x / n < a
  {
    DivModRebuild(x, n);
    if x / n >= a {
      MulMonotone(a, x / n, n);
    }
  }

  lemma MulAdd(a: int, b: int, n: int)
    ensures (a + b) * n == a * n + b * n
  {
  }

  /**
   * Reducing `frame * n + off` modulo `m * n` keeps `off` and reduces the
   * frame modulo `m`.
   */
  lemma WrapSplit(frame: nat, off: nat, n: nat, m: nat)
    requires n > 0 && m > 0 && off < n
    ensures ((frame * n + off) % (m * n)) % n == off
    ensures ((frame * n + off) % (m * n)) / n == frame % m
  {
    var q, low := frame / m, frame % m;
    assert frame == q * m + low;
    var x := frame * n + off;
    var pa := low * n + off;
    assert x == q * (m * n) + pa by {
      MulAdd(q * m, low, n);
      assert (q * m) * n == q * (m * n);
    }
    assert pa < m * n by {
      assert low + 1 <= m;
      MulMonotone(low + 1, m, n);
      MulAdd(low, 1, n);
    }
    DivModUnique(x, m * n, q, pa);
    DivModUnique(pa, n, low, off);
  }

  lemma MulMonotone(a: nat, b: nat, c: nat)
    requires a <= b
    ensures a * c <= b * c
  {
  }

  lemma Pow2Div(a: nat, b: nat)
    requires b <= a
    ensures Pow2(a) % Pow2(b) == 0
    ensures Pow2(a) / Pow2(b) == Pow2(a - b)
  {
    Pow2Add(a - b, b);
    DivModUnique(Pow2(a), Pow2(b), Pow2(a - b), 0);
  }

  lemma Pow2Of32()
    ensures Pow2(32) == U32
  {
    assert Pow2(2) == 4;
    Pow2Add(2, 2);
    Pow2Add(4, 4);
    Pow2Add(8, 8);
    Pow2Add(16, 16);
  }

  lemma Pow2Of31()
    ensures Pow2(31) == INT_MAX + 1
  {
    Pow2Of32();
  }

  /** On a valid configuration each size above is the quotient the C macros compute. */
  lemma SizesAreQuotients(cfg: Config)
    requires cfg.Valid()
    ensures cfg.PhysicalBitmapSize() == cfg.MemSize() / cfg.PgSize()
    ensures cfg.VirtualBitmapSize() == cfg.MaxMemSize() / cfg.PgSize()
    ensures cfg.PageTableSize() == cfg.PgSize() / cfg.PteSize()
    ensures cfg.AddressableFrames() == U32 / cfg.PgSize()
  {
    Pow2Div(cfg.memShift, cfg.pageShift);
    Pow2Div(cfg.maxMemShift, cfg.pageShift);
    Pow2Div(cfg.pageShift, cfg.pteShift);
    Pow2Div(32, cfg.pageShift);
    Pow2Of32();
  }

  /** A page divides the 32-bit address space evenly. */
  lemma PageSizeFacts(cfg: Config)
    requires cfg.Valid()
    ensures cfg.PgSize() <= U32
    ensures cfg.AddressableFrames() * cfg.PgSize() == U32
    ensures cfg.AddressableFrames() <= U32
  {
    Pow2Of32();
    Pow2Monotone(cfg.pageShift, 32);
    Pow2Add(32 - cfg.pageShift, cfg.pageShift);
    Pow2Monotone(32 - cfg.pageShift, 32);
  }

  /** The bitmaps are indexed by `int` counters and hold the page directory's frames. */
  lemma BitmapSizeFacts(cfg: Config)
    requires cfg.Valid()
    ensures cfg.VirtualBitmapSize() <= INT_MAX
    ensures cfg.PhysicalBitmapSize() <= INT_MAX
    ensures cfg.PageDirectorySize() <= cfg.PhysicalBitmapSize()
  {
    Pow2Monotone(cfg.memShift - cfg.pageShift, 30);
    Pow2Monotone(cfg.maxMemShift - cfg.pageShift, 30);
    Pow2Monotone(cfg.pageShift - cfg.pteShift, cfg.memShift - cfg.pageShift);
    Pow2Of31();
  }
}
