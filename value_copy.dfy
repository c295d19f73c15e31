/**
 * The control skeleton of `put_value(va, val, size)`: reject a NULL address,
 * count the pages the value spans, and walk them in order, giving up with -1
 * at the first page whose translation fails. The byte copy itself is not
 * modelled; `pagesCopied` counts the pages that would have been copied.
 */
module ValueCopy {
  import opened VmConfig
  import opened PageWalk

  /** C division of `int`s, which truncates toward zero. */
  function CDiv(a: int, b: int): int
    requires b > 0
  {
    if a >= 0 then a / b else -((-a) / b)
  }

  /** C `%` of `int`s: the remainder takes the sign of the dividend. */
  function CRem(a: int, b: int): int
    requires b > 0
  {
    a - b * CDiv(a, b)
  }

  /** `num_pages = (size / PGSIZE) + ((size % PGSIZE) != 0)` for a page size `pg`. */
  function PagesSpanned(size: int, pg: int): int
    requires pg > 0
  {
    CDiv(size, pg) + if CRem(size, pg) != 0 then 1 else 0
  }

  /** `num_pages` for the configured page size. */
  function NumPages(cfg: Config, size: i32): int
    requires cfg.Valid()
  {
    PagesSpanned(size, cfg.PgSize())
  }

  /**
   * For a non-negative size the page count is the ceiling of size / PGSIZE
   * (so a size of 0 visits no page); a negative size above -PGSIZE still
   * counts one page, and any other negative size counts none.
   */
  lemma NumPagesIsCeiling(cfg: Config, size: i32)
    requires cfg.Valid()
    ensures var n, pg := NumPages(cfg, size), cfg.PgSize() as int;
            && (size >= 0 ==> n >= 0 && size <= n * pg < size + pg)
            && (size == 0 ==> n == 0)
            && (size < 0 ==> n <= 1 && (n == 1 <==> -pg < size))
  {
    PagesOfNonNegative(size, cfg.PgSize());
    PagesOfNegative(size, cfg.PgSize());
  }

  lemma PagesOfNonNegative(size: int, pg: int)
    requires pg > 0
    ensures var n := PagesSpanned(size, pg);
            size >= 0 ==> n >= 0 && size <= n * pg < size + pg
  {
    if size >= 0 {
      DivModRebuild(size, pg);
      assert CRem(size, pg) == size % pg;
      MulAdd(size / pg, 1, pg);
    }
  }

  lemma PagesOfNegative(size: int, pg: int)
    requires pg > 0
    ensures var n := PagesSpanned(size, pg);
            size < 0 ==> n <= 1 && (n == 1 <==> -pg < size)
  {
    if size < 0 {
      var m := -size;
      DivModRebuild(m, pg);
      assert CDiv(size, pg) == -(m / pg);
      assert CRem(size, pg) == -(m % pg);
      QuotientSign(m, pg);
    }
  }

  /** A dividend below the divisor has quotient 0 and is its own remainder; one at least the divisor has a positive quotient. */
  lemma QuotientSign(m: nat, pg: int)
    requires pg > 0
    ensures m < pg ==> m / pg == 0 && m % pg == m
    ensures m >= pg ==> m / pg >= 1
  {
    DivModRebuild(m, pg);
    if m < pg {
      DivModUnique(m, pg, 0, m);
    } else {
      NonPositiveTimesPositive(m / pg, pg);
    }
  }

  lemma NonPositiveTimesPositive(a: int, b: int)
    requires b > 0
    ensures a <= 0 ==> a * b <= 0
  {
  }

  /** `va + (i * PGSIZE)`: byte arithmetic on a 64-bit pointer. */
  function PageAddress(cfg: Config, va: u64, i: nat): u64
    requires cfg.Valid()
  {
    (va + i * cfg.PgSize()) % U64
  }

  /**
   * Page `addr` passes both checks of the loop body: `translate` gives a
   * non-NULL address, and the word `page_table[pt_index]` that the body
   * reads through that address is non-zero. `wordAt(pa, k)` stands for the
   * k-th entry-sized word of memory at address `pa`, which this model does
   * not hold.
   */
  predicate PageAccepted(cfg: Config, pd: PageDirectory, wordAt: (nat, nat) -> nat, addr: u64)
    requires cfg.Valid() && CanWalk(cfg, pd, addr)
  {
    var pa := Translate(cfg, pd, addr);
    pa != NULL && wordAt(pa, TableIndex(cfg, addr)) != 0
  }

  /**
   * Every page the loop reaches, from page `i` on, can be walked without
   * reading outside the directory or its tables. The loop reaches page
   * `i + 1` only if page `i` is accepted.
   */
  predicate WalkableFrom(cfg: Config, pd: PageDirectory, wordAt: (nat, nat) -> nat,
                         va: u64, i: nat, n: int)
    requires cfg.Valid()
    decreases n - i
  {
    i >= n ||
    (CanWalk(cfg, pd, PageAddress(cfg, va, i)) &&
     (PageAccepted(cfg, pd, wordAt, PageAddress(cfg, va, i)) ==>
        WalkableFrom(cfg, pd, wordAt, va, i + 1, n)))
  }

  /**
   * `put_value(va, val, size)` with the page directory `pd`. A NULL `va`
   * returns -1 before anything else. Otherwise the pages 0, 1, ... of the
   * value are visited in order; the first page that is not accepted stops
   * the loop with -1, and when every one of the NumPages(size) pages is
   * accepted the result is 0. `pagesCopied` is the number of pages visited
   * and accepted, whose bytes the source copies.
   */
  method PutValue(cfg: Config, pd: PageDirectory, va: u64, size: i32, wordAt: (nat, nat) -> nat)
    returns (status: int, pagesCopied: nat)
    requires cfg.Valid()
    requires va != NULL ==> WalkableFrom(cfg, pd, wordAt, va, 0, NumPages(cfg, size))
    ensures status == 0 || status == -1
    ensures va == NULL ==> status == -1 && pagesCopied == 0
    ensures va != NULL ==>
              forall k :: 0 <= k < pagesCopied ==>
                CanWalk(cfg, pd, PageAddress(cfg, va, k)) &&
                PageAccepted(cfg, pd, wordAt, PageAddress(cfg, va, k))
    ensures pagesCopied == 0 || pagesCopied as int <= NumPages(cfg, size)
    ensures va != NULL ==> (status == 0 <==> pagesCopied as int >= NumPages(cfg, size))
    ensures va != NULL && status == -1 ==>
              pagesCopied < NumPages(cfg, size) &&
              CanWalk(cfg, pd, PageAddress(cfg, va, pagesCopied)) &&
              !PageAccepted(cfg, pd, wordAt, PageAddress(cfg, va, pagesCopied))
  {
    if va == NULL {
      return -1, 0;
    }
    var numPages := NumPages(cfg, size);
    var i: nat := 0;
    while i < numPages
      invariant i == 0 || i <= numPages
      invariant WalkableFrom(cfg, pd, wordAt, va, i, numPages)
      invariant forall k :: 0 <= k < i ==>
                  CanWalk(cfg, pd, PageAddress(cfg, va, k)) &&
                  PageAccepted(cfg, pd, wordAt, PageAddress(cfg, va, k))
    {
      var addr := PageAddress(cfg, va, i);
      var pageTable := Translate(cfg, pd, addr);
      if pageTable == NULL {
        return -1, i;
      }
      var ptIndex := TableIndex(cfg, addr);
      if wordAt(pageTable, ptIndex) == 0 {
        return -1, i;
      }
      i := i + 1;
    }
    return 0, i;
  }
}
