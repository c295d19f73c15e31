/**
 * The physical-frame and virtual-page bitmaps and the three operations that
 * touch them: `set_physical_mem` creates and clears them, `get_next_avail`
 * scans the virtual bitmap, and `t_malloc` initialises on first use, reserves
 * the page directory's frames and asks for a run of pages.
 *
 * The bitmaps are process-wide globals in the engine; here they are the
 * fields of one `MemoryManager`. `Bitmaps` is their value, which the
 * specification functions below describe and the methods are proved against.
 */
module Allocator {
  import opened VmConfig

  /** The bitmaps as values: before `set_physical_mem` runs they do not exist. */
  datatype Bitmaps = Unallocated | Allocated(physical: seq<int>, virtual: seq<int>)

  /** One physical entry per frame and one virtual entry per page. */
  predicate WellSized(cfg: Config, b: Bitmaps)
    requires cfg.Valid()
  {
    b.Allocated? ==>
      |b.physical| == cfg.PhysicalBitmapSize() && |b.virtual| == cfg.VirtualBitmapSize()
  }

  function Zeros(n: nat): seq<int>
  {
    seq(n, _ => 0)
  }

  /** The bitmaps `set_physical_mem` leaves: every frame and every page free. */
  function FreshBitmaps(cfg: Config): Bitmaps
    requires cfg.Valid()
  {
    Allocated(Zeros(cfg.PhysicalBitmapSize()), Zeros(cfg.VirtualBitmapSize()))
  }

  /** `t_malloc` creates the bitmaps the first time it runs. */
  function Initialised(cfg: Config, b: Bitmaps): Bitmaps
    requires cfg.Valid()
  {
    if b.Unallocated? then FreshBitmaps(cfg) else b
  }

  /** `t_malloc`'s loop that marks the first PAGE_DIRECTORY_SIZE frames used. */
  function ReserveDirectoryFrames(cfg: Config, physical: seq<int>): seq<int>
    requires cfg.Valid() && cfg.PageDirectorySize() <= |physical|
  {
    seq(|physical|, i requires 0 <= i < |physical| =>
      if i < cfg.PageDirectorySize() then 1 else physical[i])
  }

  /**
   * The bitmaps after `t_malloc`: initialised if need be, with the directory
   * frames reserved while virtual page 0 is still marked free. The rest of
   * `t_malloc` writes neither bitmap.
   */
  function MallocBitmaps(cfg: Config, b: Bitmaps): (r: Bitmaps)
    requires cfg.Valid() && WellSized(cfg, b)
    ensures r.Allocated? && WellSized(cfg, r)
  {
    BitmapSizeFacts(cfg);
    var s := Initialised(cfg, b);
    if s.virtual[0] == 0 then
      Allocated(ReserveDirectoryFrames(cfg, s.physical), s.virtual)
    else
      s
  }

  /**
   * `pages_needed = (num_bytes / PGSIZE) + 1`: the quotient and the sum are
   * `unsigned int`, and the result is stored in an `int`. Whenever the
   * quotient is below INT_MAX the count is positive and its pages hold more
   * than the requested bytes.
   */
  function PagesNeeded(cfg: Config, numBytes: u32): (n: int)
    requires cfg.Valid()
    ensures numBytes / cfg.PgSize() < INT_MAX ==> n == numBytes / cfg.PgSize() + 1
    ensures numBytes / cfg.PgSize() < INT_MAX ==> n >= 1 && n * cfg.PgSize() > numBytes
  {
    var q := Quotient(numBytes, cfg.PgSize());
    var u := (q + 1) % U32;
    var n := if u <= INT_MAX then u else u - U32;
    if q < INT_MAX then
      DivModUnique(q + 1, U32, 0, q + 1);
      QuotientPlusOneCovers(numBytes, cfg.PgSize());
      n
    else
      n
  }

  /** Virtual pages 0 .. n-1 are all free. */
  predicate AllFree(virtual: seq<int>, n: int)
    requires n <= |virtual|
  {
    forall j :: 0 <= j < n ==> virtual[j] == 0
  }

  /** `t_malloc` either stops the process (`perror` and `exit(1)`) or returns a pointer. */
  datatype MallocResult = OutOfMemory | Returned(address: nat)

  /**
   * What `t_malloc` returns: out of memory when `get_next_avail` finds no
   * run, otherwise NULL, since the mapping that would produce an address is
   * not written yet.
   */
  function MallocOutcome(cfg: Config, b: Bitmaps, numBytes: u32): MallocResult
    requires cfg.Valid() && WellSized(cfg, b)
    requires PagesNeeded(cfg, numBytes) <= cfg.VirtualBitmapSize()
  {
    BitmapSizeFacts(cfg);
    var s := MallocBitmaps(cfg, b);
    if AllFree(s.virtual, PagesNeeded(cfg, numBytes)) then Returned(NULL) else OutOfMemory
  }

  /**
   * The engine's global state. `physicalMemory` is the simulated RAM (its
   * contents are not read or written by anything modelled); its being null
   * is how `t_malloc` tells that nothing is initialised yet.
   */
  class MemoryManager {
    const cfg: Config
    var physicalMemory: array?<bv8>
    var physicalBitmap: array?<int>
    var virtualBitmap: array?<int>

    ghost predicate Valid()
      reads this
    {
      && cfg.Valid()
      && (physicalMemory == null <==> physicalBitmap == null)
      && (physicalMemory == null <==> virtualBitmap == null)
      && (physicalMemory != null ==>
            && physicalMemory.Length == cfg.MemSize()
            && physicalBitmap.Length == cfg.PhysicalBitmapSize()
            && virtualBitmap.Length == cfg.VirtualBitmapSize()
            && physicalBitmap != virtualBitmap)
    }

    /** The bitmaps' contents. */
    ghost function State(): (b: Bitmaps)
      requires Valid()
      reads this, physicalBitmap, virtualBitmap
      ensures WellSized(cfg, b)
    {
      if physicalMemory == null then Unallocated
      else Allocated(physicalBitmap[..], virtualBitmap[..])
    }

    /** The globals start out as null pointers. */
    constructor (cfg: Config)
      requires cfg.Valid()
      ensures Valid() && this.cfg == cfg && State() == Unallocated
    {
      this.cfg := cfg;
      physicalMemory, physicalBitmap, virtualBitmap := null, null, null;
    }

    /**
     * `set_physical_mem`: allocates MEMSIZE bytes of simulated RAM and two
     * new bitmaps, one entry per physical frame and one per virtual page,
     * and writes 0 into every entry.
     */
    method SetPhysicalMem()
      requires Valid()
      modifies this
      ensures Valid() && physicalMemory != null
      ensures fresh(physicalMemory) && fresh(physicalBitmap) && fresh(virtualBitmap)
      ensures physicalBitmap.Length == cfg.PhysicalBitmapSize()
      ensures virtualBitmap.Length == cfg.VirtualBitmapSize()
      ensures forall i :: 0 <= i < physicalBitmap.Length ==> physicalBitmap[i] == 0
      ensures forall i :: 0 <= i < virtualBitmap.Length ==> virtualBitmap[i] == 0
      ensures State() == FreshBitmaps(cfg)
    {
      var memory := new bv8[cfg.MemSize()];
      var physical := new int[cfg.PhysicalBitmapSize()];
      var virtual := new int[cfg.VirtualBitmapSize()];
      for i := 0 to physical.Length
        invariant forall k :: 0 <= k < i ==> physical[k] == 0
      {
        physical[i] := 0;
      }
      for i := 0 to virtual.Length
        invariant forall k :: 0 <= k < i ==> virtual[k] == 0
        invariant forall k :: 0 <= k < physical.Length ==> physical[k] == 0
      {
        virtual[i] := 0;
      }
      physicalMemory, physicalBitmap, virtualBitmap := memory, physical, virtual;
      assert physical[..] == Zeros(physical.Length);
      assert virtual[..] == Zeros(virtual.Length);
    }

    /**
     * `get_next_avail(num_pages)`, as written: the flag `is_contiguous` is
     * never reset and the inner loops run from `i` to `num_pages`, so the
     * first outer round decides. The result is the pointer value 1 (page 0
     * is skipped by returning `i + 1`) when virtual pages 0 .. num_pages-1
     * are all free, and NULL otherwise. The bitmap is only read.
     */
    method GetNextAvail(numPages: int) returns (va: nat)
      requires Valid() && virtualBitmap != null
      requires numPages <= virtualBitmap.Length
      ensures va == NULL || va == 1
      ensures va != NULL <==> forall j :: 0 <= j < numPages ==> virtualBitmap[j] == 0
    {
      var isContiguous := true;
      var i := 0;
      while i < virtualBitmap.Length
        invariant 0 <= i <= virtualBitmap.Length
        invariant i == 0 ==> isContiguous
        invariant i > 0 ==> !isContiguous
        invariant i > 0 ==> exists j :: 0 <= j < numPages && virtualBitmap[j] != 0
      {
        ghost var flagBefore := isContiguous;
        var j := i;
        while j < numPages
          invariant i <= j && (j <= numPages || j == i)
          invariant isContiguous <==>
                      flagBefore && forall k :: i <= k < j ==> virtualBitmap[k] == 0
        {
          if virtualBitmap[j] != 0 {
            isContiguous := false;
          }
          j := j + 1;
        }
        if isContiguous {
          j := i;
          while j < numPages
            invariant i <= j && (j <= numPages || j == i)
          {
            if virtualBitmap[j] != 0 {
              isContiguous := false;
            }
            j := j + 1;
          }
          return i + 1;
        }
        i := i + 1;
      }
      return NULL;
    }

    /**
     * `t_malloc(num_bytes)`, the part that is written: initialise on first
     * use, reserve the directory frames while virtual page 0 is free,
     * compute the page count and scan for a run; exit when the scan fails
     * and return NULL otherwise. The virtual bitmap is not changed.
     */
    method TMalloc(numBytes: u32) returns (result: MallocResult)
      requires Valid()
      requires PagesNeeded(cfg, numBytes) <= cfg.VirtualBitmapSize()
      modifies this, physicalBitmap
      ensures Valid() && physicalMemory != null
      ensures old(physicalMemory) != null ==>
                && physicalMemory == old(physicalMemory)
                && physicalBitmap == old(physicalBitmap)
                && virtualBitmap == old(virtualBitmap)
      ensures old(physicalMemory) == null ==>
                fresh(physicalMemory) && fresh(physicalBitmap) && fresh(virtualBitmap)
      ensures State() == MallocBitmaps(cfg, old(State()))
      ensures result == MallocOutcome(cfg, old(State()), numBytes)
    {
      BitmapSizeFacts(cfg);
      ghost var start := State();
      if physicalMemory == null {
        SetPhysicalMem();
      }
      ghost var before := State();
      assert before == Initialised(cfg, start);
      assert physicalMemory != null;
      if virtualBitmap[0] == 0 {
        for i := 0 to cfg.PageDirectorySize()
          modifies physicalBitmap
          invariant forall k :: 0 <= k < i ==> physicalBitmap[k] == 1
          invariant forall k :: i <= k < physicalBitmap.Length ==> physicalBitmap[k] == before.physical[k]
          invariant virtualBitmap[..] == before.virtual
        {
          physicalBitmap[i] := 1;
        }
        assert physicalBitmap[..] == ReserveDirectoryFrames(cfg, before.physical);
      }
      assert State() == MallocBitmaps(cfg, start);
      var pagesNeeded := PagesNeeded(cfg, numBytes);
      var va := GetNextAvail(pagesNeeded);
      if va == NULL {
        return OutOfMemory;
      }
      return Returned(NULL);
    }
  }

  /**
   * The reservation touches only the page directory's frames: they become
   * 1, every other frame and the whole virtual bitmap keep their values,
   * and nothing is reserved once virtual page 0 is in use.
   */
  lemma MallocTouchesOnlyDirectoryFrames(cfg: Config, b: Bitmaps)
    requires cfg.Valid() && WellSized(cfg, b)
    ensures var s, r := Initialised(cfg, b), MallocBitmaps(cfg, b);
            && r.virtual == s.virtual
            && |r.physical| == |s.physical|
            && cfg.PageDirectorySize() <= |r.physical|
            && (s.virtual[0] == 0 ==>
                  forall i :: 0 <= i < cfg.PageDirectorySize() ==> r.physical[i] == 1)
            && (s.virtual[0] == 0 ==>
                  forall i :: cfg.PageDirectorySize() <= i < |r.physical| ==>
                                r.physical[i] == s.physical[i])
            && (s.virtual[0] != 0 ==> r == s)
  {
    BitmapSizeFacts(cfg);
  }

  /**
   * Reserving twice is reserving once: `t_malloc` never marks virtual page
   * 0, so a second call finds it free again and rewrites the same frames.
   */
  lemma MallocIdempotent(cfg: Config, b: Bitmaps)
    requires cfg.Valid() && WellSized(cfg, b)
    ensures MallocBitmaps(cfg, MallocBitmaps(cfg, b)) == MallocBitmaps(cfg, b)
  {
    BitmapSizeFacts(cfg);
    var r := MallocBitmaps(cfg, b);
    var s := Initialised(cfg, b);
    if s.virtual[0] == 0 {
      assert ReserveDirectoryFrames(cfg, r.physical) == r.physical;
    }
  }

  /**
   * A page count that the `unsigned int` sum wraps to 0, or that the `int`
   * conversion turns negative, makes `get_next_avail` read no entry, so such
   * a request always returns.
   */
  lemma WrappedRequestReturns(cfg: Config, b: Bitmaps, numBytes: u32)
    requires cfg.Valid() && WellSized(cfg, b) && PagesNeeded(cfg, numBytes) <= 0
    ensures MallocOutcome(cfg, b, numBytes) == Returned(NULL)
  {
  }

  /**
   * The first `t_malloc` on uninitialised state marks exactly the directory
   * frames used and, every virtual page being free, does not run out of
   * memory.
   */
  lemma FirstMalloc(cfg: Config, numBytes: u32)
    requires cfg.Valid() && PagesNeeded(cfg, numBytes) <= cfg.VirtualBitmapSize()
    ensures var r := MallocBitmaps(cfg, Unallocated);
            && (forall i :: 0 <= i < |r.physical| ==>
                  r.physical[i] == if i < cfg.PageDirectorySize() then 1 else 0)
            && (forall i :: 0 <= i < |r.virtual| ==> r.virtual[i] == 0)
    ensures MallocOutcome(cfg, Unallocated, numBytes) == Returned(NULL)
  {
    BitmapSizeFacts(cfg);
  }

  /**
   * `t_malloc` leaves the virtual bitmap as it found it, so a call that
   * returns (one that does not exit) leaves the outcome of the next request
   * of the same size unchanged.
   */
  lemma MallocOutcomeRepeats(cfg: Config, b: Bitmaps, numBytes: u32)
    requires cfg.Valid() && WellSized(cfg, b)
    requires PagesNeeded(cfg, numBytes) <= cfg.VirtualBitmapSize()
    ensures MallocOutcome(cfg, MallocBitmaps(cfg, b), numBytes) == MallocOutcome(cfg, b, numBytes)
  {
    MallocIdempotent(cfg, b);
  }
}
