/**
 * The two-level page-table walk of `translate`.
 *
 * A virtual address is truncated to 32 bits, divided by the page size to give
 * a virtual page number, and that number is split into a directory index
 * (quotient by PAGE_TABLE_SIZE) and a table index (remainder). An entry equal
 * to 0 means "unmapped" at either level. A table entry is a physical frame
 * number; the physical address is `frame * PGSIZE + offset`, computed in
 * 32-bit unsigned arithmetic.
 */
module PageWalk {
  import opened VmConfig

  /**
   * The page directory that `translate` receives. `entries` are the directory
   * slots; `tables` stands for the cast of a non-zero slot value to a pointer
   * to a page table: it maps the slot value to that table's entries.
   */
  datatype PageDirectory = PageDirectory(entries: seq<nat>, tables: map<nat, seq<nat>>)

  /** `(unsigned int)va / PGSIZE` */
  function VirtualPage(cfg: Config, va: u64): nat
    requires cfg.Valid()
  {
    Quotient(va % U32, cfg.PgSize())
  }

  /** `virtual_page / PAGE_TABLE_SIZE` */
  function DirectoryIndex(cfg: Config, va: u64): nat
    requires cfg.Valid()
  {
    Quotient(VirtualPage(cfg, va), cfg.PageTableSize())
  }

  /** `virtual_page % PAGE_TABLE_SIZE` */
  function TableIndex(cfg: Config, va: u64): nat
    requires cfg.Valid()
  {
    Remainder(VirtualPage(cfg, va), cfg.PageTableSize())
  }

  /** `(unsigned int)va % PGSIZE` */
  function PageOffset(cfg: Config, va: u64): nat
    requires cfg.Valid()
  {
    Remainder(va % U32, cfg.PgSize())
  }

  /**
   * The reads `translate` performs stay inside the directory and, when the
   * directory slot is non-zero, inside the page table it points to. Outside
   * of these the C code reads out of bounds.
   */
  predicate CanWalk(cfg: Config, pd: PageDirectory, va: u64)
    requires cfg.Valid()
  {
    var d := DirectoryIndex(cfg, va);
    && d < |pd.entries|
    && (pd.entries[d] != 0 ==>
          pd.entries[d] in pd.tables && TableIndex(cfg, va) < |pd.tables[pd.entries[d]]|)
  }

  /** The directory slot `pgdir[pd_index]` that the walk reads. */
  function DirectoryEntry(cfg: Config, pd: PageDirectory, va: u64): nat
    requires cfg.Valid() && CanWalk(cfg, pd, va)
  {
    pd.entries[DirectoryIndex(cfg, va)]
  }

  /** The table slot `page_table[pt_index]`, read only behind a non-zero directory slot. */
  function TableEntry(cfg: Config, pd: PageDirectory, va: u64): nat
    requires cfg.Valid() && CanWalk(cfg, pd, va) && DirectoryEntry(cfg, pd, va) != 0
  {
    pd.tables[DirectoryEntry(cfg, pd, va)][TableIndex(cfg, va)]
  }

  /** Both levels name a mapping. */
  predicate Mapped(cfg: Config, pd: PageDirectory, va: u64)
    requires cfg.Valid() && CanWalk(cfg, pd, va)
  {
    DirectoryEntry(cfg, pd, va) != 0 && TableEntry(cfg, pd, va) != 0
  }

  /**
   * `translate(pgdir, va)`: NULL when either slot is 0, otherwise the
   * 32-bit physical address built from the frame number and the in-page
   * offset. The frame number is the table entry truncated to `unsigned int`,
   * and the product and sum wrap modulo 2^32. The result is returned as a
   * pointer, so a wrapped address of 0 would also read as NULL. The TLB update
   * the source performs on success is not part of this model.
   */
  function Translate(cfg: Config, pd: PageDirectory, va: u64): (pa: u32)
    requires cfg.Valid() && CanWalk(cfg, pd, va)
    ensures pa != NULL ==> Mapped(cfg, pd, va)
    ensures Mapped(cfg, pd, va) ==> pa % cfg.PgSize() == va % cfg.PgSize()
    ensures Mapped(cfg, pd, va) ==>
              pa / cfg.PgSize() == (TableEntry(cfg, pd, va) % U32) % cfg.AddressableFrames()
  {
    if DirectoryEntry(cfg, pd, va) == 0 then
      NULL
    else if TableEntry(cfg, pd, va) == 0 then
      NULL
    else
      var physicalPage := TableEntry(cfg, pd, va) % U32;
      var offset := PageOffset(cfg, va);
      var pa := (physicalPage * cfg.PgSize() + offset) % U32;
      WrappedAddress(cfg, physicalPage, offset);
      OffsetOfTruncation(cfg, va);
      pa
  }

  /**
   * The 32-bit address `(frame * PGSIZE + offset) mod 2^32` keeps the offset
   * and keeps the frame number modulo the number of frames a 32-bit address
   * can name.
   */
  lemma WrappedAddress(cfg: Config, frame: nat, offset: nat)
    requires cfg.Valid() && offset < cfg.PgSize()
    ensures var pa := (frame * cfg.PgSize() + offset) % U32;
            pa % cfg.PgSize() == offset && pa / cfg.PgSize() == frame % cfg.AddressableFrames()
  {
    PageSizeFacts(cfg);
    WrapSplit(frame, offset, cfg.PgSize(), cfg.AddressableFrames());
  }

  /** Truncating to 32 bits does not change the offset within a page. */
  lemma OffsetOfTruncation(cfg: Config, va: nat)
    requires cfg.Valid()
    ensures (va % U32) % cfg.PgSize() == va % cfg.PgSize()
  {
    PageSizeFacts(cfg);
    ModOfMultipleMod(va, cfg.PgSize(), cfg.AddressableFrames());
  }

  /** The address a walk with directory index `d`, table index `t` and offset `off` starts from. */
  function VirtualAddress(cfg: Config, d: nat, t: nat, off: nat): nat
    requires cfg.Valid()
  {
    var vpn: nat := d * cfg.PageTableSize() + t;
    vpn * cfg.PgSize() + off
  }

  /**
   * Index decomposition round-trips: directory index times PAGE_TABLE_SIZE
   * plus table index is the virtual page number, the table index is below
   * PAGE_TABLE_SIZE, and the three parts rebuild the 32-bit address.
   */
  lemma ComposeDecompose(cfg: Config, va: u64)
    requires cfg.Valid()
    ensures DirectoryIndex(cfg, va) * cfg.PageTableSize() + TableIndex(cfg, va)
              == (va % U32) / cfg.PgSize()
    ensures TableIndex(cfg, va) < cfg.PageTableSize()
    ensures PageOffset(cfg, va) < cfg.PgSize()
    ensures VirtualAddress(cfg, DirectoryIndex(cfg, va), TableIndex(cfg, va), PageOffset(cfg, va))
              == va % U32
  {
    TwoLevelSplit(va % U32, cfg.PgSize(), cfg.PageTableSize());
  }

  /**
   * The other direction: any directory index, table index and offset in
   * range that form a 32-bit address are recovered by the walk's arithmetic.
   */
  lemma DecomposeCompose(cfg: Config, d: nat, t: nat, off: nat)
    requires cfg.Valid() && t < cfg.PageTableSize() && off < cfg.PgSize()
    requires VirtualAddress(cfg, d, t, off) < U32
    ensures var va := VirtualAddress(cfg, d, t, off);
            DirectoryIndex(cfg, va) == d && TableIndex(cfg, va) == t && PageOffset(cfg, va) == off
  {
    PageSizeFacts(cfg);
    var va := VirtualAddress(cfg, d, t, off);
    var vpn := d * cfg.PageTableSize() + t;
    assert va % U32 == va;
    DivModUnique(va, cfg.PgSize(), vpn, off);
    DivModUnique(vpn, cfg.PageTableSize(), d, t);
  }

  /**
   * Without 32-bit overflow, a successful walk lands in the frame the table
   * entry names, at the same offset as the virtual address.
   */
  lemma TranslateFrame(cfg: Config, pd: PageDirectory, va: u64)
    requires cfg.Valid() && CanWalk(cfg, pd, va) && Mapped(cfg, pd, va)
    requires TableEntry(cfg, pd, va) < cfg.AddressableFrames()
    ensures Translate(cfg, pd, va) != NULL
    ensures Translate(cfg, pd, va) / cfg.PgSize() == TableEntry(cfg, pd, va)
    ensures Translate(cfg, pd, va) % cfg.PgSize() == va % cfg.PgSize()
    ensures Translate(cfg, pd, va) == TableEntry(cfg, pd, va) * cfg.PgSize() + va % cfg.PgSize()
  {
    PageSizeFacts(cfg);
    var pa := Translate(cfg, pd, va);
    var frame := TableEntry(cfg, pd, va);
    var pg := cfg.PgSize();
    DivModUnique(frame, U32, 0, frame);
    DivModUnique(frame, cfg.AddressableFrames(), 0, frame);
    assert pa / pg == frame;
    assert pa % pg == va % pg;
    DivModRebuild(pa, pg);
    MulAtLeast(frame, pg);
  }

  /**
   * Without 32-bit overflow (a frame number below 2^32 / PGSIZE), the walk
   * returns NULL exactly when the directory slot or the table slot is 0.
   */
  lemma TranslateNullIff(cfg: Config, pd: PageDirectory, va: u64)
    requires cfg.Valid() && CanWalk(cfg, pd, va)
    requires Mapped(cfg, pd, va) ==> TableEntry(cfg, pd, va) < cfg.AddressableFrames()
    ensures Translate(cfg, pd, va) == NULL <==> !Mapped(cfg, pd, va)
  {
    if Mapped(cfg, pd, va) {
      TranslateFrame(cfg, pd, va);
    }
  }

  /**
   * A directory as the engine lays it out: PAGE_DIRECTORY_SIZE slots, each
   * non-zero slot naming a table of PAGE_TABLE_SIZE entries.
   */
  predicate WellFormed(cfg: Config, pd: PageDirectory)
    requires cfg.Valid()
  {
    && |pd.entries| == cfg.PageDirectorySize()
    && forall d :: 0 <= d < |pd.entries| && pd.entries[d] != 0 ==>
         pd.entries[d] in pd.tables && |pd.tables[pd.entries[d]]| == cfg.PageTableSize()
  }

  /**
   * In a well-formed directory the walk stays in bounds exactly when the
   * directory index is below PAGE_DIRECTORY_SIZE.
   */
  lemma WellFormedCanWalk(cfg: Config, pd: PageDirectory, va: u64)
    requires cfg.Valid() && WellFormed(cfg, pd)
    ensures CanWalk(cfg, pd, va) <==> DirectoryIndex(cfg, va) < cfg.PageDirectorySize()
  {
    ComposeDecompose(cfg, va);
  }

  /**
   * When PAGE_DIRECTORY_SIZE * PAGE_TABLE_SIZE pages span MAX_MEMSIZE, every
   * address below MAX_MEMSIZE has a directory index inside the directory.
   */
  lemma DirectoryCoversAddressSpace(cfg: Config, va: u64)
    requires cfg.Valid() && va < cfg.MaxMemSize()
    requires cfg.maxMemShift - cfg.pageShift <= 2 * (cfg.pageShift - cfg.pteShift)
    ensures DirectoryIndex(cfg, va) < cfg.PageDirectorySize()
  {
    var pts := cfg.PageTableSize();
    var pagesShift := cfg.maxMemShift - cfg.pageShift;
    PageSizeFacts(cfg);
    Pow2Monotone(cfg.maxMemShift, 32);
    Pow2Of32();
    assert va % U32 == va;
    Pow2Add(pagesShift, cfg.pageShift);
    QuotientBelow(va, Pow2(pagesShift), cfg.PgSize());
    Pow2Monotone(pagesShift, 2 * (cfg.pageShift - cfg.pteShift));
    Pow2Add(cfg.pageShift - cfg.pteShift, cfg.pageShift - cfg.pteShift);
    QuotientBelow(VirtualPage(cfg, va), pts, pts);
  }
}
