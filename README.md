# User-level paging engine: a Dafny model

This project models the paging core of a user-space virtual-memory simulator
(`code/my_vm.c`). The simulator keeps one `int` bitmap entry per physical
frame and one per virtual page. It walks a two-level page table (directory,
then table, then frame) to translate 32-bit virtual addresses. Its allocator
and its value-copy routine are partly written. The model covers what the
code does today:

- `set_physical_mem` creates and clears both bitmaps.
- `get_next_avail` scans the virtual bitmap.
- `t_malloc` initialises on first use, reserves the page directory's frames, sizes the request and scans for pages.
- `translate` splits the address, walks both levels and rebuilds the physical address.
- `put_value` runs its control skeleton: the NULL check, the page count and the per-page translate-or-abort loop.

Layout, one module per concern:

- `config.dfy` (`VmConfig`): the header constants PGSIZE, `sizeof(pte_t)`, MEMSIZE and MAX_MEMSIZE. The header is not part of this model, so they are the fields of a `Config`, each written as a shift, which makes every size a power of two. `Config.Valid` requires PAGE_DIRECTORY_SIZE <= PHYSICAL_BITMAP_SIZE, MAX_MEMSIZE <= 2^32, and bitmap sizes that fit the `int` loop counters. The module also holds the C widths (`u32`, `u64`, `i32`) and small arithmetic lemmas.
- `page_walk.dfy` (`PageWalk`): `translate` as a pure function. The directory is a sequence of entries. The cast of a non-zero directory entry to a page-table pointer is a map from entry values to tables.
- `allocator.dfy` (`Allocator`): the global bitmaps as a `MemoryManager` class whose methods update array fields in place. Beside the class are the value-level functions that specify those methods (`Bitmaps`, `MallocBitmaps`, `MallocOutcome`) and lemmas about them.
- `value_copy.dfy` (`ValueCopy`): `put_value`'s loop as a method, with C's truncating `/` and `%` on its signed `size`.

Decisions that follow the code rather than the intended design:

- `get_next_avail` never resets `is_contiguous`, and its inner loops run from `i` to `num_pages`. As written it therefore returns the pointer value 1 when pages `0 .. num_pages-1` are all free, and NULL otherwise. It does not do a first-fit search.
- 0 is the "unmapped" value at both levels of the walk.
- `t_malloc` asks for `num_bytes / PGSIZE + 1` pages, which is one page too many when the size is a multiple of PGSIZE. It returns NULL whenever it does not exit.
- `translate` computes in `unsigned int`. Virtual addresses are truncated to 32 bits, and the frame number and the physical address wrap modulo 2^32. Because the result is returned as a pointer, a wrapped address of 0 also reads as NULL. The lemmas that state "NULL exactly when an entry is 0" and "the result is `frame * PGSIZE + offset`" therefore assume no overflow. The lemma that states "the offset is kept" does not.
- PGSIZE is taken to be an `int` constant. That makes `size / PGSIZE` in `put_value` a signed division, so a negative `size` above `-PGSIZE` still counts one page.

The C code reads out of bounds in some cases, and the model turns each of these into a precondition:

- `pgdir[pd_index]` past the directory, or a table slot past its table (`PageWalk.CanWalk`);
- `virtual_bitmap[j]` for `j >= VIRTUAL_BITMAP_SIZE` (`GetNextAvail` requires `numPages <= virtualBitmap.Length`, and `TMalloc` requires `pages_needed <= VIRTUAL_BITMAP_SIZE`, where `pages_needed` is the value C computes, wrap-around included).

`PageWalk.DirectoryCoversAddressSpace` gives the condition under which the first of these cannot happen for addresses below MAX_MEMSIZE.

## Model

| member | source | states |
|---|---|---|
| `VmConfig.SizesAreQuotients` | code/my_vm.c:5-10 | PHYSICAL_BITMAP_SIZE, VIRTUAL_BITMAP_SIZE and PAGE_TABLE_SIZE are the quotients MEMSIZE/PGSIZE, MAX_MEMSIZE/PGSIZE and PGSIZE/sizeof(pte_t), and 2^32/PGSIZE is the number of frames a 32-bit address names |
| `VmConfig.BitmapSizeFacts` | code/my_vm.c:5-10 | both bitmap sizes fit the `int` loop counters that run up to them (lines 50, 55, 201 and 249), and PAGE_DIRECTORY_SIZE <= PHYSICAL_BITMAP_SIZE |
| `PageWalk.Translate` | code/my_vm.c:108-165 | non-NULL only when both the directory slot and the table slot are non-zero; when both are non-zero the in-page offset is kept (`pa % PGSIZE == va % PGSIZE`) and `pa / PGSIZE` is the 32-bit frame number modulo 2^32/PGSIZE, wrap-around included |
| `PageWalk.ComposeDecompose` | code/my_vm.c:133-140 | `pd_index * PAGE_TABLE_SIZE + pt_index == (unsigned)va / PGSIZE`, `pt_index < PAGE_TABLE_SIZE`, offset `< PGSIZE`, and the three parts rebuild the 32-bit address |
| `PageWalk.DecomposeCompose` | code/my_vm.c:133-140 | any directory index, in-range table index and in-range offset that form a 32-bit address are recovered exactly by the walk's divisions |
| `PageWalk.TranslateNullIff` | code/my_vm.c:143-154 | absent 32-bit overflow of the frame number, `translate` returns NULL exactly when the directory slot is 0 or the selected table slot is 0 |
| `PageWalk.TranslateFrame` | code/my_vm.c:157-159 | absent overflow, a mapped address translates to `page_table[pt_index] * PGSIZE + va % PGSIZE`, so `pa / PGSIZE == page_table[pt_index]` and `pa % PGSIZE == va % PGSIZE` |
| `PageWalk.WrappedAddress` | code/my_vm.c:157-159 | `(frame * PGSIZE + offset) mod 2^32` keeps the offset and reduces the frame number modulo 2^32/PGSIZE |
| `PageWalk.OffsetOfTruncation` | code/my_vm.c:158 | truncating the address to `unsigned int` does not change its offset within a page |
| `PageWalk.WellFormedCanWalk` | code/my_vm.c:143-152 | in a directory of PAGE_DIRECTORY_SIZE slots whose non-zero slots name tables of PAGE_TABLE_SIZE entries, the walk stays in bounds exactly when `pd_index < PAGE_DIRECTORY_SIZE` |
| `PageWalk.DirectoryCoversAddressSpace` | code/my_vm.c:9-10 | when PAGE_DIRECTORY_SIZE * PAGE_TABLE_SIZE pages cover MAX_MEMSIZE, every address below MAX_MEMSIZE has `pd_index < PAGE_DIRECTORY_SIZE` |
| `Allocator.MemoryManager.constructor` | code/my_vm.c:13-15 | the physical memory and both bitmaps start out as null pointers (no bitmaps exist) |
| `Allocator.MemoryManager.SetPhysicalMem` | code/my_vm.c:24-59 | allocates new MEMSIZE-byte memory and new bitmaps of MEMSIZE/PGSIZE and MAX_MEMSIZE/PGSIZE entries, every entry 0 |
| `Allocator.MemoryManager.GetNextAvail` | code/my_vm.c:197-223 | changes nothing; the result is 1 or NULL (never page 0, never any other value), and it is non-NULL exactly when every `virtual_bitmap[j]`, `0 <= j < num_pages`, is 0 |
| `Allocator.MemoryManager.TMalloc` | code/my_vm.c:229-271 | initialises on first use (fresh, zeroed bitmaps), then the bitmaps become `MallocBitmaps` of the prior state and the result is `MallocOutcome`: out of memory exactly when the scan fails, NULL otherwise |
| `Allocator.MallocBitmaps` | code/my_vm.c:235-253 | after `t_malloc` the bitmaps exist and keep one entry per frame and one per page |
| `Allocator.PagesNeeded` | code/my_vm.c:259 | `num_bytes / PGSIZE + 1` computed in `unsigned int` and stored in `int`; when the quotient is below INT_MAX it is that sum, at least 1, and `pages_needed * PGSIZE > num_bytes` |
| `Allocator.MallocTouchesOnlyDirectoryFrames` | code/my_vm.c:246-253 | while `virtual_bitmap[0]` is 0, frames `0 .. PAGE_DIRECTORY_SIZE-1` become 1 and every other frame keeps its value; otherwise nothing changes; the virtual bitmap never changes |
| `Allocator.MallocIdempotent` | code/my_vm.c:246-253 | applying `t_malloc`'s bitmap effect twice equals applying it once, since `virtual_bitmap[0]` is never set |
| `Allocator.FirstMalloc` | code/my_vm.c:235-260 | the first `t_malloc` leaves exactly the directory frames marked and every virtual page free, and does not run out of memory |
| `Allocator.MallocOutcomeRepeats` | code/my_vm.c:246-265 | a `t_malloc` that returns (does not exit) leaves the outcome of the next request of the same size unchanged |
| `Allocator.WrappedRequestReturns` | code/my_vm.c:259-270 | when `pages_needed` wraps to 0 or turns negative (PGSIZE 1 or 2, large `num_bytes`), `get_next_avail` reads no entry and `t_malloc` returns NULL |
| `ValueCopy.NumPagesIsCeiling` | code/my_vm.c:308 | for `size >= 0`, `num_pages` is the ceiling of size / PGSIZE (0 for size 0); for a negative size it is 1 exactly when `size > -PGSIZE`, and at most 0 otherwise |
| `ValueCopy.PutValue` | code/my_vm.c:292-342 | a NULL `va` returns -1 with no page visited; otherwise pages `0, 1, ...` are visited in order, every page before the stopping point passes both checks, the result is -1 at the first page `i < num_pages` whose `translate(va + i*PGSIZE)` is NULL or whose table word is 0, and 0 once all `num_pages` pages pass (at once when `num_pages <= 0`) |

## Left out

- The TLB: `add_TLB`, `check_TLB` and `print_TLB_missrate` (code/my_vm.c:65-97) are empty stubs, and the last prints a `double`. The `put_in_tlb` call in `translate` (line 162) names a function this file does not define, and the model treats it as having no effect.
- `page_map` (always -1), `t_free` and `get_value` (lines 184-192, 276-285, 349-355) have no behaviour to state.
- `num_page_tables = pow(2, log2(...) - log2(...))` (line 244) is floating point, and its value is never used.
- The host `malloc` failures and the `perror`/`exit(1)` on them in `set_physical_mem` (lines 29-47): host allocation is taken to succeed. The `exit(1)` in `t_malloc` (lines 261-265) is the `OutOfMemory` result.
- The contents of simulated physical memory. `put_value` reads `page_table[pt_index]` through the translated physical address (line 328). That read is the oracle parameter `wordAt`, not part of the model's state. The physical-address arithmetic and the `memcpy` of a full page (lines 333-339) are not modelled; `pagesCopied` counts the pages that would be copied.
- `mat_mult` (lines 363-426) is a demonstration client of `put_value` and `get_value`.
- The global `page_directory` and the type widths of `pde_t`/`pte_t` come from the header, which is not part of this model. `put_value` takes the directory as a parameter. Entries are unbounded naturals, and only the `unsigned int` truncation of a frame number is modelled.
- Aliasing between the page tables and the simulated memory is not modelled, because the tables are values and not bytes inside physical memory.
- Allocator.PagesNeeded: the covering property is stated only for `num_bytes / PGSIZE < INT_MAX`. Above that, which needs a page size of 1 or 2, the `unsigned int` sum wraps or the `int` conversion turns negative, and the function returns what C computes (`Allocator.WrappedRequestReturns` states what `t_malloc` then does).
- PageWalk.TranslateNullIff: stated only for frame numbers below 2^32/PGSIZE. A larger frame number can wrap the physical address to 0, which reads as NULL although both entries are non-zero.
- PageWalk.TranslateFrame: stated only for frame numbers below 2^32/PGSIZE. `PageWalk.Translate` gives the wrapped result for larger ones.
