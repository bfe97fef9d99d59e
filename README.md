# c-runtime core in Dafny

This project models the freestanding C runtime that the shellcode loader links
against. Four parts are covered:

- **Ring buffer** (`Ring`): the fixed-length circular buffer of `z_sync.c`.
  It has a per-slot state array (IDLE, PUTTING, VALID, TAKING) and two counters.
  The counters wrap modulo `ULONG_MAX - ULONG_MAX % length`.
- **Futex words** (`Sync`): the mutex, condition flag and reader-writer lock
  of `z_sync.c`, run by one thread at a time.
- **Page allocator** (`Memory`): `z_malloc`, `z_free`, `z_realloc` and
  `z_calloc` of `z_memory.c`. Blocks are mmap'ed in page multiples behind a
  two-word header. The allocator recycles freed blocks through a 100-slot
  instance of the ring buffer.
- **Strings and numbers** (`CType`, `CString`, `StrToL`): the character
  classifiers, the string and byte-buffer primitives, and `z_strtol` /
  `z_strtoul` of `z_std.c`.
- **Syscall decoding** (`Syscall`): `z_check_error`, the shape shared by the
  `DEFINE_SYSCALLn` wrappers, and the i386/arm `z_mmap` offset conversion of
  `z_syscall.c`.

`Machine` fixes the LP64 integer widths (`long` and `unsigned long` are 64
bits, `int` is 32) and the C casts between them. `Wrappers` holds `Option`.

## How the model is built

- **Ring buffer.** `Ring.CircularBuffer` is a class with the two counters,
  the record array and the state array. A ghost sequence `Contents` holds the
  stored records, oldest first. Each CAS loop and spin loop is one atomic step.
  `Enqueue` and `Dequeue` are proved against `Contents`:
  - records come out in the order they went in;
  - at most `length - 1` fit;
  - only the slot at `tail % length` (or `head % length`) changes, and only
    that counter moves.
- **Allocator.**
  - `Memory.Heap` keeps the cache ring, a map `blocks` from user pointer to
    `Block(userSize, allocSize, bytes)` and a ghost set `live` of pointers
    handed out.
  - A block stands for its header words and the bytes after them. The
    mapping starts `HDR` bytes before the user pointer.
  - The kernel is an oracle: each call to `z_mmap` is answered by the raw
    return value `rc`, decoded by `Syscall.Mmap` exactly as the wrapper does.
  - `Heap.Valid` states that every mapped block is in exactly one place: in
    use, or cached once. Every cached record names a block of cacheable size
    whose miss count is at most 6.
  - Each heap operation is proved against a function on a value of the
    heap (`HeapState`: the blocks and the cache records): `MallocState`,
    `FreeState`, `MoveState` and `ClearState` give the pointer returned and
    the whole heap left behind.
  - The cache loop of `z_malloc` is specified by the pure function
    `CacheLookup`. `LookupConserves` proves that the loop loses no block: each
    one ends up cached, handed out, or unmapped.
- **Strings and numbers.** `z_strtol` and `z_strtoul` are specified by pure
  functions over the bytes (`StrtolSpec`, `StrtoulSpec`). They are implemented
  by loop methods that keep the source's `acc`, `any` and cutoff variables.
  Read-only C strings are `seq<Byte>`. `z_memcpy` and `z_memset` write an
  `array<Byte>`.

In these places the code departs from the obvious reading, and the model
follows the code:

- A ring of `length` slots holds `length - 1` records, because "full" is
  `(tail + 1) % length == head % length`.
- `z_realloc` does not check whether `z_malloc` returned NULL, and frees the
  old block regardless. The model does not promise that the old block is kept
  on failure. Instead, `Heap.Realloc` requires that the allocation on its
  moving path succeeds (see Left out).
- A passed-over cached block is put back when its miss count *before* the
  increment is at most 5. The test is the post-increment `miss++ > 5`, so a
  block is put back up to six times.

## Model

| member | source | states |
|---|---|---|
| Machine.ToInt32 | shellcode/c-runtime/src/z_syscall.c:103 | `(int)` of a long: unchanged in range, otherwise congruent modulo 2^32 and in range |
| Machine.ToUnsigned64 | shellcode/c-runtime/src/z_syscall.c:114 | `(unsigned long)` / `(void *)` of a long: unchanged when non-negative, plus 2^64 when negative |
| Syscall.CheckError | shellcode/c-runtime/src/z_syscall.c:98-107 | a raw return in (-4096, 0) gives value -1 and errno `-rc` in [1, 4095]; every other return, including those at or below -4096, passes through with errno 0 |
| Syscall.ErrnoIffErrorWindow | shellcode/c-runtime/src/z_syscall.c:101-104 | the errno is set exactly for returns in the error window, and a set errno always comes with value -1 |
| Syscall.ErrnoRoundTrip | shellcode/c-runtime/src/z_syscall.c:101-104 | a kernel reporting errno n as -n is decoded to (-1, n) |
| Syscall.Wrapped | shellcode/c-runtime/src/z_syscall.c:109-139 | every wrapper passes the errno through unchanged; it sets the errno exactly for error returns; it casts the checked value to its result type (ssize unchanged, int as the `(int)` truncation of `rc`, so unchanged in range, pointer as the unsigned reinterpretation of `rc`) |
| Syscall.Mmap | shellcode/c-runtime/src/z_syscall.c:193 | z_mmap sets the errno exactly for an error return, and then the pointer is MAP_FAILED; otherwise the pointer is the unsigned reading of the raw return |
| Syscall.MapFailedIffErrno | shellcode/c-runtime/src/z_syscall.c:193 | the mmap pointer equals MAP_FAILED exactly when an errno was reported, and otherwise is the unsigned reading of the raw return |
| Syscall.Mmap2Offset | shellcode/c-runtime/src/z_syscall.c:187-191 | the 32-bit byte offset becomes page units (offset / 4096); for a non-negative offset the page lies at or below it, less than one page away |
| Syscall.Mmap2OffsetExact | shellcode/c-runtime/src/z_syscall.c:188 | a page-aligned offset converts without loss |
| CType.IsSpace | shellcode/c-runtime/src/z_std.c:70-72 | true exactly for ' ' and the codes 9 to 13 |
| CType.IsDigit | shellcode/c-runtime/src/z_std.c:74-76 | true exactly for '0' to '9' |
| CType.IsAlpha | shellcode/c-runtime/src/z_std.c:78-80 | true exactly for 'A' to 'Z' and 'a' to 'z' |
| CType.IsUpper | shellcode/c-runtime/src/z_std.c:82-84 | true exactly for 'A' to 'Z' |
| CString.NulIndex | shellcode/c-runtime/src/z_std.c:4-11 | the index of the first NUL byte: that byte is NUL and none before it is |
| CString.Strlen | shellcode/c-runtime/src/z_std.c:4-11 | the loop returns the index of the first NUL byte |
| CString.Strncmp | shellcode/c-runtime/src/z_std.c:13-19 | only the bytes the loop reads must exist (byte i when the first i agree); the result is 0 or -1; it is 0 exactly when n is 0, when either string starts with NUL, or when both have n bytes and the first n agree |
| CString.Strcmp | shellcode/c-runtime/src/z_std.c:21-29 | the result is 0 or -1, and 0 exactly when the two C strings are equal |
| CString.Copied | shellcode/c-runtime/src/z_std.c:31-39 | bytes [0, n) come from the source, all other bytes of the destination are unchanged, and the length is kept |
| CString.Memcpy | shellcode/c-runtime/src/z_std.c:31-39 | the destination array afterwards is `Copied` of its old contents, and the destination is returned |
| CString.Memcmp | shellcode/c-runtime/src/z_std.c:41-50 | the result is 0 or 1, and 0 exactly when the first n bytes agree |
| CString.Filled | shellcode/c-runtime/src/z_std.c:52-59 | bytes [0, n) equal c, all other bytes are unchanged, and the length is kept |
| CString.Memset | shellcode/c-runtime/src/z_std.c:52-59 | the array afterwards is `Filled` of its old contents, and the buffer is returned |
| CString.Memmem | shellcode/c-runtime/src/z_std.c:61-68 | as written: the first matching offset below n - m, and NULL when no offset below n - m matches |
| CString.MemmemMissesLastOffset | shellcode/c-runtime/src/z_std.c:61-68 | the needle [7] in the haystack [7] matches at offset 0, yet z_memmem returns NULL |
| CString.MemmemAllOffsets | shellcode/c-runtime/src/z_std.c:61-68 | corrected: the first matching offset at or below n - m, and NULL exactly when no such offset matches |
| StrToL.DigitValue | shellcode/c-runtime/src/z_std.c:133-139 | a byte has a digit value exactly when it is a decimal digit or a letter: `c - '0'` for a digit, `c - 'A' + 10` for an upper-case and `c - 'a' + 10` for a lower-case letter, always below 36 |
| StrToL.SkipSpaces | shellcode/c-runtime/src/z_std.c:103-105 | the first non-blank position at or after i, within the string |
| StrToL.ScanPrefix | shellcode/c-runtime/src/z_std.c:103-126 | after blanks, a sign and a 0x/0b prefix: the digits start within the string; the base is in [1, 36]; a given base is replaced only by 16 or 2 |
| StrToL.DigitRunEnd | shellcode/c-runtime/src/z_std.c:132-143 | the end of the maximal run of digits of the base starting at i |
| StrToL.StrtolSpec | shellcode/c-runtime/src/z_std.c:86-165 | the value is always a long, and the end offset lies within the string |
| StrToL.StrtoulSpec | shellcode/c-runtime/src/z_std.c:167-237 | the value is always an unsigned long, and the end offset lies within the string |
| StrToL.ValueSnoc | shellcode/c-runtime/src/z_std.c:149-150 | appending a digit multiplies the run's value by the base and adds the digit |
| StrToL.NextDigit | shellcode/c-runtime/src/z_std.c:132-150 | a digit of the base at i extends the run, and its value grows as the loop computes it |
| StrToL.CutoffTest | shellcode/c-runtime/src/z_std.c:128-145 | the cutoff/cutlim test says exactly that `acc * base + c` exceeds the limit |
| StrToL.AccumulateStep | shellcode/c-runtime/src/z_std.c:145-151 | one pass of the digit loop keeps `acc`, `any` and the overflow flag consistent with the digits read so far |
| StrToL.OverflowSticks | shellcode/c-runtime/src/z_std.c:145-146 | once the digits exceed the limit, further digits keep them above it |
| StrToL.SkipBlanks | shellcode/c-runtime/src/z_std.c:103-105 | the do-while loop stops at `SkipSpaces` of the string |
| StrToL.ScanFront | shellcode/c-runtime/src/z_std.c:103-126 | the sign, the base and the start of the digits are those of `ScanPrefix` |
| StrToL.Accumulate | shellcode/c-runtime/src/z_std.c:132-152 | the loop stops at the end of the digit run; `any` is 0 for no digits, -1 exactly when the run's value exceeds the limit, and otherwise 1 with `acc` equal to that value |
| StrToL.Strtol | shellcode/c-runtime/src/z_std.c:86-165 | the value and the end offset are those of `StrtolSpec` |
| StrToL.Strtoul | shellcode/c-runtime/src/z_std.c:167-237 | the value and the end offset are those of `StrtoulSpec` |
| Ring.ModulusIsMultiple | shellcode/c-runtime/src/z_sync.c:134 | the counter modulus `ULONG_MAX - ULONG_MAX % length` is a multiple of length, at least length and at most ULONG_MAX |
| Ring.WrapSlot | shellcode/c-runtime/src/z_sync.c:136 | reducing a counter modulo a multiple of length does not change its slot |
| Ring.CounterStep | shellcode/c-runtime/src/z_sync.c:134 | stepping a counter by one, wrap-around included, moves its slot exactly one place on |
| Ring.PushCounters | shellcode/c-runtime/src/z_sync.c:128-147 | a push keeps the counters consistent with one more record, and `tail` names the slot after the last record |
| Ring.PopCounters | shellcode/c-runtime/src/z_sync.c:149-167 | a pop keeps the counters consistent with one record fewer, and the new head slot is one place on |
| Ring.CircularBuffer.constructor | shellcode/c-runtime/src/z_sync.c:101-109 | both counters are 0, size and length are recorded, the buffer is empty and every slot is IDLE |
| Ring.CircularBuffer.Size | shellcode/c-runtime/src/z_sync.c:116-118 | the result is below length, and equals the number of stored records when `2 * length` fits in 64 bits |
| Ring.CircularBuffer.SizeCounts | shellcode/c-runtime/src/z_sync.c:116-118 | the size formula on the counters equals the number of stored records |
| Ring.CircularBuffer.Full | shellcode/c-runtime/src/z_sync.c:120-122 | true exactly when length - 1 records are stored |
| Ring.CircularBuffer.Empty | shellcode/c-runtime/src/z_sync.c:124-126 | true exactly when no record is stored |
| Ring.CircularBuffer.Enqueue | shellcode/c-runtime/src/z_sync.c:128-147 | succeeds exactly when fewer than length - 1 records are stored; on success the item joins the back, only `tail` moves and only slot `tail % length` changes (IDLE to VALID); on failure nothing changes |
| Ring.CircularBuffer.Dequeue | shellcode/c-runtime/src/z_sync.c:149-167 | succeeds exactly when a record is stored; on success it returns the oldest record and removes it, only `head` moves and only slot `head % length` changes (VALID to IDLE); on failure nothing changes |
| Ring.FourSlotsHoldThree | shellcode/c-runtime/src/z_sync.c:120-122 | a ring of four slots accepts three records and refuses the fourth |
| Ring.TakeOneMakesRoom | shellcode/c-runtime/src/z_sync.c:149-167 | after one record is taken from a full ring, one more is accepted, and all come out in order |
| Sync.Mutex.TryLock | shellcode/c-runtime/src/z_sync.c:11-22 | a free word is taken (0 to 1); a held word parks the caller; any other word is retried unchanged |
| Sync.Mutex.Lock | shellcode/c-runtime/src/z_sync.c:11-22 | a free mutex becomes held |
| Sync.Mutex.Unlock | shellcode/c-runtime/src/z_sync.c:24-32 | only a held word (1) is released, and only then are all waiters woken; any other word is left alone |
| Sync.Cond.Signal | shellcode/c-runtime/src/z_sync.c:53-61 | the flag moves only from 0 to 1, waking one waiter; a raised flag is left alone and nobody is woken |
| Sync.Cond.Broadcast | shellcode/c-runtime/src/z_sync.c:63-71 | as Signal, but waking every waiter |
| Sync.Cond.WaitStep | shellcode/c-runtime/src/z_sync.c:34-51 | a raised flag is consumed (1 to 0) and the wait ends; otherwise the mutex is held again afterwards and the wait ends exactly on ETIMEDOUT |
| Sync.RwLock.ReadLock | shellcode/c-runtime/src/z_sync.c:73-81 | the reader count goes up by one, and `w_mutex` is taken exactly when the count becomes 1 |
| Sync.RwLock.ReadUnlock | shellcode/c-runtime/src/z_sync.c:83-91 | the reader count goes down by one, and `w_mutex` is released exactly when the count reaches 0 |
| Sync.RwLock.WriteLock | shellcode/c-runtime/src/z_sync.c:93-95 | the writer takes `w_mutex` when no reader or writer holds it |
| Sync.RwLock.WriteUnlock | shellcode/c-runtime/src/z_sync.c:97-99 | the writer releases `w_mutex` |
| Sync.SignalsCollapse | shellcode/c-runtime/src/z_sync.c:53-61 | two signals before a wait wake once; the wait returns at once and lowers the flag |
| Sync.ReadersHandOff | shellcode/c-runtime/src/z_sync.c:73-91 | of two readers only the first takes `w_mutex` and only the last releases it, after which a writer can take it |
| Memory.PageLength | shellcode/c-runtime/src/z_memory.c:78 | as written: the length is a page multiple; for a request up to MAX_REQUEST it holds the request and the header, with less than a page to spare |
| Memory.PageLengthWraps | shellcode/c-runtime/src/z_memory.c:78 | a request of 2^64 - 16 bytes gets page length 0 |
| Memory.CheckedPageLength | shellcode/c-runtime/src/z_memory.c:78 | corrected: no length exactly when the rounding overflows; otherwise a page multiple holding request and header, with less than a page to spare |
| Memory.CallocSize | shellcode/c-runtime/src/z_memory.c:121 | as written: `num * size` reduced modulo 2^64, and the exact product whenever it fits |
| Memory.CallocSizeWraps | shellcode/c-runtime/src/z_memory.c:120-127 | 2^32 elements of 2^32 bytes ask z_malloc for 0 bytes, which yields one page |
| Memory.CheckedCallocSize | shellcode/c-runtime/src/z_memory.c:120-127 | corrected: no count exactly when the product exceeds the largest request; otherwise the exact product, equal to what the source computes |
| Memory.Zeros | shellcode/c-runtime/src/z_memory.c:100-106 | a fresh anonymous mapping holds only zero bytes |
| Memory.MallocLookup | shellcode/c-runtime/src/z_memory.c:78-81 | the cache loop runs only for a page length of at most 0x10000, otherwise nothing is looked up or released; a hit holds at least the page length, every released block was shorter, and every record left names a mapped block |
| Memory.CacheLookup | shellcode/c-runtime/src/z_memory.c:81-96 | the cache loop: a hit is a block of at least the page length, and every unmapped block was smaller than it |
| Memory.LookupConserves | shellcode/c-runtime/src/z_memory.c:81-96 | every address cached before the loop ends up exactly once: still cached, handed out, or unmapped |
| Memory.LookupBounds | shellcode/c-runtime/src/z_memory.c:84-95 | the loop removes at most RETRY records for good, keeps every remaining record well formed (miss count at most 6), and accounts for every record |
| Memory.WrappedRequestTakesOldest | shellcode/c-runtime/src/z_memory.c:78-91 | as written: a request of 2^64 - 16 bytes gets page length 0, enters the cache loop and is handed the oldest cached block, whatever its size |
| Memory.SmallRequestTakesOldest | shellcode/c-runtime/src/z_memory.c:81-91 | a request of at most one page takes the oldest cached block at once |
| Memory.CachedOnce | shellcode/c-runtime/src/z_memory.c:44-59 | the oldest cached block is not in use and is cached only once |
| Memory.FreeToCache | shellcode/c-runtime/src/z_memory.c:49-54 | putting a block in use into the cache keeps each block in exactly one place |
| Memory.FreeUnmaps | shellcode/c-runtime/src/z_memory.c:58 | unmapping a block in use keeps each block in exactly one place |
| Memory.TakeCached | shellcode/c-runtime/src/z_memory.c:88-91 | handing out the oldest cached block with a new user size keeps each block in exactly one place |
| Memory.ExpireCached | shellcode/c-runtime/src/z_memory.c:93-95 | unmapping the oldest cached block keeps each block in exactly one place |
| Memory.RequeueCached | shellcode/c-runtime/src/z_memory.c:93 | putting the oldest record back with one more miss keeps each block in exactly one place |
| Memory.MapFresh | shellcode/c-runtime/src/z_memory.c:112-117 | adding a freshly mapped block in use keeps each block in exactly one place |
| Memory.Rewrite | shellcode/c-runtime/src/z_memory.c:63 | rewriting the header or bytes of a block, with its mapped size kept, keeps the shape |
| Memory.LookupDone | shellcode/c-runtime/src/z_memory.c:85-86 | on an empty cache, or with no tries left, the loop finds nothing and changes nothing |
| Memory.LookupHit | shellcode/c-runtime/src/z_memory.c:88-91 | a fitting oldest record ends the loop with a hit |
| Memory.LookupRelease | shellcode/c-runtime/src/z_memory.c:93-95 | an expired unfit record is unmapped and the loop goes on with the rest |
| Memory.LookupRequeue | shellcode/c-runtime/src/z_memory.c:93 | an unexpired unfit record goes to the back with one more miss, and the loop goes on |
| Memory.Heap.constructor | shellcode/c-runtime/src/z_memory.c:30-40 | an empty 100-slot cache of records, no blocks, none in use |
| Memory.Heap.Release | shellcode/c-runtime/src/z_memory.c:58 | z_munmap of a block removes exactly that block |
| Memory.MallocState | shellcode/c-runtime/src/z_memory.c:77-118 | the cache records left are the lookup's; NULL exactly when the lookup misses and the mapping fails; a hit gets the new user size, a fresh mapping sits HDR past the kernel's address with the page length and zero bytes; every other block is unchanged, and only the expired ones are gone |
| Memory.FreeState | shellcode/c-runtime/src/z_memory.c:44-59 | no block other than the freed one changes; NULL changes nothing; the block stays mapped, with {0, ptr} at the back of the cache, exactly when it is of cacheable size and the ring has room, and otherwise it is unmapped with the cache unchanged |
| Memory.MoveState | shellcode/c-runtime/src/z_memory.c:69-72 | the new block keeps its sizes, takes the first n bytes of the old one and keeps the rest; no block other than the two changes or appears |
| Memory.ClearState | shellcode/c-runtime/src/z_memory.c:123-124 | bytes [0, n) of the returned block become zero; its sizes, the other blocks and the cache are unchanged |
| Memory.Heap.Free | shellcode/c-runtime/src/z_memory.c:44-59 | the heap becomes `FreeState` of the old one, the shape is kept and the pointer is no longer in use |
| Memory.Heap.Keep | shellcode/c-runtime/src/z_memory.c:49-54 | the enqueue succeeds exactly when the ring has room; then {0, ptr} is at the back and the block leaves use, otherwise nothing changes |
| Memory.Heap.Drop | shellcode/c-runtime/src/z_memory.c:58 | the block is unmapped and leaves use; the cache is unchanged |
| Memory.Heap.LookupStep | shellcode/c-runtime/src/z_memory.c:85-95 | one pass: an empty cache ends the loop; a fitting oldest block is handed out with the new user size; an unfit one is unmapped when its miss count before the increment exceeds 5, and put back with one more miss otherwise |
| Memory.Heap.HandOut | shellcode/c-runtime/src/z_memory.c:88-91 | only the user size of the block changes, and the block comes into use |
| Memory.Heap.PassOver | shellcode/c-runtime/src/z_memory.c:93-95 | an unfit record is unmapped when expired and re-enqueued with one more miss otherwise |
| Memory.Heap.Requeue | shellcode/c-runtime/src/z_memory.c:93 | the re-enqueue after a dequeue always succeeds and puts the record at the back |
| Memory.Heap.Expire | shellcode/c-runtime/src/z_memory.c:94 | the expired block is unmapped and nothing else changes |
| Memory.Heap.Pass | shellcode/c-runtime/src/z_memory.c:84-96 | one pass of the loop carries out one step of `CacheLookup`: a pass that ends the loop settles the lookup, one that does not leaves the rest to the remaining tries |
| Memory.Heap.FromCache | shellcode/c-runtime/src/z_memory.c:81-96 | the loop returns `CacheLookup`'s hit and leaves its cache; exactly the released blocks are unmapped; a hit comes into use with the new user size and nothing else changes |
| Memory.Heap.Map | shellcode/c-runtime/src/z_memory.c:100-117 | a failed mapping yields NULL and changes nothing; otherwise the user pointer is the mapping plus HDR, and its header holds the user size and the page length over zero bytes |
| Memory.Heap.Malloc | shellcode/c-runtime/src/z_memory.c:77-118 | the pointer and the heap are those of `MallocState`; a non-NULL result was not in use and comes into use; the shape is kept |
| Memory.Heap.Move | shellcode/c-runtime/src/z_memory.c:69-72 | the heap becomes `MoveState` of the old one: the copy, then z_free of the old block; it leaves use |
| Memory.Heap.Resize | shellcode/c-runtime/src/z_memory.c:62-65 | only the user size of the block changes |
| Memory.Heap.Grow | shellcode/c-runtime/src/z_memory.c:67-72 | z_malloc as `MallocState`, which leaves the old block as it was, then `MoveState` of `min(old user size, size)` bytes into the new block; the new block replaces the old one in use |
| Memory.Heap.Realloc | shellcode/c-runtime/src/z_memory.c:61-75 | a NULL pointer is z_malloc (`MallocState`); a block whose mapping holds `size` keeps its pointer, the cache and every other block, and only its user size changes; otherwise the heap is `MallocState` then `MoveState`, so the new block holds the first `min(old user size, size)` bytes and the old one is freed; NULL only for a NULL pointer whose malloc failed |
| Memory.Heap.Clear | shellcode/c-runtime/src/z_memory.c:123-124 | bytes [0, n) of the block become zero and nothing else changes |
| Memory.Heap.Calloc | shellcode/c-runtime/src/z_memory.c:120-127 | as written: z_malloc of `num * size` modulo 2^64 (`MallocState`), then `ClearState` of that count; a non-NULL block has that user size and that many zero bytes |
| Memory.Heap.CheckedCalloc | shellcode/c-runtime/src/z_memory.c:120-127 | corrected: a product no block can hold yields NULL and leaves the heap as it was; any other is z_calloc of the exact product |
| Memory.ReuseAfterFree | shellcode/c-runtime/src/z_memory.c:81-91 | `malloc(10)`, `free`, then `malloc(4000)` returns the same block, although the kernel would refuse a new mapping |
| Memory.CallocWraps | shellcode/c-runtime/src/z_memory.c:120-127 | as written, `calloc(2^32, 2^32)` on a fresh heap returns a block of user size 0 instead of NULL; the checked version returns NULL |

## Left out

- The per-architecture syscall trampolines and the kernel entry
  (`z_syscall.c:10-96`). A wrapper is a function of the raw return value.
- Concurrency in `z_sync.c`:
  - the CAS retry loops, the busy-wait spins on slot states and the memory
    orderings;
  - each enqueue and dequeue is one atomic step, so PUTTING and TAKING are
    never observed between operations.
- Futex parking and waking: wake calls are reported by the number of waiters
  they would wake, and nothing about liveness is stated.
- Sync.RwLock.ReadLock: requires that no writer holds the lock, because
  otherwise the caller would block forever in a one-thread model. The same
  goes for WriteLock with readers or a writer present.
- The futex timeout argument of `z_cond_wait`: the outcome of FUTEX_WAIT is
  the parameter `rc`.
- The `LOG` diagnostics: they only produce output.
- `z_circular_buffer_destroy` (`z_sync.c:111-114`): the ring's arrays are
  Dafny arrays, not blocks of the allocator.
- The calloc of the ring's arrays in `z_circular_buffer_init`: the arrays are
  allocated fresh, and the state array starts IDLE as the zero fill would make
  it.
- Memory as addresses:
  - the allocator is modelled on values: a block is a map entry keyed by its
    user pointer, holding its header and bytes;
  - mapping ranges do not overlap in the model. The kernel's answer is
    required not to be a block that is still mapped;
  - pointer arithmetic into a block and access past its user size are not
    modelled.
- Memory.Heap.Malloc: requires `size <= MAX_REQUEST`. Above it the page length
  wraps (see Findings), and the source would hand out a block smaller than
  asked for.
- Memory.Heap.Realloc: requires that `z_malloc` succeeds on the moving path
  for a non-NULL pointer. The source copies into the NULL result there, which
  is undefined behaviour. It also inherits `Heap.Malloc`'s
  `size <= MAX_REQUEST`, for the same reason: above it the page length
  computed by `z_malloc` wraps (see Findings).
- Memory.Heap.Grow: the moving path of `Heap.Realloc`, with the same two
  requirements: `z_malloc` succeeds, and `size <= MAX_REQUEST`.
- Memory.Heap.Calloc: requires the wrapped product to be at most
  `MAX_REQUEST`, for the same reason as `Heap.Malloc`.
- The `DISABLE_CACHE` build of `z_memory.c`: only the cached build is
  modelled.
- The `#ifndef PAGE_SIZE` override: the page is 0x1000.
- CString.Strlen: the source counts in an `int` (`z_std.c:5`), which
  overflows for a string of 2^31 bytes or more; the model's count is
  unbounded.
- CString.Memcpy: the source and destination are two separate arrays, so
  buffers that partly overlap inside one allocation cannot be expressed. For
  them the source's forward, byte-at-a-time copy repeats bytes (with
  `dst = src + 1` every copied byte becomes `src[0]`); the model says nothing
  about that case.
- CString.Memmem: the source counts offsets in an `int` (`z_std.c:62`) and
  compares it with the `size_t` value `n - m`; once `n - m` exceeds
  2^31 - 1 the counter overflows before every offset is tried. The model's
  counter is unbounded. It also requires `m <= n`: for a longer needle the
  source's `n - m` wraps to a huge `size_t` and the search reads past the
  haystack, which is undefined behaviour. `CString.MemmemAllOffsets` has the
  same unbounded counter.
- `z_strtoul`: requires `base <= 36`, since the source does no range check
  there and would divide by an arbitrary cast base.
- The thin wrappers (open, read, write, stat, kill, exit and so on): they
  share the modelled wrapper shape and have no logic of their own.
- The 32-bit targets are covered only for the mmap2 offset conversion. The
  rest of the model uses the LP64 widths.

## Findings

| source | as written | input that shows it | evidently intended | confidence | as-written member | corrected member |
|---|---|---|---|---|---|---|
| shellcode/c-runtime/src/z_std.c:62 | the loop tries the offsets `i < n - m` | haystack [7], needle [7], n = m = 1: the match at offset 0 is not found | try every offset `i <= n - m` | high, not executed | CString.MemmemMissesLastOffset | CString.MemmemAllOffsets |
| shellcode/c-runtime/src/z_memory.c:78 | `size + HDR + PAGE_SIZE - 1` wraps around 2^64 | `z_malloc(2^64 - 16)` computes page length 0; the cache loop then hands out any cached block for it | refuse a request whose rounded length does not fit (return NULL) | high, not executed | Memory.WrappedRequestTakesOldest | Memory.CheckedPageLength |
| shellcode/c-runtime/src/z_memory.c:121 | `num * size` is not overflow-checked | `z_calloc(2^32, 2^32)` asks z_malloc for 0 bytes and returns a one-page block | return NULL when the product does not fit | high, not executed | Memory.CallocWraps | Memory.Heap.CheckedCalloc |
