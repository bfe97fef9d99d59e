/** The page allocator of the runtime (z_malloc, z_free, z_realloc,
    z_calloc). Every block is its own anonymous mapping whose first two words
    hold the user size and the mapped size; the caller gets the address just
    after them. Freed blocks of one to sixteen pages go into a 100-slot
    circular buffer and are handed out again by later requests that fit.

    A block is a `Block` record in the map `blocks`, keyed by the address the
    caller holds; its mapping starts HDR bytes earlier and is `allocSize`
    bytes long, and its `bytes` are the user part of the mapping. The kernel
    is an oracle: the answer of each mmap call is the raw value `rc` it
    returned. The ghost set `live` holds the blocks handed out and not yet
    freed. */
module Memory {
  import opened Machine
  import opened Wrappers
  import opened Syscall
  import opened Ring
  import opened CString

  const PAGE: nat := 0x1000

  /** CRT_SIZE_HDR: two unsigned longs, user size then mapped size. */
  const HDR: nat := 2 * WORD_SIZE

  const CACHE_COUNT: nat := 100
  const CACHE_LOWER: nat := 0x1000
  const CACHE_UPPER: nat := 0x10000
  const CACHE_RETRY: nat := 5
  const CACHE_EXPIRED: int := 5

  /** The largest request whose page length does not wrap around 2^64. */
  const MAX_REQUEST: nat := ULONG_MAX - HDR - (PAGE - 1)

  /** cache_record_t: how often the block was passed over, and its address. */
  datatype CacheRecord = CacheRecord(miss: int, ptr: int)

  /** The two header words of a block and the bytes after them. */
  datatype Block = Block(userSize: nat, allocSize: nat, bytes: seq<Byte>)

  // ---------------------------------------------------------------------
  // Lengths

  /** `(size + CRT_SIZE_HDR + PAGE_SIZE - 1) & ~(PAGE_SIZE - 1)` in 64-bit
      arithmetic. Up to MAX_REQUEST it is the header and the request rounded
      up to whole pages. */
  function PageLength(size: UInt64): (len: UInt64)
    ensures len % PAGE == 0
    ensures size <= MAX_REQUEST ==> size + HDR <= len < size + HDR + PAGE
  {
    var sum := (size + HDR + PAGE - 1) % TWO_64;
    sum - sum % PAGE
  }

  /** Above MAX_REQUEST the sum wraps: a request for 2^64 - 16 bytes gets
      length 0, which every cached block satisfies. */
  lemma PageLengthWraps()
    ensures ULONG_MAX - 15 > MAX_REQUEST
    ensures PageLength(ULONG_MAX - 15) == 0
  {
  }

  /** The length computation with the overflow caught: no length for a
      request that does not fit, and otherwise a page multiple holding the
      header and the request. */
  function CheckedPageLength(size: UInt64): (len: Option<UInt64>)
    ensures len.None? <==> size + HDR + PAGE - 1 > ULONG_MAX
    ensures len.Some? ==> len.value % PAGE == 0 && size + HDR <= len.value < size + HDR + PAGE
  {
    if size > MAX_REQUEST then None else Some(PageLength(size))
  }

  /** The byte count z_calloc asks z_malloc for: `num * size` in unsigned
      long arithmetic, which wraps around 2^64 without notice. */
  function CallocSize(num: UInt64, size: UInt64): (n: UInt64)
    ensures num * size <= ULONG_MAX ==> n == num * size
    ensures n == num * size - (num * size / TWO_64) * TWO_64
  {
    (num * size) % TWO_64
  }

  /** A product too large for an unsigned long wraps to a small request:
      2^32 elements of 2^32 bytes ask z_malloc for nothing at all. */
  lemma CallocSizeWraps()
    ensures TWO_32 * TWO_32 > ULONG_MAX
    ensures CallocSize(TWO_32, TWO_32) == 0
    ensures PageLength(CallocSize(TWO_32, TWO_32)) == PAGE
  {
  }

  /** The byte count with the overflow caught: none when the product does
      not fit an unsigned long or no page length can hold it, and otherwise
      exactly what z_calloc computes. */
  function CheckedCallocSize(num: UInt64, size: UInt64): (n: Option<UInt64>)
    ensures n.None? <==> num * size > MAX_REQUEST
    ensures n.Some? ==> n.value == num * size == CallocSize(num, size)
  {
    if num * size > MAX_REQUEST then None else Some(num * size)
  }

  /** `n` zero bytes: what a fresh anonymous mapping holds. */
  function Zeros(n: nat): (z: seq<Byte>)
    ensures |z| == n && forall i :: 0 <= i < n ==> z[i] == 0
  {
    seq(n, _ => 0)
  }

  // ---------------------------------------------------------------------
  // Heap shape

  /** A block's header agrees with its mapping: at least a header long, a
      page multiple, user size within the mapping, `bytes` the rest of it. */
  predicate BlockOk(b: Block)
  {
    && HDR <= b.allocSize
    && b.allocSize % PAGE == 0
    && b.userSize <= b.allocSize - HDR
    && |b.bytes| == b.allocSize - HDR
  }

  /** Every block lies just after the header at the start of a mapping, and
      its header agrees with the mapping. */
  predicate WellFormed(blocks: map<int, Block>)
  {
    forall p :: p in blocks ==> p >= HDR && BlockOk(blocks[p])
  }

  /** The addresses of the cache records, oldest first. */
  function Ptrs(q: seq<CacheRecord>): (ps: seq<int>)
    ensures |ps| == |q| && forall i :: 0 <= i < |q| ==> ps[i] == q[i].ptr
  {
    if q == [] then [] else [q[0].ptr] + Ptrs(q[1..])
  }

  /** Every cached record names a block of one to sixteen pages and has been
      passed over at most six times. */
  predicate CachedOk(q: seq<CacheRecord>, blocks: map<int, Block>)
  {
    forall i :: 0 <= i < |q| ==>
      && q[i].ptr in blocks
      && 0 <= q[i].miss <= CACHE_EXPIRED + 1
      && CACHE_LOWER <= blocks[q[i].ptr].allocSize <= CACHE_UPPER
  }

  // ---------------------------------------------------------------------
  // The cache lookup of z_malloc

  /** What the cache loop of z_malloc does: the block it hands out, if any,
      the cache it leaves, and the blocks it unmaps, in order. */
  datatype Lookup = Lookup(hit: Option<int>, queue: seq<CacheRecord>, released: seq<int>)

  /** Up to `tries` times: take the oldest record; a block at least `length`
      long is the answer; a block passed over more than CACHE_EXPIRED times
      before is unmapped; any other goes to the back with its miss count
      raised. An empty cache ends the search. */
  function CacheLookup(queue: seq<CacheRecord>, blocks: map<int, Block>, length: nat, tries: nat): (r: Lookup)
    requires forall i :: 0 <= i < |queue| ==> queue[i].ptr in blocks
    ensures forall i :: 0 <= i < |r.queue| ==> r.queue[i].ptr in blocks
    ensures r.hit.Some? ==> r.hit.value in blocks && blocks[r.hit.value].allocSize >= length
    ensures forall i :: 0 <= i < |r.released| ==> r.released[i] in blocks && blocks[r.released[i]].allocSize < length
    decreases tries
  {
    if tries == 0 || queue == [] then Lookup(None, queue, [])
    else
      var rec := queue[0];
      if blocks[rec.ptr].allocSize >= length then Lookup(Some(rec.ptr), queue[1..], [])
      else if rec.miss > CACHE_EXPIRED then
        var rest := CacheLookup(queue[1..], blocks, length, tries - 1);
        Lookup(rest.hit, rest.queue, [rec.ptr] + rest.released)
      else
        CacheLookup(queue[1..] + [rec.(miss := rec.miss + 1)], blocks, length, tries - 1)
  }

  /** The lookup z_malloc performs for a request: none above sixteen pages. */
  function MallocLookup(queue: seq<CacheRecord>, blocks: map<int, Block>, size: UInt64): (r: Lookup)
    requires forall i :: 0 <= i < |queue| ==> queue[i].ptr in blocks
    ensures r.hit.Some? ==> r.hit.value in blocks && blocks[r.hit.value].allocSize >= PageLength(size)
    ensures forall i :: 0 <= i < |r.released| ==>
              r.released[i] in blocks && blocks[r.released[i]].allocSize < PageLength(size)
    ensures forall i :: 0 <= i < |r.queue| ==> r.queue[i].ptr in blocks
    ensures PageLength(size) > CACHE_UPPER ==> r == Lookup(None, queue, [])
  {
    var length := PageLength(size);
    if length <= CACHE_UPPER then CacheLookup(queue, blocks, length, CACHE_RETRY)
    else Lookup(None, queue, [])
  }

  lemma PtrsAppend(q: seq<CacheRecord>, rec: CacheRecord)
    ensures Ptrs(q + [rec]) == Ptrs(q) + [rec.ptr]
  {
  }

  /** The addresses of a sequence, with multiplicity. */
  function Bag(s: seq<int>): multiset<int>
  {
    if s == [] then multiset{} else multiset{s[0]} + Bag(s[1..])
  }

  lemma {:induction false} BagAppend(s: seq<int>, t: seq<int>)
    ensures Bag(s + t) == Bag(s) + Bag(t)
  {
    if s == [] {
      assert s + t == t;
    } else {
      assert (s + t)[1..] == s[1..] + t;
      BagAppend(s[1..], t);
    }
  }

  /** The addresses a lookup result accounts for. */
  function Accounted(r: Lookup): multiset<int>
  {
    Bag(Ptrs(r.queue)) + Bag(r.released) + if r.hit.Some? then multiset{r.hit.value} else multiset{}
  }

  /** `r` accounts for exactly the addresses of `queue`. */
  predicate Conserved(queue: seq<CacheRecord>, r: Lookup)
  {
    Bag(Ptrs(queue)) == Accounted(r)
  }

  /** Taking the oldest record out accounts for its address once. */
  lemma PtrsFront(q: seq<CacheRecord>)
    requires q != []
    ensures Bag(Ptrs(q)) == multiset{q[0].ptr} + Bag(Ptrs(q[1..]))
  {
    assert Ptrs(q)[1..] == Ptrs(q[1..]);
  }

  /** Unmapping one more address adds it to what a result accounts for. */
  lemma AccountedRelease(rest: Lookup, p: int)
    ensures Accounted(Lookup(rest.hit, rest.queue, [p] + rest.released)) == Accounted(rest) + multiset{p}
  {
    assert ([p] + rest.released)[1..] == rest.released;
  }

  /** Moving the oldest record to the back, with any miss count, keeps the
      addresses of the cache. */
  lemma PtrsRotate(q: seq<CacheRecord>, miss: int)
    requires q != []
    ensures Bag(Ptrs(q[1..] + [q[0].(miss := miss)])) == Bag(Ptrs(q))
  {
    PtrsAppend(q[1..], q[0].(miss := miss));
    BagAppend(Ptrs(q[1..]), [q[0].ptr]);
    assert Bag([q[0].ptr]) == multiset{q[0].ptr};
    PtrsFront(q);
  }

  /** Conservation over a lookup step that unmaps the oldest record, given
      conservation over the rest of the search, `rest`. */
  lemma ReleaseStep(queue: seq<CacheRecord>, blocks: map<int, Block>, length: nat, tries: nat, rest: Lookup)
    requires forall i :: 0 <= i < |queue| ==> queue[i].ptr in blocks
    requires tries > 0 && queue != []
    requires blocks[queue[0].ptr].allocSize < length && queue[0].miss > CACHE_EXPIRED
    requires rest == CacheLookup(queue[1..], blocks, length, tries - 1)
    requires Conserved(queue[1..], rest)
    ensures Conserved(queue, CacheLookup(queue, blocks, length, tries))
  {
    assert CacheLookup(queue, blocks, length, tries) == Lookup(rest.hit, rest.queue, [queue[0].ptr] + rest.released);
    AccountedRelease(rest, queue[0].ptr);
    PtrsFront(queue);
  }

  /** Conservation over a lookup step that puts the oldest record back as
      `next`, given conservation over the rest of the search, `rest`. */
  lemma RequeueStep(queue: seq<CacheRecord>, blocks: map<int, Block>, length: nat, tries: nat, next: seq<CacheRecord>, rest: Lookup)
    requires forall i :: 0 <= i < |queue| ==> queue[i].ptr in blocks
    requires tries > 0 && queue != []
    requires blocks[queue[0].ptr].allocSize < length && queue[0].miss <= CACHE_EXPIRED
    requires next == queue[1..] + [queue[0].(miss := queue[0].miss + 1)]
    requires rest == CacheLookup(next, blocks, length, tries - 1)
    requires Conserved(next, rest)
    ensures Conserved(queue, CacheLookup(queue, blocks, length, tries))
  {
    assert CacheLookup(queue, blocks, length, tries) == rest;
    PtrsRotate(queue, queue[0].miss + 1);
  }

  /** The unmapping case of LookupConserves. */
  lemma {:induction false} ConservesRelease(queue: seq<CacheRecord>, blocks: map<int, Block>, length: nat, tries: nat)
    requires forall i :: 0 <= i < |queue| ==> queue[i].ptr in blocks
    requires tries > 0 && queue != []
    requires blocks[queue[0].ptr].allocSize < length && queue[0].miss > CACHE_EXPIRED
    ensures Conserved(queue, CacheLookup(queue, blocks, length, tries))
    decreases tries, 0
  {
    var rest := CacheLookup(queue[1..], blocks, length, tries - 1);
    LookupConserves(queue[1..], blocks, length, tries - 1);
    assert Conserved(queue[1..], rest);
    ReleaseStep(queue, blocks, length, tries, rest);
  }

  /** The re-enqueueing case of LookupConserves. */
  lemma {:induction false} ConservesRequeue(queue: seq<CacheRecord>, blocks: map<int, Block>, length: nat, tries: nat)
    requires forall i :: 0 <= i < |queue| ==> queue[i].ptr in blocks
    requires tries > 0 && queue != []
    requires blocks[queue[0].ptr].allocSize < length && queue[0].miss <= CACHE_EXPIRED
    ensures Conserved(queue, CacheLookup(queue, blocks, length, tries))
    decreases tries, 0
  {
    var next := queue[1..] + [queue[0].(miss := queue[0].miss + 1)];
    var rest := CacheLookup(next, blocks, length, tries - 1);
    LookupConserves(next, blocks, length, tries - 1);
    assert Conserved(next, rest);
    RequeueStep(queue, blocks, length, tries, next, rest);
  }

  /** The lookup loses no block: each address of the cache ends up either
      still cached, handed out, or unmapped. */
  lemma {:induction false} LookupConserves(queue: seq<CacheRecord>, blocks: map<int, Block>, length: nat, tries: nat)
    requires forall i :: 0 <= i < |queue| ==> queue[i].ptr in blocks
    ensures Conserved(queue, CacheLookup(queue, blocks, length, tries))
    decreases tries, 1
  {
    if tries == 0 || queue == [] {
      assert CacheLookup(queue, blocks, length, tries) == Lookup(None, queue, []);
    } else if blocks[queue[0].ptr].allocSize >= length {
      assert CacheLookup(queue, blocks, length, tries) == Lookup(Some(queue[0].ptr), queue[1..], []);
      PtrsFront(queue);
    } else if queue[0].miss > CACHE_EXPIRED {
      ConservesRelease(queue, blocks, length, tries);
    } else {
      ConservesRequeue(queue, blocks, length, tries);
    }
  }

  /** The lookup takes at most `tries` records out for good, loses none of
      the others, and keeps the cache well formed: a record put back has
      been passed over at most CACHE_EXPIRED + 1 times. */
  lemma {:induction false} LookupBounds(queue: seq<CacheRecord>, blocks: map<int, Block>, length: nat, tries: nat)
    requires CachedOk(queue, blocks)
    ensures var r := CacheLookup(queue, blocks, length, tries);
            && CachedOk(r.queue, blocks)
            && |r.released| + (if r.hit.Some? then 1 else 0) <= tries
            && |r.queue| + |r.released| + (if r.hit.Some? then 1 else 0) == |queue|
    decreases tries
  {
    if tries == 0 || queue == [] {
    } else {
      var rec := queue[0];
      if blocks[rec.ptr].allocSize >= length {
      } else if rec.miss > CACHE_EXPIRED {
        LookupBounds(queue[1..], blocks, length, tries - 1);
      } else {
        var next := queue[1..] + [rec.(miss := rec.miss + 1)];
        assert CachedOk(next, blocks);
        LookupBounds(next, blocks, length, tries - 1);
      }
    }
  }

  /** The wrapped request of PageLengthWraps enters the cache loop, whose
      length test every block passes: the oldest cached block is handed out
      for 2^64 - 16 bytes, whatever its size. */
  lemma WrappedRequestTakesOldest(queue: seq<CacheRecord>, blocks: map<int, Block>)
    requires |queue| > 0 && forall i :: 0 <= i < |queue| ==> queue[i].ptr in blocks
    ensures ULONG_MAX - 15 > MAX_REQUEST && PageLength(ULONG_MAX - 15) == 0
    ensures MallocLookup(queue, blocks, ULONG_MAX - 15) == Lookup(Some(queue[0].ptr), queue[1..], [])
  {
  }

  /** A request for at most a page less than the smallest cached size finds
      the oldest cached block at once. */
  lemma {:induction false} SmallRequestTakesOldest(queue: seq<CacheRecord>, blocks: map<int, Block>, size: UInt64)
    requires CachedOk(queue, blocks) && |queue| > 0 && size <= CACHE_LOWER - HDR
    ensures MallocLookup(queue, blocks, size) == Lookup(Some(queue[0].ptr), queue[1..], [])
  {
    assert PageLength(size) <= CACHE_LOWER;
  }

  // ---------------------------------------------------------------------
  // The heap

  /** The blocks left once the addresses in `released` are unmapped. */
  function Unmapped(blocks: map<int, Block>, released: seq<int>): (r: map<int, Block>)
    ensures forall p :: p in r <==> p in blocks && p !in released
    ensures forall p :: p in r ==> r[p] == blocks[p]
  {
    blocks - set p | p in released
  }

  /** A lookup continued after the addresses in `released` were unmapped. */
  function Resumed(r: Lookup, released: seq<int>): Lookup
  {
    Lookup(r.hit, r.queue, released + r.released)
  }

  /** The sizes z_free keeps in the cache: one to sixteen pages. */
  predicate Cacheable(allocSize: nat)
  {
    CACHE_LOWER <= allocSize <= CACHE_UPPER
  }

  /** The shape of the heap: the blocks are well formed, every cache record
      names a block of a cacheable size, and every block is either cached,
      exactly once, or live, never both. */
  predicate Shape(cached: seq<CacheRecord>, blocks: map<int, Block>, live: set<int>)
  {
    && WellFormed(blocks)
    && CachedOk(cached, blocks)
    && live <= blocks.Keys
    && Bag(Ptrs(cached)) + multiset(live) == multiset(blocks.Keys)
  }

  lemma {:induction false} BagHas(s: seq<int>, x: int)
    ensures x in Bag(s) <==> x in s
  {
    if s != [] {
      BagHas(s[1..], x);
      assert s == [s[0]] + s[1..];
    }
  }

  lemma Cancel(a: multiset<int>, b: multiset<int>, p: int)
    requires a + multiset{p} == b + multiset{p}
    ensures a == b
  {
    forall x
      ensures a[x] == b[x]
    {
      assert (a + multiset{p})[x] == (b + multiset{p})[x];
    }
  }

  /** A cached address is cached once and is not live. */
  lemma CachedOnce(cached: seq<CacheRecord>, blocks: map<int, Block>, live: set<int>)
    requires Shape(cached, blocks, live) && cached != []
    ensures cached[0].ptr !in live
    ensures cached[0].ptr !in Ptrs(cached[1..])
  {
    var p := cached[0].ptr;
    PtrsFront(cached);
    BagHas(Ptrs(cached[1..]), p);
    assert multiset(blocks.Keys)[p] <= 1;
  }

  /** z_free caching a live block keeps the shape. */
  lemma FreeToCache(cached: seq<CacheRecord>, blocks: map<int, Block>, live: set<int>, p: int)
    requires Shape(cached, blocks, live) && p in live && Cacheable(blocks[p].allocSize)
    ensures Shape(cached + [CacheRecord(0, p)], blocks, live - {p})
  {
    PtrsAppend(cached, CacheRecord(0, p));
    BagAppend(Ptrs(cached), [p]);
    assert Bag([p]) == multiset{p};
    assert multiset(live) == multiset(live - {p}) + multiset{p};
  }

  /** z_free unmapping a live block keeps the shape. */
  lemma FreeUnmaps(cached: seq<CacheRecord>, blocks: map<int, Block>, live: set<int>, p: int)
    requires Shape(cached, blocks, live) && p in live
    ensures Shape(cached, blocks - {p}, live - {p})
  {
    BagHas(Ptrs(cached), p);
    assert multiset(blocks.Keys)[p] <= 1;
    assert p !in Ptrs(cached);
    assert (blocks - {p}).Keys == blocks.Keys - {p};
    assert multiset(blocks.Keys) == multiset(blocks.Keys - {p}) + multiset{p};
    assert multiset(live) == multiset(live - {p}) + multiset{p};
    Cancel(Bag(Ptrs(cached)) + multiset(live - {p}), multiset(blocks.Keys - {p}), p);
  }

  /** z_malloc handing out the oldest cached block, with its user size set,
      keeps the shape: the block moves from the cache to the live set. */
  lemma TakeCached(cached: seq<CacheRecord>, blocks: map<int, Block>, live: set<int>, size: nat)
    requires Shape(cached, blocks, live) && cached != []
    requires size + HDR <= blocks[cached[0].ptr].allocSize
    ensures var p := cached[0].ptr;
            p !in live && Shape(cached[1..], blocks[p := blocks[p].(userSize := size)], live + {p})
  {
    var p := cached[0].ptr;
    CachedOnce(cached, blocks, live);
    PtrsFront(cached);
    assert blocks[p := blocks[p].(userSize := size)].Keys == blocks.Keys;
    assert multiset(live + {p}) == multiset(live) + multiset{p};
  }

  /** z_malloc unmapping an expired cached block keeps the shape. */
  lemma ExpireCached(cached: seq<CacheRecord>, blocks: map<int, Block>, live: set<int>)
    requires Shape(cached, blocks, live) && cached != []
    ensures Shape(cached[1..], blocks - {cached[0].ptr}, live)
  {
    var p := cached[0].ptr;
    CachedOnce(cached, blocks, live);
    PtrsFront(cached);
    assert (blocks - {p}).Keys == blocks.Keys - {p};
    assert multiset(blocks.Keys) == multiset(blocks.Keys - {p}) + multiset{p};
    Cancel(Bag(Ptrs(cached[1..])) + multiset(live), multiset(blocks.Keys - {p}), p);
    forall i | 0 <= i < |cached[1..]|
      ensures cached[1..][i].ptr != p
    {
      assert Ptrs(cached[1..])[i] == cached[1..][i].ptr;
    }
  }

  /** z_malloc putting a passed-over block back with its miss count raised
      keeps the shape, as long as the count stays within CACHE_EXPIRED + 1. */
  lemma RequeueCached(cached: seq<CacheRecord>, blocks: map<int, Block>, live: set<int>)
    requires Shape(cached, blocks, live) && cached != [] && cached[0].miss <= CACHE_EXPIRED
    ensures Shape(cached[1..] + [cached[0].(miss := cached[0].miss + 1)], blocks, live)
  {
    PtrsRotate(cached, cached[0].miss + 1);
  }

  /** Adding a fresh mapping as a live block keeps the shape. */
  lemma MapFresh(cached: seq<CacheRecord>, blocks: map<int, Block>, live: set<int>, p: int, b: Block)
    requires Shape(cached, blocks, live) && p !in blocks && p >= HDR && BlockOk(b)
    ensures Shape(cached, blocks[p := b], live + {p})
  {
    assert blocks[p := b].Keys == blocks.Keys + {p};
    assert multiset(blocks.Keys + {p}) == multiset(blocks.Keys) + multiset{p};
    assert multiset(live + {p}) == multiset(live) + multiset{p};
  }

  /** Rewriting a block's header or bytes within its mapping keeps the
      shape. */
  lemma Rewrite(cached: seq<CacheRecord>, blocks: map<int, Block>, live: set<int>, p: int, b: Block)
    requires Shape(cached, blocks, live) && p in blocks && BlockOk(b) && b.allocSize == blocks[p].allocSize
    ensures Shape(cached, blocks[p := b], live)
  {
    assert blocks[p := b].Keys == blocks.Keys;
  }

  /** The lookup on an empty cache, or with no tries left, finds nothing
      and changes nothing. */
  lemma LookupDone(queue: seq<CacheRecord>, blocks: map<int, Block>, length: nat, tries: nat)
    requires forall i :: 0 <= i < |queue| ==> queue[i].ptr in blocks
    requires queue == [] || tries == 0
    ensures CacheLookup(queue, blocks, length, tries) == Lookup(None, queue, [])
  {
  }

  /** A lookup whose oldest record fits ends there. */
  lemma LookupHit(queue: seq<CacheRecord>, blocks: map<int, Block>, length: nat, tries: nat)
    requires forall i :: 0 <= i < |queue| ==> queue[i].ptr in blocks
    requires tries > 0 && queue != [] && blocks[queue[0].ptr].allocSize >= length
    ensures CacheLookup(queue, blocks, length, tries) == Lookup(Some(queue[0].ptr), queue[1..], [])
  {
  }

  /** A lookup that unmaps its oldest record goes on with the rest, the
      record's address counted as unmapped. */
  lemma LookupRelease(queue: seq<CacheRecord>, blocks: map<int, Block>, length: nat, tries: nat, released: seq<int>)
    requires forall i :: 0 <= i < |queue| ==> queue[i].ptr in blocks
    requires tries > 0 && queue != []
    requires blocks[queue[0].ptr].allocSize < length && queue[0].miss > CACHE_EXPIRED
    ensures Resumed(CacheLookup(queue, blocks, length, tries), released)
            == Resumed(CacheLookup(queue[1..], blocks, length, tries - 1), released + [queue[0].ptr])
  {
    var rest := CacheLookup(queue[1..], blocks, length, tries - 1);
    assert released + ([queue[0].ptr] + rest.released) == (released + [queue[0].ptr]) + rest.released;
  }

  /** A lookup that puts its oldest record back goes on with the rotated
      cache. */
  lemma LookupRequeue(queue: seq<CacheRecord>, blocks: map<int, Block>, length: nat, tries: nat)
    requires forall i :: 0 <= i < |queue| ==> queue[i].ptr in blocks
    requires tries > 0 && queue != []
    requires blocks[queue[0].ptr].allocSize < length && queue[0].miss <= CACHE_EXPIRED
    ensures var next := queue[1..] + [queue[0].(miss := queue[0].miss + 1)];
            (forall i :: 0 <= i < |next| ==> next[i].ptr in blocks)
            && CacheLookup(queue, blocks, length, tries) == CacheLookup(next, blocks, length, tries - 1)
  {
  }

  /** Unmapping one more address. */
  lemma UnmappedOneMore(blocks: map<int, Block>, released: seq<int>, p: int)
    ensures Unmapped(blocks, released + [p]) == Unmapped(blocks, released) - {p}
  {
  }

  /** The heap as a value: the mapped blocks and the cache records, oldest
      first. */
  datatype HeapState = HeapState(blocks: map<int, Block>, queue: seq<CacheRecord>)

  /** The pointer z_malloc returns and the heap it leaves behind. */
  datatype Allocation = Allocation(ptr: int, heap: HeapState)

  /** Every cache record names a mapped block. */
  predicate Indexed(s: HeapState)
  {
    forall i :: 0 <= i < |s.queue| ==> s.queue[i].ptr in s.blocks
  }

  /** z_malloc on the heap `s` when the kernel answers a mapping request
      with `rc`: the cache loop runs for a page length of at most
      CACHE_UPPER and its hit is handed out; otherwise the fresh mapping is,
      or NULL when the kernel refuses it. Blocks the loop expired are gone. */
  function MallocState(s: HeapState, size: UInt64, rc: Int64): (a: Allocation)
    requires WellFormed(s.blocks) && Indexed(s) && size <= MAX_REQUEST
    ensures a.ptr != NULL ==>
              && a.ptr in a.heap.blocks && a.heap.blocks[a.ptr].userSize == size
              && size <= |a.heap.blocks[a.ptr].bytes|
    ensures var look := MallocLookup(s.queue, s.blocks, size);
            && a.heap.queue == look.queue
            && (a.ptr == NULL <==> look.hit.None? && Mmap(rc).e != 0)
            && (look.hit.Some? ==> a.ptr == look.hit.value && a.heap.blocks[a.ptr] == s.blocks[a.ptr].(userSize := size))
            && (look.hit.None? && a.ptr != NULL ==>
                  && a.ptr == Mmap(rc).v + HDR && a.heap.blocks[a.ptr].allocSize == PageLength(size)
                  && a.heap.blocks[a.ptr].bytes == Zeros(PageLength(size) - HDR))
    ensures var look := MallocLookup(s.queue, s.blocks, size);
            && (forall q :: q in s.blocks && q !in look.released ==> q in a.heap.blocks)
            && (forall q :: q in a.heap.blocks && q != a.ptr ==>
                  q in s.blocks && q !in look.released && a.heap.blocks[q] == s.blocks[q])
  {
    var look := MallocLookup(s.queue, s.blocks, size);
    var kept := Unmapped(s.blocks, look.released);
    var length := PageLength(size);
    if look.hit.Some? then
      var p := look.hit.value;
      Allocation(p, HeapState(kept[p := s.blocks[p].(userSize := size)], look.queue))
    else if Mmap(rc).e != 0 then
      Allocation(NULL, HeapState(kept, look.queue))
    else
      var p := Mmap(rc).v + HDR;
      Allocation(p, HeapState(kept[p := Block(size, length, Zeros(length - HDR))], look.queue))
  }

  /** z_free on the heap `s`: nothing for NULL; a block of a cacheable size
      goes to the back of the cache, miss count 0, while the cache has room;
      any other block is unmapped. */
  function FreeState(s: HeapState, p: int): (r: HeapState)
    ensures r.blocks - {p} == s.blocks - {p}
    ensures p == NULL ==> r == s
    ensures p != NULL ==>
              (p in r.blocks <==> p in s.blocks && Cacheable(s.blocks[p].allocSize) && |s.queue| < CACHE_COUNT - 1)
    ensures p != NULL && p in r.blocks ==> r.blocks[p] == s.blocks[p] && r.queue == s.queue + [CacheRecord(0, p)]
    ensures p != NULL && p !in r.blocks ==> r.queue == s.queue
  {
    if p == NULL then s
    else if p in s.blocks && Cacheable(s.blocks[p].allocSize) && |s.queue| < CACHE_COUNT - 1 then
      HeapState(s.blocks, s.queue + [CacheRecord(0, p)])
    else
      HeapState(s.blocks - {p}, s.queue)
  }

  /** `s` with the user bytes of block `p` replaced by `bytes`. */
  function Written(s: HeapState, p: int, bytes: seq<Byte>): HeapState
    requires p in s.blocks
  {
    HeapState(s.blocks[p := s.blocks[p].(bytes := bytes)], s.queue)
  }

  /** The moving branch of z_realloc once z_malloc has returned `p`: the
      first `n` bytes of `ptr` are copied into `p`, then `ptr` is freed. */
  function MoveState(s: HeapState, ptr: int, p: int, n: nat): (r: HeapState)
    requires ptr in s.blocks && p in s.blocks && ptr != p && ptr != NULL
    requires n <= |s.blocks[ptr].bytes| && n <= |s.blocks[p].bytes|
    ensures p in r.blocks && r.blocks[p].userSize == s.blocks[p].userSize
    ensures r.blocks[p].allocSize == s.blocks[p].allocSize && |r.blocks[p].bytes| == |s.blocks[p].bytes|
    ensures forall i :: 0 <= i < n ==> r.blocks[p].bytes[i] == s.blocks[ptr].bytes[i]
    ensures forall i :: n <= i < |r.blocks[p].bytes| ==> r.blocks[p].bytes[i] == s.blocks[p].bytes[i]
    ensures forall q :: q != p && q != ptr ==> (q in r.blocks <==> q in s.blocks)
    ensures forall q :: q in r.blocks && q != p && q != ptr ==> r.blocks[q] == s.blocks[q]
  {
    FreeState(Written(s, p, Copied(s.blocks[p].bytes, s.blocks[ptr].bytes, n)), ptr)
  }

  /** The clearing step of z_calloc: the first `n` bytes of the block
      z_malloc returned are zeroed; a NULL answer leaves the heap alone. */
  function ClearState(a: Allocation, n: nat): (r: HeapState)
    requires a.ptr != NULL ==> a.ptr in a.heap.blocks && n <= |a.heap.blocks[a.ptr].bytes|
    ensures r.queue == a.heap.queue && r.blocks.Keys == a.heap.blocks.Keys
    ensures forall q :: q in r.blocks && q != a.ptr ==> r.blocks[q] == a.heap.blocks[q]
    ensures a.ptr != NULL ==>
              && r.blocks[a.ptr].userSize == a.heap.blocks[a.ptr].userSize
              && |r.blocks[a.ptr].bytes| == |a.heap.blocks[a.ptr].bytes|
              && (forall i :: 0 <= i < n ==> r.blocks[a.ptr].bytes[i] == 0)
              && (forall i :: n <= i < |r.blocks[a.ptr].bytes| ==> r.blocks[a.ptr].bytes[i] == a.heap.blocks[a.ptr].bytes[i])
  {
    if a.ptr == NULL then a.heap
    else Written(a.heap, a.ptr, Filled(a.heap.blocks[a.ptr].bytes, 0, n))
  }

  /** The heap: the cache of freed blocks and every mapped block. */
  class Heap {
    /** The circular buffer of cache records; `size` is
        sizeof(cache_record_t) with its padding. */
    const cache: CircularBuffer<CacheRecord>
    var blocks: map<int, Block>
    ghost var live: set<int>

    /** The cache is a well-formed ring of CACHE_COUNT slots and the heap
        has its shape. */
    ghost predicate Valid()
      reads this, cache, cache.records, cache.state
    {
      && cache.Valid() && cache.length == CACHE_COUNT
      && Shape(cache.Contents, blocks, live)
    }

    /** The blocks and the cache records as a value. */
    ghost function State(): HeapState
      reads this, cache
    {
      HeapState(blocks, cache.Contents)
    }

    /** The static cache of z_memory.c: empty, and nothing mapped yet. */
    constructor ()
      ensures Valid() && fresh(cache) && fresh(cache.records) && fresh(cache.state)
      ensures cache.Contents == [] && blocks == map[] && live == {}
    {
      cache := new CircularBuffer<CacheRecord>(2 * WORD_SIZE, CACHE_COUNT);
      blocks := map[];
      live := {};
    }

    /** z_munmap of the whole mapping of block `p`. */
    method Release(p: int)
      requires p in blocks
      modifies this
      ensures blocks == old(blocks) - {p} && live == old(live)
    {
      blocks := blocks - {p};
    }

    /** z_free: nothing for NULL; a block of one to sixteen pages goes to the
        back of the cache with its miss count 0 if the cache has room, and
        any other block is unmapped. */
    method Free(p: int)
      requires Valid() && (p == NULL || p in live)
      modifies this, cache, cache.records, cache.state
      ensures Valid() && live == old(live) - {p}
      ensures State() == FreeState(old(State()), p)
    {
      if p == NULL {
        return;
      }
      if Cacheable(blocks[p].allocSize) {
        var kept := Keep(p);
        if kept {
          return;
        }
      }
      Drop(p);
    }

    /** The cache half of z_free: the block goes to the back of the cache
        if the cache has room, and nothing changes if not. */
    method Keep(p: int) returns (kept: bool)
      requires Valid() && p in live && Cacheable(blocks[p].allocSize)
      modifies this, cache, cache.records, cache.state
      ensures Valid() && blocks == old(blocks)
      ensures kept <==> old(|cache.Contents|) < CACHE_COUNT - 1
      ensures kept ==> live == old(live) - {p} && cache.Contents == old(cache.Contents) + [CacheRecord(0, p)]
      ensures !kept ==> live == old(live) && cache.Contents == old(cache.Contents)
    {
      FreeToCache(cache.Contents, blocks, live, p);
      kept := cache.Enqueue(CacheRecord(0, p));
      if kept {
        live := live - {p};
      }
    }

    /** The unmapping half of z_free. */
    method Drop(p: int)
      requires Valid() && p in live
      modifies this
      ensures Valid() && live == old(live) - {p}
      ensures blocks == old(blocks) - {p} && cache.Contents == old(cache.Contents)
    {
      FreeUnmaps(cache.Contents, blocks, live, p);
      live := live - {p};
      Release(p);
    }

    /** One pass of the cache loop of z_malloc for a request of `size`
        bytes and page length `length`. An empty cache ends the loop. The
        oldest record's block is handed out if it is long enough; otherwise
        it is unmapped if it was passed over more than CACHE_EXPIRED times
        before, and goes back with its miss count raised if not. */
    method LookupStep(length: nat, size: UInt64) returns (done: bool, hit: Option<int>)
      requires Valid() && size + HDR <= length
      modifies this, cache, cache.records, cache.state
      ensures Valid()
      ensures old(cache.Contents) == [] ==>
                done && hit.None? && blocks == old(blocks) && cache.Contents == [] && live == old(live)
      ensures old(cache.Contents) != [] && old(blocks)[old(cache.Contents)[0].ptr].allocSize >= length ==>
                var p := old(cache.Contents)[0].ptr;
                && done && hit == Some(p) && p !in old(live) && live == old(live) + {p}
                && cache.Contents == old(cache.Contents)[1..]
                && blocks == old(blocks)[p := old(blocks)[p].(userSize := size)]
      ensures old(cache.Contents) != [] && old(blocks)[old(cache.Contents)[0].ptr].allocSize < length ==>
                var rec := old(cache.Contents)[0];
                && !done && hit.None? && live == old(live)
                && (rec.miss > CACHE_EXPIRED ==>
                      cache.Contents == old(cache.Contents)[1..] && blocks == old(blocks) - {rec.ptr})
                && (rec.miss <= CACHE_EXPIRED ==>
                      cache.Contents == old(cache.Contents)[1..] + [rec.(miss := rec.miss + 1)] && blocks == old(blocks))
    {
      ghost var cached := cache.Contents;
      var ok, rec := cache.Dequeue(CacheRecord(0, NULL));
      if !ok {
        return true, None;
      }
      if blocks[rec.ptr].allocSize >= length {
        HandOut(rec.ptr, size, cached);
        return true, Some(rec.ptr);
      }
      PassOver(rec, cached);
      return false, None;
    }

    /** The hit of the cache loop: the oldest record, already taken out of
        the cache, names block `p`, which gets the new user size and is
        handed out. */
    method HandOut(p: int, size: UInt64, ghost cached: seq<CacheRecord>)
      requires cache.Valid() && cache.length == CACHE_COUNT
      requires Shape(cached, blocks, live) && cached != [] && p == cached[0].ptr && cache.Contents == cached[1..]
      requires size + HDR <= blocks[p].allocSize
      modifies this
      ensures Valid() && p !in old(live) && live == old(live) + {p}
      ensures blocks == old(blocks)[p := old(blocks)[p].(userSize := size)]
    {
      TakeCached(cached, blocks, live, size);
      blocks := blocks[p := blocks[p].(userSize := size)];
      live := live + {p};
    }

    /** The miss of the cache loop: the oldest record `rec`, already taken
        out of the cache, is unmapped if it was passed over more than
        CACHE_EXPIRED times before, and otherwise goes back with its miss
        count raised (the cache has just made room for it). */
    method PassOver(rec: CacheRecord, ghost cached: seq<CacheRecord>)
      requires cache.Valid() && cache.length == CACHE_COUNT
      requires Shape(cached, blocks, live) && 0 < |cached| < CACHE_COUNT
      requires rec == cached[0] && cache.Contents == cached[1..]
      modifies this, cache, cache.records, cache.state
      ensures Valid() && live == old(live)
      ensures rec.miss > CACHE_EXPIRED ==> cache.Contents == cached[1..] && blocks == old(blocks) - {rec.ptr}
      ensures rec.miss <= CACHE_EXPIRED ==>
                cache.Contents == cached[1..] + [rec.(miss := rec.miss + 1)] && blocks == old(blocks)
    {
      var expired := rec.miss > CACHE_EXPIRED;
      var next := rec.(miss := rec.miss + 1);
      var kept := false;
      if !expired {
        kept := Requeue(next, cached);
      }
      if !kept {
        Expire(rec.ptr, cached);
      }
    }

    /** z_circular_buffer_enqueue of a passed-over record: it always
        succeeds, because taking the record out made room. */
    method Requeue(next: CacheRecord, ghost cached: seq<CacheRecord>) returns (kept: bool)
      requires cache.Valid() && cache.length == CACHE_COUNT
      requires Shape(cached, blocks, live) && 0 < |cached| < CACHE_COUNT && cache.Contents == cached[1..]
      requires cached[0].miss <= CACHE_EXPIRED && next == cached[0].(miss := cached[0].miss + 1)
      modifies cache, cache.records, cache.state
      ensures kept && Valid()
      ensures cache.Contents == cached[1..] + [next]
    {
      RequeueCached(cached, blocks, live);
      kept := cache.Enqueue(next);
    }

    /** z_munmap of a cached block just taken out of the cache. */
    method Expire(p: int, ghost cached: seq<CacheRecord>)
      requires cache.Valid() && cache.length == CACHE_COUNT
      requires Shape(cached, blocks, live) && cached != [] && p == cached[0].ptr && cache.Contents == cached[1..]
      modifies this
      ensures Valid() && blocks == old(blocks) - {p} && live == old(live)
    {
      ExpireCached(cached, blocks, live);
      Release(p);
    }

    /** One pass of the cache loop, read against the lookup it carries
        out: `blocks0` is the map before the loop, `released` the addresses
        unmapped so far and `tries` the passes left. A pass that ends the
        loop settles the lookup; one that does not leaves the rest of the
        lookup to the remaining passes. */
    method Pass(length: nat, size: UInt64, ghost blocks0: map<int, Block>, ghost released: seq<int>, ghost tries: nat)
      returns (done: bool, hit: Option<int>, ghost released': seq<int>)
      requires Valid() && size + HDR <= length && tries > 0
      requires forall k :: 0 <= k < |cache.Contents| ==> cache.Contents[k].ptr in blocks0
      requires blocks == Unmapped(blocks0, released)
      modifies this, cache, cache.records, cache.state
      ensures Valid()
      ensures forall k :: 0 <= k < |cache.Contents| ==> cache.Contents[k].ptr in blocks0
      ensures done ==> released' == released
      ensures var look := Resumed(CacheLookup(old(cache.Contents), blocks0, length, tries), released);
              && (!done ==>
                    && hit.None? && live == old(live) && blocks == Unmapped(blocks0, released')
                    && Resumed(CacheLookup(cache.Contents, blocks0, length, tries - 1), released') == look)
              && (done ==> Lookup(hit, cache.Contents, released) == look)
              && (done && hit.None? ==> live == old(live) && blocks == Unmapped(blocks0, released))
              && (done && hit.Some? ==>
                    && hit.value !in old(live) && live == old(live) + {hit.value}
                    && blocks == Unmapped(blocks0, released)[hit.value := blocks0[hit.value].(userSize := size)])
    {
      ghost var before := cache.Contents;
      released' := released;
      if before != [] {
        assert blocks[before[0].ptr] == blocks0[before[0].ptr];
      }
      done, hit := LookupStep(length, size);
      if before == [] {
        LookupDone(before, blocks0, length, tries);
      } else if blocks0[before[0].ptr].allocSize >= length {
        LookupHit(before, blocks0, length, tries);
      } else if before[0].miss > CACHE_EXPIRED {
        LookupRelease(before, blocks0, length, tries, released);
        UnmappedOneMore(blocks0, released, before[0].ptr);
        released' := released + [before[0].ptr];
      } else {
        LookupRequeue(before, blocks0, length, tries);
      }
    }

    /** The cache loop of z_malloc for a request of `size` bytes and page
        length `length`: at most CACHE_RETRY passes of LookupStep, ending
        early when the cache runs empty or hands out a block. It does what
        CacheLookup describes. */
    method FromCache(length: nat, size: UInt64) returns (hit: Option<int>)
      requires Valid() && size + HDR <= length
      modifies this, cache, cache.records, cache.state
      ensures Valid()
      ensures var look := CacheLookup(old(cache.Contents), old(blocks), length, CACHE_RETRY);
              && hit == look.hit && cache.Contents == look.queue
              && (hit.None? ==> blocks == Unmapped(old(blocks), look.released) && live == old(live))
              && (hit.Some? ==>
                    && hit.value !in old(live) && live == old(live) + {hit.value}
                    && blocks == Unmapped(old(blocks), look.released)[hit.value := old(blocks)[hit.value].(userSize := size)])
    {
      ghost var cached0, blocks0 := cache.Contents, blocks;
      ghost var look := CacheLookup(cached0, blocks0, length, CACHE_RETRY);
      ghost var released: seq<int> := [];
      assert [] + look.released == look.released;
      var i := 0;
      var done := false;
      hit := None;
      while i < CACHE_RETRY && !done
        invariant 0 <= i <= CACHE_RETRY
        invariant Valid()
        invariant forall k :: 0 <= k < |cache.Contents| ==> cache.Contents[k].ptr in blocks0
        invariant !done ==> hit.None? && live == old(live) && blocks == Unmapped(blocks0, released)
        invariant !done ==> Resumed(CacheLookup(cache.Contents, blocks0, length, CACHE_RETRY - i), released) == look
        invariant done ==> Lookup(hit, cache.Contents, released) == look
        invariant done && hit.None? ==> live == old(live) && blocks == Unmapped(blocks0, released)
        invariant done && hit.Some? ==>
                    && hit.value !in old(live) && live == old(live) + {hit.value}
                    && blocks == Unmapped(blocks0, released)[hit.value := blocks0[hit.value].(userSize := size)]
        decreases CACHE_RETRY - i
      {
        done, hit, released := Pass(length, size, blocks0, released, CACHE_RETRY - i);
        i := i + 1;
      }
      if !done {
        LookupDone(cache.Contents, blocks0, length, 0);
      }
    }

    /** The mmap half of z_malloc: the kernel answers the request for
        `length` bytes with `rc`. A failed mapping yields NULL; otherwise the
        user pointer sits HDR bytes into the fresh, zero-filled mapping,
        whose header records both sizes. */
    method Map(size: UInt64, length: nat, rc: Int64) returns (p: int)
      requires Valid() && length == PageLength(size) && size <= MAX_REQUEST
      requires Mmap(rc).e == 0 ==> Mmap(rc).v + HDR !in blocks
      modifies this
      ensures Valid() && cache.Contents == old(cache.Contents)
      ensures Mmap(rc).e != 0 ==> p == NULL && blocks == old(blocks) && live == old(live)
      ensures Mmap(rc).e == 0 ==>
                && p == Mmap(rc).v + HDR && p !in old(live) && live == old(live) + {p}
                && blocks == old(blocks)[p := Block(size, length, Zeros(length - HDR))]
    {
      var r := Mmap(rc);
      MapFailedIffErrno(rc);
      if r.v == MAP_FAILED {
        return NULL;
      }
      p := r.v + HDR;
      var b := Block(size, length, Zeros(length - HDR));
      MapFresh(cache.Contents, blocks, live, p, b);
      blocks := blocks[p := b];
      live := live + {p};
    }

    /** z_malloc for a request the page length does not wrap on: a page
        length of at most CACHE_UPPER first runs the cache loop, whose hit is
        handed out; otherwise the kernel maps a fresh block. The mapping the
        kernel hands back is assumed not to hold a block still in use. */
    method Malloc(size: UInt64, rc: Int64) returns (p: int)
      requires Valid() && size <= MAX_REQUEST
      requires Mmap(rc).e == 0 ==>
                 Mmap(rc).v + HDR !in Unmapped(blocks, MallocLookup(cache.Contents, blocks, size).released)
      modifies this, cache, cache.records, cache.state
      ensures Valid()
      ensures var a := MallocState(old(State()), size, rc);
              p == a.ptr && State() == a.heap
      ensures live == old(live) + (if p == NULL then {} else {p}) && p !in old(live)
    {
      var length := PageLength(size);
      if length <= CACHE_UPPER {
        var hit := FromCache(length, size);
        if hit.Some? {
          return hit.value;
        }
      }
      p := Map(size, length, rc);
    }

    /** The grow half of z_realloc once z_malloc has returned `p`: the first
        `n` bytes of `ptr` are copied into `p` and `ptr` is freed. */
    method Move(ptr: int, p: int, n: nat)
      requires Valid() && ptr in live && p in live && ptr != p
      requires n <= blocks[ptr].userSize && n <= blocks[p].userSize
      modifies this, cache, cache.records, cache.state
      ensures Valid() && live == old(live) - {ptr}
      ensures State() == MoveState(old(State()), ptr, p, n)
    {
      var b := blocks[p].(bytes := Copied(blocks[p].bytes, blocks[ptr].bytes, n));
      Rewrite(cache.Contents, blocks, live, p, b);
      blocks := blocks[p := b];
      Free(ptr);
    }

    /** z_realloc. A block whose mapping still holds `size` bytes keeps its
        place and only records the new size. Otherwise z_malloc provides a
        new block, into which the smaller of the old user size and `size`
        bytes are copied before the old block is freed. A NULL `ptr` makes
        this z_malloc. */
    method Realloc(ptr: int, size: UInt64, rc: Int64) returns (p: int)
      requires Valid() && (ptr == NULL || ptr in live) && size <= MAX_REQUEST
      requires Mmap(rc).e == 0 ==>
                 Mmap(rc).v + HDR !in Unmapped(blocks, MallocLookup(cache.Contents, blocks, size).released)
      requires ptr != NULL && size > blocks[ptr].allocSize - HDR ==>
                 MallocLookup(cache.Contents, blocks, size).hit.Some? || Mmap(rc).e == 0
      modifies this, cache, cache.records, cache.state
      ensures Valid()
      ensures live == (old(live) - {ptr}) + (if p == NULL then {} else {p})
      ensures p == NULL <==>
                ptr == NULL && MallocLookup(old(cache.Contents), old(blocks), size).hit.None? && Mmap(rc).e != 0
      ensures ptr == NULL ==>
                var a := MallocState(old(State()), size, rc);
                p == a.ptr && State() == a.heap
      ensures ptr != NULL && size <= old(blocks)[ptr].allocSize - HDR ==>
                && p == ptr && cache.Contents == old(cache.Contents)
                && blocks == old(blocks)[ptr := old(blocks)[ptr].(userSize := size)]
      ensures ptr != NULL && size > old(blocks)[ptr].allocSize - HDR ==>
                var a := MallocState(old(State()), size, rc);
                var n := if old(blocks)[ptr].userSize < size then old(blocks)[ptr].userSize else size;
                && p == a.ptr && p != NULL && p != ptr && ptr != NULL && ptr in a.heap.blocks
                && a.heap.blocks[ptr] == old(blocks)[ptr] && n <= |a.heap.blocks[ptr].bytes|
                && State() == MoveState(a.heap, ptr, p, n)
      ensures p != NULL ==> p in blocks && blocks[p].userSize == size
      ensures ptr != NULL ==>
                var n := if old(blocks)[ptr].userSize < size then old(blocks)[ptr].userSize else size;
                && n <= |blocks[p].bytes|
                && forall i :: 0 <= i < n ==> blocks[p].bytes[i] == old(blocks)[ptr].bytes[i]
    {
      if ptr != NULL && size <= blocks[ptr].allocSize - HDR {
        Resize(ptr, size);
        return ptr;
      }
      if ptr == NULL {
        assert old(live) - {ptr} == old(live);
        p := Malloc(size, rc);
      } else {
        p := Grow(ptr, size, rc);
      }
    }

    /** The in-place branch of z_realloc: only the user size changes. */
    method Resize(ptr: int, size: UInt64)
      requires Valid() && ptr in live && size <= blocks[ptr].allocSize - HDR
      modifies this
      ensures Valid() && live == old(live) && cache.Contents == old(cache.Contents)
      ensures blocks == old(blocks)[ptr := old(blocks)[ptr].(userSize := size)]
    {
      var b := blocks[ptr].(userSize := size);
      Rewrite(cache.Contents, blocks, live, ptr, b);
      blocks := blocks[ptr := b];
    }

    /** The moving branch of z_realloc for a block in use: z_malloc, which
        must not fail here, then the copy and z_free of the old block. */
    method Grow(ptr: int, size: UInt64, rc: Int64) returns (p: int)
      requires Valid() && ptr in live && size <= MAX_REQUEST
      requires Mmap(rc).e == 0 ==>
                 Mmap(rc).v + HDR !in Unmapped(blocks, MallocLookup(cache.Contents, blocks, size).released)
      requires MallocLookup(cache.Contents, blocks, size).hit.Some? || Mmap(rc).e == 0
      modifies this, cache, cache.records, cache.state
      ensures Valid() && p != NULL && p != ptr && live == (old(live) - {ptr}) + {p}
      ensures var a := MallocState(old(State()), size, rc);
              var n := if old(blocks)[ptr].userSize < size then old(blocks)[ptr].userSize else size;
              && p == a.ptr && ptr != NULL && ptr in a.heap.blocks
              && a.heap.blocks[ptr] == old(blocks)[ptr] && n <= |a.heap.blocks[ptr].bytes|
              && State() == MoveState(a.heap, ptr, p, n)
    {
      ghost var blocks0, live0 := blocks, live;
      p := Malloc(size, rc);
      assert p != NULL && blocks[ptr] == blocks0[ptr];
      var n := if blocks[ptr].userSize < size then blocks[ptr].userSize else size;
      ghost var live1 := live;
      assert live1 == live0 + {p} && p != ptr;
      Move(ptr, p, n);
      assert live == (live0 - {ptr}) + {p};
    }

    /** z_memset(p, 0, n) on the user bytes of a block in use. */
    method Clear(p: int, n: nat)
      requires Valid() && p in live && n <= blocks[p].userSize
      modifies this
      ensures Valid() && live == old(live)
      ensures State() == Written(old(State()), p, Filled(old(blocks)[p].bytes, 0, n))
    {
      var b := blocks[p].(bytes := Filled(blocks[p].bytes, 0, n));
      Rewrite(cache.Contents, blocks, live, p, b);
      blocks := blocks[p := b];
    }

    /** z_calloc: z_malloc of `num * size` reduced modulo 2^64, whose
        first bytes are then cleared. */
    method Calloc(num: UInt64, size: UInt64, rc: Int64) returns (p: int)
      requires Valid() && CallocSize(num, size) <= MAX_REQUEST
      requires Mmap(rc).e == 0 ==>
                 Mmap(rc).v + HDR !in Unmapped(blocks, MallocLookup(cache.Contents, blocks, CallocSize(num, size)).released)
      modifies this, cache, cache.records, cache.state
      ensures Valid()
      ensures live == old(live) + (if p == NULL then {} else {p}) && p !in old(live)
      ensures var a := MallocState(old(State()), CallocSize(num, size), rc);
              p == a.ptr && State() == ClearState(a, CallocSize(num, size))
      ensures var n := CallocSize(num, size);
              p != NULL ==> && p in blocks && blocks[p].userSize == n
                            && forall i :: 0 <= i < n ==> blocks[p].bytes[i] == 0
    {
      var n := CallocSize(num, size);
      p := Malloc(n, rc);
      if p != NULL {
        Clear(p, n);
      }
    }

    /** z_calloc with the byte count checked: a product no block can hold
        yields NULL and leaves the heap alone; any other is z_calloc. */
    method CheckedCalloc(num: UInt64, size: UInt64, rc: Int64) returns (p: int)
      requires Valid()
      requires var n := CheckedCallocSize(num, size);
               n.Some? && Mmap(rc).e == 0 ==>
                 Mmap(rc).v + HDR !in Unmapped(blocks, MallocLookup(cache.Contents, blocks, n.value).released)
      modifies this, cache, cache.records, cache.state
      ensures Valid()
      ensures live == old(live) + (if p == NULL then {} else {p}) && p !in old(live)
      ensures CheckedCallocSize(num, size).None? ==> p == NULL && State() == old(State())
      ensures var n := CheckedCallocSize(num, size);
              n.Some? ==>
                var a := MallocState(old(State()), n.value, rc);
                p == a.ptr && State() == ClearState(a, n.value)
    {
      var n := CheckedCallocSize(num, size);
      if n.None? {
        return NULL;
      }
      p := Calloc(num, size, rc);
    }
  }

  /** The first request of ReuseAfterFree: an empty cache, and a kernel
      that maps the page at 0x10000. */
  lemma FirstRequest()
    ensures PageLength(10) == PAGE && MallocLookup([], map[], 10) == Lookup(None, [], [])
    ensures Mmap(0x10000) == SysResult(0x10000, 0)
    ensures var a := MallocState(HeapState(map[], []), 10, 0x10000);
            a.ptr == 0x10000 + HDR && a.heap.blocks[a.ptr].allocSize == PAGE
  {
  }

  /** The second request of ReuseAfterFree: a cached page fits 4000 bytes,
      and the kernel refuses a new mapping with ENOMEM. */
  lemma SecondRequest(blocks: map<int, Block>, p: int)
    requires WellFormed(blocks) && p in blocks && blocks[p].allocSize == PAGE
    ensures MallocLookup([CacheRecord(0, p)], blocks, 4000).hit == Some(p)
    ensures Mmap(-12).e == 12
    ensures MallocState(HeapState(blocks, [CacheRecord(0, p)]), 4000, -12).ptr == p
  {
    assert PageLength(4000) == PAGE;
  }

  /** A freed block of one page is the next small request's answer: the
      second z_malloc takes it from the cache although the kernel would have
      refused a new mapping (ENOMEM). */
  method ReuseAfterFree() returns (first: int, second: int)
    ensures first == 0x10000 + HDR && second == first
  {
    var heap := new Heap();
    FirstRequest();
    first := heap.Malloc(10, 0x10000);
    heap.Free(first);
    SecondRequest(heap.blocks, first);
    second := heap.Malloc(4000, -12);
  }

  /** The request of CallocWraps: 2^32 * 2^32 wraps to a count of 0, which
      the kernel's fresh page at 0x10000 serves, while the checked count
      does not exist. */
  lemma WrapRequest()
    ensures CallocSize(TWO_32, TWO_32) == 0 && CheckedCallocSize(TWO_32, TWO_32).None?
    ensures Mmap(0x10000) == SysResult(0x10000, 0)
    ensures MallocState(HeapState(map[], []), 0, 0x10000).ptr == 0x10000 + HDR
  {
    CallocSizeWraps();
  }

  /** z_calloc(2^32, 2^32) on a fresh heap returns a block with no user
      bytes instead of NULL; the checked version returns NULL. */
  method CallocWraps() returns (wrapped: int, granted: int, checked: int)
    ensures wrapped == 0x10000 + HDR && granted == 0 && checked == NULL
  {
    var heap := new Heap();
    WrapRequest();
    wrapped := heap.Calloc(TWO_32, TWO_32, 0x10000);
    granted := heap.blocks[wrapped].userSize;
    var other := new Heap();
    checked := other.CheckedCalloc(TWO_32, TWO_32, 0x10000);
  }
}
