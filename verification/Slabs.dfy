/** memcached-1.4.5/slabs.c: pages cut into equal chunks, one size per slab class. */
module Slabs {
  import opened Assoc
  import opened Lru

  const POWER_SMALLEST: nat := 1
  const POWER_LARGEST: nat := 200
  const CHUNK_ALIGN_BYTES: nat := 8

  /** slabclass_t. `slots` is the used part of the free-slot stack, top last. */
  datatype SlabClass = SlabClass(size: nat, perslab: nat, slots: seq<Ptr>,
                                 endPagePtr: Ptr, endPageFree: nat, slabList: seq<Ptr>)

  /** The addresses left at the end of the newest page and the chunks handed out. */
  datatype Use = Use(tail: seq<Ptr>, live: set<Ptr>)

  /** Where a chunk is: its class, page and index in the page. */
  datatype Chunk = Chunk(cls: nat, page: nat, idx: nat)

  /** n * s by repeated addition. */
  function Times(n: nat, s: nat): nat { if n == 0 then 0 else Times(n - 1, s) + s }

  lemma {:induction false} TimesIsProduct(n: nat, s: nat)
    ensures Times(n, s) == n * s
  {
    if n > 0 { TimesIsProduct(n - 1, s); }
  }

  /** The bytes of one page: size * perslab. */
  function PageLen(k: SlabClass): nat { Times(k.perslab, k.size) }

  predicate Apart(a: Ptr, n: nat, b: Ptr, m: nat) { a + n <= b || b + m <= a }

  /** No page of any class overlaps [p, p + len). */
  predicate Clear(sc: seq<SlabClass>, p: Ptr, len: nat)
  {
    forall c, j :: 0 <= c < |sc| && 0 <= j < |sc[c].slabList| ==> Apart(sc[c].slabList[j], PageLen(sc[c]), p, len)
  }

  ghost predicate PagesApart(sc: seq<SlabClass>)
  {
    forall c, j, d, k :: 0 <= c < |sc| && 0 <= j < |sc[c].slabList| && 0 <= d < |sc| && 0 <= k < |sc[d].slabList| ==>
      (c == d && j == k) || Apart(sc[c].slabList[j], PageLen(sc[c]), sc[d].slabList[k], PageLen(sc[d]))
  }

  /** Every chunk of a class is in exactly one of: free slots, page tail, live. */
  ghost predicate ClassOk(k: SlabClass, u: Use)
  {
    && k.endPageFree == |u.tail| && k.endPagePtr == First(u.tail)
    && (forall i {:trigger u.tail[i]} :: 0 <= i < |u.tail| ==> u.tail[i] == First(u.tail) + Times(i, k.size))
    && NoDup(k.slots) && NoDup(u.tail) && 0 !in u.tail && 0 !in k.slots && 0 !in u.live
    && (forall x :: x in k.slots ==> x !in u.tail && x !in u.live)
    && (forall x :: x in u.tail ==> x !in u.live)
    && |k.slots| + |u.tail| + |u.live| == Times(|k.slabList|, k.perslab)
  }

  ghost predicate Has(k: SlabClass, u: Use, x: Ptr) { x in k.slots || x in u.tail || x in u.live }

  ghost predicate ChunkOk(sc: seq<SlabClass>, us: seq<Use>, x: Ptr, ch: Chunk)
    requires |us| == |sc|
  {
    && ch.cls < |sc| && ch.page < |sc[ch.cls].slabList| && ch.idx < sc[ch.cls].perslab
    && x == sc[ch.cls].slabList[ch.page] + Times(ch.idx, sc[ch.cls].size)
    && Has(sc[ch.cls], us[ch.cls], x)
  }

  /** `owner` locates every chunk of every page. */
  ghost predicate Owned(sc: seq<SlabClass>, us: seq<Use>, owner: map<Ptr, Chunk>)
    requires |us| == |sc|
  {
    && (forall x {:trigger owner[x]} :: x in owner ==> ChunkOk(sc, us, x, owner[x]))
    && (forall c, x {:trigger Has(sc[c], us[c], x)} :: 0 <= c < |sc| && Has(sc[c], us[c], x) ==>
          x in owner && owner[x].cls == c)
  }

  ghost predicate SlabsOk(sc: seq<SlabClass>, us: seq<Use>, owner: map<Ptr, Chunk>)
  {
    && |us| == |sc|
    && (forall c {:trigger sc[c]} :: 0 <= c < |sc| ==> ClassOk(sc[c], us[c]))
    && Owned(sc, us, owner)
    && PagesApart(sc)
  }

  // ---------------------------------------------------------------- chunks do not overlap

  lemma {:induction false} TimesMono(i: nat, j: nat, s: nat)
    requires i < j
    ensures Times(i, s) + s <= Times(j, s)
  {
    if i + 1 < j { TimesMono(i, j - 1, s); }
  }

  /** Two different chunks share no byte. */
  lemma ChunksApart(sc: seq<SlabClass>, us: seq<Use>, owner: map<Ptr, Chunk>, x: Ptr, y: Ptr)
    requires SlabsOk(sc, us, owner) && x in owner && y in owner && x != y
    ensures owner[x].cls < |sc| && owner[y].cls < |sc|
    ensures Apart(x, sc[owner[x].cls].size, y, sc[owner[y].cls].size)
  {
    hide ClassOk, Has;
    var a, b := owner[x], owner[y];
    assert ChunkOk(sc, us, x, a) && ChunkOk(sc, us, y, b);
    var k, l := sc[a.cls], sc[b.cls];
    TimesMono(a.idx, k.perslab, k.size);
    TimesMono(b.idx, l.perslab, l.size);
    if a.cls == b.cls && a.page == b.page {
      if a.idx < b.idx {
        TimesMono(a.idx, b.idx, k.size);
      } else {
        TimesMono(b.idx, a.idx, k.size);
      }
    } else {
      assert Apart(k.slabList[a.page], PageLen(k), l.slabList[b.page], PageLen(l));
    }
  }

  // ---------------------------------------------------------------- steps

  /** A change that only moves chunks of one class around. */
  lemma MoveWithin(sc: seq<SlabClass>, us: seq<Use>, owner: map<Ptr, Chunk>, c: nat, k: SlabClass, u: Use)
    requires SlabsOk(sc, us, owner) && c < |sc| && ClassOk(k, u)
    requires k.size == sc[c].size && k.perslab == sc[c].perslab && k.slabList == sc[c].slabList
    requires forall x :: Has(k, u, x) <==> Has(sc[c], us[c], x)
    ensures SlabsOk(sc[c := k], us[c := u], owner)
  {
    hide ClassOk, Has;
    var sc', us' := sc[c := k], us[c := u];
    forall d | 0 <= d < |sc'| ensures ClassOk(sc'[d], us'[d]) {
      assert ClassOk(sc[d], us[d]) || d == c;
    }
    forall x | x in owner ensures ChunkOk(sc', us', x, owner[x]) {
      assert ChunkOk(sc, us, x, owner[x]);
    }
    forall d, x {:trigger Has(sc'[d], us'[d], x)} | 0 <= d < |sc'| && Has(sc'[d], us'[d], x)
      ensures x in owner && owner[x].cls == d
    {
      assert Has(sc[d], us[d], x);
    }
    assert forall d :: 0 <= d < |sc| ==> sc'[d].slabList == sc[d].slabList && PageLen(sc'[d]) == PageLen(sc[d]);
  }

  /** do_slabs_alloc from the free list. */
  lemma TakeSlot(k: SlabClass, u: Use)
    requires ClassOk(k, u) && k.slots != []
    ensures var x, n := Last(k.slots), |k.slots| - 1;
      && x !in u.live && x != 0
      && ClassOk(k.(slots := k.slots[..n]), u.(live := u.live + {x}))
      && forall y :: Has(k.(slots := k.slots[..n]), u.(live := u.live + {x}), y) <==> Has(k, u, y)
  {
    var x, s := Last(k.slots), k.slots[..|k.slots| - 1];
    assert k.slots == s + [x];
    assert x in k.slots;
    assert forall y :: y in k.slots <==> y in s || y == x;
  }

  /** do_slabs_alloc from the end of the newest page. */
  lemma TakeTail(k: SlabClass, u: Use)
    requires ClassOk(k, u) && u.tail != []
    ensures var x := First(u.tail);
      var k' := k.(endPageFree := k.endPageFree - 1,
                   endPagePtr := if k.endPageFree - 1 != 0 then k.endPagePtr + k.size else 0);
      var u' := Use(u.tail[1..], u.live + {x});
      && x !in u.live && x != 0 && ClassOk(k', u') && forall y :: Has(k', u', y) <==> Has(k, u, y)
  {
    hide Times;
    var x, t := First(u.tail), u.tail[1..];
    assert u.tail == [x] + t && x in u.tail;
    assert forall y :: y in u.tail <==> y in t || y == x;
    RestSpaced(u.tail, k.size);
  }

  lemma RestSpaced(tail: seq<Ptr>, size: nat)
    requires tail != [] && forall i {:trigger tail[i]} :: 0 <= i < |tail| ==> tail[i] == First(tail) + Times(i, size)
    ensures var t := tail[1..];
      && (t != [] ==> First(t) == First(tail) + size)
      && forall i {:trigger t[i]} :: 0 <= i < |t| ==> t[i] == First(t) + Times(i, size)
  {
    var t := tail[1..];
    if t != [] {
      assert t[0] == tail[1] == First(tail) + Times(1, size);
      assert Times(1, size) == Times(0, size) + size;
      forall i | 0 <= i < |t| ensures t[i] == First(t) + Times(i, size) {
        assert t[i] == tail[i + 1] == First(tail) + Times(i + 1, size);
      }
    }
  }

  /** do_slabs_free. */
  lemma PutSlot(k: SlabClass, u: Use, x: Ptr)
    requires ClassOk(k, u) && x in u.live
    ensures ClassOk(k.(slots := k.slots + [x]), u.(live := u.live - {x}))
    ensures forall y :: Has(k.(slots := k.slots + [x]), u.(live := u.live - {x}), y) <==> Has(k, u, y)
  {
    var s := k.slots + [x];
    assert forall y :: y in s <==> y in k.slots || y == x;
  }

  /** The chunk addresses of a page. */
  ghost function PageChunks(base: Ptr, n: nat, size: nat): seq<Ptr>
  {
    seq(n, i requires 0 <= i => base + Times(i, size))
  }

  lemma PageChunksDistinct(base: Ptr, n: nat, size: nat)
    requires size > 0 && base != 0
    ensures NoDup(PageChunks(base, n, size)) && 0 !in PageChunks(base, n, size)
    ensures forall x :: x in PageChunks(base, n, size) ==> base <= x < base + Times(n, size)
  {
    var s := PageChunks(base, n, size);
    forall i, j | 0 <= i < j < |s| ensures s[i] != s[j] { TimesMono(i, j, size); }
    forall x | x in s ensures base <= x < base + Times(n, size) {
      var i :| 0 <= i < n && s[i] == x;
      TimesMono(i, n, size);
    }
  }

  /** A chunk already there lies outside a page that is clear of all others. */
  lemma ChunkOutside(sc: seq<SlabClass>, us: seq<Use>, owner: map<Ptr, Chunk>, x: Ptr, p: Ptr, len: nat)
    requires SlabsOk(sc, us, owner) && x in owner && Clear(sc, p, len)
    requires forall c :: 0 <= c < |sc| && sc[c].slabList != [] ==> sc[c].size > 0
    ensures x < p || p + len <= x
  {
    hide ClassOk, Has;
    var ch := owner[x];
    assert ChunkOk(sc, us, x, ch);
    var k := sc[ch.cls];
    TimesMono(ch.idx, k.perslab, k.size);
    assert Apart(k.slabList[ch.page], PageLen(k), p, len);
  }

  ghost function NewPage(k: SlabClass, p: Ptr): SlabClass
  {
    k.(endPagePtr := p, endPageFree := k.perslab, slabList := k.slabList + [p])
  }

  lemma NewPageClass(k: SlabClass, u: Use, p: Ptr)
    requires ClassOk(k, u) && u.tail == [] && k.size > 0 && k.perslab > 0 && p != 0
    requires forall x: Ptr :: Has(k, u, x) ==> x < p || p + PageLen(k) <= x
    ensures ClassOk(NewPage(k, p), u.(tail := PageChunks(p, k.perslab, k.size)))
  {
    PageChunksDistinct(p, k.perslab, k.size);
    var t := PageChunks(p, k.perslab, k.size);
    assert Times(|k.slabList| + 1, k.perslab) == Times(|k.slabList|, k.perslab) + k.perslab;
    forall x | x in t ensures x !in k.slots && x !in u.live {
      assert !Has(k, u, x);
    }
  }

  /** The new page's chunks and their places. */
  ghost function OwnPage(owner: map<Ptr, Chunk>, c: nat, page: nat, p: Ptr, n: nat, size: nat): map<Ptr, Chunk>
    requires size > 0
  {
    owner + map x | x in PageChunks(p, n, size) :: Chunk(c, page, IndexIn(p, n, size, x))
  }

  ghost function IndexIn(p: Ptr, n: nat, size: nat, x: Ptr): nat
    requires x in PageChunks(p, n, size)
    ensures IndexIn(p, n, size, x) < n && x == p + Times(IndexIn(p, n, size, x), size)
  {
    var i :| 0 <= i < n && PageChunks(p, n, size)[i] == x;
    i
  }

  lemma NewPageChunk(sc: seq<SlabClass>, us: seq<Use>, owner: map<Ptr, Chunk>, c: nat, p: Ptr, x: Ptr)
    requires SlabsOk(sc, us, owner) && c < |sc| && us[c].tail == [] && sc[c].size > 0 && p != 0
    requires x in OwnPage(owner, c, |sc[c].slabList|, p, sc[c].perslab, sc[c].size)
    ensures var t := PageChunks(p, sc[c].perslab, sc[c].size);
      ChunkOk(sc[c := NewPage(sc[c], p)], us[c := us[c].(tail := t)], x,
              OwnPage(owner, c, |sc[c].slabList|, p, sc[c].perslab, sc[c].size)[x])
  {
    hide ClassOk, PagesApart, Times;
    var k, t := sc[c], PageChunks(p, sc[c].perslab, sc[c].size);
    assert x !in t ==> ChunkOk(sc, us, x, owner[x]);
    hide SlabsOk, PageChunks;
    if x !in t {
      assert OwnPage(owner, c, |k.slabList|, p, k.perslab, k.size)[x] == owner[x];
      OldChunk(sc, us, c, p, x, owner[x], t);
    } else {
      var i := IndexIn(p, k.perslab, k.size, x);
      assert OwnPage(owner, c, |k.slabList|, p, k.perslab, k.size)[x] == Chunk(c, |k.slabList|, i);
    }
  }

  lemma OldChunk(sc: seq<SlabClass>, us: seq<Use>, c: nat, p: Ptr, x: Ptr, ch: Chunk, t: seq<Ptr>)
    requires |us| == |sc| && c < |sc| && us[c].tail == [] && ChunkOk(sc, us, x, ch)
    ensures ChunkOk(sc[c := NewPage(sc[c], p)], us[c := us[c].(tail := t)], x, ch)
  {
    hide Times;
  }

  lemma NewPageOwned(sc: seq<SlabClass>, us: seq<Use>, owner: map<Ptr, Chunk>, c: nat, p: Ptr)
    requires SlabsOk(sc, us, owner) && c < |sc| && us[c].tail == [] && sc[c].size > 0 && p != 0
    requires Clear(sc, p, PageLen(sc[c])) && forall d :: 0 <= d < |sc| && sc[d].slabList != [] ==> sc[d].size > 0
    ensures var t := PageChunks(p, sc[c].perslab, sc[c].size);
      Owned(sc[c := NewPage(sc[c], p)], us[c := us[c].(tail := t)],
            OwnPage(owner, c, |sc[c].slabList|, p, sc[c].perslab, sc[c].size))
  {
    hide ClassOk, PagesApart, ChunkOk;
    var t := PageChunks(p, sc[c].perslab, sc[c].size);
    var sc', us' := sc[c := NewPage(sc[c], p)], us[c := us[c].(tail := t)];
    var owner' := OwnPage(owner, c, |sc[c].slabList|, p, sc[c].perslab, sc[c].size);
    PageChunksDistinct(p, sc[c].perslab, sc[c].size);
    forall x | x in owner ensures x !in t {
      ChunkOutside(sc, us, owner, x, p, PageLen(sc[c]));
    }
    forall x | x in owner' ensures ChunkOk(sc', us', x, owner'[x]) {
      NewPageChunk(sc, us, owner, c, p, x);
    }
    forall d, x {:trigger Has(sc'[d], us'[d], x)} | 0 <= d < |sc'| && Has(sc'[d], us'[d], x)
      ensures x in owner' && owner'[x].cls == d
    {
      if !(d == c && x in t) {
        assert Has(sc[d], us[d], x);
      }
    }
  }

  lemma NewPageApart(sc: seq<SlabClass>, c: nat, p: Ptr)
    requires PagesApart(sc) && c < |sc| && Clear(sc, p, PageLen(sc[c]))
    ensures PagesApart(sc[c := NewPage(sc[c], p)])
  {
    var sc' := sc[c := NewPage(sc[c], p)];
    assert forall d :: 0 <= d < |sc| ==> PageLen(sc'[d]) == PageLen(sc[d]);
  }

  lemma NewPageOk(sc: seq<SlabClass>, us: seq<Use>, owner: map<Ptr, Chunk>, c: nat, p: Ptr)
    requires SlabsOk(sc, us, owner) && c < |sc| && us[c].tail == [] && sc[c].size > 0 && sc[c].perslab > 0 && p != 0
    requires Clear(sc, p, PageLen(sc[c])) && forall d :: 0 <= d < |sc| && sc[d].slabList != [] ==> sc[d].size > 0
    ensures var t := PageChunks(p, sc[c].perslab, sc[c].size);
      SlabsOk(sc[c := NewPage(sc[c], p)], us[c := us[c].(tail := t)],
              OwnPage(owner, c, |sc[c].slabList|, p, sc[c].perslab, sc[c].size))
  {
    forall x: Ptr | Has(sc[c], us[c], x) ensures x < p || p + PageLen(sc[c]) <= x {
      ChunkOutside(sc, us, owner, x, p, PageLen(sc[c]));
    }
    NewPageClass(sc[c], us[c], p);
    NewPageOwned(sc, us, owner, c, p);
    NewPageApart(sc, c, p);
    hide ClassOk, Owned, PagesApart, NewPage, PageChunks;
  }

  // ---------------------------------------------------------------- memory accounting

  /** Bytes in the pages of the first `n` classes. */
  ghost function PageBytes(sc: seq<SlabClass>, n: nat): nat
    requires n <= |sc|
  {
    if n == 0 then 0 else PageBytes(sc, n - 1) + Times(|sc[n - 1].slabList|, PageLen(sc[n - 1]))
  }

  /** One page for each of the first `n` classes that owns a page. */
  ghost function OnePageEach(sc: seq<SlabClass>, n: nat): nat
    requires n <= |sc|
  {
    if n == 0 then 0 else OnePageEach(sc, n - 1) + if sc[n - 1].slabList == [] then 0 else PageLen(sc[n - 1])
  }

  ghost predicate MemOk(sc: seq<SlabClass>, memMalloced: nat, memLimit: nat)
  {
    && memMalloced == PageBytes(sc, |sc|)
    && (memLimit != 0 ==> memMalloced <= memLimit + OnePageEach(sc, |sc|))
  }

  lemma {:induction false} BytesFrame(sc: seq<SlabClass>, sc': seq<SlabClass>, n: nat)
    requires n <= |sc| && |sc'| == |sc|
    requires forall d :: 0 <= d < n ==> |sc'[d].slabList| == |sc[d].slabList| && PageLen(sc'[d]) == PageLen(sc[d])
    ensures PageBytes(sc', n) == PageBytes(sc, n) && OnePageEach(sc', n) == OnePageEach(sc, n)
  {
    if n > 0 { BytesFrame(sc, sc', n - 1); }
  }

  lemma {:induction false} BytesNewPage(sc: seq<SlabClass>, c: nat, p: Ptr, n: nat)
    requires c < n <= |sc|
    ensures var sc' := sc[c := NewPage(sc[c], p)];
      && PageBytes(sc', n) == PageBytes(sc, n) + PageLen(sc[c])
      && OnePageEach(sc', n) == OnePageEach(sc, n) + if sc[c].slabList == [] then PageLen(sc[c]) else 0
  {
    var sc' := sc[c := NewPage(sc[c], p)];
    if c == n - 1 {
      BytesFrame(sc, sc', n - 1);
      var k := sc[c];
      assert Times(|k.slabList| + 1, PageLen(k)) == Times(|k.slabList|, PageLen(k)) + PageLen(k);
    } else {
      BytesNewPage(sc, c, p, n - 1);
    }
  }

  /** The page is allowed by the limit, or it is the class's first. */
  lemma NewPageMem(sc: seq<SlabClass>, c: nat, p: Ptr, memMalloced: nat, memLimit: nat)
    requires MemOk(sc, memMalloced, memLimit) && c < |sc|
    requires !(memLimit != 0 && memMalloced + PageLen(sc[c]) > memLimit && |sc[c].slabList| > 0)
    ensures MemOk(sc[c := NewPage(sc[c], p)], memMalloced + PageLen(sc[c]), memLimit)
  {
    BytesNewPage(sc, c, p, |sc|);
  }

  /** With one preallocated block, all pages are inside it and below `current`. */
  ghost predicate ArenaOk(sc: seq<SlabClass>, base: Ptr, limit: nat, current: Ptr, avail: nat)
  {
    base != 0 ==>
      && base <= current && (avail > 0 ==> current + avail == base + limit) && Apart8(base, current)
      && forall c, j :: 0 <= c < |sc| && 0 <= j < |sc[c].slabList| ==>
           && base <= sc[c].slabList[j]
           && sc[c].slabList[j] + PageLen(sc[c]) <= current
           && sc[c].slabList[j] + PageLen(sc[c]) <= base + limit && Apart8(base, sc[c].slabList[j])
  }

  /** From one address to the other it is a multiple of the alignment. */
  ghost predicate Apart8(base: int, p: int) { (p - base) % CHUNK_ALIGN_BYTES == 0 }

  /** If the preallocated block and the chunk sizes are aligned, so is every chunk in it. */
  lemma ChunksAligned(sc: seq<SlabClass>, base: Ptr, limit: nat, current: Ptr, avail: nat, c: nat, j: nat, i: nat)
    requires ArenaOk(sc, base, limit, current, avail) && base != 0 && base % CHUNK_ALIGN_BYTES == 0
    requires c < |sc| && j < |sc[c].slabList| && sc[c].size % CHUNK_ALIGN_BYTES == 0
    ensures (sc[c].slabList[j] + i * sc[c].size) % CHUNK_ALIGN_BYTES == 0
  {
    assert Apart8(base, sc[c].slabList[j]);
    var n := sc[c].size / CHUNK_ALIGN_BYTES;
    assert i * sc[c].size == CHUNK_ALIGN_BYTES * (i * n);
  }

  // ---------------------------------------------------------------- slabs.c

  /** The configured classes: positive sizes, at least one chunk a page; other entries are unused. */
  ghost predicate Configured(sc: seq<SlabClass>, powerLargest: nat)
  {
    && POWER_SMALLEST <= powerLargest < |sc| == POWER_LARGEST + 1
    && (forall c {:trigger sc[c]} :: POWER_SMALLEST <= c <= powerLargest ==> sc[c].size > 0 && sc[c].perslab > 0)
    && (forall c {:trigger sc[c]} :: 0 <= c < |sc| && !(POWER_SMALLEST <= c <= powerLargest) ==> sc[c].slabList == [])
  }

  /** What decides whether a chunk can be had. */
  datatype Stock = Stock(sc: seq<SlabClass>, malloced: nat, avail: nat, limit: nat, base: Ptr, largest: nat)

  /** The limit allows the class no further page. */
  predicate OverLimit(s: Stock, k: SlabClass)
  {
    s.limit != 0 && s.malloced + PageLen(k) > s.limit && |k.slabList| > 0
  }

  /** There is no memory for a block: malloc fails, or the preallocated block is used up. */
  predicate NoMemory(s: Stock, size: nat, mallocOk: bool) { if s.base == 0 then !mallocOk else size > s.avail }

  /** Why a class is refused a page: the limit, or no memory. */
  predicate Refused(s: Stock, k: SlabClass, mallocOk: bool)
  {
    OverLimit(s, k) || NoMemory(s, PageLen(k), mallocOk)
  }

  /** The class has no chunk left and gets no page. */
  predicate Exhausted(s: Stock, id: nat, mallocOk: bool)
  {
    id < |s.sc| && s.sc[id].slots == [] && s.sc[id].endPageFree == 0 && Refused(s, s.sc[id], mallocOk)
  }

  class Slabs {
    const memLimit: nat
    const memBase: Ptr              // 0 without preallocation
    const powerLargest: nat
    var slabclass: seq<SlabClass>
    var memMalloced: nat
    var memCurrent: Ptr
    var memAvail: nat
    ghost var us: seq<Use>
    ghost var owner: map<Ptr, Chunk>

    ghost predicate Valid()
      reads this
    {
      && Configured(slabclass, powerLargest) && SlabsOk(slabclass, us, owner)
      && MemOk(slabclass, memMalloced, memLimit)
      && ArenaOk(slabclass, memBase, memLimit, memCurrent, memAvail)
    }

    /** The state slabs_init leaves behind, for given chunk sizes */
    constructor (sizes: seq<nat>, perslab: seq<nat>, powerLargest: nat, memLimit: nat, memBase: Ptr)
      requires |sizes| == |perslab| == POWER_LARGEST + 1 && POWER_SMALLEST <= powerLargest < |sizes|
      requires forall c :: POWER_SMALLEST <= c <= powerLargest ==> sizes[c] > 0 && perslab[c] > 0
      ensures Valid() && this.powerLargest == powerLargest && this.memLimit == memLimit && this.memBase == memBase
      ensures forall c :: 0 <= c < |us| ==> us[c].live == {}
      ensures |slabclass| == |sizes| && forall c :: 0 <= c < |sizes| ==> slabclass[c].size == sizes[c]
    {
      this.memLimit, this.memBase, this.powerLargest := memLimit, memBase, powerLargest;
      slabclass := seq(POWER_LARGEST + 1, i requires 0 <= i < |sizes| && i < |perslab| =>
                         SlabClass(sizes[i], perslab[i], [], 0, 0, []));
      memMalloced, memCurrent, memAvail := 0, memBase, memLimit;
      us := seq(POWER_LARGEST + 1, i => Use([], {}));
      owner := map[];
      new;
      NoPages(slabclass, |slabclass|);
    }

    /** slabs_clsid: the first class whose chunks are large enough, 0 if there is none */
    method ClsId(size: nat) returns (res: nat)
      requires Configured(slabclass, powerLargest)
      ensures res == 0 <==> size == 0 || forall c :: POWER_SMALLEST <= c <= powerLargest ==> slabclass[c].size < size
      ensures res != 0 ==> POWER_SMALLEST <= res <= powerLargest && size <= slabclass[res].size
      ensures forall c :: POWER_SMALLEST <= c < res ==> slabclass[c].size < size
    {
      res := POWER_SMALLEST;
      if size == 0 { return 0; }
      while size > slabclass[res].size
        invariant POWER_SMALLEST <= res <= powerLargest
        invariant forall c :: POWER_SMALLEST <= c < res ==> slabclass[c].size < size
        decreases powerLargest - res
      {
        res := res + 1;
        if res - 1 == powerLargest { return 0; }
      }
    }

    function TakeStock(): Stock
      reads this
    {
      Stock(slabclass, memMalloced, memAvail, memLimit, memBase, powerLargest)
    }

    /** memory_allocate: from the preallocated block, or by malloc, which gives any block clear of the others
        if it succeeds */
    method MemoryAllocate(size: nat, mallocOk: bool) returns (p: Ptr)
      requires Valid() && size > 0
      modifies this`memCurrent, this`memAvail
      ensures p == 0 <==> NoMemory(old(TakeStock()), size, mallocOk)
      ensures p != 0 ==> Clear(slabclass, p, size)
      ensures p == 0 ==> memCurrent == old(memCurrent) && memAvail == old(memAvail)
      ensures memBase != 0 && p != 0 ==>
        && memBase <= p && p + size <= memCurrent && p + size <= memBase + memLimit && old(memCurrent) <= memCurrent
        && (memAvail > 0 ==> memCurrent + memAvail == memBase + memLimit)
        && p == old(memCurrent) && memCurrent < p + size + CHUNK_ALIGN_BYTES
        && Apart8(memBase, p) && Apart8(memBase, memCurrent)
    {
      if memBase == 0 {
        if !mallocOk { return 0; }
        BeyondIsClear(slabclass, size);
        p :| p != 0 && Clear(slabclass, p, size);
      } else {
        ArenaBase(slabclass, memBase, memLimit, memCurrent, memAvail);
        if size > memAvail { return 0; }
        p := memCurrent;
        var n := size;
        if n % CHUNK_ALIGN_BYTES != 0 {
          n := n + CHUNK_ALIGN_BYTES - n % CHUNK_ALIGN_BYTES;
        }
        memCurrent := memCurrent + n;
        if n < memAvail {
          memAvail := memAvail - n;
        } else {
          memAvail := 0;
        }
      }
    }

    /** do_slabs_newslab */
    method NewSlab(id: nat, mallocOk: bool) returns (ok: bool)
      requires Valid() && POWER_SMALLEST <= id <= powerLargest && us[id].tail == []
      modifies this
      ensures Valid()
      ensures !ok <==> Refused(old(TakeStock()), old(slabclass)[id], mallocOk)
      ensures ok ==> memLimit == 0 || memMalloced <= memLimit || old(slabclass)[id].slabList == []
      ensures !ok && memBase == 0 && mallocOk ==> memLimit != 0 && old(slabclass)[id].slabList != []
      ensures !ok && memBase == 0 && mallocOk ==>
        old(memMalloced) + old(slabclass)[id].perslab * old(slabclass)[id].size > memLimit
      ensures memBase == 0 && !mallocOk ==> !ok
      ensures !ok ==> unchanged(this)
      ensures ok ==> memMalloced == old(memMalloced + PageLen(slabclass[id]))
      ensures ok ==> us[id].tail != [] && us == old(us)[id := Use(us[id].tail, old(us)[id].live)]
      ensures ok ==> slabclass == old(slabclass)[id := slabclass[id]] && slabclass[id].slots == old(slabclass)[id].slots
      ensures ok ==> slabclass[id].size == old(slabclass)[id].size
      ensures ok ==> forall x :: x in old(owner) ==> x in owner && owner[x].cls == old(owner)[x].cls
      ensures ok ==> forall x :: x in us[id].tail ==> x !in old(owner)
    {
      hide SlabsOk, MemOk, ArenaOk;
      ShapeOf(slabclass, us, owner);
      var k := slabclass[id];
      var len := PageLen(k);
      TimesIsProduct(k.perslab, k.size);
      if OverLimit(TakeStock(), k) { return false; }
      LenPositive(k);
      var p := MemoryAllocate(len, mallocOk);
      if p == 0 { return false; }
      ghost var sc0, us0, own0 := slabclass, us, owner;
      NewPageOk(sc0, us0, own0, id, p);
      NewPageMem(sc0, id, p, memMalloced, memLimit);
      NewPageArena(sc0, id, p, memBase, memLimit, old(memCurrent), old(memAvail), memCurrent, memAvail);
      NewPageFresh(sc0, us0, own0, id, p);
      slabclass := slabclass[id := k.(endPagePtr := p, endPageFree := k.perslab, slabList := k.slabList + [p])];
      memMalloced := memMalloced + len;
      us := us0[id := us0[id].(tail := PageChunks(p, k.perslab, k.size))];
      owner := OwnPage(own0, id, |k.slabList|, p, k.perslab, k.size);
      ok := true;
    }

    /** do_slabs_alloc: a chunk that nobody has, or 0 exactly when the class is used up and gets no page */
    method Alloc(id: nat, mallocOk: bool) returns (p: Ptr)
      requires Valid()
      modifies this
      ensures Valid() && |us| == old(|us|) && |slabclass| == old(|slabclass|)
      ensures forall c :: 0 <= c < |slabclass| ==> slabclass[c].size == old(slabclass)[c].size
      ensures p == 0 <==> !(POWER_SMALLEST <= id <= powerLargest) || Exhausted(old(TakeStock()), id, mallocOk)
      ensures p == 0 ==> unchanged(this)
      ensures p != 0 ==> POWER_SMALLEST <= id <= powerLargest && p !in old(us)[id].live
      ensures p != 0 ==> us[id].live == old(us)[id].live + {p} && p in owner && owner[p].cls == id
      ensures p != 0 ==> forall c :: 0 <= c < |us| && c != id ==> us[c].live == old(us)[c].live && p !in us[c].live
      ensures forall x :: x in old(owner) ==> x in owner && owner[x].cls == old(owner)[x].cls
    {
      hide SlabsOk, MemOk, ArenaOk;
      ShapeOf(slabclass, us, owner);
      if id < POWER_SMALLEST || id > powerLargest { return 0; }
      TailIff(slabclass, us, owner, id);
      if slabclass[id].endPagePtr == 0 && slabclass[id].slots == [] {
        var ok := NewSlab(id, mallocOk);
        if !ok { return 0; }
      }
      p := Take(id);
    }

    /** do_slabs_alloc once the class has a free chunk */
    method Take(id: nat) returns (p: Ptr)
      requires Valid() && POWER_SMALLEST <= id <= powerLargest
      requires id < |us| && (slabclass[id].slots != [] || us[id].tail != [])
      modifies this`slabclass, this`us
      ensures Valid() && p != 0 && |us| == old(|us|) && p !in old(us)[id].live && p in owner && owner[p].cls == id
      ensures us == old(us)[id := us[id]] && us[id].live == old(us)[id].live + {p}
      ensures forall c :: 0 <= c < |us| && c != id ==> p !in us[c].live
      ensures slabclass == old(slabclass)[id := slabclass[id]] && slabclass[id].size == old(slabclass)[id].size
    {
      hide MemOk, ArenaOk, SlabsOk;
      ghost var sc0, us0 := slabclass, us;
      ShapeOf(sc0, us0, owner);
      var k := slabclass[id];
      ghost var u := us[id];
      ClassIs(sc0, us0, owner, id);
      p, k, u := TakeFrom(k, u);
      hide ClassOk, Has, Configured;
      OwnerIs(sc0, us0, owner, id, p);
      MoveWithin(sc0, us0, owner, id, k, u);
      SameMem(sc0, id, k, memMalloced, memLimit, memBase, memCurrent, memAvail);
      StaysConfigured(sc0, powerLargest, id, k);
      slabclass, us := slabclass[id := k], us[id := u];
    }

    /** do_slabs_free */
    method Free(p: Ptr, id: nat)
      requires Valid() && POWER_SMALLEST <= id <= powerLargest && id < |us| && p in us[id].live
      modifies this`slabclass, this`us
      ensures Valid() && |us| == old(|us|)
      ensures us == old(us)[id := us[id]] && us[id].live == old(us)[id].live - {p} && us[id].tail == old(us)[id].tail
      ensures slabclass == old(slabclass)[id := slabclass[id]] && slabclass[id].size == old(slabclass)[id].size
      ensures slabclass[id].slots == old(slabclass)[id].slots + [p]
    {
      hide MemOk, ArenaOk, SlabsOk;
      ghost var sc0, us0 := slabclass, us;
      ShapeOf(sc0, us0, owner);
      var k := slabclass[id];
      ghost var u := us[id];
      ClassIs(sc0, us0, owner, id);
      PutSlot(k, u, p);
      k := k.(slots := k.slots + [p]);
      u := u.(live := u.live - {p});
      MoveWithin(sc0, us0, owner, id, k, u);
      SameMem(sc0, id, k, memMalloced, memLimit, memBase, memCurrent, memAvail);
      slabclass, us := slabclass[id := k], us[id := u];
    }
  }

  /** do_slabs_alloc on the class itself: the top free slot, or the next chunk of the newest page */
  method TakeFrom(k0: SlabClass, ghost u0: Use) returns (p: Ptr, k: SlabClass, ghost u: Use)
    requires ClassOk(k0, u0) && (k0.slots != [] || u0.tail != [])
    ensures p != 0 && p !in u0.live && u.live == u0.live + {p} && ClassOk(k, u) && Has(k0, u0, p)
    ensures k.size == k0.size && k.perslab == k0.perslab && k.slabList == k0.slabList
    ensures forall x :: Has(k, u, x) <==> Has(k0, u0, x)
  {
    k := k0;
    if k.slots != [] {
      TakeSlot(k, u0);
      hide ClassOk;
      p := k.slots[|k.slots| - 1];
      k := k.(slots := k.slots[..|k.slots| - 1]);
      u := u0.(live := u0.live + {p});
    } else {
      TakeTail(k, u0);
      p := k.endPagePtr;
      k := k.(endPageFree := k.endPageFree - 1);
      if k.endPageFree != 0 {
        k := k.(endPagePtr := k.endPagePtr + k.size);
      } else {
        k := k.(endPagePtr := 0);
      }
      u := Use(u0.tail[1..], u0.live + {p});
    }
    assert Has(k, u, p);
  }

  lemma StaysConfigured(sc: seq<SlabClass>, powerLargest: nat, c: nat, k: SlabClass)
    requires Configured(sc, powerLargest) && c < |sc|
    requires k.size == sc[c].size && k.perslab == sc[c].perslab && k.slabList == sc[c].slabList
    ensures Configured(sc[c := k], powerLargest)
  {
  }

  /** An address behind the first `j` pages of a class. */
  function PagesEnd(k: SlabClass, j: nat): (r: Ptr)
    requires j <= |k.slabList|
    ensures forall i {:trigger k.slabList[i]} :: 0 <= i < j ==> k.slabList[i] + PageLen(k) <= r
  {
    if j == 0 then 0
    else
      var r := PagesEnd(k, j - 1);
      var end := k.slabList[j - 1] + PageLen(k);
      if r < end then end else r
  }

  /** An address behind all pages of the first `n` classes. */
  function Beyond(sc: seq<SlabClass>, n: nat): (r: Ptr)
    requires n <= |sc|
    ensures r != 0
    ensures forall c, i {:trigger sc[c].slabList[i]} :: 0 <= c < n && 0 <= i < |sc[c].slabList| ==>
      sc[c].slabList[i] + PageLen(sc[c]) <= r
  {
    if n == 0 then 1
    else
      var r := Beyond(sc, n - 1);
      var end := PagesEnd(sc[n - 1], |sc[n - 1].slabList|);
      if r < end then end else r
  }

  lemma BeyondIsClear(sc: seq<SlabClass>, size: nat)
    ensures exists p: Ptr :: p != 0 && Clear(sc, p, size)
  {
    assert Clear(sc, Beyond(sc, |sc|), size);
  }

  lemma ArenaBase(sc: seq<SlabClass>, base: Ptr, limit: nat, current: Ptr, avail: nat)
    requires ArenaOk(sc, base, limit, current, avail) && base != 0
    ensures current != 0
  {
  }

  lemma ShapeOf(sc: seq<SlabClass>, us: seq<Use>, owner: map<Ptr, Chunk>)
    requires SlabsOk(sc, us, owner)
    ensures |us| == |sc|
  {
  }

  lemma ClassIs(sc: seq<SlabClass>, us: seq<Use>, owner: map<Ptr, Chunk>, c: nat)
    requires SlabsOk(sc, us, owner) && c < |sc|
    ensures ClassOk(sc[c], us[c])
  {
  }

  lemma TailIff(sc: seq<SlabClass>, us: seq<Use>, owner: map<Ptr, Chunk>, c: nat)
    requires SlabsOk(sc, us, owner) && c < |sc|
    ensures sc[c].endPagePtr == 0 <==> us[c].tail == []
    ensures sc[c].endPageFree == |us[c].tail|
  {
    ClassIs(sc, us, owner, c);
    if us[c].tail != [] { assert us[c].tail[0] in us[c].tail; }
  }

  /** A chunk belongs to one class only. */
  lemma OwnerIs(sc: seq<SlabClass>, us: seq<Use>, owner: map<Ptr, Chunk>, c: nat, x: Ptr)
    requires SlabsOk(sc, us, owner) && c < |sc| && Has(sc[c], us[c], x)
    ensures x in owner && owner[x].cls == c
    ensures forall d :: 0 <= d < |sc| && d != c ==> x !in us[d].live
  {
    forall d | 0 <= d < |sc| && d != c ensures x !in us[d].live {
      assert x in us[d].live ==> Has(sc[d], us[d], x);
    }
  }

  lemma LenPositive(k: SlabClass)
    requires k.size > 0 && k.perslab > 0
    ensures PageLen(k) > 0
  {
  }

  lemma NewPageFresh(sc: seq<SlabClass>, us: seq<Use>, owner: map<Ptr, Chunk>, c: nat, p: Ptr)
    requires SlabsOk(sc, us, owner) && c < |sc| && sc[c].size > 0 && sc[c].perslab > 0 && p != 0
    requires Clear(sc, p, PageLen(sc[c])) && forall d :: 0 <= d < |sc| && sc[d].slabList != [] ==> sc[d].size > 0
    ensures PageChunks(p, sc[c].perslab, sc[c].size) != []
    ensures forall x :: x in PageChunks(p, sc[c].perslab, sc[c].size) ==> x !in owner
  {
    PageChunksDistinct(p, sc[c].perslab, sc[c].size);
    forall x | x in owner ensures x !in PageChunks(p, sc[c].perslab, sc[c].size) {
      ChunkOutside(sc, us, owner, x, p, PageLen(sc[c]));
    }
  }

  lemma NewPageArena(sc: seq<SlabClass>, c: nat, p: Ptr, base: Ptr, limit: nat, current: Ptr, avail: nat,
                     current': Ptr, avail': nat)
    requires ArenaOk(sc, base, limit, current, avail) && c < |sc|
    requires base != 0 ==>
        && base <= p && p + PageLen(sc[c]) <= current' && p + PageLen(sc[c]) <= base + limit && current <= current'
        && Apart8(base, p) && Apart8(base, current')
        && (avail' > 0 ==> current' + avail' == base + limit)
    ensures ArenaOk(sc[c := NewPage(sc[c], p)], base, limit, current', avail')
  {
    var sc' := sc[c := NewPage(sc[c], p)];
    assert forall d :: 0 <= d < |sc| ==> PageLen(sc'[d]) == PageLen(sc[d]);
  }

  lemma SameMem(sc: seq<SlabClass>, c: nat, k: SlabClass, memMalloced: nat, memLimit: nat, base: Ptr, current: Ptr,
                avail: nat)
    requires c < |sc| && k.size == sc[c].size && k.perslab == sc[c].perslab && k.slabList == sc[c].slabList
    requires MemOk(sc, memMalloced, memLimit) && ArenaOk(sc, base, memLimit, current, avail)
    ensures MemOk(sc[c := k], memMalloced, memLimit) && ArenaOk(sc[c := k], base, memLimit, current, avail)
  {
    var sc' := sc[c := k];
    assert forall d :: 0 <= d < |sc| ==> PageLen(sc'[d]) == PageLen(sc[d]) && sc'[d].slabList == sc[d].slabList;
    BytesFrame(sc, sc', |sc|);
  }

  lemma {:induction false} NoPages(sc: seq<SlabClass>, n: nat)
    requires n <= |sc| && forall c :: 0 <= c < |sc| ==> sc[c].slabList == []
    ensures PageBytes(sc, n) == 0 && OnePageEach(sc, n) == 0
  {
    if n > 0 { NoPages(sc, n - 1); }
  }

  // ---------------------------------------------------------------- slabs_init

  function Align(size: nat): (r: nat)
    ensures size <= r < size + CHUNK_ALIGN_BYTES && r % CHUNK_ALIGN_BYTES == 0
  {
    if size % CHUNK_ALIGN_BYTES != 0 then size + (CHUNK_ALIGN_BYTES - size % CHUNK_ALIGN_BYTES) else size
  }

  /** Rounding up does not pass a multiple. */
  lemma AlignBelow(size: nat, max: nat)
    requires size <= max && max % CHUNK_ALIGN_BYTES == 0
    ensures Align(size) <= max
  {
  }

  /** size *= factor on an unsigned integer */
  function Scale(size: nat, factor: real): (r: nat)
    requires factor > 1.0
    ensures r >= size && r as real <= size as real * factor < r as real + 1.0
  {
    ScaleUp(size as real, factor);
    (size as real * factor).Floor
  }

  lemma ScaleUp(x: real, factor: real)
    requires factor > 1.0 && x >= 0.0
    ensures x * factor >= x
  {
    assert x * factor == x + x * (factor - 1.0);
  }

  /** Aligned chunks, as many as fit a page of the largest item's size. */
  predicate Sized(size: nat, perslab: nat, first: nat, itemSizeMax: nat)
  {
    size >= first && size > 0 && size % CHUNK_ALIGN_BYTES == 0 && perslab == itemSizeMax / size
  }

  /** The class table: sizes ascend in aligned steps up to the largest item, which is a class of its own.
      Every page holds a chunk if the largest size is itself aligned. */
  method SlabsInit(first: nat, itemSizeMax: nat, factor: real)
    returns (sizes: seq<nat>, perslab: seq<nat>, powerLargest: nat)
    requires first > 0 && itemSizeMax > 0 && factor > 1.0
    ensures |sizes| == |perslab| == POWER_LARGEST + 1 && POWER_SMALLEST <= powerLargest <= POWER_LARGEST
    ensures sizes[powerLargest] == itemSizeMax && perslab[powerLargest] == 1
    ensures forall c :: POWER_SMALLEST <= c < powerLargest ==> Sized(sizes[c], perslab[c], first, itemSizeMax)
    ensures forall c :: POWER_SMALLEST <= c < powerLargest ==>
      Wanted(sizes, first, factor, c) <= sizes[c] < Wanted(sizes, first, factor, c) + CHUNK_ALIGN_BYTES
    ensures forall c :: POWER_SMALLEST <= c < powerLargest ==>
      Wanted(sizes, first, factor, c) as real <= itemSizeMax as real / factor
    ensures powerLargest < POWER_LARGEST ==>
      Wanted(sizes, first, factor, powerLargest) as real > itemSizeMax as real / factor
    ensures forall c, d :: POWER_SMALLEST <= c <= d < powerLargest ==> sizes[c] <= sizes[d]
    ensures itemSizeMax % CHUNK_ALIGN_BYTES == 0 ==> forall c :: POWER_SMALLEST <= c <= powerLargest ==>
      sizes[c] <= itemSizeMax && perslab[c] > 0
  {
    hide Graded, Sized, Wanted, Scale, Align, Table;
    sizes, perslab := seq(POWER_LARGEST + 1, i => 0), seq(POWER_LARGEST + 1, i => 0);
    var i, size := POWER_SMALLEST, first;
    NoClass(sizes, perslab, first, factor, itemSizeMax);
    while i < POWER_LARGEST && size as real <= itemSizeMax as real / factor
      invariant POWER_SMALLEST <= i <= POWER_LARGEST && |sizes| == |perslab| == POWER_LARGEST + 1
      invariant Table(sizes, perslab, first, factor, itemSizeMax, i)
      invariant size == Wanted(sizes, first, factor, i) && size >= first
      invariant forall c :: POWER_SMALLEST <= c < i ==> sizes[c] <= size
    {
      GradedNow(sizes, first, factor, itemSizeMax, i, size);
      SizedNow(size, first, itemSizeMax, factor);
      AlignIs(size);
      NextClass(sizes, perslab, first, factor, itemSizeMax, i, Align(size), itemSizeMax / Align(size));
      ScaledIs(sizes, first, factor, i, Align(size));
      size := Align(size);
      sizes := sizes[i := size];
      perslab := perslab[i := itemSizeMax / size];
      size := Scale(size, factor);
      i := i + 1;
    }
    powerLargest := i;
    LastClass(sizes, perslab, first, factor, itemSizeMax, i);
    sizes := sizes[powerLargest := itemSizeMax];
    perslab := perslab[powerLargest := 1];
  }

  /** The classes below `n` are right. */
  ghost predicate Table(sizes: seq<nat>, perslab: seq<nat>, first: nat, factor: real, itemSizeMax: nat, n: nat)
    requires factor > 1.0 && POWER_SMALLEST <= n <= |sizes| == |perslab|
  {
    && (forall c {:trigger sizes[c]} :: POWER_SMALLEST <= c < n ==>
          Sized(sizes[c], perslab[c], first, itemSizeMax) && Graded(sizes, first, factor, itemSizeMax, c))
    && (forall c, d :: POWER_SMALLEST <= c <= d < n ==> sizes[c] <= sizes[d])
    && (itemSizeMax % CHUNK_ALIGN_BYTES == 0 ==> forall c {:trigger sizes[c]} :: POWER_SMALLEST <= c < n ==>
          sizes[c] <= itemSizeMax && perslab[c] > 0)
  }

  lemma NoClass(sizes: seq<nat>, perslab: seq<nat>, first: nat, factor: real, itemSizeMax: nat)
    requires factor > 1.0 && |sizes| == |perslab| == POWER_LARGEST + 1
    ensures Table(sizes, perslab, first, factor, itemSizeMax, POWER_SMALLEST)
    ensures Wanted(sizes, first, factor, POWER_SMALLEST) == first
  {
  }

  /** slabs_init makes another class of this size. */
  ghost predicate Below(size: int, itemSizeMax: nat, factor: real)
    requires factor > 1.0
  {
    size as real <= itemSizeMax as real / factor
  }

  lemma NextClass(sizes: seq<nat>, perslab: seq<nat>, first: nat, factor: real, itemSizeMax: nat, i: nat, x: nat,
                  n: nat)
    requires factor > 1.0 && POWER_SMALLEST <= i < |sizes| == |perslab|
    requires Table(sizes, perslab, first, factor, itemSizeMax, i) && Sized(x, n, first, itemSizeMax)
    requires Graded(sizes[i := x], first, factor, itemSizeMax, i)
    requires itemSizeMax % CHUNK_ALIGN_BYTES == 0 ==> x <= itemSizeMax && n > 0
    requires forall c :: POWER_SMALLEST <= c < i ==> sizes[c] <= x
    ensures Table(sizes[i := x], perslab[i := n], first, factor, itemSizeMax, i + 1)
  {
    hide Graded, Sized;
    var sizes' := sizes[i := x];
    forall c | POWER_SMALLEST <= c < i ensures Graded(sizes', first, factor, itemSizeMax, c) {
      assert Sized(sizes[c], perslab[c], first, itemSizeMax);
      GradedStill(sizes, first, factor, itemSizeMax, i, x, c);
    }
  }

  lemma AlignIs(size: nat)
    ensures size <= Align(size)
  {
  }

  lemma SizedNow(size: nat, first: nat, itemSizeMax: nat, factor: real)
    requires factor > 1.0 && 0 < first <= size && Below(size, itemSizeMax, factor)
    ensures var x := Align(size);
      && Sized(x, itemSizeMax / x, first, itemSizeMax)
      && (itemSizeMax % CHUNK_ALIGN_BYTES == 0 ==> x <= itemSizeMax && itemSizeMax / x > 0)
  {
    if itemSizeMax % CHUNK_ALIGN_BYTES == 0 {
      Shrinks(itemSizeMax as real, factor);
      AlignBelow(size, itemSizeMax);
      OneFits(itemSizeMax, Align(size));
    }
  }

  lemma ScaledIs(sizes: seq<nat>, first: nat, factor: real, i: nat, x: nat)
    requires factor > 1.0 && POWER_SMALLEST <= i < |sizes|
    ensures Scale(x, factor) == Wanted(sizes[i := x], first, factor, i + 1) && x <= Scale(x, factor)
  {
  }

  lemma GradedNow(sizes: seq<nat>, first: nat, factor: real, itemSizeMax: nat, i: nat, size: nat)
    requires factor > 1.0 && POWER_SMALLEST <= i < |sizes|
    requires size == Wanted(sizes, first, factor, i) && Below(size, itemSizeMax, factor)
    ensures Graded(sizes[i := Align(size)], first, factor, itemSizeMax, i)
  {
    hide Wanted, Below;
    WantedStill(sizes, first, factor, i, Align(size), i);
  }

  lemma GradedStill(sizes: seq<nat>, first: nat, factor: real, itemSizeMax: nat, i: nat, x: nat, c: nat)
    requires factor > 1.0 && POWER_SMALLEST <= c < i < |sizes| && Graded(sizes, first, factor, itemSizeMax, c)
    ensures Graded(sizes[i := x], first, factor, itemSizeMax, c)
  {
    hide Wanted, Below;
    WantedStill(sizes, first, factor, i, x, c);
  }

  /** The largest item is a class of its own. */
  lemma LastClass(sizes: seq<nat>, perslab: seq<nat>, first: nat, factor: real, itemSizeMax: nat, i: nat)
    requires factor > 1.0 && POWER_SMALLEST <= i < |sizes| == |perslab|
    requires Table(sizes, perslab, first, factor, itemSizeMax, i)
    ensures var sizes', perslab' := sizes[i := itemSizeMax], perslab[i := 1];
      && Wanted(sizes', first, factor, i) == Wanted(sizes, first, factor, i)
      && (forall c :: POWER_SMALLEST <= c < i ==>
            && Sized(sizes'[c], perslab'[c], first, itemSizeMax)
            && Wanted(sizes', first, factor, c) <= sizes'[c] < Wanted(sizes', first, factor, c) + CHUNK_ALIGN_BYTES
            && Below(Wanted(sizes', first, factor, c), itemSizeMax, factor))
      && (forall c, d :: POWER_SMALLEST <= c <= d < i ==> sizes'[c] <= sizes'[d])
      && (itemSizeMax % CHUNK_ALIGN_BYTES == 0 ==> forall c :: POWER_SMALLEST <= c <= i ==>
            sizes'[c] <= itemSizeMax && perslab'[c] > 0)
  {
    hide Sized, Wanted, Below;
    var sizes', perslab' := sizes[i := itemSizeMax], perslab[i := 1];
    forall c | POWER_SMALLEST <= c <= i ensures Wanted(sizes', first, factor, c) == Wanted(sizes, first, factor, c) {
      WantedStill(sizes, first, factor, i, itemSizeMax, c);
    }
    forall c | POWER_SMALLEST <= c < i
      ensures sizes'[c] == sizes[c] && perslab'[c] == perslab[c] && Sized(sizes[c], perslab[c], first, itemSizeMax)
      ensures Graded(sizes, first, factor, itemSizeMax, c)
    {
    }
  }

  lemma WantedStill(sizes: seq<nat>, first: nat, factor: real, i: nat, x: nat, c: nat)
    requires POWER_SMALLEST <= c <= i < |sizes|
    ensures Wanted(sizes[i := x], first, factor, c) == Wanted(sizes, first, factor, c)
  {
  }

  /** The size of class `c` before alignment: the first size, or the class before times the factor, rounded down. */
  ghost function Wanted(sizes: seq<nat>, first: nat, factor: real, c: nat): int
    requires POWER_SMALLEST <= c <= |sizes|
  {
    if c == POWER_SMALLEST then first else (sizes[c - 1] as real * factor).Floor
  }

  ghost predicate Graded(sizes: seq<nat>, first: nat, factor: real, itemSizeMax: nat, c: nat)
    requires POWER_SMALLEST <= c < |sizes| && factor > 1.0
  {
    var w := Wanted(sizes, first, factor, c);
    w <= sizes[c] < w + CHUNK_ALIGN_BYTES && Below(w, itemSizeMax, factor)
  }

  lemma Shrinks(x: real, factor: real)
    requires x >= 0.0 && factor > 1.0
    ensures x / factor <= x
  {
    var y := x / factor;
    assert y * factor == x;
    if y > x {
      ScaleUp(y, factor);
    }
  }

  lemma OneFits(a: nat, b: nat)
    requires 0 < b <= a
    ensures a / b > 0
  {
  }
}
