/** memcached-1.4.5: items.c and the storage commands of memcached.c over index, queues and slabs.
    Each method is one operation under cache_lock. */
module Cache {
  import opened Assoc
  import opened Lru
  import opened Slabs
  import opened ItemState

  /** What the C library answers during one operation: calloc for a larger hash table, malloc for a slab page,
      and malloc at the second attempt. */
  datatype Sys = Sys(callocOk: bool, mallocOk: bool, againOk: bool)

  /** What decides whether do_item_alloc finds room: the queues, the allocator and the settings. */
  datatype Room = Room(q: seq<seq<Ptr>>, stock: Stock, evict: bool, useCas: bool)

  /** do_item_alloc finds no chunk in class `id`: nothing within reach has expired, the class is used up, and nothing
      may or can be evicted. */
  ghost predicate NoRoom(r: Room, m: Items, id: nat, sys: Sys)
  {
    && NoneExpired(m, r.q, id) && Exhausted(r.stock, id, sys.mallocOk)
    && (r.evict ==> AllBusy(m, r.q, id) && (Empty(r.q, id) || Exhausted(r.stock, id, sys.againOk)))
  }

  /** do_item_alloc in class `id` leaves all entries alone: nothing within reach has expired, and the class is not used
      up, or nothing may or can be evicted. */
  ghost predicate Spared(r: Room, m: Items, id: nat, sys: Sys)
  {
    NoneExpired(m, r.q, id) && (Exhausted(r.stock, id, sys.mallocOk) && r.evict ==> AllBusy(m, r.q, id))
  }

  /** Why do_item_alloc unlinks `victim`: it is the oldest within reach that has expired; or nothing has expired, the
      class is used up, eviction is allowed, and it is the oldest within reach that nobody holds. */
  ghost predicate Forced(r: Room, m: Items, id: nat, victim: Ptr, sys: Sys)
  {
    || Oldest(m, r.q, id, victim, true)
    || (NoneExpired(m, r.q, id) && Exhausted(r.stock, id, sys.mallocOk) && r.evict && Oldest(m, r.q, id, victim, false))
  }

  /** Nobody holds `x`, it has expired if that is asked for, and no such item is nearer to the tail of queue `id`. */
  ghost predicate Oldest(m: Items, q: seq<seq<Ptr>>, id: nat, x: Ptr, expired: bool)
  {
    exists n {:trigger OldestAt(m, q, id, x, expired, n)} :: OldestAt(m, q, id, x, expired, n)
  }

  ghost predicate OldestAt(m: Items, q: seq<seq<Ptr>>, id: nat, x: Ptr, expired: bool, n: nat)
  {
    && id < |q| && InReach(q[id], n) && q[id][n] == x && Idle(m, x, expired)
    && forall i {:trigger q[id][i]} :: n < i < |q[id]| ==> !Idle(m, q[id][i], expired)
  }

  class Cache {
    const assoc: Assoc
    const lru: Lru
    const slabs: Slabs
    const useCas: bool              // settings.use_cas
    const evictToFree: bool         // settings.evict_to_free
    var m: Items
    ghost var held: multiset<Ptr>   // the references handed out to connections
    ghost var doomed: set<Ptr>      // linked items that the last flush hides

    ghost function V(): Views
      reads this, assoc, lru, slabs
    {
      Views(assoc.index, assoc.key, lru.q, lru.home, slabs.us, slabs.slabclass, held, doomed)
    }

    /** Everything agrees, up to one `loose` item. */
    ghost predicate Ok(loose: Ptr)
      reads this, assoc, lru, slabs
    {
      && assoc.Valid() && lru.Valid() && slabs.Valid() && slabs.powerLargest < LARGEST_ID
      && Coherent(m, V(), useCas, loose)
    }

    constructor (assoc: Assoc, lru: Lru, slabs: Slabs, useCas: bool, evictToFree: bool, now: nat)
      requires assoc.Valid() && assoc.index == map[] && lru.Valid() && lru.home == map[] && slabs.Valid()
      requires slabs.powerLargest < LARGEST_ID
      requires forall c :: 0 <= c < |slabs.us| ==> slabs.us[c].live == {}
      requires forall c :: 0 <= c < LARGEST_ID ==> lru.q[c] == []
      ensures Ok(0) && held == multiset{} && this.assoc == assoc && this.lru == lru && this.slabs == slabs
      ensures m.linked == {} && m.now == now && m.casId == 0 && m.oldestLive == 0 && m.currItems == 0 == m.currBytes
      ensures this.useCas == useCas && this.evictToFree == evictToFree
    {
      this.assoc, this.lru, this.slabs := assoc, lru, slabs;
      this.useCas, this.evictToFree := useCas, evictToFree;
      m := Items(now, 0, 0, 0, 0, map[], map[], map[], map[], map[], map[], map[], map[], {}, {});
      held, doomed := multiset{}, {};
    }

    /** item_free: reached only for an unlinked item without holders */
    method ItemFree(it: Ptr)
      requires Ok(it) && it !in m.linked && it != 0 && Ld(m.clsid, it) != 0 && Ld(m.refcount, it) == 0
      modifies this`m, slabs
      ensures HasFree(slabs.slabclass, Ld(old(m).clsid, it)) && SameSizes(old(slabs.slabclass), slabs.slabclass)
      ensures Ok(0) && m == old(m).(clsid := old(m).clsid[it := 0], slabbed := old(m).slabbed + {it})
    {
      hide Coherent, TablesOk, QueuesOk, SlabsOk, MemOk, ArenaOk, Configured, Bytes, Without;
      ghost var v, m0 := V(), m;
      var id := Ld(m.clsid, it);
      FreeChecks(m, v, useCas, it, slabs.owner, slabs.powerLargest, lru.heads, lru.tails, lru.sizes, lru.prev,
                 lru.next);
      assert it != lru.heads[id] && it != lru.tails[id];
      m := m.(clsid := m.clsid[it := 0]);
      m := m.(slabbed := m.slabbed + {it});
      slabs.Free(it, id);
      FreeCoherent(m0, v, useCas, it, m, V());
    }

    /** do_item_unlink of a linked item, up to its release */
    method Untie(it: Ptr) returns (ghost n: nat)
      requires Ok(0) && it in m.linked
      modifies this`m, this`doomed, assoc, lru
      ensures Ok(if Ld(m.refcount, it) > 0 then 0 else it) && CutFrom(old(lru.q), lru.q, Ld(m.clsid, it), n, it)
      ensures it != 0 && Ld(m.clsid, it) != 0 && doomed == old(doomed) - {it} && m == Untied(old(m), it)
      ensures assoc.key == old(assoc.key) && it in assoc.key && assoc.index == old(assoc.index) - {assoc.key[it]}
    {
      hide Coherent, TablesOk, QueuesOk, SlabsOk, MemOk, ArenaOk, Configured, Bytes, Without;
      ghost var v, m0 := V(), m;
      UnlinkFacts(m, v, useCas, it);
      m := m.(linked := m.linked - {it}, currBytes := m.currBytes - Bytes(it, m.shape), currItems := m.currItems - 1);
      doomed := doomed - {it};
      assoc.Delete(assoc.key[it]);
      n := lru.UnlinkQ(it, Ld(m.clsid, it));
      UnlinkCoherent(m0, v, useCas, it, n, m, V());
    }

    /** do_item_unlink of a linked item; it is freed unless somebody holds it */
    method Unlink(it: Ptr) returns (ghost n: nat)
      requires Ok(0) && it in m.linked
      modifies this`m, this`doomed, assoc, lru, slabs
      ensures CutFrom(old(lru.q), lru.q, Ld(old(m).clsid, it), n, it)
      ensures Ld(m.refcount, it) == 0 ==> HasFree(slabs.slabclass, Ld(old(m).clsid, it))
      ensures SameSizes(old(slabs.slabclass), slabs.slabclass)
      ensures Ok(0) && doomed == old(doomed) - {it}
      ensures assoc.key == old(assoc.key) && it in assoc.key && assoc.index == old(assoc.index) - {assoc.key[it]}
      ensures m == Unlinked(old(m), it)
      ensures Ld(m.refcount, it) > 0 ==> slabs.us == old(slabs.us) && slabs.slabclass == old(slabs.slabclass)
    {
      hide Coherent, TablesOk, QueuesOk, SlabsOk, MemOk, ArenaOk, Configured, Bytes, Without, Unlinked, Untied, CutFrom;
      UnlinkedIs(m, it);
      n := Untie(it);
      if Ld(m.refcount, it) == 0 {
        ItemFree(it);
      }
    }

    /** do_item_link of an item its caller holds; no item with its key may be linked */
    method Link(it: Ptr, callocOk: bool)
      requires Ok(0) && held[it] > 0 && it != 0 && it in assoc.key && assoc.key[it] !in assoc.index
      modifies this`m, assoc, lru
      ensures Ok(0) && it in m.linked && it !in old(m).linked
      ensures assoc.key == old(assoc.key) && assoc.index == old(assoc.index)[assoc.key[it] := it]
      ensures m == Relinked(old(m), it, useCas) && AtHead(old(lru.q), lru.q, Ld(m.clsid, it), it)
    {
      hide Coherent, TablesOk, QueuesOk, SlabsOk, MemOk, ArenaOk, Configured, Bytes, Without, Relinked;
      ghost var v, m0 := V(), m;
      RelinkedIs(m0, it, useCas);
      LinkChecks(m, v, useCas, it, slabs.owner, slabs.powerLargest, lru.heads, lru.tails, lru.sizes, lru.prev,
                 lru.next);
      Enter(it, callocOk);
      lru.LinkQ(it, Ld(m.clsid, it));
      LinkCoherent(m0, v, useCas, it, m, V());
    }

    /** do_item_link, all but the queue */
    method Enter(it: Ptr, callocOk: bool)
      requires assoc.Valid() && it != 0 && it in assoc.key && assoc.key[it] !in assoc.index
      modifies this`m, assoc
      ensures assoc.Valid() && m == Relinked(old(m), it, useCas)
      ensures assoc.key == old(assoc.key) && assoc.index == old(assoc.index)[assoc.key[it] := it]
    {
      hide TablesOk, Bytes, Relinked;
      RelinkedIs(m, it, useCas);
      m := m.(linked := m.linked + {it}, time := m.time[it := m.now]);
      assoc.Insert(it, callocOk);
      m := m.(currBytes := m.currBytes + Bytes(it, m.shape), currItems := m.currItems + 1,
              casId := if useCas then m.casId + 1 else m.casId,
              cas := if useCas then m.cas[it := m.casId + 1] else m.cas);
    }

    /** do_item_remove: one reference less; the last one of an unlinked item frees it */
    method Remove(it: Ptr)
      requires Ok(0) && held[it] > 0
      modifies this`m, this`held, slabs
      ensures Ok(0) && held == old(held) - multiset{it}
      ensures m == Dropped(old(m), it)
    {
      hide Coherent, TablesOk, QueuesOk, SlabsOk, MemOk, ArenaOk, Configured, Bytes, Without;
      ghost var v := V();
      DropCoherent(m, v, useCas, it);
      m := m.(refcount := m.refcount[it := Ld(m.refcount, it) - 1]);
      held := held - multiset{it};
      if Ld(m.refcount, it) == 0 && it !in m.linked {
        ItemFree(it);
      }
    }

    /** do_item_update: to the head of its queue unless that was done within the last 60 seconds.
        A linked item hidden by a flush comes back to light by it. */
    method Update(it: Ptr)
      requires Ok(0) && held[it] > 0
      modifies this`m, this`doomed, lru
      ensures Ok(0)
      ensures var bumps := it in m.linked && Ld(old(m).time, it) < Sub32(m.now, ITEM_UPDATE_INTERVAL);
        m == (if bumps then old(m).(time := old(m).time[it := m.now]) else old(m)) &&
        doomed == (if bumps then old(doomed) - {it} else old(doomed)) &&
        if bumps then ToHead(old(lru.q), lru.q, Ld(m.clsid, it), it) else lru.q == old(lru.q)
    {
      hide Coherent, TablesOk, QueuesOk, SlabsOk, MemOk, ArenaOk, Configured, Bytes, Without;
      ghost var v := V();
      if Ld(m.time, it) < Sub32(m.now, ITEM_UPDATE_INTERVAL) {
        if it in m.linked {
          UnlinkFacts(m, v, useCas, it);
          MembersOf(m, v, useCas, lru.heads, lru.tails, lru.sizes, lru.prev, lru.next);
          ghost var n := lru.UnlinkQ(it, Ld(m.clsid, it));
          m := m.(time := m.time[it := m.now]);
          lru.LinkQ(it, Ld(m.clsid, it));
          doomed := doomed - {it};
          BumpCoherent(old(m), v, useCas, it, n);
          assert lru.q == v.q[v.home[it] := [it] + Without(v.q[v.home[it]], n)];
        }
      }
    }

    /** One more reference to a linked item */
    method Hold(it: Ptr)
      requires Ok(0) && it in m.linked
      modifies this`m, this`held
      ensures Ok(0) && held == old(held) + multiset{it}
      ensures m == Raised(old(m), it)
    {
      hide Coherent, TablesOk, QueuesOk, SlabsOk, MemOk, ArenaOk, Configured, Bytes, Without;
      HoldCoherent(m, V(), useCas, it);
      m := m.(refcount := m.refcount[it := Ld(m.refcount, it) + 1]);
      held := held + multiset{it};
    }

    /** do_item_get's tests: is the indexed item hidden by a flush or expired? */
    method Lapsed(it: Ptr) returns (lapsed: bool)
      requires Ok(0) && it in m.linked
      ensures lapsed <==> it in doomed || Expired(m, it)
    {
      hide Expired, Coherent, TablesOk, QueuesOk, SlabsOk, MemOk, ArenaOk, Configured, Bytes, Without;
      NukedIsDoomed(m, V(), useCas, it);
      lapsed := Nuked(m, it) || Expired(m, it);
    }

    /** do_item_get drops an entry it may not return */
    method Expel(it: Ptr, ghost k: Key)
      requires Ok(0) && k in assoc.index && assoc.index[k] == it
      modifies this`m, this`doomed, assoc, lru, slabs
      ensures Ok(0) && assoc.key == old(assoc.key) && assoc.index == old(assoc.index) - {k}
      ensures m == Unlinked(old(m), it) && doomed == old(doomed) - {it}
    {
      hide Unlinked, Coherent, TablesOk, QueuesOk, SlabsOk, MemOk, ArenaOk, Configured, Bytes, Without;
      IndexedIsLinked(m, V(), useCas, k);
      ghost var n := Unlink(it);
    }

    /** do_item_get: lazily unlinks what a flush or its expiry time has hidden, else hands out a reference */
    method Get(k: Key) returns (it: Ptr)
      requires Ok(0)
      modifies this`m, this`held, this`doomed, assoc, lru, slabs
      ensures Ok(0) && assoc.key == old(assoc.key)
      ensures it != 0 <==> Visible(old(m), old(assoc.index), old(doomed), k)
      ensures it != 0 ==> it == old(assoc.index)[k] && unchanged(assoc) && unchanged(lru) && unchanged(slabs)
      ensures it != 0 ==> held == old(held) + multiset{it} && doomed == old(doomed)
      ensures it != 0 ==> m == Raised(old(m), it)
      ensures it == 0 ==> held == old(held) && assoc.index == old(assoc.index) - {k}
      ensures it == 0 ==> m == if k in old(assoc.index) then Unlinked(old(m), old(assoc.index)[k]) else old(m)
      ensures it == 0 ==>
        doomed == if k in old(assoc.index) then old(doomed) - {old(assoc.index)[k]} else old(doomed)
    {
      hide Unlinked, Raised, Expired, Coherent, TablesOk, QueuesOk, SlabsOk, MemOk, ArenaOk, Configured;
      it := assoc.Find(k);
      IndexedIsLinked(m, V(), useCas, k);
      NotThere(assoc.index, k);
      if it != 0 {
        var lapsed := Lapsed(it);
        if lapsed {
          Expel(it, k);
          it := 0;
        } else {
          Hold(it);
        }
      }
    }

    /** The searches of do_item_alloc: up to 50 entries from the tail of the queue */
    method SearchTail(id: nat, expired: bool) returns (it: Ptr, ghost n: nat)
      requires lru.Valid() && id < LARGEST_ID
      ensures it != 0 <==> exists i :: InReach(lru.q[id], i) && Idle(m, lru.q[id][i], expired)
      ensures it != 0 ==> InReach(lru.q[id], n) && lru.q[id][n] == it && Idle(m, it, expired)
      ensures it != 0 ==> forall i :: n < i < |lru.q[id]| ==> !Idle(m, lru.q[id][i], expired)
    {
      hide QueuesOk;
      QueueShape(lru.q, lru.heads, lru.tails, lru.sizes, lru.prev, lru.next, lru.home, id);
      ghost var s := lru.q[id];
      ghost var i := |s|;
      var tries, search := 50, lru.tails[id];
      it, n := 0, 0;
      while tries > 0 && search != 0
        invariant 0 <= i <= |s| && search == Prior(s, i) && tries == 50 - (|s| - i)
        invariant forall j :: i <= j < |s| ==> !Idle(m, s[j], expired)
      {
        if Idle(m, search, expired) {
          it, n := search, i - 1;
          assert InReach(s, n) && Idle(m, s[n], expired);
          return;
        }
        tries := tries - 1;
        assert Ld(lru.prev, s[i - 1]) == Prior(s, i - 1);
        search := Ld(lru.prev, search);
        i := i - 1;
      }
    }

    /** A chunk of class `id` is ours and belongs to no item. */
    ghost predicate Blank(it: Ptr, id: nat)
      reads this, assoc, lru, slabs
    {
      && assoc.Valid() && lru.Valid() && slabs.Valid() && slabs.powerLargest < LARGEST_ID
      && Hole(m, V(), useCas, it, id) && it != 0 && it !in m.linked
      && POWER_SMALLEST <= id <= slabs.powerLargest
    }

    /** do_item_alloc unlinks an expired item under a reference, so that its chunk is not freed */
    method Detach(it: Ptr)
      requires Ok(0) && it in m.linked && Ld(m.refcount, it) == 0
      modifies this`m, this`held, this`doomed, assoc, lru, slabs
      ensures Ok(0) && m == Unlinked(old(m).(refcount := old(m).refcount[it := 1]), it)
      ensures held == old(held) + multiset{it}
      ensures doomed == old(doomed) - {it} && slabs.slabclass == old(slabs.slabclass)
      ensures assoc.key == old(assoc.key) && it in assoc.key && assoc.index == old(assoc.index) - {assoc.key[it]}
    {
      hide Coherent, TablesOk, QueuesOk, SlabsOk, MemOk, ArenaOk, Configured, Bytes, Without;
      HoldCoherent(m, V(), useCas, it);
      m := m.(refcount := m.refcount[it := 1]);
      held := held + multiset{it};
      ghost var n := Unlink(it);
    }

    /** do_item_alloc takes over an expired item */
    method Steal(it: Ptr)
      requires Ok(0) && it in m.linked && Ld(m.refcount, it) == 0
      modifies this`m, this`held, this`doomed, assoc, lru, slabs
      ensures Blank(it, Ld(old(m).clsid, it)) && m == Stolen(old(m), it) && held == old(held)
      ensures doomed == old(doomed) - {it} && slabs.slabclass == old(slabs.slabclass)
      ensures assoc.key == old(assoc.key) && it in assoc.key && assoc.index == old(assoc.index) - {assoc.key[it]}
    {
      hide Coherent, Hole, Unlinked, Stolen, TablesOk, QueuesOk, SlabsOk, MemOk, ArenaOk, Configured, Bytes, Without;
      Detach(it);
      StealFacts(old(m), m, V(), useCas, it, slabs.owner, slabs.powerLargest);
      m := m.(clsid := m.clsid[it := 0]);
      m := m.(refcount := m.refcount[it := 0]);
      held := held - multiset{it};
      assert held == old(held);
    }

    /** slabs_alloc on behalf of do_item_alloc */
    method Fetch(id: nat, mallocOk: bool) returns (p: Ptr)
      requires Ok(0) && POWER_SMALLEST <= id <= slabs.powerLargest
      modifies slabs
      ensures SameSizes(old(slabs.slabclass), slabs.slabclass)
      ensures p == 0 <==> Exhausted(old(slabs.TakeStock()), id, mallocOk)
      ensures p == 0 ==> Ok(0) && unchanged(slabs)
      ensures p != 0 ==> Blank(p, id)
    {
      hide Coherent, Hole, TablesOk, QueuesOk, SlabsOk, MemOk, ArenaOk, Configured, Bytes, Without;
      ghost var v := V();
      ShapeOf(slabs.slabclass, slabs.us, slabs.owner);
      ClassRange(slabs.slabclass, slabs.powerLargest);
      p := slabs.Alloc(id, mallocOk);
      if p != 0 {
        TakenHole(m, v, useCas, p, id, V());
      }
    }

    /** The end of do_item_alloc: the caller gets the only reference to the new item */
    method Finish(it: Ptr, id: nat, k: Key, flags: int, exptime: nat, sh: Shape)
      requires Blank(it, id) && id < |slabs.slabclass| && NTotal(sh) <= slabs.slabclass[id].size
      modifies this`m, this`held, assoc`hNext, assoc`key, lru`prev, lru`next
      ensures Ok(0) && m == Fresh(old(m), it, id, sh, flags, exptime) && held == old(held) + multiset{it}
      ensures assoc.key == old(assoc.key)[it := k] && assoc.hNext == old(assoc.hNext)[it := 0]
      ensures lru.next == old(lru.next)[it := 0] && lru.prev == old(lru.prev)[it := 0]
    {
      hide Coherent, Hole, TablesOk, QueuesOk, SlabsOk, MemOk, ArenaOk, Configured, Bytes, Without;
      ghost var v := V();
      FinishChecks(m, v, useCas, it, id);
      m := m.(clsid := m.clsid[it := id]);
      lru.Reset(it);
      assoc.Prepare(it, k);
      m := m.(refcount := m.refcount[it := 1], slabbed := m.slabbed - {it}, shape := m.shape[it := sh],
              exptime := m.exptime[it := exptime], flags := m.flags[it := flags]);
      held := held + multiset{it};
      AllocCoherent(old(m), v, useCas, it, id, k, sh, m, V());
    }

    /** do_item_alloc makes room by unlinking the oldest unreferenced item within reach */
    method Evict(id: nat) returns (victim: Ptr)
      requires Ok(0) && id < LARGEST_ID
      modifies this`m, this`doomed, assoc, lru, slabs
      ensures Ok(0) && assoc.key == old(assoc.key)
      ensures victim == 0 <==> AllBusy(old(m), old(lru.q), id)
      ensures victim == 0 ==> unchanged(this) && unchanged(assoc) && unchanged(lru) && unchanged(slabs)
      ensures victim != 0 ==>
        victim in old(m).linked && Ld(old(m).refcount, victim) == 0 && m == Unlinked(old(m), victim)
      ensures victim != 0 ==> victim in assoc.key && assoc.index == old(assoc.index) - {assoc.key[victim]}
      ensures victim != 0 ==> HasFree(slabs.slabclass, id) && doomed == old(doomed) - {victim}
      ensures victim != 0 ==> Oldest(old(m), old(lru.q), id, victim, false)
      ensures SameSizes(old(slabs.slabclass), slabs.slabclass)
    {
      hide Coherent, Hole, TablesOk, QueuesOk, SlabsOk, MemOk, ArenaOk, Configured, Bytes, Without;
      ghost var n;
      QueueShape(lru.q, lru.heads, lru.tails, lru.sizes, lru.prev, lru.next, lru.home, id);
      victim, n := SearchTail(id, false);
      if victim == 0 {
        forall i {:trigger lru.q[id][i]} | InReach(lru.q[id], i) ensures Ld(m.refcount, lru.q[id][i]) > 0 {
          assert !Idle(m, lru.q[id][i], false);
        }
      } else {
        assert Ld(m.refcount, lru.q[id][n]) == 0;
        OldestIs(m, lru.q, id, victim, false, n);
        QueuedIs(m, V(), useCas, lru.heads, lru.tails, lru.sizes, lru.prev, lru.next, id, n);
        ghost var n' := Unlink(victim);
      }
    }

    ghost function RoomLeft(): Room
      reads lru, slabs
    {
      Room(lru.q, slabs.TakeStock(), evictToFree, useCas)
    }

    /** How do_item_alloc comes by a chunk: an expired item's, a free one, or an evicted item's */
    method Obtain(id: nat, sys: Sys) returns (it: Ptr, victim: Ptr)
      requires Ok(0) && POWER_SMALLEST <= id <= slabs.powerLargest
      modifies this`m, this`held, this`doomed, assoc, lru, slabs
      ensures assoc.key == old(assoc.key) && SameSizes(old(slabs.slabclass), slabs.slabclass)
      ensures held == old(held) && doomed == old(doomed) - {victim}
      ensures Lost(old(assoc.index), assoc.key, victim, assoc.index)
      ensures it == 0 <==> NoRoom(old(RoomLeft()), old(m), id, sys)
      ensures victim == 0 <==> Spared(old(RoomLeft()), old(m), id, sys)
      ensures victim != 0 ==> Forced(old(RoomLeft()), old(m), id, victim, sys)
      ensures it == 0 ==> Ok(0) && m == old(m) && victim == 0
      ensures it != 0 ==> Blank(it, id) && Roomed(old(m), m, it, victim)
    {
      hide Coherent, Hole, Unlinked, Stolen, Fresh, Allocs, Roomed;
      hide TablesOk, QueuesOk, SlabsOk, MemOk, ArenaOk, Configured, Bytes, Without;
      hide Exhausted, AllBusy, Empty, Oldest;
      ghost var n;
      NoNull(m, V(), useCas);
      QueueShape(lru.q, lru.heads, lru.tails, lru.sizes, lru.prev, lru.next, lru.home, id);
      it, n := SearchTail(id, true);
      assert it == 0 <==> NoneExpired(m, lru.q, id) by {
        if it != 0 { assert Idle(m, lru.q[id][n], true); }
      }
      if it != 0 {
        OldestIs(m, lru.q, id, it, true, n);
        QueuedIs(m, V(), useCas, lru.heads, lru.tails, lru.sizes, lru.prev, lru.next, id, n);
        Steal(it);
        victim := it;
        RoomStolen(old(m), it);
      } else {
        victim := 0;
        it := Fetch(id, sys.mallocOk);
        if it == 0 && evictToFree {
          it, victim := EvictAndFetch(id, sys.againOk);
        }
        if it != 0 { RoomFetched(old(m), m, it, victim); }
      }
    }

    /** do_item_alloc once its size class is known */
    method AllocIn(id: nat, k: Key, flags: int, exptime: nat, sh: Shape, sys: Sys) returns (it: Ptr, victim: Ptr)
      requires Ok(0) && POWER_SMALLEST <= id <= slabs.powerLargest
      requires id < |slabs.slabclass| && NTotal(sh) <= slabs.slabclass[id].size
      modifies this`m, this`held, this`doomed, assoc, lru, slabs
      ensures Ok(0) && doomed == old(doomed) - {victim} && Lost(old(assoc.index), old(assoc.key), victim, assoc.index)
      ensures it == 0 ==> m == old(m) && victim == 0 && assoc.key == old(assoc.key) && held == old(held)
      ensures it == 0 <==> NoRoom(old(RoomLeft()), old(m), id, sys)
      ensures victim == 0 <==> Spared(old(RoomLeft()), old(m), id, sys)
      ensures victim != 0 ==> Forced(old(RoomLeft()), old(m), id, victim, sys)
      ensures it != 0 ==> Allocs(old(m), m, it, victim, sh, flags, exptime)
      ensures it != 0 ==> held == old(held) + multiset{it} && assoc.key == old(assoc.key)[it := k]
    {
      hide Coherent, Hole, Unlinked, Stolen, Fresh, Allocs, Roomed;
      hide TablesOk, QueuesOk, SlabsOk, MemOk, ArenaOk, Configured, Bytes, Without;
      hide NoRoom, Spared, Forced;
      it, victim := Obtain(id, sys);
      if it != 0 {
        RoomAllocs(old(m), m, it, victim, id, sh, flags, exptime);
        Finish(it, id, k, flags, exptime, sh);
      }
    }

    /** The second attempt of do_item_alloc, given up if the queue is empty: it succeeds whenever something was
        evicted */
    method EvictAndFetch(id: nat, againOk: bool) returns (it: Ptr, victim: Ptr)
      requires Ok(0) && POWER_SMALLEST <= id <= slabs.powerLargest
      modifies this`m, this`doomed, assoc, lru, slabs
      ensures assoc.key == old(assoc.key) && SameSizes(old(slabs.slabclass), slabs.slabclass)
      ensures it == 0 <==> AllBusy(old(m), old(lru.q), id) &&
                           (Empty(old(lru.q), id) || Exhausted(old(slabs.TakeStock()), id, againOk))
      ensures it == 0 ==> Ok(0) && victim == 0
      ensures it != 0 ==> Blank(it, id)
      ensures victim == 0 ==> m == old(m) && assoc.index == old(assoc.index) && doomed == old(doomed)
      ensures victim != 0 ==>
        victim in old(m).linked && Ld(old(m).refcount, victim) == 0 && m == Unlinked(old(m), victim)
      ensures victim != 0 ==> victim in assoc.key && assoc.index == old(assoc.index) - {assoc.key[victim]}
      ensures doomed == old(doomed) - {victim}
      ensures victim == 0 <==> AllBusy(old(m), old(lru.q), id)
      ensures victim != 0 ==> Oldest(old(m), old(lru.q), id, victim, false)
    {
      hide Coherent, Hole, Unlinked, Oldest, TablesOk, QueuesOk, SlabsOk, MemOk, ArenaOk, Configured, Bytes, Without;
      NoNull(m, V(), useCas);
      it, victim := 0, 0;
      QueueShape(lru.q, lru.heads, lru.tails, lru.sizes, lru.prev, lru.next, lru.home, id);
      NoneInEmpty(m, lru.q, id);
      if lru.tails[id] == 0 { return; }
      victim := Evict(id);
      it := Fetch(id, againOk);
    }

    /** Writes ITEM_data. */
    method Write(it: Ptr, d: string)
      requires Ok(0)
      modifies this`m
      ensures Ok(0) && m == old(m).(data := old(m).data[it := d])
    {
      hide Coherent, TablesOk, QueuesOk, SlabsOk, MemOk, ArenaOk, Configured, Bytes, Without;
      WriteCoherent(m, V(), useCas, m.data[it := d]);
      m := m.(data := m.data[it := d]);
    }

    /** ITEM_set_cas with the id a client asked for, on an item that is not linked */
    method Request(it: Ptr, id: nat)
      requires Ok(0) && it !in m.linked
      modifies this`m
      ensures Ok(0) && m == old(m).(cas := if useCas then old(m).cas[it := id] else old(m).cas)
    {
      hide Coherent, TablesOk, QueuesOk, SlabsOk, MemOk, ArenaOk, Configured, Bytes, Without;
      if useCas {
        RequestCoherent(m, V(), useCas, it, id);
        m := m.(cas := m.cas[it := id]);
      }
    }

    /** ITEM_set_cas with get_cas_id */
    method Stamp(it: Ptr)
      requires Ok(0)
      modifies this`m
      ensures Ok(0) && m == old(m).(casId := if useCas then old(m).casId + 1 else old(m).casId,
                                    cas := if useCas then old(m).cas[it := old(m).casId + 1] else old(m).cas)
    {
      hide Coherent, TablesOk, QueuesOk, SlabsOk, MemOk, ArenaOk, Configured, Bytes, Without;
      if useCas {
        StampCoherent(m, V(), useCas, it);
        m := m.(casId := m.casId + 1, cas := m.cas[it := m.casId + 1]);
      }
    }

    /** do_item_flush_expired unlinks the head of a queue; the next item becomes the head */
    method SweepHead(i: nat) returns (next: Ptr)
      requires Ok(0) && i < LARGEST_ID && i < |lru.q| && lru.q[i] != []
      modifies this`m, this`doomed, assoc, lru, slabs
      ensures Ok(0) && Fades(old(m), m) && assoc.key == old(assoc.key) && Part(assoc.index, old(assoc.index))
      ensures lru.q == old(lru.q)[i := old(lru.q)[i][1..]] && next == First(lru.q[i])
      ensures m.linked == old(m).linked - {old(lru.q)[i][0]}
    {
      hide Unlinked, Fades;
      hide Coherent, TablesOk, QueuesOk, SlabsOk, MemOk, ArenaOk, Configured, Bytes, Without;
      QueueShape(lru.q, lru.heads, lru.tails, lru.sizes, lru.prev, lru.next, lru.home, i);
      QueuedIs(m, V(), useCas, lru.heads, lru.tails, lru.sizes, lru.prev, lru.next, i, 0);
      var iter := lru.heads[i];
      assert Ld(lru.next, lru.q[i][0]) == After(lru.q[i], 0);
      next := Ld(lru.next, iter);
      UnlinkFacts(m, V(), useCas, iter);
      UnlinkedQuiet(m, iter);
      assert iter !in m.slabbed;   // so the ITEM_SLABBED test never skips an item
      UnlinkedFades(m, iter);
      ghost var q := lru.q;
      ghost var n := Unlink(iter);
      CutHead(q[i], n);
    }

    /** do_item_flush_expired on one queue */
    method Sweep(i: nat)
      requires Ok(0) && i < LARGEST_ID
      modifies this`m, this`doomed, assoc, lru, slabs
      ensures Ok(0) && Fades(old(m), m) && assoc.key == old(assoc.key) && Part(assoc.index, old(assoc.index))
      ensures |lru.q| == |old(lru.q)| == LARGEST_ID && lru.q == old(lru.q)[i := lru.q[i]]
      ensures AllOlder(lru.q[i], m.time, m.oldestLive) && KeepsOld(old(m), m)
    {
      hide Fades, AllOlder, KeepsOld;
      hide Coherent, TablesOk, QueuesOk, SlabsOk, MemOk, ArenaOk, Configured, Bytes, Without;
      QueueShape(lru.q, lru.heads, lru.tails, lru.sizes, lru.prev, lru.next, lru.home, i);
      NoFade(m);
      KeepsOldSelf(m);
      var iter := lru.heads[i];
      while iter != 0
        invariant Ok(0) && Fades(old(m), m) && assoc.key == old(assoc.key) && Part(assoc.index, old(assoc.index))
        invariant |lru.q| == |old(lru.q)| == LARGEST_ID && lru.q == old(lru.q)[i := lru.q[i]] && iter == First(lru.q[i])
        invariant KeepsOld(old(m), m)
        decreases |lru.q[i]|
      {
        QueueShape(lru.q, lru.heads, lru.tails, lru.sizes, lru.prev, lru.next, lru.home, i);
        if Ld(m.time, iter) < m.oldestLive { break; }
        ghost var m1, head := m, iter;
        iter := SweepHead(i);
        KeepsOldOne(old(m), m1, m, head);
        FadesTrans(old(m), m1, m);
      }
      QueueShape(lru.q, lru.heads, lru.tails, lru.sizes, lru.prev, lru.next, lru.home, i);
      OldHead(m, V(), useCas, i);
    }

    /** flush_all without delay: what was linked before it is unlinked or hidden, all of it */
    method FlushAll()
      requires Ok(0) && 2 <= m.now < 0x1_0000_0000
      modifies this`m, this`doomed, assoc, lru, slabs
      ensures Ok(0) && doomed == m.linked && m.oldestLive == m.now - 1
      ensures forall x {:trigger x in m.linked} :: x in m.linked <==>
        x in old(m).linked && Ld(old(m).time, x) < m.oldestLive
      ensures Fades(old(m).(oldestLive := m.now - 1), m)
      ensures assoc.key == old(assoc.key) && Part(assoc.index, old(assoc.index))
    {
      hide Fades, AllOlder, KeepsOld;
      hide Coherent, TablesOk, QueuesOk, SlabsOk, MemOk, ArenaOk, Configured, Bytes, Without;
      FlushCoherent(m, V(), useCas);
      m := m.(oldestLive := Sub32(m.now, 1));
      doomed := Older(m.linked, m.time, m.now - 1);
      ghost var m0 := m;
      NoFade(m);
      KeepsOldSelf(m);
      if m.oldestLive == 0 { return; }
      QueueShape(lru.q, lru.heads, lru.tails, lru.sizes, lru.prev, lru.next, lru.home, 0);
      for i := 0 to LARGEST_ID
        invariant Ok(0) && Fades(m0, m) && assoc.key == old(assoc.key) && Part(assoc.index, old(assoc.index))
        invariant |lru.q| == LARGEST_ID && forall j :: 0 <= j < i ==> AllOlder(lru.q[j], m0.time, m0.oldestLive)
        invariant KeepsOld(m0, m)
      {
        ghost var m1 := m;
        Sweep(i);
        KeepsOldTrans(m0, m1, m);
        FadesTrans(m0, m1, m);
        SameAge(m0, m);
      }
      SameAge(m0, m);
      ExactlyOld(m0, m);
      AllHidden(m, V(), useCas, lru.heads, lru.tails, lru.sizes, lru.prev, lru.next);
    }

    /** The clock advances. */
    method Tick(t: nat)
      requires Ok(0) && m.now <= t
      modifies this`m
      ensures Ok(0) && m == old(m).(now := t)
    {
      hide Coherent, TablesOk, QueuesOk, SlabsOk, MemOk, ArenaOk, Configured, Bytes, Without;
      TickCoherent(m, V(), useCas, t);
      m := m.(now := t);
    }

    /** The maintenance thread's work changes nothing the cache can see. */
    method MaintainIndex(bulkMove: int)
      requires Ok(0)
      modifies assoc
      ensures Ok(0) && assoc.index == old(assoc.index) && assoc.key == old(assoc.key)
      ensures assoc.Left() == LeftAfter(old(assoc.Left()), bulkMove)
    {
      hide Coherent, TablesOk, QueuesOk, SlabsOk, MemOk, ArenaOk, Configured, Bytes, Without;
      var moved := assoc.Maintain(bulkMove);
    }
  }

  /** `it` is the new head of queue `c`. */
  ghost predicate AtHead(q: seq<seq<Ptr>>, q': seq<seq<Ptr>>, c: nat, it: Ptr)
  {
    c < |q| && q' == q[c := [it] + q[c]]
  }

  /** `it` went from its place in queue `c` to the head. */
  ghost predicate ToHead(q: seq<seq<Ptr>>, q': seq<seq<Ptr>>, c: nat, it: Ptr)
  {
    c < |q| && exists n :: 0 <= n < |q[c]| && q[c][n] == it && q' == q[c := [it] + Without(q[c], n)]
  }

  lemma NotThere(index: map<Key, Ptr>, k: Key)
    ensures k !in index ==> index - {k} == index
  {
  }

  /** The class has a chunk on its free list. */
  ghost predicate HasFree(sc: seq<SlabClass>, c: nat) { c < |sc| && sc[c].slots != [] }

  /** `it` was cut out of position `n` of queue `c`. */
  ghost predicate CutFrom(q: seq<seq<Ptr>>, q': seq<seq<Ptr>>, c: nat, n: nat, it: Ptr)
  {
    c < |q| && n < |q[c]| && q[c][n] == it && q' == q[c := Without(q[c], n)]
  }

  /** Position `i` is among the 50 entries nearest to the tail. */
  ghost predicate InReach(s: seq<Ptr>, i: int) { |s| - 50 <= i < |s| && 0 <= i }

  /** Nobody holds the item, and it has expired if that is asked for. */
  predicate Idle(m: Items, it: Ptr, expired: bool)
  {
    Ld(m.refcount, it) == 0 && (expired ==> Ld(m.exptime, it) != 0 && Ld(m.exptime, it) < m.now)
  }

  lemma StealFacts(m0: Items, m: Items, v: Views, useCas: bool, it: Ptr, owner: map<Ptr, Chunk>, powerLargest: nat)
    requires Coherent(m, v, useCas, 0) && Configured(v.sc, powerLargest) && SlabsOk(v.sc, v.us, owner)
    requires m == Unlinked(m0.(refcount := m0.refcount[it := 1]), it)
    ensures it != 0 && POWER_SMALLEST <= Ld(m0.clsid, it) <= powerLargest && it !in Stolen(m0, it).linked
    ensures m.(clsid := m.clsid[it := 0]).(refcount := m.refcount[it := 0]) == Stolen(m0, it)
    ensures Hole(Stolen(m0, it), v.(held := v.held - multiset{it}), useCas, it, Ld(m0.clsid, it))
  {
    hide Coherent, Hole, Configured, SlabsOk, Bytes;
    StolenChecks(m, v, useCas, it, owner, powerLargest);
    StolenHole(m, v, useCas, it, Ld(m.clsid, it));
    StolenIs(m0, it);
  }

  lemma StolenChecks(m: Items, v: Views, useCas: bool, it: Ptr, owner: map<Ptr, Chunk>, powerLargest: nat)
    requires Coherent(m, v, useCas, 0) && Configured(v.sc, powerLargest) && SlabsOk(v.sc, v.us, owner)
    requires Ld(m.refcount, it) == 1
    ensures v.held[it] == 1 && it != 0 && POWER_SMALLEST <= Ld(m.clsid, it) <= powerLargest
  {
    hide IndexLinked, QueueLinked, CountersOk, FitOk, TimesOk, CasOk, FlushOk;
    var c := Ld(m.clsid, it);
    assert v.held[it] == 1;
    assert Has(v.sc[c], v.us[c], it);
    assert ChunkOk(v.sc, v.us, it, owner[it]);
  }

  ghost predicate SameSizes(sc: seq<SlabClass>, sc': seq<SlabClass>)
  {
    |sc'| == |sc| && forall c {:trigger sc'[c]} :: 0 <= c < |sc| ==> sc'[c].size == sc[c].size
  }

  /** Every item within reach of the tail of queue `id` is referenced. */
  ghost predicate AllBusy(m: Items, q: seq<seq<Ptr>>, id: nat)
  {
    id < |q| && forall i {:trigger q[id][i]} :: InReach(q[id], i) ==> Ld(m.refcount, q[id][i]) > 0
  }

  /** Nothing within reach of the tail of queue `id` is expired and unreferenced. */
  ghost predicate NoneExpired(m: Items, q: seq<seq<Ptr>>, id: nat)
  {
    id < |q| && forall i {:trigger q[id][i]} :: InReach(q[id], i) ==> !Idle(m, q[id][i], true)
  }

  ghost predicate Empty(q: seq<seq<Ptr>>, id: nat) { id < |q| && q[id] == [] }

  lemma OldestIs(m: Items, q: seq<seq<Ptr>>, id: nat, x: Ptr, expired: bool, n: nat)
    requires OldestAt(m, q, id, x, expired, n)
    ensures Oldest(m, q, id, x, expired)
  {
  }

  lemma NoneInEmpty(m: Items, q: seq<seq<Ptr>>, id: nat)
    ensures Empty(q, id) ==> AllBusy(m, q, id)
  {
  }

  lemma ClassRange(sc: seq<SlabClass>, powerLargest: nat)
    requires Configured(sc, powerLargest)
    ensures powerLargest < |sc|
  {
  }

  lemma FinishChecks(m: Items, v: Views, useCas: bool, it: Ptr, id: nat)
    requires Hole(m, v, useCas, it, id) && it !in m.linked
    ensures it !in v.home && forall k :: k in v.index ==> v.index[k] != it
  {
    hide CountersOk, LiveHole, RefsOk, FitOk, TimesOk, CasOk, FlushOk;
  }

  lemma QueuedIs(m: Items, v: Views, useCas: bool, heads: seq<Ptr>, tails: seq<Ptr>, sizes: seq<nat>,
                 prev: map<Ptr, Ptr>, next: map<Ptr, Ptr>, id: nat, n: nat)
    requires Coherent(m, v, useCas, 0) && QueuesOk(v.q, heads, tails, sizes, prev, next, v.home)
    requires id < LARGEST_ID && n < |v.q[id]|
    ensures v.q[id][n] in m.linked && Ld(m.clsid, v.q[id][n]) == id
  {
    hide IndexLinked, CountersOk, LiveOk, RefsOk, FitOk, TimesOk, CasOk, FlushOk, Dll;
    assert v.q[id][n] in v.q[id];
  }

  /** The index without the key of `victim`, if there is one. */
  ghost predicate Lost(index: map<Key, Ptr>, key: map<Ptr, Key>, victim: Ptr, index': map<Key, Ptr>)
  {
    if victim == 0 then index' == index else victim in key && index' == index - {key[victim]}
  }

  lemma NoNull(m: Items, v: Views, useCas: bool)
    requires Coherent(m, v, useCas, 0)
    ensures 0 !in m.linked && 0 !in v.doomed
  {
    hide QueueLinked, CountersOk, LiveOk, RefsOk, FitOk, TimesOk, CasOk;
  }

  /** The index has lost entries, and nothing else. */
  ghost predicate Part(index': map<Key, Ptr>, index: map<Key, Ptr>)
  {
    forall k {:trigger k in index'} {:trigger index'[k]} :: k in index' ==> k in index && index'[k] == index[k]
  }

  lemma CutHead(s: seq<Ptr>, n: nat)
    requires n < |s| && s[n] == s[0] && NoDup(s)
    ensures Without(s, n) == s[1..]
  {
  }

  lemma NoFade(m: Items)
    ensures Fades(m, m)
  {
  }

  lemma ExactlyOld(m: Items, m': Items)
    requires KeepsOld(m, m')
    ensures forall x {:trigger x in m'.linked} :: x in m.linked && Ld(m.time, x) < m.oldestLive ==> x in m'.linked
  {
  }

  lemma SameAge(m: Items, m': Items)
    requires Fades(m, m')
    ensures m'.time == m.time && m'.oldestLive == m.oldestLive && m'.now == m.now && m'.linked <= m.linked
  {
  }

  /** With the offset of 2 that the server gives its clock, and only with such an offset, flush_all reaches
      every item: it is unlinked (recent ones) or hidden from do_item_get. */
  lemma FlushReachesAll(t: nat)
    requires t < 0x1_0000_0000
    ensures (forall s: nat :: s <= t ==> Reached(t, s)) <==> t >= 2
  {
    if t < 2 { assert !Reached(t, 0); }
  }

  /** flush_all at time `t` unlinks or hides an item last used at time `s`. */
  predicate Reached(t: nat, s: nat)
  {
    var oldestLive := Sub32(t, 1);
    oldestLive != 0 && (s >= oldestLive || (oldestLive <= t && s <= oldestLive))
  }

  function One(b: bool): nat { if b then 1 else 0 }

  /** Every chunk is in exactly one of: the page tail, the free slots, the hands of connections without being
      linked, or the linked items; and what is in use fits its chunk. */
  lemma EveryChunkInOnePlace(m: Items, v: Views, useCas: bool, owner: map<Ptr, Chunk>, x: Ptr)
    requires Coherent(m, v, useCas, 0) && SlabsOk(v.sc, v.us, owner) && x in owner
    ensures owner[x].cls < |v.sc| == |v.us|
    ensures One(x in v.us[owner[x].cls].tail) + One(x in v.sc[owner[x].cls].slots)
            + One(x in m.linked) + One(x !in m.linked && v.held[x] > 0) == 1
    ensures x in m.linked || v.held[x] > 0 ==> x in m.shape && NTotal(m.shape[x]) <= v.sc[owner[x].cls].size
  {
    hide IndexLinked, QueueLinked, CountersOk, TimesOk, CasOk, FlushOk, PagesApart, NTotal;
    var c := owner[x].cls;
    assert ChunkOk(v.sc, v.us, x, owner[x]);
    assert ClassOk(v.sc[c], v.us[c]);
    if x in v.us[c].live {
      assert Ld(m.clsid, x) == c;
    } else {
      NotLive(m, v, owner, x);
    }
  }

  lemma NotLive(m: Items, v: Views, owner: map<Ptr, Chunk>, x: Ptr)
    requires LiveOk(v.us, m.clsid) && RefsOk(m.refcount, v.held, m.linked, m.slabbed, m.clsid, 0)
    requires SlabsOk(v.sc, v.us, owner) && x in owner && owner[x].cls < |v.us| && x !in v.us[owner[x].cls].live
    ensures x !in m.linked && v.held[x] == 0
  {
    hide ClassOk, PagesApart;
    var d := Ld(m.clsid, x);
    if d != 0 { OwnerIs(v.sc, v.us, owner, d, x); }
  }

  const ITEM_UPDATE_INTERVAL: nat := 60

  /** Subtraction of unsigned 32-bit times. */
  function Sub32(a: nat, b: nat): nat { (a - b) % 0x1_0000_0000 }

  lemma MembersOf(m: Items, v: Views, useCas: bool, heads: seq<Ptr>, tails: seq<Ptr>, sizes: seq<nat>,
                  prev: map<Ptr, Ptr>, next: map<Ptr, Ptr>)
    requires Coherent(m, v, useCas, 0) && QueuesOk(v.q, heads, tails, sizes, prev, next, v.home)
    ensures Members(v.q, m.linked, v.home)
  {
    QueueMembers(v.q, heads, tails, sizes, prev, next, v.home, m.linked, m.clsid);
  }

  lemma LinkChecks(m: Items, v: Views, useCas: bool, it: Ptr, owner: map<Ptr, Chunk>, powerLargest: nat,
                   heads: seq<Ptr>, tails: seq<Ptr>, sizes: seq<nat>, prev: map<Ptr, Ptr>, next: map<Ptr, Ptr>)
    requires Coherent(m, v, useCas, 0) && v.held[it] > 0 && it in v.key && v.key[it] !in v.index
    requires Configured(v.sc, powerLargest) && SlabsOk(v.sc, v.us, owner) && powerLargest < LARGEST_ID
    requires QueuesOk(v.q, heads, tails, sizes, prev, next, v.home)
    ensures Members(v.q, m.linked, v.home) && it !in m.linked && it !in v.home && it !in m.slabbed
    ensures POWER_SMALLEST <= Ld(m.clsid, it) < LARGEST_ID
  {
    MembersOf(m, v, useCas, heads, tails, sizes, prev, next);
    var c := Ld(m.clsid, it);
    assert Has(v.sc[c], v.us[c], it);
    assert ChunkOk(v.sc, v.us, it, owner[it]);
  }

  /** A chunk handed out is in its class's live set; an unlinked one is at neither end of a queue. */
  lemma FreeChecks(m: Items, v: Views, useCas: bool, it: Ptr, owner: map<Ptr, Chunk>, powerLargest: nat,
                   heads: seq<Ptr>, tails: seq<Ptr>, sizes: seq<nat>, prev: map<Ptr, Ptr>, next: map<Ptr, Ptr>)
    requires Coherent(m, v, useCas, it) && Ld(m.clsid, it) != 0 && it !in m.linked && it != 0
    requires Configured(v.sc, powerLargest) && SlabsOk(v.sc, v.us, owner) && powerLargest < LARGEST_ID
    requires QueuesOk(v.q, heads, tails, sizes, prev, next, v.home)
    ensures POWER_SMALLEST <= Ld(m.clsid, it) <= powerLargest && Ld(m.clsid, it) < |v.us| == |v.sc|
    ensures it in v.us[Ld(m.clsid, it)].live && |heads| == LARGEST_ID && |tails| == LARGEST_ID
    ensures it != heads[Ld(m.clsid, it)] && it != tails[Ld(m.clsid, it)]
  {
    var c := Ld(m.clsid, it);
    assert Has(v.sc[c], v.us[c], it);
    assert ChunkOk(v.sc, v.us, it, owner[it]);
    FreeAsserts(m.refcount, v.held, m.linked, m.slabbed, m.clsid, it, v.q, heads, tails, sizes, prev, next, v.home);
  }
}
