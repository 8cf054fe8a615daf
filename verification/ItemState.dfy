/** memcached-1.4.5/items.c: how flags, reference counts, queues, index, chunks and counters of the
    items must agree with each other, and that each elementary step keeps it so. */
module ItemState {
  import opened Assoc
  import opened Lru
  import opened Slabs

  /** What ITEM_ntotal depends on; fixed from allocation to release of a chunk. */
  datatype Shape = Shape(nkey: nat, nsuffix: nat, nbytes: nat, hasCas: bool)

  /** sizeof(item) */
  const ITEM_SIZE: nat := 48

  /** ITEM_ntotal */
  function NTotal(s: Shape): nat { ITEM_SIZE + s.nkey + 1 + s.nsuffix + s.nbytes + if s.hasCas then 8 else 0 }

  /** The bytes of a set of items. */
  ghost function SumBytes(xs: set<Ptr>, shape: map<Ptr, Shape>): nat
  {
    if xs == {} then 0
    else
      var x :| x in xs;
      SumBytes(xs - {x}, shape) + if x in shape then NTotal(shape[x]) else 0
  }

  function Bytes(x: Ptr, shape: map<Ptr, Shape>): nat { if x in shape then NTotal(shape[x]) else 0 }

  lemma {:induction false} SumRemove(xs: set<Ptr>, shape: map<Ptr, Shape>, y: Ptr)
    requires y in xs
    ensures SumBytes(xs, shape) == SumBytes(xs - {y}, shape) + Bytes(y, shape)
  {
    var x :| x in xs && SumBytes(xs, shape) == SumBytes(xs - {x}, shape) + Bytes(x, shape);
    if x != y {
      SumRemove(xs - {x}, shape, y);
      SumRemove(xs - {y}, shape, x);
      assert xs - {x} - {y} == xs - {y} - {x};
    }
  }

  lemma SumAdd(xs: set<Ptr>, shape: map<Ptr, Shape>, y: Ptr)
    requires y !in xs
    ensures SumBytes(xs + {y}, shape) == SumBytes(xs, shape) + Bytes(y, shape)
  {
    SumRemove(xs + {y}, shape, y);
    assert xs + {y} - {y} == xs;
  }

  lemma {:induction false} SumFrame(xs: set<Ptr>, shape: map<Ptr, Shape>, shape': map<Ptr, Shape>)
    requires forall x :: x in xs ==> Bytes(x, shape') == Bytes(x, shape)
    ensures SumBytes(xs, shape') == SumBytes(xs, shape)
  {
    if xs != {} {
      var x :| x in xs && SumBytes(xs, shape) == SumBytes(xs - {x}, shape) + Bytes(x, shape);
      SumRemove(xs, shape', x);
      SumFrame(xs - {x}, shape, shape');
    }
  }

  /** Reading a field after one write. */
  lemma LdUpdate(m: map<Ptr, nat>, p: Ptr, v: nat)
    ensures forall x: Ptr {:trigger Ld(m[p := v], x)} :: Ld(m[p := v], x) == if x == p then v else Ld(m, x)
  {
  }

  // ---------------------------------------------------------------- the parts of the invariant

  /** ITEM_LINKED is set on exactly the indexed items. */
  ghost predicate IndexLinked(index: map<Key, Ptr>, key: map<Ptr, Key>, linked: set<Ptr>)
  {
    && (forall k {:trigger index[k]} :: k in index ==> index[k] in linked && index[k] in key && key[index[k]] == k)
    && (forall x {:trigger x in linked} :: x in linked ==> x != 0 && x in key && key[x] in index && index[key[x]] == x)
  }

  /** An item is in a queue exactly when linked, and then in the queue of its own class. */
  ghost predicate QueueLinked(home: map<Ptr, nat>, linked: set<Ptr>, clsid: map<Ptr, nat>)
  {
    && home.Keys == linked
    && forall x {:trigger home[x]} :: x in home ==> home[x] == Ld(clsid, x)
  }

  /** curr_items and curr_bytes count the linked items. */
  ghost predicate CountersOk(index: map<Key, Ptr>, linked: set<Ptr>, shape: map<Ptr, Shape>, items: nat, bytes: nat)
  {
    items == |index| == |linked| && bytes == SumBytes(linked, shape)
  }

  /** slabs_clsid is the class of the chunk while it is handed out, and 0 otherwise. */
  ghost predicate LiveOk(us: seq<Use>, clsid: map<Ptr, nat>)
  {
    && (forall c, x {:trigger x in us[c].live} :: 0 <= c < |us| && x in us[c].live ==> c != 0 && Ld(clsid, x) == c)
    && (forall x {:trigger Ld(clsid, x)} :: Ld(clsid, x) != 0 ==> Ld(clsid, x) < |us| && x in us[Ld(clsid, x)].live)
  }

  /** The reference count is the number of holders. A chunk handed out and not linked has a holder
      (`loose` apart); linked and held items are handed out and not marked as free. */
  ghost predicate RefsOk(refcount: map<Ptr, nat>, held: multiset<Ptr>, linked: set<Ptr>, slabbed: set<Ptr>,
                         clsid: map<Ptr, nat>, loose: Ptr)
  {
    && (forall x {:trigger held[x]} {:trigger Ld(refcount, x)} :: Ld(refcount, x) == held[x])
    && (forall x {:trigger x in linked} :: x in linked ==> Ld(clsid, x) != 0)
    && (forall x {:trigger held[x]} :: held[x] > 0 ==> Ld(clsid, x) != 0)
    && (forall x {:trigger Ld(clsid, x)} :: Ld(clsid, x) != 0 ==> x != 0 && x !in slabbed)
    && (forall x {:trigger Ld(clsid, x)} :: Ld(clsid, x) != 0 && x != loose ==> x in linked || held[x] > 0)
  }

  /** Every item fits its chunk. */
  ghost predicate FitOk(sc: seq<SlabClass>, clsid: map<Ptr, nat>, shape: map<Ptr, Shape>)
  {
    forall x {:trigger Ld(clsid, x)} :: 0 < Ld(clsid, x) < |sc| ==>
      x in shape && NTotal(shape[x]) <= sc[Ld(clsid, x)].size
  }

  /** Every queue is sorted by non-increasing time, and no time is in the future. */
  ghost predicate SortedQ(s: seq<Ptr>, time: map<Ptr, nat>)
  {
    forall i, j :: 0 <= i < j < |s| ==> Ld(time, s[i]) >= Ld(time, s[j])
  }

  ghost predicate TimesOk(q: seq<seq<Ptr>>, linked: set<Ptr>, time: map<Ptr, nat>, now: nat)
  {
    && (forall c {:trigger q[c]} :: 0 <= c < |q| ==> SortedQ(q[c], time))
    && (forall x {:trigger x in linked} :: x in linked ==> Ld(time, x) <= now)
  }

  /** Ids of linked items are handed out, and no two are equal. */
  ghost predicate CasOk(linked: set<Ptr>, cas: map<Ptr, nat>, casId: nat, useCas: bool)
  {
    useCas ==>
      && (forall x {:trigger x in linked} :: x in linked ==> 0 < Ld(cas, x) <= casId)
      && (forall x, y {:trigger x in linked, y in linked} ::
            x in linked && y in linked && x != y ==> Ld(cas, x) != Ld(cas, y))
  }

  // ---------------------------------------------------------------- do_item_link

  lemma LinkIndex(index: map<Key, Ptr>, key: map<Ptr, Key>, linked: set<Ptr>, it: Ptr)
    requires IndexLinked(index, key, linked) && it != 0 && it in key && key[it] !in index
    ensures it !in linked && IndexLinked(index[key[it] := it], key, linked + {it})
  {
    var index', linked' := index[key[it] := it], linked + {it};
    forall x | x in linked' ensures x != 0 && x in key && key[x] in index' && index'[key[x]] == x {
      if x != it { assert x in linked; }
    }
  }

  lemma LinkCounters(index: map<Key, Ptr>, linked: set<Ptr>, shape: map<Ptr, Shape>, items: nat, bytes: nat, k: Key,
                     it: Ptr)
    requires CountersOk(index, linked, shape, items, bytes) && k !in index && it !in linked
    ensures CountersOk(index[k := it], linked + {it}, shape, items + 1, bytes + Bytes(it, shape))
  {
    SumAdd(linked, shape, it);
    assert |index[k := it]| == |index| + 1;
  }

  lemma LinkQueue(home: map<Ptr, nat>, linked: set<Ptr>, clsid: map<Ptr, nat>, it: Ptr)
    requires QueueLinked(home, linked, clsid)
    ensures QueueLinked(home[it := Ld(clsid, it)], linked + {it}, clsid)
  {
  }

  lemma LinkTimes(q: seq<seq<Ptr>>, home: map<Ptr, nat>, linked: set<Ptr>, time: map<Ptr, nat>, now: nat, it: Ptr,
                  c: nat)
    requires TimesOk(q, linked, time, now) && it !in linked && c < |q|
    requires forall d, x {:trigger x in q[d]} :: 0 <= d < |q| && x in q[d] ==> x in linked
    ensures TimesOk(q[c := [it] + q[c]], linked + {it}, time[it := now], now)
  {
    var q', time' := q[c := [it] + q[c]], time[it := now];
    forall d | 0 <= d < |q'| ensures SortedQ(q'[d], time') {
      assert SortedQ(q[d], time);
      forall i, j | 0 <= i < j < |q'[d]| ensures Ld(time', q'[d][i]) >= Ld(time', q'[d][j]) {
        if d == c {
          assert q'[d][j] == q[d][j - 1] && q[d][j - 1] in q[d];
          if i > 0 { assert q'[d][i] == q[d][i - 1] && q[d][i - 1] in q[d]; }
        } else {
          assert q[d][i] in q[d] && q[d][j] in q[d];
        }
      }
    }
  }

  lemma LinkRefs(refcount: map<Ptr, nat>, held: multiset<Ptr>, linked: set<Ptr>, slabbed: set<Ptr>,
                 clsid: map<Ptr, nat>, it: Ptr)
    requires RefsOk(refcount, held, linked, slabbed, clsid, 0) && held[it] > 0
    ensures RefsOk(refcount, held, linked + {it}, slabbed, clsid, 0)
  {
  }

  lemma LinkCas(linked: set<Ptr>, cas: map<Ptr, nat>, casId: nat, useCas: bool, it: Ptr)
    requires CasOk(linked, cas, casId, useCas) && it !in linked
    ensures CasOk(linked + {it}, if useCas then cas[it := casId + 1] else cas,
                  if useCas then casId + 1 else casId, useCas)
  {
  }

  // ---------------------------------------------------------------- do_item_unlink

  lemma UnlinkIndex(index: map<Key, Ptr>, key: map<Ptr, Key>, linked: set<Ptr>, it: Ptr)
    requires IndexLinked(index, key, linked) && it in linked
    ensures IndexLinked(index - {key[it]}, key, linked - {it})
  {
  }

  lemma UnlinkCounters(index: map<Key, Ptr>, linked: set<Ptr>, shape: map<Ptr, Shape>, items: nat, bytes: nat, k: Key,
                       it: Ptr)
    requires CountersOk(index, linked, shape, items, bytes) && k in index && it in linked
    ensures items > 0 && bytes >= Bytes(it, shape)
    ensures CountersOk(index - {k}, linked - {it}, shape, items - 1, bytes - Bytes(it, shape))
  {
    SumRemove(linked, shape, it);
    var i' := index - {k};
    assert i'.Keys == index.Keys - {k} && |i'| == |i'.Keys| && |index| == |index.Keys|;
  }

  lemma UnlinkQueue(home: map<Ptr, nat>, linked: set<Ptr>, clsid: map<Ptr, nat>, it: Ptr)
    requires QueueLinked(home, linked, clsid)
    ensures QueueLinked(home - {it}, linked - {it}, clsid)
  {
  }

  lemma UnlinkTimes(q: seq<seq<Ptr>>, linked: set<Ptr>, time: map<Ptr, nat>, now: nat, it: Ptr, c: nat, n: nat)
    requires TimesOk(q, linked, time, now) && c < |q| && n < |q[c]|
    ensures TimesOk(q[c := Without(q[c], n)], linked - {it}, time, now)
  {
    var q' := q[c := Without(q[c], n)];
    forall d | 0 <= d < |q'| ensures SortedQ(q'[d], time) {
      assert SortedQ(q[d], time);
    }
  }

  lemma UnlinkRefs(refcount: map<Ptr, nat>, held: multiset<Ptr>, linked: set<Ptr>, slabbed: set<Ptr>,
                   clsid: map<Ptr, nat>, it: Ptr)
    requires RefsOk(refcount, held, linked, slabbed, clsid, 0) && it in linked
    ensures RefsOk(refcount, held, linked - {it}, slabbed, clsid, if Ld(refcount, it) > 0 then 0 else it)
  {
  }

  lemma UnlinkCas(linked: set<Ptr>, cas: map<Ptr, nat>, casId: nat, useCas: bool, it: Ptr)
    requires CasOk(linked, cas, casId, useCas)
    ensures CasOk(linked - {it}, cas, casId, useCas)
  {
  }

  // ---------------------------------------------------------------- item_free

  /** All asserts of item_free: not linked, not at either end of a queue, no holder. */
  lemma FreeAsserts(refcount: map<Ptr, nat>, held: multiset<Ptr>, linked: set<Ptr>, slabbed: set<Ptr>,
                    clsid: map<Ptr, nat>, it: Ptr, q: seq<seq<Ptr>>, heads: seq<Ptr>, tails: seq<Ptr>,
                    sizes: seq<nat>, prev: map<Ptr, Ptr>, next: map<Ptr, Ptr>, home: map<Ptr, nat>)
    requires RefsOk(refcount, held, linked, slabbed, clsid, it)
    requires it !in linked && it != 0 && Ld(clsid, it) < LARGEST_ID
    requires QueueLinked(home, linked, clsid) && QueuesOk(q, heads, tails, sizes, prev, next, home)
    ensures it != heads[Ld(clsid, it)] && it != tails[Ld(clsid, it)]
  {
    var c := Ld(clsid, it);
    QueueShape(q, heads, tails, sizes, prev, next, home, c);
    assert it in q[c] ==> it in home;
    if heads[c] != 0 { assert heads[c] in q[c]; }
    if tails[c] != 0 { assert tails[c] in q[c]; }
  }

  lemma FreeRefs(refcount: map<Ptr, nat>, held: multiset<Ptr>, linked: set<Ptr>, slabbed: set<Ptr>,
                 clsid: map<Ptr, nat>, it: Ptr)
    requires RefsOk(refcount, held, linked, slabbed, clsid, it) && it !in linked && Ld(refcount, it) == 0
    ensures RefsOk(refcount, held, linked, slabbed + {it}, clsid[it := 0], 0)
  {
    LdUpdate(clsid, it, 0);
  }

  lemma FreeLive(us: seq<Use>, clsid: map<Ptr, nat>, it: Ptr, us': seq<Use>)
    requires LiveOk(us, clsid) && 0 < Ld(clsid, it) < |us| && |us'| == |us|
    requires us' == us[Ld(clsid, it) := us'[Ld(clsid, it)]]
    requires us'[Ld(clsid, it)].live == us[Ld(clsid, it)].live - {it}
    ensures LiveOk(us', clsid[it := 0])
  {
    var clsid' := clsid[it := 0];
    LdUpdate(clsid, it, 0);
    forall c, x {:trigger x in us'[c].live} | 0 <= c < |us'| && x in us'[c].live ensures c != 0 && Ld(clsid', x) == c {
      assert x in us[c].live;
    }
  }

  lemma FreeQueue(home: map<Ptr, nat>, linked: set<Ptr>, clsid: map<Ptr, nat>, it: Ptr)
    requires QueueLinked(home, linked, clsid) && it !in linked
    ensures QueueLinked(home, linked, clsid[it := 0])
  {
  }

  lemma FreeFit(sc: seq<SlabClass>, clsid: map<Ptr, nat>, shape: map<Ptr, Shape>, it: Ptr, sc': seq<SlabClass>)
    requires FitOk(sc, clsid, shape) && |sc'| == |sc| && forall c :: 0 <= c < |sc| ==> sc'[c].size == sc[c].size
    ensures FitOk(sc', clsid[it := 0], shape)
  {
    LdUpdate(clsid, it, 0);
  }

  // ---------------------------------------------------------------- references

  /** do_item_get and do_item_alloc hand out a reference. */
  lemma HoldRefs(refcount: map<Ptr, nat>, held: multiset<Ptr>, linked: set<Ptr>, slabbed: set<Ptr>,
                 clsid: map<Ptr, nat>, it: Ptr)
    requires RefsOk(refcount, held, linked, slabbed, clsid, 0) && it in linked
    ensures RefsOk(refcount[it := Ld(refcount, it) + 1], held + multiset{it}, linked, slabbed, clsid, 0)
  {
    LdUpdate(refcount, it, Ld(refcount, it) + 1);
  }

  /** do_item_remove gives one back; the last one of an unlinked item makes it loose. */
  lemma DropRefs(refcount: map<Ptr, nat>, held: multiset<Ptr>, linked: set<Ptr>, slabbed: set<Ptr>,
                 clsid: map<Ptr, nat>, it: Ptr)
    requires RefsOk(refcount, held, linked, slabbed, clsid, 0) && held[it] > 0
    ensures Ld(refcount, it) > 0 && Ld(clsid, it) != 0 && it != 0 && it !in slabbed
    ensures var loose := if Ld(refcount, it) == 1 && it !in linked then it else 0;
      RefsOk(refcount[it := Ld(refcount, it) - 1], held - multiset{it}, linked, slabbed, clsid, loose)
  {
    LdUpdate(refcount, it, Ld(refcount, it) - 1);
  }

  /** What a linked item is known to have. */
  lemma LinkedFacts(index: map<Key, Ptr>, key: map<Ptr, Key>, home: map<Ptr, nat>, linked: set<Ptr>,
                    refcount: map<Ptr, nat>, held: multiset<Ptr>, slabbed: set<Ptr>, clsid: map<Ptr, nat>, it: Ptr)
    requires IndexLinked(index, key, linked) && QueueLinked(home, linked, clsid) && it in linked
    requires RefsOk(refcount, held, linked, slabbed, clsid, 0)
    ensures it != 0 && it in key && key[it] in index && index[key[it]] == it
    ensures it in home && home[it] == Ld(clsid, it) != 0 && it !in slabbed
  {
  }

  // ---------------------------------------------------------------- do_item_update

  lemma BumpTimes(q: seq<seq<Ptr>>, linked: set<Ptr>, time: map<Ptr, nat>, now: nat, it: Ptr, c: nat, n: nat)
    requires TimesOk(q, linked, time, now) && c < |q| && n < |q[c]| && q[c][n] == it
    requires forall d, x {:trigger x in q[d]} :: 0 <= d < |q| && x in q[d] ==> x in linked
    requires forall d :: 0 <= d < |q| && d != c ==> it !in q[d]
    requires NoDup(q[c])
    ensures TimesOk(q[c := [it] + Without(q[c], n)], linked, time[it := now], now)
  {
    var t := Without(q[c], n);
    var q', time' := q[c := [it] + t], time[it := now];
    CutMembers(q[c], n);
    forall d | 0 <= d < |q'| ensures SortedQ(q'[d], time') {
      assert SortedQ(q[d], time);
      forall i, j | 0 <= i < j < |q'[d]| ensures Ld(time', q'[d][i]) >= Ld(time', q'[d][j]) {
        if d == c {
          assert q'[d][j] == t[j - 1] && t[j - 1] in t;
          if i > 0 { assert q'[d][i] == t[i - 1] && t[i - 1] in t; }
        } else {
          assert q[d][i] in q[d] && q[d][j] in q[d];
        }
      }
    }
  }

  // ---------------------------------------------------------------- flush_all

  /** After a flush, hidden items are exactly those linked before it. */
  ghost predicate FlushOk(doomed: set<Ptr>, linked: set<Ptr>, time: map<Ptr, nat>, oldestLive: nat, now: nat)
  {
    && doomed <= linked
    && (oldestLive == 0 ==> doomed == {})
    && (oldestLive != 0 ==> oldestLive < now)
    && (oldestLive != 0 ==>
          forall x {:trigger x in linked} :: x in linked ==> (x in doomed <==> Ld(time, x) <= oldestLive))
  }

  lemma LinkFlush(doomed: set<Ptr>, linked: set<Ptr>, time: map<Ptr, nat>, oldestLive: nat, now: nat, it: Ptr)
    requires FlushOk(doomed, linked, time, oldestLive, now) && it !in doomed
    ensures FlushOk(doomed, linked + {it}, time[it := now], oldestLive, now)
    ensures FlushOk(doomed - {it}, linked - {it}, time, oldestLive, now)
  {
    LdUpdate(time, it, now);
  }

  lemma FlushedLinked(doomed: set<Ptr>, linked: set<Ptr>, time: map<Ptr, nat>, oldestLive: nat, now: nat)
    requires FlushOk(doomed, linked, time, oldestLive, now)
    ensures doomed <= linked
  {
  }

  lemma UnlinkFlush(doomed: set<Ptr>, linked: set<Ptr>, time: map<Ptr, nat>, oldestLive: nat, now: nat, it: Ptr)
    requires FlushOk(doomed, linked, time, oldestLive, now)
    ensures FlushOk(doomed - {it}, linked - {it}, time, oldestLive, now)
  {
  }

  lemma BumpFlush(doomed: set<Ptr>, linked: set<Ptr>, time: map<Ptr, nat>, oldestLive: nat, now: nat, it: Ptr)
    requires FlushOk(doomed, linked, time, oldestLive, now)
    ensures FlushOk(doomed - {it}, linked, time[it := now], oldestLive, now)
  {
    LdUpdate(time, it, now);
  }

  // ---------------------------------------------------------------- all parts together

  /** Item memory, field by field, and the global counters. */
  datatype Items = Items(
    now: nat,                  // current_time
    oldestLive: nat,           // settings.oldest_live
    casId: nat,                // get_cas_id's counter
    currItems: nat,
    currBytes: nat,
    shape: map<Ptr, Shape>,
    refcount: map<Ptr, nat>,
    time: map<Ptr, nat>,
    exptime: map<Ptr, nat>,
    clsid: map<Ptr, nat>,      // slabs_clsid
    cas: map<Ptr, nat>,        // ITEM_get_cas
    flags: map<Ptr, int>,      // the client's flags, kept as text in ITEM_suffix
    data: map<Ptr, string>,    // ITEM_data
    linked: set<Ptr>,          // items with ITEM_LINKED
    slabbed: set<Ptr>)         // items with ITEM_SLABBED

  /** What the other components stand for, the references handed out, and the linked items
      that the last flush hides. */
  datatype Views = Views(index: map<Key, Ptr>, key: map<Ptr, Key>, q: seq<seq<Ptr>>, home: map<Ptr, nat>,
                         us: seq<Use>, sc: seq<SlabClass>, held: multiset<Ptr>, doomed: set<Ptr>)

  /** Index, queues, flags, counters, reference counts, chunks, times and ids agree.
      `loose` is 0 or an item on its way from the queues to the free list. */
  ghost predicate Coherent(m: Items, v: Views, useCas: bool, loose: Ptr)
  {
    && IndexLinked(v.index, v.key, m.linked)
    && QueueLinked(v.home, m.linked, m.clsid)
    && CountersOk(v.index, m.linked, m.shape, m.currItems, m.currBytes)
    && LiveOk(v.us, m.clsid)
    && RefsOk(m.refcount, v.held, m.linked, m.slabbed, m.clsid, loose)
    && FitOk(v.sc, m.clsid, m.shape)
    && TimesOk(v.q, m.linked, m.time, m.now)
    && CasOk(m.linked, m.cas, m.casId, useCas)
    && FlushOk(v.doomed, m.linked, m.time, m.oldestLive, m.now)
  }

  /** do_item_unlink, up to the release of the chunk. */
  ghost predicate Unlinks(m: Items, v: Views, it: Ptr, n: nat, m': Items, v': Views)
    requires it in v.key && it in v.home
  {
    var c := v.home[it];
    && c < |v.q| && n < |v.q[c]| && v.q[c][n] == it
    && m.currItems > 0 && m.currBytes >= Bytes(it, m.shape)
    && m' == m.(linked := m.linked - {it}, currItems := m.currItems - 1, currBytes := m.currBytes - Bytes(it, m.shape))
    && v' == v.(index := v.index - {v.key[it]}, q := v.q[c := Without(v.q[c], n)], home := v.home - {it},
                doomed := v.doomed - {it})
  }

  lemma UnlinkFacts(m: Items, v: Views, useCas: bool, it: Ptr)
    requires Coherent(m, v, useCas, 0) && it in m.linked
    ensures it != 0 && it in v.key && v.key[it] in v.index && v.index[v.key[it]] == it
    ensures it in v.home && v.home[it] == Ld(m.clsid, it) != 0 && it !in m.slabbed
    ensures m.currItems > 0 && m.currBytes >= Bytes(it, m.shape)
  {
    LinkedFacts(v.index, v.key, v.home, m.linked, m.refcount, v.held, m.slabbed, m.clsid, it);
    UnlinkCounters(v.index, m.linked, m.shape, m.currItems, m.currBytes, v.key[it], it);
  }

  lemma UnlinkCoherent(m: Items, v: Views, useCas: bool, it: Ptr, n: nat, m': Items, v': Views)
    requires Coherent(m, v, useCas, 0) && it in m.linked && it in v.key && it in v.home && Unlinks(m, v, it, n, m', v')
    ensures Coherent(m', v', useCas, if Ld(m.refcount, it) > 0 then 0 else it)
  {
    hide IndexLinked, QueueLinked, CountersOk, LiveOk, RefsOk, FitOk, TimesOk, CasOk, FlushOk, Bytes, Without;
    UnlinkFacts(m, v, useCas, it);
    UnlinkIndex(v.index, v.key, m.linked, it);
    UnlinkCounters(v.index, m.linked, m.shape, m.currItems, m.currBytes, v.key[it], it);
    UnlinkQueue(v.home, m.linked, m.clsid, it);
    UnlinkRefs(m.refcount, v.held, m.linked, m.slabbed, m.clsid, it);
    UnlinkTimes(v.q, m.linked, m.time, m.now, it, v.home[it], n);
    UnlinkCas(m.linked, m.cas, m.casId, useCas, it);
    UnlinkFlush(v.doomed, m.linked, m.time, m.oldestLive, m.now, it);
  }

  /** item_free. */
  lemma FreeCoherent(m: Items, v: Views, useCas: bool, it: Ptr, m': Items, v': Views)
    requires Coherent(m, v, useCas, it) && it !in m.linked && Ld(m.refcount, it) == 0
    requires 0 < Ld(m.clsid, it) < |v.us| && |v'.us| == |v.us| && |v'.sc| == |v.sc|
    requires m' == m.(clsid := m.clsid[it := 0], slabbed := m.slabbed + {it})
    requires v' == v.(us := v'.us, sc := v'.sc)
    requires v'.us == v.us[Ld(m.clsid, it) := v'.us[Ld(m.clsid, it)]]
    requires v'.us[Ld(m.clsid, it)].live == v.us[Ld(m.clsid, it)].live - {it}
    requires forall c :: 0 <= c < |v.sc| ==> v'.sc[c].size == v.sc[c].size
    ensures Coherent(m', v', useCas, 0)
  {
    hide IndexLinked, QueueLinked, CountersOk, LiveOk, RefsOk, FitOk, TimesOk, CasOk, FlushOk;
    FreeRefs(m.refcount, v.held, m.linked, m.slabbed, m.clsid, it);
    FreeLive(v.us, m.clsid, it, v'.us);
    FreeQueue(v.home, m.linked, m.clsid, it);
    FreeFit(v.sc, m.clsid, m.shape, it, v'.sc);
  }

  /** Item memory after do_item_unlink. */
  function Unlinked(m: Items, it: Ptr): Items
  {
    m.(linked := m.linked - {it}, currItems := if m.currItems > 0 then m.currItems - 1 else 0,
       currBytes := if m.currBytes >= Bytes(it, m.shape) then m.currBytes - Bytes(it, m.shape) else 0,
       clsid := if Ld(m.refcount, it) == 0 then m.clsid[it := 0] else m.clsid,
       slabbed := if Ld(m.refcount, it) == 0 then m.slabbed + {it} else m.slabbed)
  }

  /** Item memory after do_item_link. */
  function Relinked(m: Items, it: Ptr, useCas: bool): Items
  {
    m.(linked := m.linked + {it}, time := m.time[it := m.now], currItems := m.currItems + 1,
       currBytes := m.currBytes + Bytes(it, m.shape),
       casId := if useCas then m.casId + 1 else m.casId,
       cas := if useCas then m.cas[it := m.casId + 1] else m.cas)
  }

  lemma RelinkedIs(m: Items, it: Ptr, useCas: bool)
    ensures var m1 := m.(linked := m.linked + {it}, time := m.time[it := m.now]);
      m1.(currBytes := m1.currBytes + Bytes(it, m1.shape), currItems := m1.currItems + 1,
          casId := if useCas then m1.casId + 1 else m1.casId,
          cas := if useCas then m1.cas[it := m1.casId + 1] else m1.cas) == Relinked(m, it, useCas)
    ensures Relinked(m, it, useCas).linked == m.linked + {it} && Relinked(m, it, useCas).clsid == m.clsid
  {
    hide Bytes;
  }

  /** Item memory after do_item_unlink, before the item is freed. */
  function Untied(m: Items, it: Ptr): Items
  {
    m.(linked := m.linked - {it}, currItems := if m.currItems > 0 then m.currItems - 1 else 0,
       currBytes := if m.currBytes >= Bytes(it, m.shape) then m.currBytes - Bytes(it, m.shape) else 0)
  }

  lemma UnlinkedIs(m: Items, it: Ptr)
    ensures var m1 := Untied(m, it);
      && Unlinked(m, it) == (if Ld(m.refcount, it) > 0 then m1
                             else m1.(clsid := m1.clsid[it := 0], slabbed := m1.slabbed + {it}))
      && m1.refcount == m.refcount && m1.clsid == m.clsid && m1.linked == m.linked - {it}
    ensures Unlinked(m, it).refcount == m.refcount
  {
    hide Bytes;
  }

  /** Item memory after do_item_remove. */
  function Dropped(m: Items, it: Ptr): Items
  {
    m.(refcount := m.refcount[it := if Ld(m.refcount, it) > 0 then Ld(m.refcount, it) - 1 else 0],
       clsid := if Ld(m.refcount, it) <= 1 && it !in m.linked then m.clsid[it := 0] else m.clsid,
       slabbed := if Ld(m.refcount, it) <= 1 && it !in m.linked then m.slabbed + {it} else m.slabbed)
  }

  /** Queue members are linked, each in one queue. */
  lemma QueueMembers(q: seq<seq<Ptr>>, heads: seq<Ptr>, tails: seq<Ptr>, sizes: seq<nat>, prev: map<Ptr, Ptr>,
                     next: map<Ptr, Ptr>, home: map<Ptr, nat>, linked: set<Ptr>, clsid: map<Ptr, nat>)
    requires QueuesOk(q, heads, tails, sizes, prev, next, home) && QueueLinked(home, linked, clsid)
    ensures Members(q, linked, home)
  {
    forall c | 0 <= c < |q| ensures NoDup(q[c]) {
      assert Dll(prev, next, heads[c], tails[c], q[c]);
    }
  }

  ghost predicate Members(q: seq<seq<Ptr>>, linked: set<Ptr>, home: map<Ptr, nat>)
  {
    && |q| == LARGEST_ID
    && (forall c {:trigger q[c]} :: 0 <= c < |q| ==> NoDup(q[c]))
    && (forall c, x {:trigger x in q[c]} :: 0 <= c < |q| && x in q[c] ==> x in linked && x in home && home[x] == c)
  }

  /** do_item_link. */
  lemma LinkCoherent(m: Items, v: Views, useCas: bool, it: Ptr, m': Items, v': Views)
    requires Coherent(m, v, useCas, 0) && it != 0 && it in v.key && v.key[it] !in v.index && v.held[it] > 0
    requires Members(v.q, m.linked, v.home) && Ld(m.clsid, it) < |v.q|
    requires m' == Relinked(m, it, useCas)
    requires var c := Ld(m.clsid, it);
      v' == v.(index := v.index[v.key[it] := it], q := v.q[c := [it] + v.q[c]], home := v.home[it := c])
    ensures it !in m.linked && Coherent(m', v', useCas, 0)
  {
    hide IndexLinked, QueueLinked, CountersOk, LiveOk, RefsOk, FitOk, TimesOk, CasOk, Bytes, FlushOk;
    FlushedLinked(v.doomed, m.linked, m.time, m.oldestLive, m.now);
    LinkIndex(v.index, v.key, m.linked, it);
    LinkCounters(v.index, m.linked, m.shape, m.currItems, m.currBytes, v.key[it], it);
    LinkQueue(v.home, m.linked, m.clsid, it);
    LinkRefs(m.refcount, v.held, m.linked, m.slabbed, m.clsid, it);
    LinkTimes(v.q, v.home, m.linked, m.time, m.now, it, Ld(m.clsid, it));
    LinkCas(m.linked, m.cas, m.casId, useCas, it);
    LinkFlush(v.doomed, m.linked, m.time, m.oldestLive, m.now, it);
  }

  /** Item memory with one more reference. */
  function Raised(m: Items, it: Ptr): Items { m.(refcount := m.refcount[it := Ld(m.refcount, it) + 1]) }

  /** do_item_get's reference. */
  lemma HoldCoherent(m: Items, v: Views, useCas: bool, it: Ptr)
    requires Coherent(m, v, useCas, 0) && it in m.linked
    ensures Coherent(Raised(m, it), v.(held := v.held + multiset{it}), useCas, 0)
  {
    hide IndexLinked, QueueLinked, CountersOk, LiveOk, RefsOk, FitOk, TimesOk, CasOk, FlushOk;
    HoldRefs(m.refcount, v.held, m.linked, m.slabbed, m.clsid, it);
  }

  /** do_item_remove's decrement. */
  lemma DropCoherent(m: Items, v: Views, useCas: bool, it: Ptr)
    requires Coherent(m, v, useCas, 0) && v.held[it] > 0
    ensures Ld(m.refcount, it) == v.held[it] && Ld(m.clsid, it) != 0 && it != 0 && it !in m.slabbed
    ensures var loose := if Ld(m.refcount, it) == 1 && it !in m.linked then it else 0;
      Coherent(m.(refcount := m.refcount[it := Ld(m.refcount, it) - 1]),
               v.(held := v.held - multiset{it}), useCas, loose)
  {
    hide IndexLinked, QueueLinked, CountersOk, LiveOk, FitOk, TimesOk, CasOk, FlushOk;
    DropRefs(m.refcount, v.held, m.linked, m.slabbed, m.clsid, it);
  }

  /** do_item_update's move to the head of its queue. */
  lemma BumpCoherent(m: Items, v: Views, useCas: bool, it: Ptr, n: nat)
    requires Coherent(m, v, useCas, 0) && Members(v.q, m.linked, v.home) && it in m.linked && it in v.home
    requires var c := v.home[it]; c < |v.q| && n < |v.q[c]| && v.q[c][n] == it
    ensures var c := v.home[it];
      Coherent(m.(time := m.time[it := m.now]),
               v.(q := v.q[c := [it] + Without(v.q[c], n)], home := (v.home - {it})[it := c],
                  doomed := v.doomed - {it}), useCas, 0)
  {
    hide IndexLinked, CountersOk, LiveOk, RefsOk, FitOk, TimesOk, CasOk, FlushOk;
    assert (v.home - {it})[it := v.home[it]] == v.home;
    BumpTimes(v.q, m.linked, m.time, m.now, it, v.home[it], n);
    BumpFlush(v.doomed, m.linked, m.time, m.oldestLive, m.now, it);
  }

  /** The clock does not go back. */
  lemma TickCoherent(m: Items, v: Views, useCas: bool, t: nat)
    requires Coherent(m, v, useCas, 0) && m.now <= t
    ensures Coherent(m.(now := t), v, useCas, 0)
  {
  }

  // ---------------------------------------------------------------- do_item_alloc

  /** Chunk `it` of class `id` is taken and belongs to nobody yet. */
  ghost predicate LiveHole(us: seq<Use>, clsid: map<Ptr, nat>, it: Ptr, id: nat)
  {
    && 0 < id < |us| && it in us[id].live && Ld(clsid, it) == 0
    && (forall c, x {:trigger x in us[c].live} :: 0 <= c < |us| && x in us[c].live ==>
          c != 0 && if x == it then c == id else Ld(clsid, x) == c)
    && (forall x {:trigger Ld(clsid, x)} :: Ld(clsid, x) != 0 ==> Ld(clsid, x) < |us| && x in us[Ld(clsid, x)].live)
  }

  ghost predicate Hole(m: Items, v: Views, useCas: bool, it: Ptr, id: nat)
  {
    && IndexLinked(v.index, v.key, m.linked)
    && QueueLinked(v.home, m.linked, m.clsid)
    && CountersOk(v.index, m.linked, m.shape, m.currItems, m.currBytes)
    && LiveHole(v.us, m.clsid, it, id)
    && RefsOk(m.refcount, v.held, m.linked, m.slabbed, m.clsid, 0)
    && FitOk(v.sc, m.clsid, m.shape)
    && TimesOk(v.q, m.linked, m.time, m.now)
    && CasOk(m.linked, m.cas, m.casId, useCas)
    && FlushOk(v.doomed, m.linked, m.time, m.oldestLive, m.now)
  }

  /** A chunk from the allocator. */
  lemma TakenHole(m: Items, v: Views, useCas: bool, p: Ptr, id: nat, v': Views)
    requires Coherent(m, v, useCas, 0) && p != 0 && 0 < id < |v.us| && |v'.us| == |v.us| && |v'.sc| == |v.sc|
    requires v' == v.(us := v'.us, sc := v'.sc)
    requires p !in v.us[id].live && v'.us[id].live == v.us[id].live + {p}
    requires forall c :: 0 <= c < |v.us| && c != id ==> v'.us[c].live == v.us[c].live && p !in v'.us[c].live
    requires forall c :: 0 <= c < |v.sc| ==> v'.sc[c].size == v.sc[c].size
    ensures Hole(m, v', useCas, p, id) && p !in m.linked
  {
    hide IndexLinked, QueueLinked, CountersOk, TimesOk, CasOk, FlushOk;
    var us' := v'.us;
    forall c, x {:trigger x in us'[c].live} | 0 <= c < |us'| && x in us'[c].live
      ensures c != 0 && if x == p then c == id else Ld(m.clsid, x) == c
    {
      if x != p { assert x in v.us[c].live; }
    }
    assert p in us'[id].live;
  }

  /** An expired item taken over by do_item_alloc: unlinked, its class cleared, its count back to zero. */
  lemma StolenHole(m: Items, v: Views, useCas: bool, it: Ptr, id: nat)
    requires Coherent(m, v, useCas, 0) && it !in m.linked && v.held[it] == 1 && Ld(m.clsid, it) == id != 0
    ensures Hole(m.(clsid := m.clsid[it := 0], refcount := m.refcount[it := 0]), v.(held := v.held - multiset{it}),
                 useCas, it, id)
  {
    hide IndexLinked, CountersOk, TimesOk, CasOk, FlushOk;
    LdUpdate(m.clsid, it, 0);
    LdUpdate(m.refcount, it, 0);
  }

  /** The end of do_item_alloc: the caller holds the new item. */
  lemma AllocCoherent(m: Items, v: Views, useCas: bool, it: Ptr, id: nat, k: Key, sh: Shape, m': Items, v': Views)
    requires Hole(m, v, useCas, it, id) && it != 0 && it !in m.linked && id < |v.sc| && NTotal(sh) <= v.sc[id].size
    requires m' == m.(clsid := m.clsid[it := id], refcount := m.refcount[it := 1], slabbed := m.slabbed - {it},
                      shape := m.shape[it := sh], exptime := m'.exptime, flags := m'.flags, data := m'.data)
    requires v' == v.(key := v.key[it := k], held := v.held + multiset{it})
    ensures Coherent(m', v', useCas, 0)
  {
    hide IndexLinked, QueueLinked, CountersOk, LiveOk, LiveHole, RefsOk, FitOk, TimesOk, CasOk, FlushOk;
    HoleClass(v.us, m.clsid, it, id);
    AllocIndex(v.index, v.key, m.linked, it, k);
    AllocQueue(v.home, m.linked, m.clsid, it, id);
    AllocCounters(v.index, m.linked, m.shape, m.currItems, m.currBytes, it, sh);
    AllocLive(v.us, m.clsid, it, id);
    AllocRefs(m.refcount, v.held, m.linked, m.slabbed, m.clsid, it, id);
    AllocFit(v.sc, m.clsid, m.shape, it, id, sh);
  }

  lemma HoleClass(us: seq<Use>, clsid: map<Ptr, nat>, it: Ptr, id: nat)
    requires LiveHole(us, clsid, it, id)
    ensures Ld(clsid, it) == 0 && id != 0
  {
  }

  lemma AllocIndex(index: map<Key, Ptr>, key: map<Ptr, Key>, linked: set<Ptr>, it: Ptr, k: Key)
    requires IndexLinked(index, key, linked) && it !in linked
    ensures IndexLinked(index, key[it := k], linked)
  {
  }

  lemma AllocQueue(home: map<Ptr, nat>, linked: set<Ptr>, clsid: map<Ptr, nat>, it: Ptr, id: nat)
    requires QueueLinked(home, linked, clsid) && it !in linked
    ensures QueueLinked(home, linked, clsid[it := id])
  {
  }

  lemma AllocFit(sc: seq<SlabClass>, clsid: map<Ptr, nat>, shape: map<Ptr, Shape>, it: Ptr, id: nat, sh: Shape)
    requires FitOk(sc, clsid, shape) && id < |sc| && NTotal(sh) <= sc[id].size
    ensures FitOk(sc, clsid[it := id], shape[it := sh])
  {
    LdUpdate(clsid, it, id);
  }

  lemma AllocCounters(index: map<Key, Ptr>, linked: set<Ptr>, shape: map<Ptr, Shape>, items: nat, bytes: nat, it: Ptr,
                      sh: Shape)
    requires CountersOk(index, linked, shape, items, bytes) && it !in linked
    ensures CountersOk(index, linked, shape[it := sh], items, bytes)
  {
    SumFrame(linked, shape, shape[it := sh]);
  }

  lemma AllocRefs(refcount: map<Ptr, nat>, held: multiset<Ptr>, linked: set<Ptr>, slabbed: set<Ptr>,
                  clsid: map<Ptr, nat>, it: Ptr, id: nat)
    requires RefsOk(refcount, held, linked, slabbed, clsid, 0) && Ld(clsid, it) == 0 && it != 0 && id != 0
    ensures RefsOk(refcount[it := 1], held + multiset{it}, linked, slabbed - {it}, clsid[it := id], 0)
  {
    assert held[it] == 0;
    LdUpdate(clsid, it, id);
    LdUpdate(refcount, it, 1);
  }

  lemma AllocLive(us: seq<Use>, clsid: map<Ptr, nat>, it: Ptr, id: nat)
    requires LiveHole(us, clsid, it, id)
    ensures LiveOk(us, clsid[it := id])
  {
    LdUpdate(clsid, it, id);
  }

  /** do_item_get's flush test hides exactly the items linked before the flush. */
  predicate Nuked(m: Items, it: Ptr)
  {
    m.oldestLive != 0 && m.oldestLive <= m.now && Ld(m.time, it) <= m.oldestLive
  }

  predicate Expired(m: Items, it: Ptr)
  {
    Ld(m.exptime, it) != 0 && Ld(m.exptime, it) <= m.now
  }

  /** There is an item for `k` that neither a flush nor its expiry time hides. */
  ghost predicate Visible(m: Items, index: map<Key, Ptr>, doomed: set<Ptr>, k: Key)
  {
    k in index && index[k] !in doomed && !Expired(m, index[k])
  }

  lemma NukedIsDoomed(m: Items, v: Views, useCas: bool, it: Ptr)
    requires Coherent(m, v, useCas, 0) && it in m.linked
    ensures Nuked(m, it) <==> it in v.doomed
  {
    hide IndexLinked, QueueLinked, CountersOk, LiveOk, RefsOk, FitOk, TimesOk, CasOk;
  }

  /** Indexed means linked. */
  lemma IndexedIsLinked(m: Items, v: Views, useCas: bool, k: Key)
    requires Coherent(m, v, useCas, 0)
    ensures k in v.index ==> v.index[k] in m.linked && v.index[k] != 0 && v.index[k] in v.key && v.key[v.index[k]] == k
  {
    hide QueueLinked, CountersOk, LiveOk, RefsOk, FitOk, TimesOk, CasOk, FlushOk;
    if k in v.index { assert v.index[k] in m.linked; }
  }

  /** flush_all's new oldest_live: it hides what is older than the current second. */
  lemma FlushCoherent(m: Items, v: Views, useCas: bool)
    requires Coherent(m, v, useCas, 0) && m.now >= 2
    ensures Coherent(m.(oldestLive := m.now - 1), v.(doomed := Older(m.linked, m.time, m.now - 1)), useCas, 0)
  {
    hide IndexLinked, QueueLinked, CountersOk, LiveOk, RefsOk, FitOk, TimesOk, CasOk;
  }

  ghost function Older(linked: set<Ptr>, time: map<Ptr, nat>, t: nat): set<Ptr>
  {
    set x | x in linked && Ld(time, x) <= t
  }

  /** Characters "%d" prints. */
  function DecLen(n: int): (r: nat)
    ensures r > 0
    decreases if n < 0 then 1 - n else n
  {
    if n < 0 then 1 + DecLen(-n) else if n < 10 then 1 else 1 + DecLen(n / 10)
  }

  /** The layout item_make_header gives an item; the suffix is " flags length" and a line end. */
  function Header(nkey: nat, flags: int, nbytes: nat, useCas: bool): Shape
  {
    Shape(nkey, 4 + DecLen(flags) + DecLen(nbytes - 2), nbytes, useCas)
  }

  /** do_item_alloc took over the expired item `it`. */
  function Stolen(m: Items, it: Ptr): Items
  {
    m.(linked := m.linked - {it}, currItems := if m.currItems > 0 then m.currItems - 1 else 0,
       currBytes := if m.currBytes >= Bytes(it, m.shape) then m.currBytes - Bytes(it, m.shape) else 0,
       clsid := m.clsid[it := 0], refcount := m.refcount[it := 0])
  }

  lemma StolenIs(m: Items, it: Ptr)
    ensures var m1 := Unlinked(m.(refcount := m.refcount[it := 1]), it);
      m1.(clsid := m1.clsid[it := 0]).(refcount := m1.refcount[it := 0]) == Stolen(m, it)
  {
    hide Bytes;
    assert m.refcount[it := 1][it := 0] == m.refcount[it := 0];
  }

  /** do_item_alloc filled in the header of the chunk `it`. */
  function Fresh(m: Items, it: Ptr, id: nat, sh: Shape, flags: int, exptime: nat): Items
  {
    m.(clsid := m.clsid[it := id], refcount := m.refcount[it := 1], slabbed := m.slabbed - {it},
       shape := m.shape[it := sh], exptime := m.exptime[it := exptime], flags := m.flags[it := flags])
  }

  /** What do_item_alloc did: at most one unreferenced item, `victim`, is gone; `it` is new. */
  ghost predicate Allocs(m: Items, m': Items, it: Ptr, victim: Ptr, sh: Shape, flags: int, exptime: nat)
  {
    && m'.linked == m.linked - {victim} && it !in m'.linked && it != 0
    && (victim != 0 ==> victim in m.linked && Ld(m.refcount, victim) == 0)
    && m'.now == m.now && m'.oldestLive == m.oldestLive && m'.casId == m.casId
    && m'.time == m.time && m'.cas == m.cas && m'.data == m.data
    && m'.shape == m.shape[it := sh] && m'.exptime == m.exptime[it := exptime] && m'.flags == m.flags[it := flags]
    && (forall x {:trigger Ld(m'.refcount, x)} :: Ld(m'.refcount, x) == if x == it then 1 else Ld(m.refcount, x))
  }

  lemma AllocsPlain(m: Items, it: Ptr, id: nat, sh: Shape, flags: int, exptime: nat)
    requires it != 0 && it !in m.linked && 0 !in m.linked
    ensures Allocs(m, Fresh(m, it, id, sh, flags, exptime), it, 0, sh, flags, exptime)
  {
    LdUpdate(m.refcount, it, 1);
  }

  lemma AllocsStolen(m: Items, it: Ptr, id: nat, sh: Shape, flags: int, exptime: nat)
    requires it != 0 && it in m.linked && Ld(m.refcount, it) == 0
    ensures Allocs(m, Fresh(Stolen(m, it), it, id, sh, flags, exptime), it, it, sh, flags, exptime)
  {
    hide Bytes;
    LdUpdate(m.refcount[it := 0], it, 1);
  }

  lemma AllocsEvicted(m: Items, victim: Ptr, it: Ptr, id: nat, sh: Shape, flags: int, exptime: nat)
    requires it != 0 && victim in m.linked && victim != 0 && Ld(m.refcount, victim) == 0
    requires it !in Unlinked(m, victim).linked
    ensures Allocs(m, Fresh(Unlinked(m, victim), it, id, sh, flags, exptime), it, victim, sh, flags, exptime)
  {
    hide Bytes;
    LdUpdate(m.refcount, it, 1);
  }

  /** Item memory once do_item_alloc has the chunk `it`, at the cost of `victim` if that is not 0. */
  ghost predicate Roomed(m: Items, m': Items, it: Ptr, victim: Ptr)
  {
    if victim == 0 then m' == m && 0 !in m.linked
    else
      && victim in m.linked && Ld(m.refcount, victim) == 0
      && (m' == Unlinked(m, victim) || (it == victim && m' == Stolen(m, it)))
  }

  lemma RoomStolen(m: Items, it: Ptr)
    requires it != 0 && it in m.linked && Ld(m.refcount, it) == 0
    ensures Roomed(m, Stolen(m, it), it, it)
  {
    hide Stolen, Unlinked;
  }

  lemma RoomFetched(m: Items, m': Items, it: Ptr, victim: Ptr)
    requires 0 !in m.linked
    requires victim == 0 ==> m' == m
    requires victim != 0 ==> victim in m.linked && Ld(m.refcount, victim) == 0 && m' == Unlinked(m, victim)
    ensures Roomed(m, m', it, victim)
  {
    hide Stolen, Unlinked;
  }

  lemma RoomAllocs(m: Items, m': Items, it: Ptr, victim: Ptr, id: nat, sh: Shape, flags: int, exptime: nat)
    requires Roomed(m, m', it, victim) && it != 0 && it !in m'.linked
    ensures Allocs(m, Fresh(m', it, id, sh, flags, exptime), it, victim, sh, flags, exptime)
  {
    hide Fresh, Stolen, Allocs, Unlinked;
    if victim == 0 {
      AllocsPlain(m, it, id, sh, flags, exptime);
    } else if m' == Unlinked(m, victim) {
      AllocsEvicted(m, victim, it, id, sh, flags, exptime);
    } else {
      AllocsStolen(m, it, id, sh, flags, exptime);
    }
  }

  /** Only links, reference counts and ages changed, and no item was linked. */
  ghost predicate Quiet(m: Items, m': Items)
  {
    && m'.data == m.data && m'.flags == m.flags && m'.exptime == m.exptime && m'.cas == m.cas && m'.shape == m.shape
    && m'.linked <= m.linked && m'.now == m.now && m'.casId == m.casId && m'.oldestLive == m.oldestLive
  }

  lemma UnlinkedQuiet(m: Items, it: Ptr)
    ensures Quiet(m, Unlinked(m, it)) && Unlinked(m, it).linked == m.linked - {it} && Unlinked(m, it).time == m.time
  {
    hide Bytes;
  }

  lemma RaisedQuiet(m: Items, it: Ptr)
    ensures Quiet(m, Raised(m, it)) && Raised(m, it).linked == m.linked && Raised(m, it).time == m.time
  {
  }

  lemma DroppedQuiet(m: Items, it: Ptr)
    ensures Quiet(m, Dropped(m, it)) && Dropped(m, it).linked == m.linked && Dropped(m, it).time == m.time
  {
  }

  /** Neither the value nor the requested id of an unlinked item matters to the rest. */
  lemma WriteCoherent(m: Items, v: Views, useCas: bool, data: map<Ptr, string>)
    requires Coherent(m, v, useCas, 0)
    ensures Coherent(m.(data := data), v, useCas, 0)
  {
    hide IndexLinked, QueueLinked, CountersOk, LiveOk, RefsOk, FitOk, TimesOk, CasOk, FlushOk;
  }

  lemma RequestCoherent(m: Items, v: Views, useCas: bool, it: Ptr, id: nat)
    requires Coherent(m, v, useCas, 0) && it !in m.linked
    ensures Coherent(m.(cas := m.cas[it := id]), v, useCas, 0)
  {
    hide IndexLinked, QueueLinked, CountersOk, LiveOk, RefsOk, FitOk, TimesOk, FlushOk;
  }

  /** A new id for a linked item. */
  lemma StampCoherent(m: Items, v: Views, useCas: bool, it: Ptr)
    requires Coherent(m, v, useCas, 0)
    ensures Coherent(m.(casId := m.casId + 1, cas := m.cas[it := m.casId + 1]), v, useCas, 0)
  {
    hide IndexLinked, QueueLinked, CountersOk, LiveOk, RefsOk, FitOk, TimesOk, FlushOk;
    LdUpdate(m.cas, it, m.casId + 1);
  }

  /** Items were unlinked, and nothing else. */
  ghost predicate Fades(m: Items, m': Items) { Quiet(m, m') && m'.time == m.time }

  lemma UnlinkedFades(m: Items, it: Ptr)
    ensures Fades(m, Unlinked(m, it))
  {
    hide Bytes;
  }

  lemma FadesTrans(m: Items, m1: Items, m2: Items)
    requires Fades(m, m1) && Fades(m1, m2)
    ensures Fades(m, m2)
  {
  }

  /** Whatever is older than the flush is linked still. */
  ghost predicate KeepsOld(m: Items, m': Items)
  {
    forall x {:trigger x in m'.linked} :: x in m.linked && Ld(m.time, x) < m.oldestLive ==> x in m'.linked
  }

  lemma KeepsOldOne(m: Items, m1: Items, m2: Items, it: Ptr)
    requires KeepsOld(m, m1) && Ld(m1.time, it) >= m1.oldestLive && m2.linked == m1.linked - {it} && Fades(m, m1)
    ensures KeepsOld(m, m2)
  {
  }

  lemma KeepsOldTrans(m: Items, m1: Items, m2: Items)
    requires KeepsOld(m, m1) && KeepsOld(m1, m2) && Fades(m, m1)
    ensures KeepsOld(m, m2)
  {
  }

  lemma KeepsOldSelf(m: Items)
    ensures KeepsOld(m, m)
  {
  }

  /** Everything in the queue is older than the flush. */
  ghost predicate AllOlder(s: seq<Ptr>, time: map<Ptr, nat>, t: nat)
  {
    forall x {:trigger x in s} :: x in s ==> Ld(time, x) < t
  }

  /** The queue is sorted, so all of it is old once its head is. */
  lemma OldHead(m: Items, v: Views, useCas: bool, i: nat)
    requires Coherent(m, v, useCas, 0) && i < |v.q|
    requires v.q[i] != [] ==> Ld(m.time, v.q[i][0]) < m.oldestLive
    ensures AllOlder(v.q[i], m.time, m.oldestLive)
  {
    hide IndexLinked, QueueLinked, CountersOk, LiveOk, RefsOk, FitOk, CasOk, FlushOk;
    assert SortedQ(v.q[i], m.time);
  }

  /** Once all queues are old, everything linked is hidden. */
  lemma AllHidden(m: Items, v: Views, useCas: bool, heads: seq<Ptr>, tails: seq<Ptr>, sizes: seq<nat>,
                  prev: map<Ptr, Ptr>, next: map<Ptr, Ptr>)
    requires Coherent(m, v, useCas, 0) && QueuesOk(v.q, heads, tails, sizes, prev, next, v.home) && m.oldestLive != 0
    requires forall i :: 0 <= i < LARGEST_ID ==> AllOlder(v.q[i], m.time, m.oldestLive)
    ensures v.doomed == m.linked && forall x {:trigger x in m.linked} :: x in m.linked ==> Ld(m.time, x) < m.oldestLive
  {
    hide IndexLinked, CountersOk, LiveOk, RefsOk, FitOk, TimesOk, CasOk, Dll;
    forall x | x in m.linked ensures x in v.doomed && Ld(m.time, x) < m.oldestLive {
      assert x in v.home && v.home[x] < LARGEST_ID && x in v.q[v.home[x]];
      assert AllOlder(v.q[v.home[x]], m.time, m.oldestLive);
    }
  }
}
