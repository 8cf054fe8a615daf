/** memcached-1.4.5/memcached.c: the storage commands, against their meaning on a plain map of entries. */
module Commands {
  import opened Assoc
  import opened Lru
  import opened Slabs
  import opened ItemState
  import opened Entries
  import opened Hiding
  import opened Cache
  import opened Numbers

  /** What holds between two commands. Relative time starts at 2 and fits 32 bits. */
  ghost predicate Good(c: Cache)
    reads c, c.assoc, c.lru, c.slabs
  {
    c.Ok(0) && DataOk(c.m.linked, c.m.shape, c.m.data) && 2 <= c.m.now < 0x1_0000_0000
  }

  ghost function All(c: Cache): map<Key, Entry>
    reads c, c.assoc
  {
    Dict(c.m, c.assoc.index)
  }

  ghost function SightOf(c: Cache): Sight
    reads c, c.assoc
  {
    Sight(c.assoc.index, c.m.linked, c.doomed, c.m.now)
  }

  lemma SightIsOk(c: Cache)
    requires Good(c)
    ensures SightOk(SightOf(c), c.assoc.key)
  {
    hide QueueLinked, CountersOk, LiveOk, RefsOk, FitOk, TimesOk, CasOk, IndexLinked, TablesOk, QueuesOk, SlabsOk;
    hide MemOk, ArenaOk, Configured, DataOk;
  }

  /** There is an entry for `k`, and no flush hides it. */
  ghost predicate Shown(c: Cache, k: Key)
    reads c`doomed, c.assoc
  {
    k in c.assoc.index && c.assoc.index[k] !in c.doomed
  }

  /** What is stored can be read until it expires. */
  lemma ShownIsVisible(c: Cache, k: Key)
    requires Shown(c, k)
    ensures k in All(c)
    ensures Visible(c.m, c.assoc.index, c.doomed, k) <==> All(c)[k].exptime == 0 || All(c)[k].exptime > c.m.now
  {
  }

  /** do_item_get: hidden and expired entries are dropped on the way */
  method Look(c: Cache, k: Key) returns (it: Ptr)
    requires Good(c)
    modifies c`m, c`held, c`doomed, c.assoc, c.lru, c.slabs
    ensures Good(c) && c.assoc.key == old(c.assoc.key) && Quiet(old(c.m), c.m) && c.m.time == old(c.m).time
    ensures it != 0 <==> Visible(old(c.m), old(c.assoc.index), old(c.doomed), k)
    ensures it != 0 ==> k in c.assoc.index && it == c.assoc.index[k] && c.held == old(c.held) + multiset{it}
    ensures it != 0 ==> it in c.assoc.key && c.assoc.key[it] == k && it in c.m.linked && it !in c.doomed
    ensures it != 0 ==> SightOf(c) == old(SightOf(c)) && c.m == Raised(old(c.m), it)
    ensures it != 0 ==> unchanged(c.assoc) && unchanged(c.lru) && unchanged(c.slabs)
    ensures it == 0 ==> c.held == old(c.held) && c.assoc.index == old(c.assoc.index) - {k}
    ensures Follows(old(SightOf(c)), SightOf(c), k, {})
    ensures All(c) == if it != 0 then old(All(c)) else old(All(c)) - {k}
  {
    hide Coherent, TablesOk, QueuesOk, SlabsOk, MemOk, ArenaOk, Configured, Bytes, Without, DataOk, Dict, EntryOf;
    hide Unlinked, Raised, Quiet, Expired, Follows;
    ghost var m0, index0, sight := c.m, c.assoc.index, SightOf(c);
    SightIsOk(c);
    IndexedIsLinked(c.m, c.V(), c.useCas, k);
    NotThere(index0, k);
    it := c.Get(k);
    if it != 0 {
      RaisedQuiet(m0, it);
    } else if k in index0 {
      UnlinkedQuiet(m0, index0[k]);
    } else {
      SelfQuiet(m0);
    }
    QuietKeeps(m0, c.m, c.assoc.index);
    if it == 0 && k in index0 {
      Leaves(sight, SightOf(c), k, index0[k], {k});
    } else {
      Same(sight, SightOf(c), k);
    }
    EntriesWithout(m0, index0, k);
  }

  /** do_item_remove */
  method Release(c: Cache, it: Ptr)
    requires Good(c) && c.held[it] > 0
    modifies c`m, c`held, c.slabs
    ensures Good(c) && c.held == old(c.held) - multiset{it} && Quiet(old(c.m), c.m) && SightOf(c) == old(SightOf(c))
    ensures c.m.casId == old(c.m).casId && All(c) == old(All(c)) && c.m.time == old(c.m).time
  {
    hide Coherent, TablesOk, QueuesOk, SlabsOk, MemOk, ArenaOk, Configured, Bytes, Without, DataOk, Dict, EntryOf;
    hide Dropped;
    ghost var m0 := c.m;
    c.Remove(it);
    DroppedQuiet(m0, it);
    QuietKeeps(m0, c.m, c.assoc.index);
  }

  /** do_item_unlink of an item the caller holds */
  method Drop(c: Cache, it: Ptr)
    requires Good(c) && it in c.m.linked && c.held[it] > 0
    modifies c`m, c`doomed, c.assoc, c.lru, c.slabs
    ensures Good(c) && Quiet(old(c.m), c.m) && c.m.linked == old(c.m).linked - {it} && c.doomed == old(c.doomed) - {it}
    ensures c.assoc.key == old(c.assoc.key) && it in c.assoc.key
    ensures c.assoc.index == old(c.assoc.index) - {c.assoc.key[it]} && All(c) == old(All(c)) - {c.assoc.key[it]}
    ensures Follows(old(SightOf(c)), SightOf(c), c.assoc.key[it], {})
  {
    hide Coherent, TablesOk, QueuesOk, SlabsOk, MemOk, ArenaOk, Configured, Bytes, Without, DataOk, Dict, EntryOf;
    hide Unlinked, Quiet, Follows;
    ghost var m0, index0, sight := c.m, c.assoc.index, SightOf(c);
    SightIsOk(c);
    ghost var n := c.Unlink(it);
    UnlinkedQuiet(m0, it);
    QuietKeeps(m0, c.m, c.assoc.index);
    Leaves(sight, SightOf(c), c.assoc.key[it], it, {c.assoc.key[it]});
    EntriesWithout(m0, index0, c.assoc.key[it]);
  }

  /** do_item_link of an item whose key is not linked */
  method Put(c: Cache, it: Ptr, callocOk: bool)
    requires Good(c) && c.held[it] > 0 && it in c.assoc.key && c.assoc.key[it] !in c.assoc.index
    requires Line(it, c.m.shape, c.m.data)
    modifies c`m, c.assoc, c.lru
    ensures Good(c) && Puts(old(c.m), c.m, it, c.useCas)
    ensures c.assoc.key == old(c.assoc.key)
    ensures c.assoc.index == old(c.assoc.index)[c.assoc.key[it] := it] && it !in c.doomed
    ensures All(c) == old(All(c))[c.assoc.key[it] := Stamped(old(c.m), it, c.useCas)]
    ensures Follows(old(SightOf(c)), SightOf(c), c.assoc.key[it], {it})
  {
    hide Coherent, TablesOk, QueuesOk, SlabsOk, MemOk, ArenaOk, Configured, Bytes, Without, DataOk, Dict, EntryOf;
    hide Relinked, Puts, Stamped, Follows;
    ghost var m0, v, sight := c.m, c.V(), SightOf(c);
    SightIsOk(c);
    HeldIsReal(m0, v, c.useCas, it);
    c.Link(it, callocOk);
    PutEffect(m0, v, c.useCas, it);
    PutsLinks(m0, c.m, it, c.useCas);
    Comes(sight, SightOf(c), c.assoc.key[it], it);
  }

  /** The entry of an item linked next. */
  ghost function Stamped(m: Items, it: Ptr, useCas: bool): Entry
  {
    EntryOf(m, it).(cas := if useCas then m.casId + 1 else Ld(m.cas, it))
  }

  /** do_item_link stamped `it` with the next id. */
  ghost predicate Puts(m: Items, m': Items, it: Ptr, useCas: bool)
  {
    && m'.data == m.data && m'.flags == m.flags && m'.exptime == m.exptime && m'.shape == m.shape
    && m'.linked == m.linked + {it} && m'.now == m.now && m'.oldestLive == m.oldestLive
    && m'.casId == (if useCas then m.casId + 1 else m.casId)
    && m'.cas == (if useCas then m.cas[it := m.casId + 1] else m.cas)
  }

  lemma PutsLinks(m: Items, m': Items, it: Ptr, useCas: bool)
    requires Puts(m, m', it, useCas)
    ensures m'.linked == m.linked + {it} && m'.now == m.now
  {
  }

  lemma PutEffect(m: Items, v: Views, useCas: bool, it: Ptr)
    requires Coherent(m, v, useCas, 0) && it in v.key && it !in m.linked && Line(it, m.shape, m.data)
    requires DataOk(m.linked, m.shape, m.data)
    ensures var m' := Relinked(m, it, useCas);
      && Puts(m, m', it, useCas) && m'.now == m.now && DataOk(m'.linked, m'.shape, m'.data)
      && Dict(m', v.index[v.key[it] := it]) == Dict(m, v.index)[v.key[it] := Stamped(m, it, useCas)]
  {
    hide IndexLinked, QueueLinked, CountersOk, LiveOk, RefsOk, FitOk;
    hide TimesOk, CasOk, FlushOk, Bytes, DataOk, Dict, Line;
    EntriesRelinked(m, v, useCas, it);
    DataLinks(m.linked, m.shape, m.data, it);
  }

  lemma HeldIsReal(m: Items, v: Views, useCas: bool, it: Ptr)
    requires Coherent(m, v, useCas, 0) && v.held[it] > 0
    ensures it != 0
    ensures it in v.key && v.key[it] !in v.index ==> it !in m.linked && it !in v.doomed
  {
    hide QueueLinked, CountersOk, LiveOk, FitOk, TimesOk, CasOk;
  }

  // ---------------------------------------------------------------- do_item_alloc

  /** "%d" */
  function Decimal(n: int): string { if n < 0 then "-" + Dec(-n) else Dec(n) }

  lemma {:induction false} DecLenIs(n: nat)
    ensures DecLen(n) == |Dec(n)|
  {
    if n >= 10 { DecLenIs(n / 10); }
  }

  lemma DecimalLength(n: int)
    ensures DecLen(n) == |Decimal(n)|
  {
    hide Dec;
    if n < 0 { DecLenIs(-n); } else { DecLenIs(n); }
  }

  /** An item has room for its 48 bytes of fields, the key and its NUL, the suffix " flags length", the value and
      perhaps an id, and no more. */
  lemma LayoutIs(k: Key, flags: int, d: string, useCas: bool)
    ensures NTotal(Header(|k|, flags, |d|, useCas)) ==
            48 + |k + "\0" + " " + Decimal(flags) + " " + Decimal(|d| - 2) + "\r\n" + d| + if useCas then 8 else 0
  {
    hide Decimal;
    DecimalLength(flags);
    DecimalLength(|d| - 2);
  }

  /** No class has chunks of this size. */
  ghost predicate TooBig(sc: seq<SlabClass>, powerLargest: nat, n: nat)
  {
    forall i :: POWER_SMALLEST <= i <= powerLargest && i < |sc| ==> sc[i].size < n
  }

  /** `id` is the first class with chunks of size `n`. */
  ghost predicate FirstFit(sc: seq<SlabClass>, powerLargest: nat, n: nat, id: nat)
  {
    && POWER_SMALLEST <= id <= powerLargest < |sc| && n <= sc[id].size
    && forall i :: POWER_SMALLEST <= i < id ==> sc[i].size < n
  }

  /** do_item_alloc, with item memory `m`, gets no chunk for such an item: no class is large enough, or there is no
      room in the first that is. */
  ghost predicate Starved(r: Room, m: Items, k: Key, flags: int, nbytes: nat, sys: Sys)
  {
    var n := NTotal(Header(|k|, flags, nbytes, r.useCas));
    || TooBig(r.stock.sc, r.stock.largest, n)
    || exists id :: FirstFit(r.stock.sc, r.stock.largest, n, id) && NoRoom(r, m, id, sys)
  }

  /** At most one entry is lost, and nobody refers to its item. */
  ghost predicate CheaplyLost(m: Items, index: map<Key, Ptr>, lost: set<Key>)
  {
    |lost| <= 1 && forall x :: x in lost ==> x in index && Ld(m.refcount, index[x]) == 0
  }

  /** What do_item_alloc costs: no entry if it fails or is not forced to, else that of the item it must unlink. */
  ghost predicate Costs(r: Room, m: Items, index: map<Key, Ptr>, k: Key, flags: int, nbytes: nat, sys: Sys,
                        lost: set<Key>)
  {
    if Starved(r, m, k, flags, nbytes, sys) then lost == {}
    else exists id ::
      && FirstFit(r.stock.sc, r.stock.largest, NTotal(Header(|k|, flags, nbytes, r.useCas)), id)
      && CostsIn(r, m, index, id, sys, lost)
  }

  /** What do_item_alloc costs in class `id`. */
  ghost predicate CostsIn(r: Room, m: Items, index: map<Key, Ptr>, id: nat, sys: Sys, lost: set<Key>)
  {
    if Spared(r, m, id, sys) then lost == {}
    else exists k :: k in index && lost == {k} && Forced(r, m, id, index[k], sys)
  }

  /** do_item_alloc: it fails exactly when starved, without any change; else it costs at most one entry, and that only
      when it must */
  method Alloc(c: Cache, k: Key, flags: int, exptime: nat, nbytes: nat, sys: Sys)
    returns (it: Ptr, ghost lost: set<Key>)
    requires Good(c)
    modifies c`m, c`held, c`doomed, c.assoc, c.lru, c.slabs
    ensures Good(c) && c.assoc.index == old(c.assoc.index) - lost && All(c) == old(All(c)) - lost
    ensures it == 0 ==> c.m == old(c.m) && lost == {} && c.assoc.key == old(c.assoc.key) && c.held == old(c.held)
    ensures it == 0 <==> old(Starved(c.RoomLeft(), c.m, k, flags, nbytes, sys))
    ensures Follows(old(SightOf(c)), SightOf(c), k, {}) && (it == 0 ==> SightOf(c) == old(SightOf(c)))
    ensures it != 0 ==> old(c.held)[it] == 0 && c.held == old(c.held) + multiset{it}
    ensures it != 0 ==> c.assoc.key == old(c.assoc.key)[it := k]
    ensures it != 0 ==> NewItem(old(c.m), c.m, it, Header(|k|, flags, nbytes, c.useCas), flags, exptime)
    ensures CheaplyLost(old(c.m), old(c.assoc.index), lost)
    ensures Costs(old(c.RoomLeft()), old(c.m), old(c.assoc.index), k, flags, nbytes, sys, lost)
  {
    hide Coherent, TablesOk, QueuesOk, SlabsOk, MemOk, ArenaOk, Configured, Bytes, Without, DataOk, Dict, EntryOf;
    hide NTotal, Header, NewItem, AllBusy, NoneExpired, Follows, CostsIn;
    var sh := Header(|k|, flags, nbytes, c.useCas);
    SightIsOk(c);
    ClassRange(c.slabs.slabclass, c.slabs.powerLargest);
    Sized(sh);
    var cls := c.slabs.ClsId(NTotal(sh));
    if cls == 0 {
      lost := {};
      it := 0;
      AllSame(c.assoc.index, All(c));
      Same(SightOf(c), SightOf(c), k);
    } else {
      OneFit(c.slabs.slabclass, c.slabs.powerLargest, NTotal(sh), cls);
      it, lost := AllocFrom(c, cls, k, flags, exptime, sh, sys);
    }
  }

  /** do_item_alloc once its size class is known */
  method AllocFrom(c: Cache, cls: nat, k: Key, flags: int, exptime: nat, sh: Shape, sys: Sys)
    returns (it: Ptr, ghost lost: set<Key>)
    requires Good(c) && POWER_SMALLEST <= cls <= c.slabs.powerLargest
    requires cls < |c.slabs.slabclass| && NTotal(sh) <= c.slabs.slabclass[cls].size
    modifies c`m, c`held, c`doomed, c.assoc, c.lru, c.slabs
    ensures Good(c) && c.assoc.index == old(c.assoc.index) - lost && All(c) == old(All(c)) - lost
    ensures it == 0 ==> c.m == old(c.m) && lost == {} && c.assoc.key == old(c.assoc.key) && c.held == old(c.held)
    ensures it == 0 <==> old(NoRoom(c.RoomLeft(), c.m, cls, sys))
    ensures Follows(old(SightOf(c)), SightOf(c), k, {}) && (it == 0 ==> SightOf(c) == old(SightOf(c)))
    ensures it != 0 ==> old(c.held)[it] == 0 && c.held == old(c.held) + multiset{it}
    ensures it != 0 ==> c.assoc.key == old(c.assoc.key)[it := k] && NewItem(old(c.m), c.m, it, sh, flags, exptime)
    ensures CheaplyLost(old(c.m), old(c.assoc.index), lost)
    ensures CostsIn(old(c.RoomLeft()), old(c.m), old(c.assoc.index), cls, sys, lost)
  {
    hide Coherent, TablesOk, QueuesOk, SlabsOk, MemOk, ArenaOk, Configured, Bytes, Without, DataOk, Dict, EntryOf;
    hide NTotal, Header, Allocs, NewItem, AllBusy, NoneExpired, Follows, CheaplyLost, NoRoom, Spared, Forced, CostsIn;
    ghost var m0, v, sight, room := c.m, c.V(), SightOf(c), c.RoomLeft();
    SightIsOk(c);
    NoNull(m0, v, c.useCas);
    var victim;
    it, victim := c.AllocIn(cls, k, flags, exptime, sh, sys);
    lost := KeyOf(v.key, victim);
    if it == 0 {
      CostIs(room, m0, v, cls, sys, victim);
      AllSame(c.assoc.index, All(c));
      Same(sight, SightOf(c), k);
      NothingLost(m0, v.index);
    } else {
      AllocEffect(m0, v, c.useCas, c.m, it, victim, sh, flags, exptime);
      CostIs(room, m0, v, cls, sys, victim);
      AllocsLeaves(m0, c.m, it, victim, sh, flags, exptime);
      Leaves(sight, SightOf(c), k, victim, lost);
      SoleHolder(m0, c.m, v, c.V(), c.useCas, it, victim, sh, flags, exptime);
    }
  }

  lemma CostIs(r: Room, m: Items, v: Views, id: nat, sys: Sys, victim: Ptr)
    requires if victim == 0 then Spared(r, m, id, sys) else Forced(r, m, id, victim, sys) && !Spared(r, m, id, sys)
    requires victim != 0 ==> victim in v.key && v.key[victim] in v.index && v.index[v.key[victim]] == victim
    ensures CostsIn(r, m, v.index, id, sys, KeyOf(v.key, victim))
  {
    hide Spared, Forced;
    if victim != 0 { assert v.key[victim] in v.index; }
  }

  /** Without a limit or preallocation, and while malloc succeeds, only a too large item is refused. */
  lemma AmpleMemory(r: Room, m: Items, k: Key, flags: int, nbytes: nat, sys: Sys)
    requires r.stock.limit == 0 && r.stock.base == 0 && sys.mallocOk
    ensures Starved(r, m, k, flags, nbytes, sys) <==>
      TooBig(r.stock.sc, r.stock.largest, NTotal(Header(|k|, flags, nbytes, r.useCas)))
  {
  }

  lemma NotLost(m: Items, index: map<Key, Ptr>, lost: set<Key>, k: Key)
    requires CheaplyLost(m, index, lost) && k in index && Ld(m.refcount, index[k]) > 0
    ensures k !in lost
  {
  }

  lemma NothingLost(m: Items, index: map<Key, Ptr>)
    ensures CheaplyLost(m, index, {})
  {
  }

  lemma OneFit(sc: seq<SlabClass>, powerLargest: nat, n: nat, id: nat)
    requires FirstFit(sc, powerLargest, n, id)
    ensures !TooBig(sc, powerLargest, n)
    ensures forall i {:trigger FirstFit(sc, powerLargest, n, i)} :: FirstFit(sc, powerLargest, n, i) ==> i == id
  {
  }

  lemma AllocsLeaves(m: Items, m': Items, it: Ptr, victim: Ptr, sh: Shape, flags: int, exptime: nat)
    requires Allocs(m, m', it, victim, sh, flags, exptime)
    ensures m'.linked == m.linked - {victim} && m'.now == m.now
  {
  }

  lemma Sized(sh: Shape)
    ensures NTotal(sh) > 0
  {
  }

  lemma AllSame(index: map<Key, Ptr>, e: map<Key, Entry>)
    ensures index - {} == index && e - {} == e
  {
    assert index - {} == index;
    assert e - {} == e;
  }

  /** `it` is a new item; whatever else is linked or held is as before. */
  ghost predicate NewItem(m: Items, m': Items, it: Ptr, sh: Shape, flags: int, exptime: nat)
  {
    && it != 0 && it !in m'.linked && m'.linked <= m.linked && m'.now == m.now && m'.casId == m.casId
    && m'.cas == m.cas && m'.data == m.data && m'.oldestLive == m.oldestLive
    && m'.shape == m.shape[it := sh] && m'.exptime == m.exptime[it := exptime] && m'.flags == m.flags[it := flags]
    && forall x {:trigger Ld(m.refcount, x)} :: x in m.linked && Ld(m.refcount, x) > 0 ==> x in m'.linked
  }

  lemma AllocEffect(m: Items, v: Views, useCas: bool, m': Items, it: Ptr, victim: Ptr, sh: Shape, flags: int,
                    exptime: nat)
    requires Coherent(m, v, useCas, 0) && DataOk(m.linked, m.shape, m.data)
    requires Allocs(m, m', it, victim, sh, flags, exptime)
    ensures var lost := KeyOf(v.key, victim);
      && (victim != 0 ==> victim in v.key && lost == {v.key[victim]}) && CheaplyLost(m, v.index, lost)
      && (victim != 0 ==> v.key[victim] in v.index && v.index[v.key[victim]] == victim)
      && Dict(m', v.index - lost) == Dict(m, v.index) - lost && (victim == 0 ==> v.index - lost == v.index)
    ensures NewItem(m, m', it, sh, flags, exptime) && DataOk(m'.linked, m'.shape, m'.data) && m'.now == m.now
  {
    hide QueueLinked, CountersOk, LiveOk, RefsOk, FitOk, TimesOk, CasOk, FlushOk, DataOk, Dict;
    EntriesAllocs(m, v, m', it, victim, sh, flags, exptime);
    DataShrinks(m.linked, m'.linked, m.shape, m.data);
    DataFresh(m'.linked, m.shape, m.data, it, sh);
    if victim == 0 { assert v.index - {} == v.index; }
  }

  lemma SoleHolder(m: Items, m': Items, v: Views, v': Views, useCas: bool, it: Ptr, victim: Ptr, sh: Shape, flags: int,
                   exptime: nat)
    requires Coherent(m', v', useCas, 0) && v'.held == v.held + multiset{it}
    requires Allocs(m, m', it, victim, sh, flags, exptime)
    ensures v.held[it] == 0
  {
    hide IndexLinked, QueueLinked, CountersOk, LiveOk, FitOk, TimesOk, CasOk, FlushOk;
    assert Ld(m'.refcount, it) == v'.held[it];
  }

  // ---------------------------------------------------------------- do_store_item

  datatype Comm = Add | Set | Replace | Append | Prepend | Cas
  datatype Outcome = NotStored | Stored | Exists | NotFound

  /** A value with its line end cut off, followed by another. */
  function Glue(a: string, b: string): string { if |a| >= 2 then a[..|a| - 2] + b else b }

  /** ITEM_get_cas */
  function CasOf(m: Items, it: Ptr, useCas: bool): nat { if useCas then Ld(m.cas, it) else 0 }

  /** do_item_replace, or do_item_link when nothing is linked under the key */
  method Swap(c: Cache, prior: Ptr, it: Ptr, callocOk: bool)
    requires Good(c) && c.held[it] > 0 && it in c.assoc.key && Line(it, c.m.shape, c.m.data) && it !in c.m.linked
    requires c.assoc.key[it] in c.assoc.index ==> c.assoc.index[c.assoc.key[it]] == prior && c.held[prior] > 0
    requires c.assoc.key[it] !in c.assoc.index ==> prior == 0
    modifies c`m, c`doomed, c.assoc, c.lru, c.slabs
    ensures Good(c) && Swaps(old(c.m), c.m, it, c.useCas)
    ensures c.assoc.key == old(c.assoc.key) && c.assoc.index == old(c.assoc.index)[c.assoc.key[it] := it]
    ensures c.doomed == old(c.doomed) - {prior} && Shown(c, c.assoc.key[it])
    ensures All(c) == old(All(c))[c.assoc.key[it] := Stamped(old(c.m), it, c.useCas)]
    ensures Follows(old(SightOf(c)), SightOf(c), c.assoc.key[it], {it})
  {
    hide Coherent, TablesOk, QueuesOk, SlabsOk, MemOk, ArenaOk, Configured, Bytes, Without, DataOk, Dict, EntryOf;
    hide Stamped, Swaps, Puts, Follows;
    NoNull(c.m, c.V(), c.useCas);
    SightIsOk(c);
    ghost var k, m0, sight := c.assoc.key[it], c.m, SightOf(c);
    IndexedIsLinked(m0, c.V(), c.useCas, k);
    Same(sight, sight, k);
    if prior != 0 {
      PutAgain(All(c), k, Stamped(m0, it, c.useCas));
      PutAgain(c.assoc.index, k, it);
      Drop(c, prior);
    }
    ghost var m1, sight1 := c.m, SightOf(c);
    Put(c, it, callocOk);
    FollowsTrans(sight, sight1, SightOf(c), k, {it});
    SwapEffect(m0, m1, c.m, it, c.useCas);
  }

  lemma PutAgain<T>(e: map<Key, T>, k: Key, x: T)
    ensures (e - {k})[k := x] == e[k := x]
  {
  }

  /** `it` is linked with the next id, perhaps instead of another item. */
  ghost predicate Swaps(m: Items, m': Items, it: Ptr, useCas: bool)
  {
    && m'.data == m.data && m'.flags == m.flags && m'.exptime == m.exptime && m'.shape == m.shape
    && it in m'.linked && m'.linked <= m.linked + {it} && m'.now == m.now && m'.oldestLive == m.oldestLive
    && m'.casId == (if useCas then m.casId + 1 else m.casId)
    && m'.cas == (if useCas then m.cas[it := m.casId + 1] else m.cas)
  }

  lemma SwapEffect(m: Items, m1: Items, m2: Items, it: Ptr, useCas: bool)
    requires m1 == m || Quiet(m, m1)
    requires Puts(m1, m2, it, useCas)
    ensures Swaps(m, m2, it, useCas) && Stamped(m1, it, useCas) == Stamped(m, it, useCas)
  {
    hide EntryOf;
    if m1 != m { SameStamp(m, m1, it, useCas); }
  }

  lemma SameStamp(m: Items, m': Items, it: Ptr, useCas: bool)
    requires Quiet(m, m')
    ensures Stamped(m', it, useCas) == Stamped(m, it, useCas)
  {
  }

  predicate EndsLine(d: string) { |d| >= 2 && d[|d| - 2..] == "\r\n" }

  /** A new item with key, flags and expiry of `it` and the value `d`; the caller gets a reference to it */
  method Build(c: Cache, it: Ptr, d: string, sys: Sys) returns (made: Ptr, ghost lost: set<Key>)
    requires Good(c) && c.held[it] > 0 && it in c.m.linked && it in c.assoc.key && EndsLine(d)
    modifies c`m, c`held, c`doomed, c.assoc, c.lru, c.slabs
    ensures Good(c) && All(c) == old(All(c)) - lost && old(c.assoc.key)[it] !in lost
    ensures CheaplyLost(old(c.m), old(c.assoc.index), lost)
    ensures Costs(old(c.RoomLeft()), old(c.m), old(c.assoc.index), old(c.assoc.key)[it], Flags(old(c.m).flags, it), |d|,
                  sys, lost)
    ensures c.m.casId == old(c.m).casId
    ensures made == 0 <==> old(Starved(c.RoomLeft(), c.m, c.assoc.key[it], Flags(c.m.flags, it), |d|, sys))
    ensures made == 0 ==> c.held == old(c.held) && lost == {} && c.assoc.key == old(c.assoc.key)
    ensures Follows(old(SightOf(c)), SightOf(c), old(c.assoc.key)[it], {})
    ensures made == 0 ==> SightOf(c) == old(SightOf(c))
    ensures made != 0 ==> made != it && Fits(c.assoc.key, c.assoc.index, c.m, made, it, old(c.assoc.key)[it])
    ensures made != 0 ==> c.held[made] > 0 && c.held[it] > 0 && c.held - multiset{made} == old(c.held)
    ensures made != 0 ==> Copied(EntryOf(c.m, made), EntryOf(old(c.m), it), d)
  {
    hide Coherent, TablesOk, QueuesOk, SlabsOk, MemOk, ArenaOk, Configured, Bytes, Without, DataOk, Dict, EntryOf;
    hide Good, Line, Starved, NewItem, Fits, Text, Flags, EndsLine, Copied, Follows, CheaplyLost, Costs;
    ghost var m0, index0, held0, k := c.m, c.assoc.index, c.held, c.assoc.key[it];
    BuildFacts(c, it);
    var flags, exptime := Flags(c.m.flags, it), Ld(c.m.exptime, it);
    made, lost := Alloc(c, c.assoc.key[it], flags, exptime, |d|, sys);
    if made == 0 { return; }
    ghost var m1, sh := c.m, Header(|k|, flags, |d|, c.useCas);
    NewIs(m0, m1, made, sh, flags, exptime);
    Fill(c, made, d);
    BuiltIs(m0, m1, c.m, it, made, d, sh);
    NotLost(m0, index0, lost, k);
    BuiltFits(m1, c.m, c.assoc.key, index0, lost, made, it, k);
    StaysLinked(m0, m1, made, sh, flags, exptime, it);
    GivenBack(held0, made);
  }

  lemma StaysLinked(m: Items, m': Items, it: Ptr, sh: Shape, flags: int, exptime: nat, x: Ptr)
    requires NewItem(m, m', it, sh, flags, exptime) && x in m.linked && Ld(m.refcount, x) > 0
    ensures x != it
  {
  }

  ghost predicate Copied(e: Entry, prior: Entry, d: string)
  {
    e.data == d && e.flags == prior.flags && e.exptime == prior.exptime
  }

  lemma GivenBack(h: multiset<Ptr>, x: Ptr)
    ensures h + multiset{x} - multiset{x} == h
  {
  }

  /** `it` can take the place of `prior` under the key `k`. */
  ghost predicate Fits(key: map<Ptr, Key>, index: map<Key, Ptr>, m: Items, it: Ptr, prior: Ptr, k: Key)
  {
    && it in key && key[it] == k && k in index && index[k] == prior
    && Line(it, m.shape, m.data) && it !in m.linked
  }

  lemma BuiltFits(m: Items, m': Items, key: map<Ptr, Key>, index: map<Key, Ptr>, lost: set<Key>, made: Ptr, prior: Ptr,
                  k: Key)
    requires made in key && key[made] == k && k in index && index[k] == prior && k !in lost
    requires made !in m.linked && m'.linked == m.linked && Line(made, m'.shape, m'.data)
    ensures Fits(key, index - lost, m', made, prior, k)
  {
  }

  lemma NewIs(m: Items, m': Items, it: Ptr, sh: Shape, flags: int, exptime: nat)
    requires NewItem(m, m', it, sh, flags, exptime)
    ensures it !in m'.linked && m'.casId == m.casId && m'.now == m.now
  {
  }

  lemma BuildFacts(c: Cache, it: Ptr)
    requires Good(c) && it in c.m.linked && c.held[it] > 0
    ensures Ld(c.m.refcount, it) > 0
    ensures it in c.assoc.key && c.assoc.key[it] in c.assoc.index && c.assoc.index[c.assoc.key[it]] == it
  {
    hide QueueLinked, CountersOk, LiveOk, FitOk, TimesOk, CasOk, FlushOk, TablesOk, QueuesOk, SlabsOk, MemOk, ArenaOk;
    hide Configured, DataOk;
  }

  /** Writes the value of an item that is not linked */
  method Fill(c: Cache, it: Ptr, d: string)
    requires Good(c) && it !in c.m.linked
    modifies c`m
    ensures Good(c) && c.m == old(c.m).(data := old(c.m).data[it := d]) && All(c) == old(All(c))
    ensures SightOf(c) == old(SightOf(c))
  {
    hide Coherent, TablesOk, QueuesOk, SlabsOk, MemOk, ArenaOk, Configured, Bytes, Without, DataOk, Dict, EntryOf;
    ghost var m0 := c.m;
    c.Write(it, d);
    WriteFresh(m0, c.assoc.index, it, d, c.V(), c.useCas);
  }

  /** Filling in an item that is not linked changes no entry. */
  lemma WriteFresh(m: Items, index: map<Key, Ptr>, it: Ptr, d: string, v: Views, useCas: bool)
    requires Coherent(m.(data := m.data[it := d]), v, useCas, 0) && v.index == index && it !in m.linked
    requires DataOk(m.linked, m.shape, m.data)
    ensures var m' := m.(data := m.data[it := d]);
      DataOk(m'.linked, m'.shape, m'.data) && Dict(m', index) == Dict(m, index)
  {
    hide QueueLinked, CountersOk, LiveOk, RefsOk, FitOk, TimesOk, CasOk, FlushOk, DataOk;
    DataShrinks(m.linked, m.linked - {it}, m.shape, m.data);
    DataFilled(m.linked, m.shape, m.data, it, d);
    forall k | k in index ensures EntryOf(m.(data := m.data[it := d]), index[k]) == EntryOf(m, index[k]) {
      assert index[k] in m.linked;
    }
  }

  lemma BuiltIs(m0: Items, m1: Items, m2: Items, it: Ptr, made: Ptr, d: string, sh: Shape)
    requires NewItem(m0, m1, made, sh, Flags(m0.flags, it), Ld(m0.exptime, it)) && EndsLine(d)
    requires sh.nbytes == |d| && m2 == m1.(data := m1.data[made := d])
    ensures Line(made, m2.shape, m2.data) && Copied(EntryOf(m2, made), EntryOf(m0, it), d)
  {
  }

  /** memcpy */
  method Memcpy(buf: array<char>, off: nat, src: string)
    requires off + |src| <= buf.Length
    modifies buf
    ensures buf[..] == old(buf[..off]) + src + old(buf[off + |src|..])
  {
    for i := 0 to |src|
      invariant buf[..off] == old(buf[..off]) && buf[off..off + i] == src[..i]
      invariant buf[off + i..] == old(buf[off + i..])
    {
      buf[off + i] := src[i];
    }
  }

  /** do_store_item copies one value over the line end of another; both fit the new item exactly */
  method Join(first: string, second: string) returns (d: string)
    requires EndsLine(first) && EndsLine(second)
    ensures d == Glue(first, second) && EndsLine(d) && |d| == |first| + |second| - 2
  {
    var data := new char[|first| + |second| - 2](i => ' ');
    Memcpy(data, 0, first);
    assert data[..|first| - 2] == first[..|first| - 2];
    Memcpy(data, |first| - 2, second);
    d := data[..];
    assert d[|d| - |second|..] == second;
    assert d[|d| - 2..] == second[|second| - 2..];
  }

  /** The value append or prepend makes of an old and a new one. */
  function Joined(append: bool, prior: string, given: string): string
  {
    if append then Glue(prior, given) else Glue(given, prior)
  }

  /** What a storage command answers: `want` is the id the client gave, `have` that of the visible entry. */
  ghost function Reply(comm: Comm, visible: bool, want: nat, have: nat, oom: bool): Outcome
  {
    match comm
    case Set => Stored
    case Add => if visible then NotStored else Stored
    case Replace => if visible then Stored else NotStored
    case Cas => if !visible then NotFound else if want == have then Stored else Exists
    case _ =>
      if !visible then NotStored
      else if want != 0 && want != have then Exists
      else if oom then NotStored else Stored
  }

  /** The entry a storage command leaves. */
  ghost function Merged(comm: Comm, prior: Entry, given: Entry, id: nat): Entry
  {
    match comm
    case Append => prior.(data := Glue(prior.data, given.data), cas := id)
    case Prepend => prior.(data := Glue(given.data, prior.data), cas := id)
    case _ => given.(cas := id)
  }

  /** `k` now has the entry the command makes of what it had and what the client gave. */
  ghost predicate Updates(e: map<Key, Entry>, e': map<Key, Entry>, k: Key, comm: Comm, given: Entry, id: nat)
  {
    e' == e[k := Merged(comm, if k in e then e[k] else given, given, id)]
  }

  /** do_item_update */
  method Touch(c: Cache, it: Ptr)
    requires Good(c) && c.held[it] > 0
    modifies c`m, c`doomed, c.lru
    ensures Good(c) && Quiet(old(c.m), c.m) && c.m.linked == old(c.m).linked && All(c) == old(All(c))
    ensures c.m.time == if Stale(old(c.m), it) then old(c.m).time[it := c.m.now] else old(c.m).time
    ensures c.doomed == if Stale(old(c.m), it) then old(c.doomed) - {it} else old(c.doomed)
    ensures Moved(old(c.m), it, old(c.lru.q), c.lru.q)
  {
    hide Coherent, TablesOk, QueuesOk, SlabsOk, MemOk, ArenaOk, Configured, Bytes, Without, DataOk, Dict, EntryOf;
    hide ToHead;
    ghost var m0 := c.m;
    c.Update(it);
    QuietKeeps(m0, c.m, c.assoc.index);
  }

  /** do_item_update moves the item. */
  ghost predicate Stale(m: Items, it: Ptr)
  {
    it in m.linked && Ld(m.time, it) < Sub32(m.now, ITEM_UPDATE_INTERVAL)
  }

  /** do_item_update takes a stale item to the head of the queue of its class, and changes no queue otherwise. */
  ghost predicate Moved(m: Items, it: Ptr, q: seq<seq<Ptr>>, q': seq<seq<Ptr>>)
  {
    if Stale(m, it) then ToHead(q, q', Ld(m.clsid, it), it) else q' == q
  }

  /** What do_item_update does to times and queues. */
  ghost predicate Renewing(m: Items, it: Ptr, q: seq<seq<Ptr>>, m': Items, q': seq<seq<Ptr>>)
  {
    && m'.time == (if Stale(m, it) then m.time[it := m.now] else m.time)
    && Moved(m, it, q, q')
  }

  /** The difference of times is taken in unsigned 32 bits: while relative time is below 60 every update moves its item,
      later only that of an item last used more than 60 seconds ago. */
  lemma StaleIff(m: Items, it: Ptr)
    requires m.now < 0x1_0000_0000 && Ld(m.time, it) <= m.now
    ensures Stale(m, it) <==> it in m.linked && (m.now < 60 || m.now - Ld(m.time, it) > 60)
  {
  }

  /** The part of do_store_item that is only for append and prepend */
  method StoreJoined(c: Cache, prior: Ptr, it: Ptr, comm: Comm, sys: Sys)
    returns (res: Outcome, ghost lost: set<Key>, ghost id: nat)
    requires Good(c) && (comm.Append? || comm.Prepend?) && c.held[prior] > 0
    requires prior in c.m.linked && prior in c.assoc.key
    requires c.held[it] > 0 && it in c.assoc.key
    requires c.assoc.key[it] == c.assoc.key[prior] && Line(it, c.m.shape, c.m.data)
    requires c.assoc.key[it] in c.assoc.index && c.assoc.index[c.assoc.key[it]] == prior
    modifies c`m, c`held, c`doomed, c.assoc, c.lru, c.slabs
    ensures Good(c) && c.held == old(c.held) && old(c.assoc.key)[it] !in lost
    ensures CheaplyLost(old(c.m), old(c.assoc.index), lost)
    ensures JoinCosts(old(c.RoomLeft()), old(c.m), old(c.assoc.index), old(c.assoc.key)[it], it, prior, comm.Append?,
                      sys, lost)
    ensures old(NoSpace(c.RoomLeft(), c.m, c.assoc.key[it], it, prior, comm.Append?, sys)) ==> res == NotStored
    ensures !old(NoSpace(c.RoomLeft(), c.m, c.assoc.key[it], it, prior, comm.Append?, sys)) ==> res == Stored
    ensures res == NotStored ==> lost == {} && All(c) == old(All(c)) && SightOf(c) == old(SightOf(c))
    ensures res == Stored ==> Renewed(old(SightOf(c)), SightOf(c), old(c.assoc.key)[it], prior)
    ensures res == Stored && c.useCas ==> id == old(c.m).casId + 1
    ensures c.m.casId == if res == Stored && c.useCas then old(c.m).casId + 1 else old(c.m).casId
    ensures res == Stored ==> Updates(old(All(c)) - lost, All(c), old(c.assoc.key)[it], comm, EntryOf(old(c.m), it), id)
    ensures res == Stored ==> Shown(c, old(c.assoc.key)[it])
  {
    hide Coherent, TablesOk, QueuesOk, SlabsOk, MemOk, ArenaOk, Configured, Bytes, Without, DataOk, Dict, EntryOf;
    hide Shown, Line, Updates, Glue, EndsLine, Copied, Text, Starved, Renewed, CheaplyLost, Costs;
    ghost var m0, k, index0 := c.m, c.assoc.key[it], c.assoc.index;
    LinesEnd(m0, prior);
    LineEnds(m0, it);
    var given, have := Text(c.m.data, it), Text(c.m.data, prior);
    var d;
    if comm.Append? {
      d := Join(have, given);
    } else {
      d := Join(given, have);
    }
    var ok;
    ghost var x;
    ok, lost, x := Rewrite(c, prior, d, sys);
    id := x.cas;
    res := NotStored;
    if ok {
      DictAt(m0, index0, k);
      MergedIs(m0, comm, prior, it, x, d, old(All(c)) - lost, k);
      res := Stored;
    }
  }

  /** do_item_alloc fails for the item that append or prepend needs. */
  ghost predicate NoSpace(r: Room, m: Items, k: Key, it: Ptr, prior: Ptr, append: bool, sys: Sys)
  {
    Starved(r, m, k, Flags(m.flags, prior), |Joined(append, Text(m.data, prior), Text(m.data, it))|, sys)
  }

  /** What that costs. */
  ghost predicate JoinCosts(r: Room, m: Items, index: map<Key, Ptr>, k: Key, it: Ptr, prior: Ptr, append: bool,
                            sys: Sys, lost: set<Key>)
  {
    Costs(r, m, index, k, Flags(m.flags, prior), |Joined(append, Text(m.data, prior), Text(m.data, it))|, sys, lost)
  }

  /** `k` has another item than `prior`, and it is not hidden; all else is carried on. */
  ghost predicate Renewed(a: Sight, b: Sight, k: Key, prior: Ptr)
  {
    k in b.index && b.index[k] != prior && Follows(a, b, k, {b.index[k]})
  }

  lemma LinesEnd(m: Items, it: Ptr)
    requires DataOk(m.linked, m.shape, m.data) && it in m.linked
    ensures EndsLine(Text(m.data, it))
  {
    assert Line(it, m.shape, m.data);
  }

  lemma LineEnds(m: Items, it: Ptr)
    requires Line(it, m.shape, m.data)
    ensures EndsLine(Text(m.data, it))
  {
  }

  /** A new item with the value `d` takes the place of `it`; nobody keeps a reference to it */
  method Rewrite(c: Cache, it: Ptr, d: string, sys: Sys) returns (ok: bool, ghost lost: set<Key>, ghost x: Entry)
    requires Good(c) && c.held[it] > 0 && it in c.m.linked && it in c.assoc.key && EndsLine(d)
    modifies c`m, c`held, c`doomed, c.assoc, c.lru, c.slabs
    ensures Good(c) && c.held == old(c.held) && old(c.assoc.key)[it] !in lost
    ensures CheaplyLost(old(c.m), old(c.assoc.index), lost)
    ensures Costs(old(c.RoomLeft()), old(c.m), old(c.assoc.index), old(c.assoc.key)[it], Flags(old(c.m).flags, it), |d|,
                  sys, lost)
    ensures ok <==> !old(Starved(c.RoomLeft(), c.m, c.assoc.key[it], Flags(c.m.flags, it), |d|, sys))
    ensures !ok ==> SightOf(c) == old(SightOf(c))
    ensures ok ==> Renewed(old(SightOf(c)), SightOf(c), old(c.assoc.key)[it], it) && c.m.now == old(c.m).now
    ensures !ok ==> lost == {} && All(c) == old(All(c)) && c.m.casId == old(c.m).casId
    ensures ok ==> All(c) == (old(All(c)) - lost)[old(c.assoc.key)[it] := x] && Copied(x, EntryOf(old(c.m), it), d)
    ensures ok ==> c.m.casId == if c.useCas then old(c.m).casId + 1 else old(c.m).casId
    ensures ok && c.useCas ==> x.cas == old(c.m).casId + 1
    ensures ok ==> Shown(c, old(c.assoc.key)[it])
  {
    hide Coherent, TablesOk, QueuesOk, SlabsOk, MemOk, ArenaOk, Configured, Bytes, Without, DataOk, Dict, EntryOf;
    hide Shown, Line, Fits, Stamped, EndsLine, Copied, Starved, Follows, CheaplyLost, Costs;
    ghost var m0, k, sight := c.m, c.assoc.key[it], SightOf(c);
    var made;
    made, lost := Build(c, it, d, sys);
    ok, x := made != 0, EntryOf(m0, it);
    if !ok {
      AllSame(c.assoc.index, All(c));
      return;
    }
    x := Stamped(c.m, made, c.useCas);
    StampedIs(m0, c.m, it, made, c.useCas, d);
    ghost var sight1 := SightOf(c);
    Install(c, it, made, k, sys.callocOk);
    FollowsTrans(sight, sight1, SightOf(c), k, {made});
    FollowsNow(sight, SightOf(c), k, {made});
  }

  lemma FollowsNow(a: Sight, b: Sight, k: Key, born: set<Ptr>)
    requires Follows(a, b, k, born)
    ensures b.now == a.now
  {
  }

  lemma StampedIs(m0: Items, m1: Items, it: Ptr, made: Ptr, useCas: bool, d: string)
    requires Copied(EntryOf(m1, made), EntryOf(m0, it), d)
    ensures Copied(Stamped(m1, made, useCas), EntryOf(m0, it), d)
    ensures useCas ==> Stamped(m1, made, useCas).cas == m1.casId + 1
  {
  }

  /** A new item takes the place of `prior`, and the reference to it is given back */
  method Install(c: Cache, prior: Ptr, made: Ptr, ghost k: Key, callocOk: bool)
    requires Good(c) && c.held[made] > 0 && c.held[prior] > 0 && Fits(c.assoc.key, c.assoc.index, c.m, made, prior, k)
    modifies c`m, c`held, c`doomed, c.assoc, c.lru, c.slabs
    ensures Good(c) && c.held == old(c.held) - multiset{made} && Shown(c, k)
    ensures c.m.casId == if c.useCas then old(c.m).casId + 1 else old(c.m).casId
    ensures All(c) == old(All(c))[k := Stamped(old(c.m), made, c.useCas)]
    ensures k in c.assoc.index && c.assoc.index[k] == made && Follows(old(SightOf(c)), SightOf(c), k, {made})
  {
    hide Coherent, TablesOk, QueuesOk, SlabsOk, MemOk, ArenaOk, Configured, Bytes, Without, DataOk, Dict, EntryOf;
    hide Line, Fits, Stamped, Follows;
    FitsIs(c.assoc.key, c.assoc.index, c.m, made, prior, k);
    Swap(c, prior, made, callocOk);
    Release(c, made);
  }

  lemma DictAt(m: Items, index: map<Key, Ptr>, k: Key)
    ensures k in Dict(m, index) <==> k in index
    ensures k in index ==> Dict(m, index)[k] == EntryOf(m, index[k])
  {
  }

  lemma FitsIs(key: map<Ptr, Key>, index: map<Key, Ptr>, m: Items, it: Ptr, prior: Ptr, k: Key)
    requires Fits(key, index, m, it, prior, k)
    ensures it in key && key[it] == k && k in index && index[k] == prior && Line(it, m.shape, m.data) && it !in m.linked
  {
  }

  lemma MergedIs(m: Items, comm: Comm, prior: Ptr, it: Ptr, x: Entry, d: string, e: map<Key, Entry>, k: Key)
    requires (comm.Append? || comm.Prepend?) && k in e && e[k] == EntryOf(m, prior) && Copied(x, EntryOf(m, prior), d)
    requires d == Joined(comm.Append?, Text(m.data, prior), Text(m.data, it))
    ensures Updates(e, e[k := x], k, comm, EntryOf(m, it), x.cas)
  {
    hide Glue, Text, Flags;
  }

  /** do_store_item between looking up and letting go of the entry under the key */
  method StoreOver(c: Cache, prior: Ptr, it: Ptr, comm: Comm, sys: Sys)
    returns (res: Outcome, ghost lost: set<Key>, ghost id: nat)
    requires Good(c) && c.held[it] > 0 && it in c.assoc.key && it !in c.m.linked && Line(it, c.m.shape, c.m.data)
    requires prior == 0 ==> c.assoc.key[it] !in c.assoc.index
    requires prior != 0 ==>
      c.assoc.key[it] in c.assoc.index && c.assoc.index[c.assoc.key[it]] == prior && c.held[prior] > 0
    requires prior != 0 ==> prior in c.m.linked && prior in c.assoc.key && c.assoc.key[prior] == c.assoc.key[it]
    requires prior != 0 ==> prior !in c.doomed
    modifies c`m, c`held, c`doomed, c.assoc, c.lru, c.slabs
    ensures Good(c) && c.held == old(c.held) && old(c.assoc.key)[it] !in lost
    ensures CheaplyLost(old(c.m), old(c.assoc.index), lost)
    ensures if res == Stored && (comm.Append? || comm.Prepend?)
            then JoinCosts(old(c.RoomLeft()), old(c.m), old(c.assoc.index), old(c.assoc.key)[it], it, prior,
                           comm.Append?, sys, lost)
            else lost == {}
    ensures prior == 0 && (comm.Append? || comm.Prepend?) ==> res != Stored
    ensures res == Reply(comm, prior != 0, CasOf(old(c.m), it, c.useCas), CasOf(old(c.m), prior, c.useCas),
                         old(NoSpace(c.RoomLeft(), c.m, c.assoc.key[it], it, prior, comm.Append?, sys)))
    ensures res == Stored ==> Replaced(old(SightOf(c)), SightOf(c), old(c.assoc.key)[it], prior, it)
    ensures res != Stored ==> SightOf(c) == old(SightOf(c))
    ensures prior != 0 && comm.Add? ==> Renewing(old(c.m), prior, old(c.lru.q), c.m, c.lru.q)
    ensures res != Stored ==> All(c) == old(All(c)) && c.m.casId == old(c.m).casId
    ensures res == Stored ==> Updates(old(All(c)) - lost, All(c), old(c.assoc.key)[it], comm, EntryOf(old(c.m), it), id)
    ensures res == Stored ==> c.m.casId == (if c.useCas then old(c.m).casId + 1 else old(c.m).casId)
    ensures res == Stored && c.useCas ==> id == old(c.m).casId + 1
    ensures res == Stored ==> Shown(c, old(c.assoc.key)[it])
  {
    hide Coherent, TablesOk, QueuesOk, SlabsOk, MemOk, ArenaOk, Configured, Bytes, Without, DataOk, Dict, EntryOf;
    hide Shown, Line, Merged, Stamped, Swaps, Updates, NoSpace, Follows, CheaplyLost, JoinCosts, Stale, Moved;
    NothingLost(c.m, c.assoc.index);
    lost, id, res := {}, 0, NotStored;
    if prior != 0 && comm.Add? {
      Touch(c, prior);
    } else if prior == 0 && (comm.Replace? || comm.Append? || comm.Prepend?) {
    } else if comm.Cas? {
      if prior == 0 {
        res := NotFound;
      } else if CasOf(c.m, it, c.useCas) == CasOf(c.m, prior, c.useCas) {
        id := SwapIn(c, prior, it, comm, sys.callocOk);
        res := Stored;
      } else {
        res := Exists;
      }
    } else if comm.Append? || comm.Prepend? {
      if CasOf(c.m, it, c.useCas) != 0 && CasOf(c.m, it, c.useCas) != CasOf(c.m, prior, c.useCas) {
        res := Exists;
      } else {
        res, lost, id := StoreJoined(c, prior, it, comm, sys);
      }
    } else {
      id := SwapIn(c, prior, it, comm, sys.callocOk);
      res := Stored;
    }
  }

  /** `k` has the item `it`, or one made of it and `prior`. */
  ghost predicate Replaced(a: Sight, b: Sight, k: Key, prior: Ptr, it: Ptr)
  {
    k in b.index && (b.index[k] == it || (prior != 0 && b.index[k] != prior)) && Follows(a, b, k, {b.index[k]})
  }

  /** do_store_item against the meaning of the commands: which answer, and which map after it. Hidden and
      expired entries count as absent; an append or prepend may cost another, unreferenced entry. */
  method Store(c: Cache, it: Ptr, comm: Comm, sys: Sys)
    returns (res: Outcome, ghost lost: set<Key>, ghost id: nat)
    requires Good(c) && c.held[it] > 0 && it in c.assoc.key && it !in c.m.linked && Line(it, c.m.shape, c.m.data)
    modifies c`m, c`held, c`doomed, c.assoc, c.lru, c.slabs
    ensures Good(c) && c.held == old(c.held) && old(c.assoc.key)[it] !in lost
    ensures CheaplyLost(old(c.m), old(c.assoc.index), lost)
    ensures var seen := Seen(old(c.m), old(c.assoc.index), old(c.doomed), old(c.assoc.key)[it]);
      if res == Stored && (comm.Append? || comm.Prepend?)
      then JoinCosts(old(c.RoomLeft()), Raised(old(c.m), seen), old(c.assoc.index), old(c.assoc.key)[it], it, seen,
                     comm.Append?, sys, lost)
      else lost == {}
    ensures var seen := Seen(old(c.m), old(c.assoc.index), old(c.doomed), old(c.assoc.key)[it]);
      res == Reply(comm, seen != 0, CasOf(old(c.m), it, c.useCas), CasOf(old(c.m), seen, c.useCas),
                   old(NoSpace(c.RoomLeft(), Raised(c.m, seen), c.assoc.key[it], it, seen, comm.Append?, sys)))
    ensures var k := old(c.assoc.key)[it];
      var e := if Visible(old(c.m), old(c.assoc.index), old(c.doomed), k) then old(All(c)) else old(All(c)) - {k};
      if res == Stored then Updates(e - lost, All(c), k, comm, EntryOf(old(c.m), it), id) else All(c) == e
    ensures c.m.casId == (if res == Stored && c.useCas then old(c.m).casId + 1 else old(c.m).casId)
    ensures res == Stored && c.useCas ==> id == old(c.m).casId + 1
    ensures res == Stored ==> Shown(c, old(c.assoc.key)[it])
    ensures Settled(old(SightOf(c)), SightOf(c), old(c.assoc.key)[it], res == Stored)
    ensures var seen := Seen(old(c.m), old(c.assoc.index), old(c.doomed), old(c.assoc.key)[it]);
      seen != 0 && comm.Add? ==> Renewing(old(c.m), seen, old(c.lru.q), c.m, c.lru.q)
  {
    hide Coherent, TablesOk, QueuesOk, SlabsOk, MemOk, ArenaOk, Configured, Bytes, Without, DataOk, Dict, EntryOf;
    hide Good, Shown, Line, Visible, Updates, Expired, Reply, CasOf, Quiet, Raised, NoSpace, Follows, Settled, Replaced;
    hide CheaplyLost, JoinCosts, Renewing;
    ghost var m0, k, sight, key := c.m, c.assoc.key[it], SightOf(c), c.assoc.key;
    SightIsOk(c);
    var prior := Look(c, c.assoc.key[it]);
    QuietIs(m0, c.m, it, prior, c.useCas);
    ghost var sight1, m1 := SightOf(c), c.m;
    Absent(comm, CasOf(m0, it, c.useCas), CasOf(m0, prior, c.useCas));
    res, lost, id := StoreOver(c, prior, it, comm, sys);
    ghost var m2 := c.m;
    if prior != 0 {
      Release(c, prior);
    }
    assert c.held == old(c.held);
    RenewedSo(m0, prior, old(c.lru.q), m1, m2, c.m, c.lru.q);
    SightIsOk(c);
    Settles(sight, key, sight1, SightOf(c), c.assoc.key, k, prior, it, res == Stored);
    LostBefore(m0, m1, prior, sight.index, sight1.index, lost);
  }

  lemma RenewedSo(m0: Items, it: Ptr, q: seq<seq<Ptr>>, m1: Items, m2: Items, m3: Items, q': seq<seq<Ptr>>)
    requires m3.time == m2.time
    ensures m1 == Raised(m0, it) && Renewing(m1, it, q, m2, q') ==> Renewing(m0, it, q, m3, q')
  {
    hide ToHead;
  }

  lemma LostBefore(m: Items, m': Items, it: Ptr, index: map<Key, Ptr>, index': map<Key, Ptr>, lost: set<Key>)
    requires CheaplyLost(m', index', lost)
    requires lost != {} ==> m' == Raised(m, it) && index' == index
    ensures CheaplyLost(m, index, lost)
  {
    if lost != {} { LdUpdate(m.refcount, it, Ld(m.refcount, it) + 1); }
  }

  /** With nothing visible under the key neither its id nor memory matters. */
  lemma Absent(comm: Comm, want: nat, have: nat)
    ensures Reply(comm, false, want, have, true) == Reply(comm, false, want, have, false)
  {
  }

  /** The command linked an item under `k` exactly if it stored; all other entries are hidden if they were. */
  ghost predicate Settled(a: Sight, b: Sight, k: Key, stored: bool)
  {
    && (stored ==> k in b.index)
    && Newly(a.index, b.index) == (if stored then {b.index[k]} else {})
    && Follows(a, b, k, Newly(a.index, b.index)) && OthersAsBefore(a, b, k)
  }

  lemma Settles(a: Sight, key: map<Ptr, Key>, a1: Sight, b: Sight, key': map<Ptr, Key>, k: Key, prior: Ptr, it: Ptr,
                stored: bool)
    requires SightOk(a, key) && SightOk(b, key') && Follows(a, a1, k, {})
    requires a1.index == if prior != 0 then a.index else a.index - {k}
    requires prior != 0 ==> k in a.index && a.index[k] == prior
    requires if stored then Replaced(a1, b, k, prior, it) && it !in a.linked else b == a1
    ensures Settled(a, b, k, stored)
  {
    hide Follows, IndexLinked, OthersAsBefore;
    var born := if stored then {b.index[k]} else {};
    if stored { FollowsTrans(a, a1, b, k, born); }
    NewlyAt(a, b, k, born);
    Indexed(a, key, k);
    Undisturbed(a, key, b, key', k, born);
  }

  lemma Indexed(a: Sight, key: map<Ptr, Key>, k: Key)
    requires SightOk(a, key)
    ensures k in a.index ==> a.index[k] in a.linked
  {
  }

  /** The item do_item_get returns, or 0. */
  ghost function Seen(m: Items, index: map<Key, Ptr>, doomed: set<Ptr>, k: Key): Ptr
  {
    if k in index && Visible(m, index, doomed, k) then index[k] else 0
  }

  lemma QuietIs(m: Items, m': Items, it: Ptr, prior: Ptr, useCas: bool)
    requires Quiet(m, m')
    ensures EntryOf(m', it) == EntryOf(m, it) && m'.casId == m.casId && (it !in m.linked ==> it !in m'.linked)
    ensures Line(it, m'.shape, m'.data) == Line(it, m.shape, m.data)
    ensures CasOf(m', it, useCas) == CasOf(m, it, useCas) && CasOf(m', prior, useCas) == CasOf(m, prior, useCas)
  {
  }

  /** do_store_item links the item it was given */
  method SwapIn(c: Cache, prior: Ptr, it: Ptr, comm: Comm, callocOk: bool) returns (ghost id: nat)
    requires Good(c) && c.held[it] > 0 && it in c.assoc.key && Line(it, c.m.shape, c.m.data) && it !in c.m.linked
    requires c.assoc.key[it] in c.assoc.index ==> c.assoc.index[c.assoc.key[it]] == prior && c.held[prior] > 0
    requires c.assoc.key[it] !in c.assoc.index ==> prior == 0
    requires !comm.Append? && !comm.Prepend?
    modifies c`m, c`doomed, c.assoc, c.lru, c.slabs
    ensures Good(c) && Updates(old(All(c)) - {}, All(c), old(c.assoc.key)[it], comm, EntryOf(old(c.m), it), id)
    ensures c.m.casId == if c.useCas then old(c.m).casId + 1 else old(c.m).casId
    ensures (c.useCas ==> id == old(c.m).casId + 1) && Shown(c, old(c.assoc.key)[it])
    ensures c.assoc.index == old(c.assoc.index)[old(c.assoc.key)[it] := it]
    ensures Follows(old(SightOf(c)), SightOf(c), old(c.assoc.key)[it], {it})
  {
    hide Coherent, TablesOk, QueuesOk, SlabsOk, MemOk, ArenaOk, Configured, Bytes, Without, DataOk, Dict, EntryOf;
    hide Good, Shown, Line, Follows;
    ghost var m0, e := c.m, All(c);
    id := if c.useCas then m0.casId + 1 else Ld(m0.cas, it);
    AllSame(c.assoc.index, e);
    CasKept(m0, it, id);
    Swap(c, prior, it, callocOk);
  }

  lemma CasKept(m: Items, it: Ptr, id: nat)
    ensures EntryOf(m, it).(cas := id).cas == id && EntryOf(m, it).cas == Ld(m.cas, it)
  {
  }

  // ---------------------------------------------------------------- do_add_delta

  datatype DeltaResult = OK(value: nat) | NonNumeric | OutOfMemory

  /** do_add_delta, whose item is linked: the entry then reads as the new number, under a new id */
  method Delta(c: Cache, it: Ptr, incr: bool, delta: nat, sys: Sys) returns (res: DeltaResult, ghost lost: set<Key>)
    requires Good(c) && c.held[it] > 0 && it in c.m.linked && it in c.assoc.key && delta < TWO_64
    modifies c`m, c`held, c`doomed, c.assoc, c.lru, c.slabs
    ensures Good(c) && c.held == old(c.held) && old(c.assoc.key)[it] !in lost
    ensures CheaplyLost(old(c.m), old(c.assoc.index), lost)
    ensures if res.OK? && |Dec(res.value)| + 2 > |Text(old(c.m).data, it)|
            then RegrowCosts(old(c.RoomLeft()), old(c.m), old(c.assoc.index), old(c.assoc.key)[it], it, res.value, sys,
                             lost)
            else lost == {}
    ensures match Counted(Text(old(c.m).data, it), incr, delta)
      case None => res == NonNumeric
      case Some(n) =>
        if |Dec(n)| + 2 > |Text(old(c.m).data, it)| && old(Regrowless(c.RoomLeft(), c.m, c.assoc.key[it], it, n, sys))
        then res == OutOfMemory
        else res == OK(n)
    ensures res.OK? ==> Reckons(ParseU64(Text(old(c.m).data, it)), incr, delta, res.value)
    ensures !res.OK? ==> All(c) == old(All(c)) && c.m.casId == old(c.m).casId && lost == {}
    ensures c.m.now == old(c.m).now && (!res.OK? ==> SightOf(c) == old(SightOf(c)))
    ensures res.OK? ==> Counts(old(All(c)) - lost, All(c), old(c.assoc.key)[it], res.value, NextId(old(c.m), c.useCas))
    ensures res.OK? ==> c.m.casId == if c.useCas then old(c.m).casId + 1 else old(c.m).casId
    ensures res.OK? && it !in old(c.doomed) ==> Shown(c, old(c.assoc.key)[it])
    ensures var k := old(c.assoc.key)[it];
      Settled(old(SightOf(c)), SightOf(c), k, k in c.assoc.index && c.assoc.index[k] != it)
  {
    hide Coherent, TablesOk, QueuesOk, SlabsOk, MemOk, ArenaOk, Configured, Bytes, Without, DataOk, Dict, EntryOf;
    hide Line, ParseU64, AddDelta, Counts, CounterText, Dec, Copied, NextId, EndsLine, Starved, Follows, Settled;
    hide Reckons;
    hide CheaplyLost, Costs;
    lost := {};
    NothingLost(c.m, c.assoc.index);
    ghost var e, sight, key := All(c), SightOf(c), c.assoc.key;
    SightIsOk(c);
    Same(sight, sight, key[it]);
    AllSame(c.assoc.index, e);
    DeltaFacts(c.m, c.V(), c.useCas, it);
    var parsed := ParseU64(Text(c.m.data, it));
    if parsed.None? {
      res := NonNumeric;
    } else {
      var value := AddDelta(parsed.value, incr, delta);
      if |Dec(value)| + 2 > c.m.shape[it].nbytes {
        var ok;
        ghost var x;
        ghost var m0, k, index0 := c.m, c.assoc.key[it], c.assoc.index;
        CounterEnds(value);
        ok, lost, x := Rewrite(c, it, CounterText(value, 0), sys);
        res := if ok then OK(value) else OutOfMemory;
        if ok {
          DictAt(m0, index0, k);
          EntryIs(m0, it);
          RegrowCounts(e - lost, k, x, value, m0, c.useCas);
        }
      } else {
        InPlace(c, it, value);
        res := OK(value);
      }
    }
    SightIsOk(c);
    assert c.m.now == old(c.m).now;
    CountedReckons(Text(old(c.m).data, it), incr, delta);
    Settles(sight, key, sight, SightOf(c), c.assoc.key, key[it], it, 0,
            key[it] in c.assoc.index && c.assoc.index[key[it]] != it);
  }

  /** What incr and decr make of a number: the sum, less 2^64 if it does not fit 64 bits; the difference, or 0 if that
      is negative. */
  predicate Reckons(had: Option<nat>, incr: bool, delta: nat, n: nat)
  {
    && had.Some? && n < 0x1_0000_0000_0000_0000
    && (incr ==> n == had.value + delta || n + 0x1_0000_0000_0000_0000 == had.value + delta)
    && (!incr && delta <= had.value ==> n + delta == had.value)
    && (!incr && delta > had.value ==> n == 0)
  }

  lemma CountedReckons(text: string, incr: bool, delta: nat)
    requires delta < TWO_64
    ensures Counted(text, incr, delta).Some? <==> ParseU64(text).Some?
    ensures Counted(text, incr, delta).Some? ==> Reckons(ParseU64(text), incr, delta, Counted(text, incr, delta).value)
  {
    hide ParseU64;
  }

  /** The number do_add_delta writes, if the text is one. */
  function Counted(text: string, incr: bool, delta: nat): Option<nat>
    requires delta < TWO_64
  {
    var v := ParseU64(text);
    if v.None? then None else Some(AddDelta(v.value, incr, delta))
  }

  /** do_item_alloc fails for an item that holds just the number. */
  ghost predicate Regrowless(r: Room, m: Items, k: Key, it: Ptr, n: nat, sys: Sys)
  {
    Starved(r, m, k, Flags(m.flags, it), |Dec(n)| + 2, sys)
  }

  /** What that costs. */
  ghost predicate RegrowCosts(r: Room, m: Items, index: map<Key, Ptr>, k: Key, it: Ptr, n: nat, sys: Sys,
                              lost: set<Key>)
  {
    Costs(r, m, index, k, Flags(m.flags, it), |Dec(n)| + 2, sys, lost)
  }

  /** The blanks after a number that takes the place of a text of length `n`; none if it does not fit. */
  function Pad(value: nat, n: nat): nat { if |Dec(value)| + 2 <= n then n - |Dec(value)| - 2 else 0 }

  /** `k` has the same entry but for the number it shows, padded to the old length, and its id. */
  ghost predicate Counts(e: map<Key, Entry>, e': map<Key, Entry>, k: Key, value: nat, id: nat)
  {
    && k in e && k in e' && e' == e[k := e'[k]]
    && ParseU64(e'[k].data) == Some(value) && e'[k].flags == e[k].flags && e'[k].exptime == e[k].exptime
    && e'[k].data == CounterText(value, Pad(value, |e[k].data|))
    && (id != 0 ==> e'[k].cas == id)
  }

  /** The id of the next item stored; 0 stands for none. */
  function NextId(m: Items, useCas: bool): nat { if useCas then m.casId + 1 else 0 }

  lemma DeltaFacts(m: Items, v: Views, useCas: bool, it: Ptr)
    requires Coherent(m, v, useCas, 0) && DataOk(m.linked, m.shape, m.data)
    requires it in m.linked && it in v.key && v.held[it] > 0
    ensures Line(it, m.shape, m.data) && it in m.shape && it in m.data && |m.data[it]| == m.shape[it].nbytes >= 2
    ensures v.key[it] in v.index && v.index[v.key[it]] == it && Ld(m.refcount, it) > 0
  {
    hide QueueLinked, CountersOk, LiveOk, FitOk, TimesOk, CasOk, FlushOk;
  }

  /** The new text fits: a new id, then the digits, blanks up to the line end */
  method InPlace(c: Cache, it: Ptr, value: nat)
    requires Good(c) && c.held[it] > 0 && it in c.m.linked && it in c.assoc.key && value < TWO_64
    requires it in c.m.shape && |Dec(value)| + 2 <= c.m.shape[it].nbytes
    modifies c`m
    ensures Good(c) && Counts(old(All(c)), All(c), c.assoc.key[it], value, NextId(old(c.m), c.useCas))
    ensures SightOf(c) == old(SightOf(c))
    ensures c.m.casId == if c.useCas then old(c.m).casId + 1 else old(c.m).casId
  {
    hide Coherent, TablesOk, QueuesOk, SlabsOk, MemOk, ArenaOk, Configured, Bytes, Without, DataOk, Dict, EntryOf;
    hide Line, ParseU64, AddDelta, Counts, Dec;
    ghost var m0 := c.m;
    DeltaFacts(m0, c.V(), c.useCas, it);
    c.Stamp(it);
    var d, nbytes := Dec(value), c.m.shape[it].nbytes;
    var pad := nbytes - |d| - 2;
    c.Write(it, d + Spaces(pad) + c.m.data[it][nbytes - 2..]);
    InPlaceEffect(m0, c.m, c.V(), c.useCas, it, value, pad);
  }

  lemma InPlaceEffect(m: Items, m': Items, v: Views, useCas: bool, it: Ptr, value: nat, pad: nat)
    requires Coherent(m', v, useCas, 0) && DataOk(m.linked, m.shape, m.data)
    requires it in m.linked && Line(it, m.shape, m.data)
    requires value < TWO_64 && |Dec(value)| + pad + 2 == m.shape[it].nbytes
    requires m' == m.(casId := if useCas then m.casId + 1 else m.casId,
                      cas := if useCas then m.cas[it := m.casId + 1] else m.cas,
                      data := m.data[it := Dec(value) + Spaces(pad) + m.data[it][m.shape[it].nbytes - 2..]])
    requires it in v.key && v.key[it] in v.index && v.index[v.key[it]] == it
    ensures DataOk(m'.linked, m'.shape, m'.data)
    ensures Counts(Dict(m, v.index), Dict(m', v.index), v.key[it], value, NextId(m, useCas))
  {
    hide Coherent, DataOk, ParseU64, Dec, CounterText, EntryOf, Dict, Line;
    var k, d := v.key[it], m'.data[it];
    CounterLine(m, it, value, pad);
    CounterReadsBack(value, pad);
    DataShrinks(m.linked, m.linked - {it}, m.shape, m.data);
    DataFilled(m.linked, m.shape, m.data, it, d);
    RestSame(m, m', v, useCas, it);
    EntryIs(m', it);
    EntryIs(m, it);
    DictAt(m, v.index, k);
    DictAt(m', v.index, k);
  }

  lemma EntryIs(m: Items, it: Ptr)
    ensures var e := EntryOf(m, it);
      && e.data == Text(m.data, it) && e.flags == Flags(m.flags, it)
      && e.exptime == Ld(m.exptime, it) && e.cas == Ld(m.cas, it)
  {
  }

  lemma CounterLine(m: Items, it: Ptr, value: nat, pad: nat)
    requires Line(it, m.shape, m.data) && |Dec(value)| + pad + 2 == m.shape[it].nbytes
    ensures var d := Dec(value) + Spaces(pad) + m.data[it][m.shape[it].nbytes - 2..];
      d == CounterText(value, pad) && Line(it, m.shape, m.data[it := d]) && pad == Pad(value, |Text(m.data, it)|)
  {
    var d := CounterText(value, pad);
    assert d[|d| - 2..] == "\r\n";
  }

  /** Only the entry of `it` can have changed. */
  lemma RestSame(m: Items, m': Items, v: Views, useCas: bool, it: Ptr)
    requires Coherent(m', v, useCas, 0) && it in v.key && v.key[it] in v.index && v.index[v.key[it]] == it
    requires m'.flags == m.flags && m'.exptime == m.exptime
    requires forall x :: x != it ==> Text(m'.data, x) == Text(m.data, x) && Ld(m'.cas, x) == Ld(m.cas, x)
    ensures var k := v.key[it];
      k in Dict(m', v.index) && Dict(m', v.index) == Dict(m, v.index)[k := Dict(m', v.index)[k]]
  {
    hide QueueLinked, CountersOk, LiveOk, RefsOk, FitOk, TimesOk, CasOk, FlushOk;
    var k := v.key[it];
    forall x | x in v.index && x != k ensures EntryOf(m', v.index[x]) == EntryOf(m, v.index[x]) {
      assert v.index[x] in m'.linked && v.index[x] != it;
    }
    assert Dict(m', v.index) == Dict(m, v.index)[k := Dict(m', v.index)[k]];
  }

  lemma CounterEnds(value: nat)
    ensures EndsLine(CounterText(value, 0)) && |CounterText(value, 0)| == |Dec(value)| + 2
  {
  }

  lemma RegrowCounts(e: map<Key, Entry>, k: Key, x: Entry, value: nat, m: Items, useCas: bool)
    requires k in e && value < TWO_64 && Copied(x, e[k], CounterText(value, 0)) && (useCas ==> x.cas == m.casId + 1)
    requires |Dec(value)| + 2 > |e[k].data|
    ensures Counts(e, e[k := x], k, value, NextId(m, useCas))
  {
    hide ParseU64, CounterText;
    CounterReadsBack(value, 0);
  }

  // ---------------------------------------------------------------- delete, flush_all, new items

  /** item_unlink of an item the caller holds, linked or not */
  method Delete(c: Cache, it: Ptr)
    requires Good(c) && c.held[it] > 0 && it in c.assoc.key
    modifies c`m, c`doomed, c.assoc, c.lru, c.slabs
    ensures Good(c) && c.m.casId == old(c.m).casId && it !in c.m.linked && c.assoc.key == old(c.assoc.key)
    ensures All(c) == if it in old(c.m).linked then old(All(c)) - {c.assoc.key[it]} else old(All(c))
    ensures Follows(old(SightOf(c)), SightOf(c), c.assoc.key[it], {}) && Newly(old(c.assoc.index), c.assoc.index) == {}
  {
    hide Good, Follows, Dict;
    SightIsOk(c);
    Same(SightOf(c), SightOf(c), c.assoc.key[it]);
    if it in c.m.linked {
      Drop(c, it);
    }
  }

  /** flush_all without delay: no entry that was there is visible any more */
  method Flush(c: Cache)
    requires Good(c)
    modifies c`m, c`doomed, c.assoc, c.lru, c.slabs
    ensures Good(c) && c.m.casId == old(c.m).casId && c.assoc.key == old(c.assoc.key)
    ensures c.m.now == old(c.m).now && c.m.time == old(c.m).time && c.m.exptime == old(c.m).exptime
    ensures Part(c.assoc.index, old(c.assoc.index))
    ensures c.doomed == c.m.linked
    ensures forall x {:trigger x in c.m.linked} :: x in c.m.linked <==>
      x in old(c.m).linked && Ld(c.m.time, x) < c.m.now - 1
    ensures forall k {:trigger k in All(c)} :: k in All(c) ==>
      !Visible(c.m, c.assoc.index, c.doomed, k) && k in old(All(c)) && All(c)[k] == old(All(c))[k]
  {
    hide Coherent, TablesOk, QueuesOk, SlabsOk, MemOk, ArenaOk;
    hide Configured, Bytes, Without, DataOk, EntryOf, Part, Fades;
    ghost var m0, index0 := c.m, c.assoc.index;
    c.FlushAll();
    FlushEffect(m0, c.m, index0, c.V(), c.useCas);
  }

  lemma FlushEffect(m: Items, m': Items, index: map<Key, Ptr>, v': Views, useCas: bool)
    requires Coherent(m', v', useCas, 0) && DataOk(m.linked, m.shape, m.data) && v'.doomed == m'.linked && m'.now > 0
    requires Fades(m.(oldestLive := m'.now - 1), m') && Part(v'.index, index)
    ensures DataOk(m'.linked, m'.shape, m'.data) && m'.now == m.now && m'.casId == m.casId && m'.time == m.time
    ensures m'.exptime == m.exptime
    ensures forall k {:trigger k in v'.index} :: k in v'.index ==>
      v'.index[k] in v'.doomed && k in index && EntryOf(m', v'.index[k]) == EntryOf(m, index[k])
  {
    hide QueueLinked, CountersOk, LiveOk, RefsOk, FitOk, TimesOk, CasOk, FlushOk, DataOk;
    DataShrinks(m.linked, m'.linked, m.shape, m.data);
    forall k | k in v'.index ensures v'.index[k] in v'.doomed && k in index {
      assert v'.index[k] in m'.linked;
    }
  }

  /** process_update_command up to the value: an item that its connection will store */
  method Begin(c: Cache, k: Key, flags: int, exptime: nat, d: string, id: nat, sys: Sys)
    returns (it: Ptr, ghost lost: set<Key>)
    requires Good(c)
    modifies c`m, c`held, c`doomed, c.assoc, c.lru, c.slabs
    ensures Good(c) && All(c) == old(All(c)) - lost && c.m.casId == old(c.m).casId
    ensures CheaplyLost(old(c.m), old(c.assoc.index), lost)
    ensures Costs(old(c.RoomLeft()), old(c.m), old(c.assoc.index), k, flags, |d|, sys, lost)
    ensures c.held == if it == 0 then old(c.held) else old(c.held) + multiset{it}
    ensures it == 0 <==> old(Starved(c.RoomLeft(), c.m, k, flags, |d|, sys))
    ensures it == 0 ==> lost == {} && c.assoc.key == old(c.assoc.key)
    ensures it != 0 ==> it !in c.m.linked && c.assoc.key == old(c.assoc.key)[it := k]
    ensures it != 0 ==> EndsLine(d) ==> Line(it, c.m.shape, c.m.data)
    ensures it != 0 ==> EntryOf(c.m, it) == Entry(d, flags, exptime, if c.useCas then id else Ld(old(c.m).cas, it))
    ensures Follows(old(SightOf(c)), SightOf(c), k, {}) && c.assoc.index == old(c.assoc.index) - lost
  {
    hide Coherent, TablesOk, QueuesOk, SlabsOk, MemOk, ArenaOk, Configured, Bytes, Without, DataOk, Dict, EntryOf;
    hide Line, Starved, NewItem, EndsLine, Follows, CheaplyLost, Costs;
    ghost var m0 := c.m;
    it, lost := Alloc(c, k, flags, exptime, |d|, sys);
    if it == 0 { return; }
    ghost var m1, sh := c.m, Header(|k|, flags, |d|, c.useCas);
    NewIs(m0, m1, it, sh, flags, exptime);
    c.Request(it, id);
    ghost var m2 := c.m;
    RequestFresh(m1, m2, it, id, c.V(), c.useCas);
    Fill(c, it, d);
    BegunIs(m0, m1, m2, c.m, it, sh, flags, exptime, d, id, c.useCas);
  }

  lemma RequestFresh(m: Items, m': Items, it: Ptr, id: nat, v: Views, useCas: bool)
    requires Coherent(m', v, useCas, 0) && it !in m.linked && DataOk(m.linked, m.shape, m.data)
    requires m' == m.(cas := if useCas then m.cas[it := id] else m.cas)
    ensures DataOk(m'.linked, m'.shape, m'.data) && Dict(m', v.index) == Dict(m, v.index)
  {
    hide QueueLinked, CountersOk, LiveOk, RefsOk, FitOk, TimesOk, CasOk, FlushOk, DataOk;
    forall k | k in v.index ensures EntryOf(m', v.index[k]) == EntryOf(m, v.index[k]) {
      assert v.index[k] in m'.linked;
    }
  }

  lemma BegunIs(m0: Items, m1: Items, m2: Items, m3: Items, it: Ptr, sh: Shape, flags: int, exptime: nat, d: string,
                id: nat, useCas: bool)
    requires NewItem(m0, m1, it, sh, flags, exptime) && sh.nbytes == |d|
    requires m2 == m1.(cas := if useCas then m1.cas[it := id] else m1.cas) && m3 == m2.(data := m2.data[it := d])
    ensures EntryOf(m3, it) == Entry(d, flags, exptime, if useCas then id else Ld(m0.cas, it))
    ensures EndsLine(d) ==> Line(it, m3.shape, m3.data)
    ensures m3.casId == m0.casId && it !in m3.linked
  {
  }

  /** When item_alloc fails for a set, the old entry goes, lest it be taken for the new one */
  method Discard(c: Cache, k: Key)
    requires Good(c)
    modifies c`m, c`held, c`doomed, c.assoc, c.lru, c.slabs
    ensures Good(c) && c.held == old(c.held) && c.assoc.key == old(c.assoc.key) && c.m.casId == old(c.m).casId
    ensures All(c) == old(All(c)) - {k} && c.assoc.index == old(c.assoc.index) - {k}
    ensures Follows(old(SightOf(c)), SightOf(c), k, {})
  {
    hide Good, Follows, Dict, Visible, Raised, Expired;
    ghost var sight := SightOf(c);
    var it := Look(c, k);
    if it != 0 {
      Drop(c, it);
      Release(c, it);
      FollowsTrans(sight, sight, SightOf(c), k, {});
    }
  }

  /** The clock event. */
  method Advance(c: Cache, t: nat)
    requires Good(c) && c.m.now <= t < 0x1_0000_0000
    modifies c`m
    ensures Good(c) && c.m == old(c.m).(now := t) && All(c) == old(All(c))
  {
    hide Coherent, TablesOk, QueuesOk, SlabsOk, MemOk, ArenaOk, Configured, Bytes, Without, DataOk, EntryOf;
    EntriesSame(c.m, c.m.(now := t), c.assoc.index);
    c.Tick(t);
  }

  /** The maintenance thread moves buckets. */
  method Migrate(c: Cache, bulkMove: int)
    requires Good(c)
    modifies c.assoc
    ensures Good(c) && All(c) == old(All(c)) && c.assoc.index == old(c.assoc.index) && c.assoc.key == old(c.assoc.key)
    ensures c.assoc.Left() == LeftAfter(old(c.assoc.Left()), bulkMove)
  {
    hide Coherent, TablesOk, QueuesOk, SlabsOk, MemOk, ArenaOk, Configured, Bytes, Without, DataOk, EntryOf;
    c.MaintainIndex(bulkMove);
  }

  /** With ids in use, the entries have distinct ids that were handed out. */
  lemma GoodIds(c: Cache)
    requires Good(c) && c.useCas
    ensures IdsOk(All(c), c.m.casId)
  {
    hide QueueLinked, CountersOk, LiveOk, RefsOk, FitOk, TimesOk, FlushOk;
    hide TablesOk, QueuesOk, SlabsOk, MemOk, ArenaOk, Configured, Dict, IdsOk;
    IdsAre(c.m, c.V());
  }
}
