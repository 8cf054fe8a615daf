/** memcached-1.4.5: runs of the server. Every operation under cache_lock is one step; connections hold
    references between steps, so any interleaving of their commands is a sequence of these steps. */
module Server {
  import opened Assoc
  import opened Lru
  import opened Slabs
  import opened ItemState
  import opened Entries
  import opened Hiding
  import opened Cache
  import opened Numbers
  import opened Commands

  /** `i` selects one of the references that connections hold. Get and Update are item_get and item_update, Read is
      the two in one step. */
  datatype Step =
    | Get(k: Key)
    | Read(k: Key)
    | New(k: Key, flags: int, exptime: nat, data: string, cas: nat, comm: Comm)
    | Store(i: nat, comm: Comm)
    | AddDelta(i: nat, incr: bool, delta: nat)
    | Update(i: nat)
    | Unlink(i: nat)
    | Release(i: nat)
    | FlushAll
    | Tick(now: nat)
    | Migrate(bulkMove: int)

  /** What a step answers, and the entries it cost. */
  datatype Out =
    | Item(it: Ptr, lost: set<Key>)
    | Answer(res: Outcome, lost: set<Key>, id: nat)
    | Number(sum: DeltaResult, lost: set<Key>)
    | Nothing

  /** The server between two steps. `pool` is the references that connections hold. */
  datatype Snap = Snap(m: Items, index: map<Key, Ptr>, key: map<Ptr, Key>, doomed: set<Ptr>, room: Room, pool: seq<Ptr>)

  ghost function SnapOf(c: Cache, pool: seq<Ptr>): Snap
    reads c, c.assoc, c.lru, c.slabs
  {
    Snap(c.m, c.assoc.index, c.assoc.key, c.doomed, c.RoomLeft(), pool)
  }

  ghost function SightIn(a: Snap): Sight { Sight(a.index, a.m.linked, a.doomed, a.m.now) }

  ghost function EntriesIn(a: Snap): map<Key, Entry> { Dict(a.m, a.index) }

  /** The references held, besides the state of the cache. */
  ghost predicate Serving(c: Cache, pool: seq<Ptr>)
    reads c, c.assoc, c.lru, c.slabs
  {
    Good(c) && multiset(pool) == c.held
  }

  // ---------------------------------------------------------------- what each step means

  /** The item do_item_get returns, or 0. */
  ghost function SeenIn(a: Snap, k: Key): Ptr { Seen(a.m, a.index, a.doomed, k) }

  /** A reference to the visible entry, or the loss of one that is not. */
  ghost predicate DidGet(a: Snap, out: Out, b: Snap, k: Key)
  {
    var x := SeenIn(a, k);
    && out == Item(x, {}) && b.m.casId == a.m.casId && Follows(SightIn(a), SightIn(b), k, {})
    && b.pool == (if x != 0 then a.pool + [x] else a.pool)
    && b.index == (if x != 0 then a.index else a.index - {k})
    && EntriesIn(b) == (if x != 0 then EntriesIn(a) else EntriesIn(a) - {k})
    && (x != 0 ==> SightIn(b) == SightIn(a) && b.key == a.key)
  }

  /** item_update of `x`: a stale item gets the current time and goes to the head of its queue. */
  ghost predicate Renews(a: Snap, b: Snap, x: Ptr)
  {
    Renewing(a.m, x, a.room.q, b.m, b.room.q)
  }

  /** An item to be filled in, not linked yet. For want of memory a set loses the old entry. */
  ghost predicate DidNew(a: Snap, out: Out, b: Snap, s: Step, sys: Sys, useCas: bool)
    requires s.New?
  {
    && out.Item? && b.m.casId == a.m.casId && Follows(SightIn(a), SightIn(b), s.k, {})
    && (out.it == 0 <==> Starved(a.room, a.m, s.k, s.flags, |s.data|, sys))
    && b.index == a.index - out.lost && EntriesIn(b) == EntriesIn(a) - out.lost
    && b.pool == (if out.it != 0 then a.pool + [out.it] else a.pool)
    && (if out.it == 0 then out.lost == if s.comm.Set? then {s.k} else {}
        else
          && CheaplyLost(a.m, a.index, out.lost) && out.it !in b.m.linked && b.key == a.key[out.it := s.k]
          && Costs(a.room, a.m, a.index, s.k, s.flags, |s.data|, sys, out.lost)
          && (EndsLine(s.data) ==> Line(out.it, b.m.shape, b.m.data))
          && EntryOf(b.m, out.it) == Entry(s.data, s.flags, s.exptime, if useCas then s.cas else Ld(a.m.cas, out.it)))
  }

  /** A connection stores an item of its own that holds a whole line. */
  ghost predicate Storable(a: Snap, i: nat)
  {
    i < |a.pool| && a.pool[i] !in a.m.linked && a.pool[i] in a.key && Line(a.pool[i], a.m.shape, a.m.data)
  }

  /** do_store_item answers according to the visible entry, the ids and the room left. */
  ghost predicate DidStore(a: Snap, out: Out, b: Snap, i: nat, comm: Comm, sys: Sys, useCas: bool)
    requires Storable(a, i)
  {
    var it := a.pool[i];
    var k := a.key[it];
    var seen := SeenIn(a, k);
    var e := if seen != 0 then EntriesIn(a) else EntriesIn(a) - {k};
    && out.Answer? && b.pool == a.pool && CheaplyLost(a.m, a.index, out.lost) && k !in out.lost
    && out.res == Reply(comm, seen != 0, CasOf(a.m, it, useCas), CasOf(a.m, seen, useCas),
                        NoSpace(a.room, Raised(a.m, seen), k, it, seen, comm.Append?, sys))
    && (if out.res == Stored && (comm.Append? || comm.Prepend?)
        then JoinCosts(a.room, Raised(a.m, seen), a.index, k, it, seen, comm.Append?, sys, out.lost)
        else out.lost == {})
    && (if out.res == Stored then Updates(e - out.lost, EntriesIn(b), k, comm, EntryOf(a.m, it), out.id)
        else EntriesIn(b) == e)
    && b.m.casId == (if out.res == Stored && useCas then a.m.casId + 1 else a.m.casId)
    && (out.res == Stored && useCas ==> out.id == b.m.casId)
    && Settled(SightIn(a), SightIn(b), k, out.res == Stored) && (comm.Add? && seen != 0 ==> Renews(a, b, seen))
  }

  /** do_add_delta works on an item that is linked still. */
  ghost predicate Countable(a: Snap, i: nat, delta: nat)
  {
    i < |a.pool| && a.pool[i] in a.m.linked && a.pool[i] in a.key && delta < TWO_64
  }

  ghost predicate DidDelta(a: Snap, out: Out, b: Snap, i: nat, incr: bool, delta: nat, sys: Sys, useCas: bool)
    requires Countable(a, i, delta)
  {
    var it := a.pool[i];
    var k := a.key[it];
    var sum := Counted(Text(a.m.data, it), incr, delta);
    && out.Number? && b.pool == a.pool && CheaplyLost(a.m, a.index, out.lost) && k !in out.lost
    && (if sum.None? then out.sum == NonNumeric
        else if |Dec(sum.value)| + 2 > |Text(a.m.data, it)| && Regrowless(a.room, a.m, k, it, sum.value, sys)
        then out.sum == OutOfMemory
        else out.sum == OK(sum.value))
    && (if out.sum.OK? && |Dec(out.sum.value)| + 2 > |Text(a.m.data, it)|
        then RegrowCosts(a.room, a.m, a.index, k, it, out.sum.value, sys, out.lost)
        else out.lost == {})
    && (if out.sum.OK? then Counts(EntriesIn(a) - out.lost, EntriesIn(b), k, out.sum.value, NextId(a.m, useCas))
        else EntriesIn(b) == EntriesIn(a))
    && b.m.casId == (if out.sum.OK? && useCas then a.m.casId + 1 else a.m.casId)
    && Settled(SightIn(a), SightIn(b), k, k in b.index && b.index[k] != it)
  }

  /** The step is an update that moves `x`, and so sets its time. */
  ghost predicate Resurfaces(s: Step, a: Snap, x: Ptr)
  {
    s.Update? && s.i < |a.pool| && a.pool[s.i] == x && Stale(a.m, x)
  }

  ghost predicate DidUpdate(a: Snap, b: Snap, i: nat)
    requires i < |a.pool|
  {
    var x := a.pool[i];
    && b.m.casId == a.m.casId && b.m.now == a.m.now && b.m.linked == a.m.linked && EntriesIn(b) == EntriesIn(a)
    && b.index == a.index && b.key == a.key && b.pool == a.pool && b.m.exptime == a.m.exptime
    && b.doomed == (if Stale(a.m, x) then a.doomed - {x} else a.doomed) && Renews(a, b, x)
  }

  ghost predicate DidUnlink(a: Snap, b: Snap, i: nat)
    requires i < |a.pool|
  {
    var x := a.pool[i];
    && b.m.casId == a.m.casId && b.pool == a.pool && b.key == a.key
    && EntriesIn(b) == (if x in a.m.linked && x in a.key then EntriesIn(a) - {a.key[x]} else EntriesIn(a))
    && Newly(a.index, b.index) == {} && Carries(SightIn(a), SightIn(b), {})
  }

  ghost predicate DidRelease(a: Snap, b: Snap, i: nat)
    requires i < |a.pool|
  {
    b.pool == Without(a.pool, i) && b.m.casId == a.m.casId && EntriesIn(b) == EntriesIn(a) &&
    SightIn(b) == SightIn(a)
  }

  /** Items older than the flush are hidden, all others are unlinked. */
  ghost predicate DidFlush(a: Snap, b: Snap)
  {
    && b.m.casId == a.m.casId && b.pool == a.pool && b.key == a.key && b.m.now == a.m.now && b.m.time == a.m.time
    && b.m.exptime == a.m.exptime && Part(b.index, a.index) && b.doomed == b.m.linked
    && (forall x {:trigger x in b.m.linked} :: x in b.m.linked <==> x in a.m.linked && Ld(a.m.time, x) < a.m.now - 1)
    && forall k {:trigger k in EntriesIn(b)} :: k in EntriesIn(b) ==>
         k in EntriesIn(a) && EntriesIn(b)[k] == EntriesIn(a)[k]
  }

  ghost predicate DidTick(a: Snap, b: Snap, t: nat)
  {
    b == if a.m.now <= t < 0x1_0000_0000 then a.(m := a.m.(now := t)) else a
  }

  ghost predicate Did(s: Step, sys: Sys, a: Snap, out: Out, b: Snap, useCas: bool)
  {
    match s
    case Get(k) =>
      && DidGet(a, out, b, k) && b.m.time == a.m.time && b.m.exptime == a.m.exptime
      && (SeenIn(a, k) != 0 ==> b.room == a.room)
    case Read(k) => DidGet(a, out, b, k) && (SeenIn(a, k) != 0 ==> Renews(a, b, SeenIn(a, k)))
    case New(_, _, _, _, _, _) => DidNew(a, out, b, s, sys, useCas)
    case Store(i, comm) => if Storable(a, i) then DidStore(a, out, b, i, comm, sys, useCas) else b == a
    case AddDelta(i, incr, delta) =>
      if Countable(a, i, delta) then DidDelta(a, out, b, i, incr, delta, sys, useCas) else b == a
    case Update(i) => if i < |a.pool| then DidUpdate(a, b, i) else b == a
    case Unlink(i) => if i < |a.pool| then DidUnlink(a, b, i) else b == a
    case Release(i) => if i < |a.pool| then DidRelease(a, b, i) else b == a
    case FlushAll => DidFlush(a, b)
    case Tick(t) => DidTick(a, b, t)
    case Migrate(_) => b == a
  }

  /** What holds of every state between steps. */
  ghost predicate SnapOk(a: Snap, useCas: bool)
  {
    && SightOk(SightIn(a), a.key) && 2 <= a.m.now < 0x1_0000_0000 && (useCas ==> IdsOk(EntriesIn(a), a.m.casId))
    && DataOk(a.m.linked, a.m.shape, a.m.data)
    && forall x {:trigger x in a.m.linked} :: x in a.m.linked ==> Ld(a.m.time, x) <= a.m.now
  }

  /** `tr[i]` and `outs[i]` are the state before step `i` and its answer. */
  ghost predicate Ran(script: seq<Step>, sys: seq<Sys>, tr: seq<Snap>, outs: seq<Out>, useCas: bool)
  {
    && |tr| == |script| + 1 && |outs| == |sys| == |script|
    && (forall i {:trigger tr[i]} :: 0 <= i < |tr| ==> SnapOk(tr[i], useCas))
    && (forall i {:trigger script[i]} ::
          0 <= i < |script| ==> Did(script[i], sys[i], tr[i], outs[i], tr[i + 1], useCas))
  }

  // ---------------------------------------------------------------- the steps

  /** assoc_init, item_init and slabs_init; relative time starts at 2 (stats_init) */
  method Boot(hash: HashFn, hashpower: nat, sizes: seq<nat>, perslab: seq<nat>, powerLargest: nat,
              memLimit: nat, memBase: Ptr, useCas: bool, evictToFree: bool) returns (c: Cache)
    requires |sizes| == |perslab| == POWER_LARGEST + 1 && POWER_SMALLEST <= powerLargest < LARGEST_ID
    requires forall i :: POWER_SMALLEST <= i <= powerLargest ==> sizes[i] > 0 && perslab[i] > 0
    ensures Serving(c, []) && All(c) == map[] && c.assoc.index == map[] && fresh(c)
    ensures c.useCas == useCas && c.evictToFree == evictToFree && c.m.now == 2
    ensures fresh(c.assoc) && fresh(c.lru) && fresh(c.slabs)
    ensures c.slabs.memLimit == memLimit && c.slabs.memBase == memBase && c.slabs.powerLargest == powerLargest
    ensures |c.slabs.slabclass| == |sizes| && forall i :: 0 <= i < |sizes| ==> c.slabs.slabclass[i].size == sizes[i]
  {
    hide Coherent, TablesOk, QueuesOk, SlabsOk, MemOk, ArenaOk, Configured;
    var assoc := new Assoc(hash, hashpower);
    var lru := new Lru();
    var slabs := new Slabs(sizes, perslab, powerLargest, memLimit, memBase);
    c := new Cache(assoc, lru, slabs, useCas, evictToFree, 2);
  }

  lemma HeldIn(pool: seq<Ptr>, i: nat)
    requires i < |pool|
    ensures multiset(pool)[pool[i]] > 0
    ensures multiset(Without(pool, i)) == multiset(pool) - multiset{pool[i]}
  {
    assert pool == pool[..i] + [pool[i]] + pool[i + 1..];
  }

  /** item_get */
  method Lookup(c: Cache, pool: seq<Ptr>, k: Key, ghost sys: Sys) returns (it: Ptr, pool': seq<Ptr>)
    requires Serving(c, pool)
    modifies c`m, c`held, c`doomed, c.assoc, c.lru, c.slabs
    ensures Serving(c, pool') && Did(Get(k), sys, old(SnapOf(c, pool)), Item(it, {}), SnapOf(c, pool'), c.useCas)
    ensures it != 0 ==> c.held[it] > 0 && it !in c.doomed && c.m == Raised(old(c.m), it)
  {
    hide Good, Visible, Follows, Dict, Raised, Quiet, Expired;
    ghost var m0 := c.m;
    SeenIs(c, k);
    it := Look(c, k);
    pool' := if it != 0 then pool + [it] else pool;
    QuietIds(m0, c.m);
  }

  /** item_get and item_update in one step: what the lookup returns is not hidden, so the update changes only the time
      of a stale item and its place in the queue */
  method Visit(c: Cache, pool: seq<Ptr>, k: Key, ghost sys: Sys) returns (it: Ptr, pool': seq<Ptr>)
    requires Serving(c, pool)
    modifies c`m, c`held, c`doomed, c.assoc, c.lru, c.slabs
    ensures Serving(c, pool') && Did(Read(k), sys, old(SnapOf(c, pool)), Item(it, {}), SnapOf(c, pool'), c.useCas)
  {
    hide Good, Follows, Dict, Quiet, SeenIn, Stale, Moved, Raised;
    it, pool' := Lookup(c, pool, k, sys);
    if it != 0 {
      StaleRaised(old(c.m), it, old(c.lru.q));
      ghost var m1, sight1 := c.m, SightOf(c);
      Touch(c, it);
      QuietIds(m1, c.m);
      assert SightOf(c) == sight1;
    }
  }

  /** A reference more makes no difference to item_update. */
  lemma StaleRaised(m: Items, x: Ptr, q: seq<seq<Ptr>>)
    ensures Stale(Raised(m, x), x) == Stale(m, x) && Raised(m, x).time == m.time && Raised(m, x).now == m.now
    ensures forall q' {:trigger Moved(m, x, q, q')} {:trigger Moved(Raised(m, x), x, q, q')} ::
      Moved(Raised(m, x), x, q, q') == Moved(m, x, q, q')
  {
  }

  lemma QuietIds(m: Items, m': Items)
    requires Quiet(m, m')
    ensures m'.casId == m.casId && m'.exptime == m.exptime && m'.now == m.now
  {
  }

  lemma SeenIs(c: Cache, k: Key)
    requires Good(c)
    ensures var x := Seen(c.m, c.assoc.index, c.doomed, k);
      x != 0 <==> Visible(c.m, c.assoc.index, c.doomed, k)
  {
    hide Expired, Coherent, TablesOk, QueuesOk, SlabsOk, MemOk, ArenaOk, Configured;
    IndexedIsLinked(c.m, c.V(), c.useCas, k);
  }

  /** item_alloc for a storage command; when it fails for a set, the old entry goes */
  method Create(c: Cache, pool: seq<Ptr>, s: Step, sys: Sys) returns (pool': seq<Ptr>, ghost out: Out)
    requires Serving(c, pool) && s.New?
    modifies c`m, c`held, c`doomed, c.assoc, c.lru, c.slabs
    ensures Serving(c, pool') && Did(s, sys, old(SnapOf(c, pool)), out, SnapOf(c, pool'), c.useCas)
  {
    hide Good, Line, EndsLine, Follows, Dict, Starved, CheaplyLost, Costs;
    ghost var sight, lost := SightOf(c), {};
    var it;
    it, lost := Begin(c, s.k, s.flags, s.exptime, s.data, s.cas, sys);
    pool' := if it != 0 then pool + [it] else pool;
    out := Item(it, lost);
    if it == 0 && s.comm.Set? {
      ghost var sight1 := SightOf(c);
      AllSame(sight.index, All(c));
      Discard(c, s.k);
      out := Item(it, {s.k});
      FollowsTrans(sight, sight1, SightOf(c), s.k, {});
    }
  }

  /** do_store_item of a connection's own item */
  method Submit(c: Cache, pool: seq<Ptr>, i: nat, comm: Comm, sys: Sys) returns (ghost out: Out)
    requires Serving(c, pool) && i < |pool|
    modifies c`m, c`held, c`doomed, c.assoc, c.lru, c.slabs
    ensures Serving(c, pool) && Did(Store(i, comm), sys, old(SnapOf(c, pool)), out, SnapOf(c, pool), c.useCas)
  {
    hide Good, Line, EntryOf, Visible, CasOf, Updates, Settled, CheaplyLost, Dict, NoSpace, JoinCosts, Renewing;
    HeldIn(pool, i);
    var it := pool[i];
    if it in c.m.linked || it !in c.assoc.key || !Line(it, c.m.shape, c.m.data) {
      out := Nothing;
      return;
    }
    SeenIs(c, c.assoc.key[it]);
    var res;
    ghost var lost, id;
    res, lost, id := Commands.Store(c, it, comm, sys);
    out := Answer(res, lost, id);
  }

  /** do_add_delta of a linked item */
  method Count(c: Cache, pool: seq<Ptr>, i: nat, incr: bool, delta: nat, sys: Sys) returns (ghost out: Out)
    requires Serving(c, pool) && i < |pool|
    modifies c`m, c`held, c`doomed, c.assoc, c.lru, c.slabs
    ensures Serving(c, pool) && Did(AddDelta(i, incr, delta), sys, old(SnapOf(c, pool)), out, SnapOf(c, pool), c.useCas)
  {
    hide Good, ParseU64, Numbers.AddDelta, Dec, Text, Counts, Settled, CheaplyLost, Dict, Regrowless, Counted;
    hide RegrowCosts;
    HeldIn(pool, i);
    var it := pool[i];
    out := Nothing;
    if it in c.m.linked && it in c.assoc.key && delta < TWO_64 {
      ghost var lost;
      var res;
      res, lost := Delta(c, it, incr, delta, sys);
      out := Number(res, lost);
    }
  }

  /** item_update of an item a connection holds */
  method Bump(c: Cache, pool: seq<Ptr>, i: nat, ghost sys: Sys)
    requires Serving(c, pool) && i < |pool|
    modifies c`m, c`doomed, c.lru
    ensures Serving(c, pool) && Did(Update(i), sys, old(SnapOf(c, pool)), Nothing, SnapOf(c, pool), c.useCas)
  {
    hide Good, Dict, Stale, Moved;
    HeldIn(pool, i);
    Touch(c, pool[i]);
  }

  /** item_unlink of an item a connection holds */
  method Cut(c: Cache, pool: seq<Ptr>, i: nat, ghost sys: Sys)
    requires Serving(c, pool) && i < |pool|
    modifies c`m, c`doomed, c.assoc, c.lru, c.slabs
    ensures Serving(c, pool) && Did(Unlink(i), sys, old(SnapOf(c, pool)), Nothing, SnapOf(c, pool), c.useCas)
  {
    hide Good, Dict, Follows, Newly;
    HeldIn(pool, i);
    var it := pool[i];
    ghost var sight := SightOf(c);
    SightIsOk(c);
    if it in c.assoc.key {
      Delete(c, it);
      FollowsIs(sight, SightOf(c), c.assoc.key[it], {});
    } else {
      NoneNew(c.assoc.index);
    }
  }

  /** item_remove of an item a connection holds */
  method GiveBack(c: Cache, pool: seq<Ptr>, i: nat, ghost sys: Sys) returns (pool': seq<Ptr>)
    requires Serving(c, pool) && i < |pool|
    modifies c`m, c`held, c.slabs
    ensures Serving(c, pool') && Did(Release(i), sys, old(SnapOf(c, pool)), Nothing, SnapOf(c, pool'), c.useCas)
  {
    hide Good, Dict, Without;
    HeldIn(pool, i);
    Commands.Release(c, pool[i]);
    pool' := Without(pool, i);
  }

  lemma NoneNew(index: map<Key, Ptr>)
    ensures Newly(index, index) == {}
  {
  }

  lemma FollowsIs(a: Sight, b: Sight, k: Key, born: set<Ptr>)
    requires Follows(a, b, k, born)
    ensures Carries(a, b, born)
  {
  }

  /** Steps that no item takes part in */
  method Tend(c: Cache, pool: seq<Ptr>, s: Step, ghost sys: Sys)
    requires Serving(c, pool) && (s.FlushAll? || s.Tick? || s.Migrate?)
    modifies c`m, c`held, c`doomed, c.assoc, c.lru, c.slabs
    ensures Serving(c, pool) && Did(s, sys, old(SnapOf(c, pool)), Nothing, SnapOf(c, pool), c.useCas)
    ensures s.Migrate? ==> c.assoc.Left() == LeftAfter(old(c.assoc.Left()), s.bulkMove)
  {
    hide Good, Visible, Dict;
    match s {
      case FlushAll =>
        ghost var a := SnapOf(c, pool);
        Flush(c);
        ghost var b := SnapOf(c, pool);
        forall k {:trigger k in EntriesIn(b)} | k in EntriesIn(b)
          ensures k in EntriesIn(a) && EntriesIn(b)[k] == EntriesIn(a)[k]
        {
          assert k in All(c);
        }
        assert DidFlush(a, b);
      case Tick(t) =>
        if c.m.now <= t < 0x1_0000_0000 {
          Advance(c, t);
        }
      case Migrate(b) =>
        Commands.Migrate(c, b);
    }
  }

  /** One step of the server, whatever it is */
  method Serve1(c: Cache, pool: seq<Ptr>, s: Step, sys: Sys) returns (pool': seq<Ptr>, ghost out: Out)
    requires Serving(c, pool)
    modifies c`m, c`held, c`doomed, c.assoc, c.lru, c.slabs
    ensures Serving(c, pool') && Did(s, sys, old(SnapOf(c, pool)), out, SnapOf(c, pool'), c.useCas)
  {
    hide Good, DidGet, DidNew, DidStore, DidDelta, DidUpdate, DidUnlink, DidRelease, DidFlush;
    pool', out := pool, Nothing;
    var it;
    if s.Get? {
      it, pool' := Lookup(c, pool, s.k, sys);
      out := Item(it, {});
    } else if s.Read? {
      it, pool' := Visit(c, pool, s.k, sys);
      out := Item(it, {});
    } else if s.New? {
      pool', out := Create(c, pool, s, sys);
    } else if s.FlushAll? || s.Tick? || s.Migrate? {
      Tend(c, pool, s, sys);
    } else if s.i < |pool| {
      if s.Store? {
        out := Submit(c, pool, s.i, s.comm, sys);
      } else if s.AddDelta? {
        out := Count(c, pool, s.i, s.incr, s.delta, sys);
      } else {
        if s.Update? {
          Bump(c, pool, s.i, sys);
        } else if s.Unlink? {
          Cut(c, pool, s.i, sys);
        } else {
          pool' := GiveBack(c, pool, s.i, sys);
        }
      }
    }
  }

  lemma SnapIsOk(c: Cache, pool: seq<Ptr>)
    requires Serving(c, pool)
    ensures SnapOk(SnapOf(c, pool), c.useCas)
  {
    hide Coherent, TablesOk, QueuesOk, SlabsOk, MemOk, ArenaOk, Configured, DataOk, Dict, IdsOk;
    SightIsOk(c);
    if c.useCas { GoodIds(c); }
    TimesPast(c.m, c.V(), c.useCas);
  }

  lemma TimesPast(m: Items, v: Views, useCas: bool)
    requires Coherent(m, v, useCas, 0)
    ensures forall x {:trigger x in m.linked} :: x in m.linked ==> Ld(m.time, x) <= m.now
  {
    hide IndexLinked, QueueLinked, CountersOk, LiveOk, RefsOk, FitOk, CasOk, FlushOk;
  }

  /** Any sequence of steps keeps index, queues, flags, counters, references and chunks in agreement, and every
      step does what it should; `tr` and `outs` record the states and the answers */
  method Serve(c: Cache, script: seq<Step>, pool: seq<Ptr>, sys: seq<Sys>)
    returns (pool': seq<Ptr>, ghost tr: seq<Snap>, ghost outs: seq<Out>)
    requires Serving(c, pool) && |sys| == |script|
    modifies c`m, c`held, c`doomed, c.assoc, c.lru, c.slabs
    ensures Serving(c, pool') && Ran(script, sys, tr, outs, c.useCas)
    ensures tr[0] == old(SnapOf(c, pool)) && tr[|script|] == SnapOf(c, pool')
  {
    hide Good, Did, SnapOk;
    SnapIsOk(c, pool);
    pool', tr, outs := pool, [SnapOf(c, pool)], [];
    for i := 0 to |script|
      invariant Serving(c, pool') && Ran(script[..i], sys[..i], tr, outs, c.useCas)
      invariant tr[0] == old(SnapOf(c, pool)) && tr[i] == SnapOf(c, pool')
    {
      ghost var out;
      pool', out := Serve1(c, pool', script[i], sys[i]);
      SnapIsOk(c, pool');
      RanGrows(script[..i], sys[..i], tr, outs, c.useCas, script[i], sys[i], out, SnapOf(c, pool'));
      assert script[..i + 1] == script[..i] + [script[i]] && sys[..i + 1] == sys[..i] + [sys[i]];
      tr, outs := tr + [SnapOf(c, pool')], outs + [out];
    }
    assert script[..|script|] == script && sys[..|sys|] == sys;
  }

  lemma RanGrows(script: seq<Step>, sys: seq<Sys>, tr: seq<Snap>, outs: seq<Out>, useCas: bool,
                 s: Step, y: Sys, out: Out, b: Snap)
    requires Ran(script, sys, tr, outs, useCas) && Did(s, y, tr[|script|], out, b, useCas) && SnapOk(b, useCas)
    ensures Ran(script + [s], sys + [y], tr + [b], outs + [out], useCas)
  {
    hide Did, SnapOk;
    var script', sys', tr', outs' := script + [s], sys + [y], tr + [b], outs + [out];
    forall i {:trigger tr'[i]} | 0 <= i < |tr'| ensures SnapOk(tr'[i], useCas) {
      if i < |tr| { assert tr'[i] == tr[i]; }
    }
    forall i {:trigger script'[i]} | 0 <= i < |script'|
      ensures Did(script'[i], sys'[i], tr'[i], outs'[i], tr'[i + 1], useCas)
    {
      if i < |script| { assert script'[i] == script[i]; }
    }
  }
}
