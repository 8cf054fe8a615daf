/** memcached-1.4.5: which entries a run of the server can cost. do_item_alloc unlinks a live entry only when it
    must. */
module Losses {
  import opened Assoc
  import opened Slabs
  import opened ItemState
  import opened Entries
  import opened Hiding
  import opened Cache
  import opened Numbers
  import opened Commands
  import opened Server
  import opened Runs

  /** The step names `k`, or works on an item with this key. */
  ghost predicate About(s: Step, a: Snap, k: Key)
  {
    if s.Get? || s.Read? || s.New? then s.k == k
    else (s.Store? || s.AddDelta? || s.Unlink?) && s.i < |a.pool| && a.pool[s.i] in a.key && a.key[a.pool[s.i]] == k
  }

  /** Nobody holds the item `x`, and it is within reach of the tail of queue `id`. */
  ghost predicate Exposed(a: Snap, id: nat, x: Ptr)
  {
    id < |a.room.q| && Ld(a.m.refcount, x) == 0 && exists n :: InReach(a.room.q[id], n) && a.room.q[id][n] == x
  }

  /** `x` may go: it is exposed in a class that is used up, and eviction is allowed. */
  ghost predicate Evictable(a: Snap, y: Sys, x: Ptr)
  {
    a.room.evict && exists id :: Exposed(a, id, x) && Exhausted(a.room.stock, id, y.mallocOk)
  }

  ghost predicate Overdue(a: Snap, x: Ptr) { Ld(a.m.exptime, x) != 0 && Ld(a.m.exptime, x) < a.m.now }

  /** What Costs means for an entry lost; `m` has the references of `a.m`, or one more. */
  lemma CostsWhy(a: Snap, m: Items, k: Key, flags: int, nbytes: nat, y: Sys, lost: set<Key>, v: Key)
    requires Costs(a.room, m, a.index, k, flags, nbytes, y, lost) && v in lost
    requires m.exptime == a.m.exptime && m.now == a.m.now
    requires forall x {:trigger Ld(m.refcount, x)} :: Ld(m.refcount, x) == 0 ==> Ld(a.m.refcount, x) == 0
    ensures v in a.index && (Overdue(a, a.index[v]) || Evictable(a, y, a.index[v]))
  {
    hide Starved, FirstFit, NTotal, Header, Spared, Forced, Evictable, Exhausted, Overdue;
    var id :| CostsIn(a.room, m, a.index, id, y, lost);
    LostIsForced(a.room, m, a.index, id, y, lost, v);
    ForcedWhy(a, m, id, a.index[v], y);
  }

  lemma LostIsForced(r: Room, m: Items, index: map<Key, Ptr>, id: nat, y: Sys, lost: set<Key>, v: Key)
    requires CostsIn(r, m, index, id, y, lost) && v in lost
    ensures v in index && Forced(r, m, id, index[v], y)
  {
    hide Spared, Forced;
  }

  lemma ForcedWhy(a: Snap, m: Items, id: nat, x: Ptr, y: Sys)
    requires Forced(a.room, m, id, x, y)
    requires m.exptime == a.m.exptime && m.now == a.m.now && (Ld(m.refcount, x) == 0 ==> Ld(a.m.refcount, x) == 0)
    ensures Overdue(a, x) || Evictable(a, y, x)
  {
    hide Exhausted, NoneExpired;
    if !Overdue(a, x) {
      var n :| OldestAt(m, a.room.q, id, x, false, n);
      assert Exposed(a, id, x);
    }
  }

  lemma RaisedHolds(m: Items, x: Ptr)
    ensures Raised(m, x).exptime == m.exptime && Raised(m, x).now == m.now
    ensures forall y {:trigger Ld(Raised(m, x).refcount, y)} ::
      Ld(Raised(m, x).refcount, y) == 0 ==> Ld(m.refcount, y) == 0
  {
    LdUpdate(m.refcount, x, Ld(m.refcount, x) + 1);
  }

  /** `k` has kept its entry, or that has expired, or it went for want of memory. */
  ghost predicate KeptOrForced(a: Snap, y: Sys, b: Snap, k: Key)
    requires k in EntriesIn(a)
  {
    || (k in EntriesIn(b) && EntriesIn(b)[k] == EntriesIn(a)[k])
    || (k in a.index && (Overdue(a, a.index[k]) || Evictable(a, y, a.index[k])))
  }

  lemma NewForced(s: Step, y: Sys, a: Snap, out: Out, b: Snap, useCas: bool, k: Key)
    requires s.New? && DidNew(a, out, b, s, y, useCas) && s.k != k && k in EntriesIn(a)
    ensures KeptOrForced(a, y, b, k)
  {
    hide Starved, Costs, Dict, Follows, CheaplyLost, EndsLine, Line, EntryOf, Overdue, Evictable;
    if k in out.lost {
      CostsWhy(a, a.m, s.k, s.flags, |s.data|, y, out.lost, k);
    }
  }

  lemma StoreForced(i: nat, comm: Comm, y: Sys, a: Snap, out: Out, b: Snap, useCas: bool, k: Key)
    requires Storable(a, i) && DidStore(a, out, b, i, comm, y, useCas) && a.key[a.pool[i]] != k && k in EntriesIn(a)
    ensures KeptOrForced(a, y, b, k)
  {
    hide Starved, Costs, Dict, Follows, CheaplyLost, Line, EntryOf, Overdue, Evictable, Raised, Reply, CasOf, NoSpace;
    hide Settled, Merged, Joined, SeenIn, Text, Flags;
    var it := a.pool[i];
    var seen := SeenIn(a, a.key[it]);
    if k in out.lost {
      var m := Raised(a.m, seen);
      RaisedHolds(a.m, seen);
      CostsWhy(a, m, a.key[it], Flags(m.flags, seen), |Joined(comm.Append?, Text(m.data, seen), Text(m.data, it))|, y,
               out.lost, k);
    }
  }

  lemma DeltaForced(i: nat, incr: bool, delta: nat, y: Sys, a: Snap, out: Out, b: Snap, useCas: bool, k: Key)
    requires Countable(a, i, delta) && DidDelta(a, out, b, i, incr, delta, y, useCas)
    requires a.key[a.pool[i]] != k && k in EntriesIn(a)
    ensures KeptOrForced(a, y, b, k)
  {
    hide Starved, Costs, Dict, Follows, CheaplyLost, EntryOf, Overdue, Evictable, Regrowless, Counted, Settled;
    hide ParseU64, Dec, Text, Flags;
    var it := a.pool[i];
    if k in out.lost {
      CostsWhy(a, a.m, a.key[it], Flags(a.m.flags, it), |Dec(out.sum.value)| + 2, y, out.lost, k);
    }
  }

  /** A step about another key, other than a flush, changes or drops an entry only if the entry has expired, or if its
      class is used up. */
  lemma LostOnlyWhenUsedUp(s: Step, y: Sys, a: Snap, out: Out, b: Snap, useCas: bool, k: Key)
    requires Did(s, y, a, out, b, useCas) && !s.FlushAll? && !About(s, a, k) && k in EntriesIn(a)
    ensures KeptOrForced(a, y, b, k)
  {
    hide DidNew, DidStore, DidDelta, Dict, Follows, SeenIn, Renews, Newly, Carries, Overdue, Evictable;
    if s.New? {
      NewForced(s, y, a, out, b, useCas, k);
    } else if s.Store? && Storable(a, s.i) {
      StoreForced(s.i, s.comm, y, a, out, b, useCas, k);
    } else if s.AddDelta? && Countable(a, s.i, s.delta) {
      DeltaForced(s.i, s.incr, s.delta, y, a, out, b, useCas, k);
    } else {
      assert s.Tick? ==> Dict(b.m, b.index) == Dict(a.m, a.index) by { TickEntries(a.m, b.m, a.index); }
    }
  }

  lemma NowGrows(s: Step, y: Sys, a: Snap, out: Out, b: Snap, useCas: bool)
    requires Did(s, y, a, out, b, useCas)
    ensures a.m.now <= b.m.now
  {
    hide Starved, Costs, Dict, CheaplyLost, EntryOf, Regrowless, Counted, ParseU64, Dec, Text, Line, Reply, CasOf;
    hide NoSpace, JoinCosts, RegrowCosts, Updates, Counts, Newly, OthersAsBefore, SeenIn, Renews, Part;
  }

  /** From state `i` to `j` no step flushes or is about `k`, and whenever the item of `k` is exposed its class has
      room. */
  ghost predicate LeftAlone(script: seq<Step>, sys: seq<Sys>, tr: seq<Snap>, i: nat, j: nat, k: Key)
    requires i <= j <= |script| == |sys| < |tr|
  {
    forall l {:trigger script[l]} :: i <= l < j ==> Harmless(script[l], sys[l], tr[l], k)
  }

  ghost predicate Harmless(s: Step, y: Sys, a: Snap, k: Key)
  {
    !s.FlushAll? && !About(s, a, k) && (k in a.index ==> !Evictable(a, y, a.index[k]))
  }

  lemma LeftAloneBefore(script: seq<Step>, sys: seq<Sys>, tr: seq<Snap>, i: nat, j: nat, k: Key)
    requires i < j <= |script| == |sys| < |tr| && LeftAlone(script, sys, tr, i, j, k)
    ensures LeftAlone(script, sys, tr, i, j - 1, k) && Harmless(script[j - 1], sys[j - 1], tr[j - 1], k)
  {
    hide Harmless;
  }

  /** An entry that no step is about, and that no class used up endangers, stays as it is until it expires. */
  lemma {:induction false} LiveEntryStays(script: seq<Step>, sys: seq<Sys>, tr: seq<Snap>, outs: seq<Out>, useCas: bool,
                                          i: nat, j: nat, k: Key)
    requires Ran(script, sys, tr, outs, useCas) && i <= j <= |script| && LeftAlone(script, sys, tr, i, j, k)
    requires k in EntriesIn(tr[i])
    requires EntriesIn(tr[i])[k].exptime == 0 || EntriesIn(tr[i])[k].exptime >= tr[j].m.now
    ensures k in EntriesIn(tr[j]) && EntriesIn(tr[j])[k] == EntriesIn(tr[i])[k]
    decreases j
  {
    hide Did, SnapOk, About, Evictable;
    if i < j {
      assert Did(script[j - 1], sys[j - 1], tr[j - 1], outs[j - 1], tr[j], useCas);
      NowGrows(script[j - 1], sys[j - 1], tr[j - 1], outs[j - 1], tr[j], useCas);
      LeftAloneBefore(script, sys, tr, i, j, k);
      LiveEntryStays(script, sys, tr, outs, useCas, i, j - 1, k);
      LostOnlyWhenUsedUp(script[j - 1], sys[j - 1], tr[j - 1], outs[j - 1], tr[j], useCas, k);
    }
  }

  /** A step about another key, other than a flush, gives `k` no other item. */
  lemma SameItem(s: Step, y: Sys, a: Snap, out: Out, b: Snap, useCas: bool, k: Key)
    requires Did(s, y, a, out, b, useCas) && !s.FlushAll? && !About(s, a, k) && k in b.index
    ensures k in a.index && b.index[k] == a.index[k]
  {
    hide Starved, Costs, Dict, CheaplyLost, EntryOf, Regrowless, Counted, ParseU64, Dec, Text, Line, Reply, CasOf;
    hide NoSpace, JoinCosts, RegrowCosts, Updates, Counts, OthersAsBefore, SeenIn, Renews, Carries;
    if s.Unlink? && s.i < |a.pool| { NotNew(a.index, b.index, k); }
  }

  lemma NotNew(index: map<Key, Ptr>, index': map<Key, Ptr>, k: Key)
    requires Newly(index, index') == {} && k in index'
    ensures k in index && index'[k] == index[k]
  {
    assert index'[k] !in Newly(index, index');
  }

  lemma {:induction false} SameItemOver(script: seq<Step>, sys: seq<Sys>, tr: seq<Snap>, outs: seq<Out>, useCas: bool,
                                        i: nat, j: nat, k: Key)
    requires Ran(script, sys, tr, outs, useCas) && i <= j <= |script| && LeftAlone(script, sys, tr, i, j, k)
    requires k in tr[j].index
    ensures k in tr[i].index && tr[j].index[k] == tr[i].index[k]
    decreases j
  {
    hide Did, SnapOk, About, Evictable;
    if i < j {
      assert Did(script[j - 1], sys[j - 1], tr[j - 1], outs[j - 1], tr[j], useCas);
      LeftAloneBefore(script, sys, tr, i, j, k);
      SameItem(script[j - 1], sys[j - 1], tr[j - 1], outs[j - 1], tr[j], useCas, k);
      SameItemOver(script, sys, tr, outs, useCas, i, j - 1, k);
    }
  }

  /** Step `i` stores under `k`, and nothing endangers the entry before step `j`. */
  ghost predicate StoredAt(script: seq<Step>, sys: seq<Sys>, tr: seq<Snap>, outs: seq<Out>, i: nat, j: nat, k: Key)
    requires i < j <= |script| == |sys| == |outs| < |tr|
  {
    && script[i].Store? && Storable(tr[i], script[i].i) && tr[i].key[tr[i].pool[script[i].i]] == k
    && outs[i].Answer? && outs[i].res == Stored && LeftAlone(script, sys, tr, i + 1, j, k)
  }

  lemma StoredIs(s: Step, y: Sys, a: Snap, out: Out, b: Snap, useCas: bool, k: Key)
    requires Did(s, y, a, out, b, useCas) && s.Store? && Storable(a, s.i) && a.key[a.pool[s.i]] == k
    requires out.Answer? && out.res == Stored
    ensures k in b.index && b.index[k] in Newly(a.index, b.index) && k in EntriesIn(b)
  {
    hide Dict, CheaplyLost, EntryOf, Line, Reply, CasOf, NoSpace, JoinCosts, OthersAsBefore, SeenIn, Follows, Newly;
    hide Merged;
  }

  /** What is stored is read back: a lookup later, by any connection, returns the entry that the storage command left,
      unless it has expired, a step was about its key, a flush came in between, or its class was used up. */
  lemma StoredIsReadBack(script: seq<Step>, sys: seq<Sys>, tr: seq<Snap>, outs: seq<Out>, useCas: bool, i: nat, j: nat,
                         k: Key)
    requires Ran(script, sys, tr, outs, useCas) && i < j < |script| && StoredAt(script, sys, tr, outs, i, j, k)
    requires (script[j].Get? || script[j].Read?) && script[j].k == k
    ensures k in EntriesIn(tr[i + 1])
    ensures var e := EntriesIn(tr[i + 1])[k];
      e.exptime == 0 || e.exptime > tr[j].m.now ==>
        outs[j].Item? && outs[j].it != 0 && EntryOf(tr[j].m, outs[j].it) == e
  {
    hide Did, SnapOk, About, Evictable, EntryOf, Newly;
    StepAt(script, sys, tr, outs, useCas, i);
    StoredIs(script[i], sys[i], tr[i], outs[i], tr[i + 1], useCas, k);
    var e := EntriesIn(tr[i + 1])[k];
    if e.exptime == 0 || e.exptime > tr[j].m.now {
      LiveEntryStays(script, sys, tr, outs, useCas, i + 1, j, k);
      SameItemOver(script, sys, tr, outs, useCas, i + 1, j, k);
      ShownSinceLinked(script, sys, tr, outs, useCas, i, j, tr[j].index[k]);
      GetAnswers(script, sys, tr, outs, useCas, j);
      EntryIs(tr[j].m, tr[j].index[k]);
    }
  }
}
