/** memcached-1.4.5: what holds over every run of the server: a stored cas means an untouched entry, and a flush
    hides what was linked before it until an update of a stale item brings it back. */
module Runs {
  import opened Assoc
  import opened Slabs
  import opened ItemState
  import opened Entries
  import opened Hiding
  import opened Cache
  import opened Numbers
  import opened Commands
  import opened Server

  // ---------------------------------------------------------------- ids

  ghost function EntriesOver(tr: seq<Snap>): seq<map<Key, Entry>>
  {
    seq(|tr|, i requires 0 <= i < |tr| => EntriesIn(tr[i]))
  }

  ghost function CountersOver(tr: seq<Snap>): seq<nat>
  {
    seq(|tr|, i requires 0 <= i < |tr| => tr[i].m.casId)
  }

  lemma StoreStep(e: map<Key, Entry>, e1: map<Key, Entry>, lost: set<Key>, e': map<Key, Entry>, k: Key, comm: Comm,
                  given: Entry, id: nat, n: nat, n': nat, res: Outcome)
    requires e1 == e || e1 == e - {k}
    requires if res == Stored then Updates(e1 - lost, e', k, comm, given, id) && n' == id == n + 1
             else e' == e1 && n' == n
    ensures CasStep(e, n, e', n')
  {
    LossStep(e, e1, n);
    if res == Stored {
      StampStep(e1, lost, e', k, n);
      CasStepTrans(e, n, e1, n, e', n');
    }
  }

  lemma CountsStep(e: map<Key, Entry>, lost: set<Key>, e': map<Key, Entry>, k: Key, value: nat, m: Items)
    requires Counts(e - lost, e', k, value, NextId(m, true))
    ensures CasStep(e, m.casId, e', m.casId + 1)
  {
    hide ParseU64;
    StampStep(e, lost, e', k, m.casId);
  }

  lemma DidStoreCas(a: Snap, out: Out, b: Snap, i: nat, comm: Comm, y: Sys)
    requires Storable(a, i) && DidStore(a, out, b, i, comm, y, true)
    ensures CasStep(EntriesIn(a), a.m.casId, EntriesIn(b), b.m.casId)
  {
    hide Dict, Settled, Updates, Merged, EntryOf, CheaplyLost, CasOf, Reply, Seen, CasStep, NoSpace;
    var k := a.key[a.pool[i]];
    var e := if SeenIn(a, k) != 0 then EntriesIn(a) else EntriesIn(a) - {k};
    StoreStep(EntriesIn(a), e, out.lost, EntriesIn(b), k, comm, EntryOf(a.m, a.pool[i]), out.id, a.m.casId, b.m.casId,
              out.res);
  }

  lemma DidDeltaCas(a: Snap, out: Out, b: Snap, i: nat, incr: bool, delta: nat, y: Sys)
    requires Countable(a, i, delta) && DidDelta(a, out, b, i, incr, delta, y, true)
    ensures CasStep(EntriesIn(a), a.m.casId, EntriesIn(b), b.m.casId)
  {
    hide Dict, Settled, Counts, CheaplyLost, Counted, CasStep, Regrowless;
    LossStep(EntriesIn(a), EntriesIn(a), a.m.casId);
    if out.sum.OK? {
      CountsStep(EntriesIn(a), out.lost, EntriesIn(b), a.key[a.pool[i]], out.sum.value, a.m);
    }
  }

  /** Every step leaves an entry alone, drops it or gives it a new id. */
  lemma DidCas(s: Step, y: Sys, a: Snap, out: Out, b: Snap)
    requires Did(s, y, a, out, b, true)
    ensures CasStep(EntriesIn(a), a.m.casId, EntriesIn(b), b.m.casId)
  {
    hide DidStore, DidDelta, Starved, Dict, CasStep, Follows, SightIn, SeenIn, EntryOf, CheaplyLost, Part;
    if s.Store? && Storable(a, s.i) {
      DidStoreCas(a, out, b, s.i, s.comm, y);
    } else if s.AddDelta? && Countable(a, s.i, s.delta) {
      DidDeltaCas(a, out, b, s.i, s.incr, s.delta, y);
    } else {
      assert s.Tick? ==> Dict(b.m, b.index) == Dict(a.m, a.index) by { TickEntries(a.m, b.m, a.index); }
      LossStep(EntriesIn(a), EntriesIn(b), a.m.casId);
    }
  }

  lemma TickEntries(m: Items, m': Items, index: map<Key, Ptr>)
    ensures m' == m || m' == m.(now := m'.now) ==> Dict(m', index) == Dict(m, index)
  {
  }

  lemma RanIsRun(script: seq<Step>, sys: seq<Sys>, tr: seq<Snap>, outs: seq<Out>)
    requires Ran(script, sys, tr, outs, true)
    ensures Run(EntriesOver(tr), CountersOver(tr))
  {
    hide Did, CasStep, IdsOk, Dict, SightOk;
    var es, ns := EntriesOver(tr), CountersOver(tr);
    forall i {:trigger es[i]} | 0 <= i < |es| ensures IdsOk(es[i], ns[i]) {
      assert SnapOk(tr[i], true);
    }
    forall i {:trigger es[i]} | 0 < i < |es| ensures CasStep(es[i - 1], ns[i - 1], es[i], ns[i]) {
      assert Did(script[i - 1], sys[i - 1], tr[i - 1], outs[i - 1], tr[i], true);
      DidCas(script[i - 1], sys[i - 1], tr[i - 1], outs[i - 1], tr[i]);
    }
  }

  /** Step `j` is a cas of `k` with the id `u`. */
  ghost predicate CasAt(script: seq<Step>, tr: seq<Snap>, j: nat, k: Key, u: nat)
    requires j < |script| < |tr|
  {
    && script[j].Store? && script[j].comm == Cas && Storable(tr[j], script[j].i)
    && tr[j].key[tr[j].pool[script[j].i]] == k && Ld(tr[j].m.cas, tr[j].pool[script[j].i]) == u
  }

  /** What a cas answers. */
  lemma CasAnswers(script: seq<Step>, sys: seq<Sys>, tr: seq<Snap>, outs: seq<Out>, j: nat, k: Key, u: nat)
    requires Ran(script, sys, tr, outs, true) && j < |script| && CasAt(script, tr, j, k, u)
    ensures outs[j].Answer?
    ensures outs[j].res == Stored <==> SeenIn(tr[j], k) != 0 && k in EntriesIn(tr[j]) && EntriesIn(tr[j])[k].cas == u
    ensures outs[j].res == NotFound <==> SeenIn(tr[j], k) == 0
    ensures outs[j].res == Stored || outs[j].res == NotFound || outs[j].res == Exists
    ensures outs[j].res == Stored ==> k in EntriesIn(tr[j + 1]) && EntriesIn(tr[j + 1])[k].cas == tr[j].m.casId + 1
  {
    hide SnapOk, Settled, CheaplyLost, Visible, NoSpace;
    assert Did(script[j], sys[j], tr[j], outs[j], tr[j + 1], true);
    assert SeenIn(tr[j], k) != 0 ==> k in tr[j].index && SeenIn(tr[j], k) == tr[j].index[k];
  }

  /** Step `j` is a storage command; `k` is its key, `given` what the client sent. */
  ghost predicate StoreAt(script: seq<Step>, tr: seq<Snap>, j: nat, k: Key, given: Entry)
    requires j < |script| < |tr|
  {
    && script[j].Store? && Storable(tr[j], script[j].i)
    && tr[j].key[tr[j].pool[script[j].i]] == k && EntryOf(tr[j].m, tr[j].pool[script[j].i]) == given
  }

  /** What set, add and replace answer, and the entry they and cas leave: that of the client, under a new id. */
  lemma SetAnswers(script: seq<Step>, sys: seq<Sys>, tr: seq<Snap>, outs: seq<Out>, useCas: bool, j: nat, k: Key,
                   given: Entry)
    requires Ran(script, sys, tr, outs, useCas) && j < |script| && StoreAt(script, tr, j, k, given)
    requires script[j].comm != Append && script[j].comm != Prepend
    ensures outs[j].Answer?
    ensures script[j].comm == Cas || outs[j].res == Stored || outs[j].res == NotStored
    ensures script[j].comm == Set ==> outs[j].res == Stored
    ensures script[j].comm == Add ==> (outs[j].res == Stored <==> SeenIn(tr[j], k) == 0)
    ensures script[j].comm == Replace ==> (outs[j].res == Stored <==> SeenIn(tr[j], k) != 0)
    ensures outs[j].res == Stored ==> k in EntriesIn(tr[j + 1])
    ensures outs[j].res == Stored ==> EntriesIn(tr[j + 1])[k].data == given.data
    ensures outs[j].res == Stored ==>
      EntriesIn(tr[j + 1])[k].flags == given.flags && EntriesIn(tr[j + 1])[k].exptime == given.exptime
    ensures outs[j].res == Stored && useCas ==> EntriesIn(tr[j + 1])[k].cas == tr[j].m.casId + 1
  {
    hide SnapOk, Settled, CheaplyLost, Visible, NoSpace, JoinCosts, Dict, EntryOf, CasOf, SeenIn;
    assert Did(script[j], sys[j], tr[j], outs[j], tr[j + 1], useCas);
  }

  /** What append and prepend answer, and the entry they leave: both values on one line, the older flags and expiry. */
  lemma AppendAnswers(script: seq<Step>, sys: seq<Sys>, tr: seq<Snap>, outs: seq<Out>, useCas: bool, j: nat, k: Key,
                      given: Entry)
    requires Ran(script, sys, tr, outs, useCas) && j < |script| && StoreAt(script, tr, j, k, given)
    requires script[j].comm == Append || script[j].comm == Prepend
    ensures outs[j].Answer?
    ensures SeenIn(tr[j], k) == 0 ==> outs[j].res == NotStored
    ensures SeenIn(tr[j], k) != 0 ==> k in EntriesIn(tr[j])
    ensures SeenIn(tr[j], k) != 0 ==>
      (outs[j].res == Exists <==> useCas && given.cas != 0 && given.cas != EntriesIn(tr[j])[k].cas)
    ensures SeenIn(tr[j], k) != 0 && outs[j].res != Exists ==>
      outs[j].res == if NoSpace(tr[j].room, Raised(tr[j].m, SeenIn(tr[j], k)), k, tr[j].pool[script[j].i],
                                SeenIn(tr[j], k), script[j].comm == Append, sys[j])
                     then NotStored else Stored
    ensures outs[j].res == Stored ==> SeenIn(tr[j], k) != 0 && k in EntriesIn(tr[j + 1])
    ensures outs[j].res == Stored ==>
      var had, has := EntriesIn(tr[j])[k], EntriesIn(tr[j + 1])[k];
      && has.flags == had.flags && has.exptime == had.exptime && (useCas ==> has.cas == tr[j].m.casId + 1)
      && |had.data| >= 2 && |given.data| >= 2
      && has.data == if script[j].comm == Append then had.data[..|had.data| - 2] + given.data
                     else given.data[..|given.data| - 2] + had.data
  {
    hide SnapOk, Settled, CheaplyLost, Visible, NoSpace, JoinCosts, Dict, EntryOf;
    assert Did(script[j], sys[j], tr[j], outs[j], tr[j + 1], useCas);
    var a, it := tr[j], tr[j].pool[script[j].i];
    DictAt(a.m, a.index, k);
    EntryIs(a.m, it);
    if SeenIn(a, k) != 0 {
      EntryIs(a.m, a.index[k]);
      LineOf(a, useCas, k);
    }
  }

  lemma LineOf(a: Snap, useCas: bool, k: Key)
    requires SnapOk(a, useCas) && k in a.index
    ensures |Text(a.m.data, a.index[k])| >= 2
  {
    hide IdsOk;
    assert a.index[k] in a.m.linked;
    assert Line(a.index[k], a.m.shape, a.m.data);
  }

  /** `k` has the same entry in the states from `i` to `j`. */
  ghost predicate Untouched(tr: seq<Snap>, i: nat, j: nat, k: Key)
    requires i <= j < |tr| && k in EntriesIn(tr[i])
  {
    forall l {:trigger tr[l]} :: i <= l <= j ==> k in EntriesIn(tr[l]) && EntriesIn(tr[l])[k] == EntriesIn(tr[i])[k]
  }

  /** A client that saw id `u` of `k` after `i` steps and finds `k` visible at step `j` has its cas stored if and only
      if `k` had the very same entry at every step from `i` to `j`. */
  lemma CasStoredIffUntouched(script: seq<Step>, sys: seq<Sys>, tr: seq<Snap>, outs: seq<Out>, i: nat, j: nat, k: Key,
                              u: nat)
    requires Ran(script, sys, tr, outs, true) && i <= j < |script| && CasAt(script, tr, j, k, u)
    requires k in EntriesIn(tr[i]) && EntriesIn(tr[i])[k].cas == u
    ensures outs[j].Answer?
    ensures outs[j].res == Stored <==> SeenIn(tr[j], k) != 0 && Untouched(tr, i, j, k)
  {
    hide Did, SnapOk, CasAt, Dict, Visible;
    CasAnswers(script, sys, tr, outs, j, k, u);
    RanIsRun(script, sys, tr, outs);
    var es, ns := EntriesOver(tr), CountersOver(tr);
    if outs[j].res == Stored {
      forall l {:trigger tr[l]} | i <= l <= j
        ensures k in EntriesIn(tr[l]) && EntriesIn(tr[l])[k] == EntriesIn(tr[i])[k]
      {
        SameIdMeansUntouched(es, ns, k, i, j, l);
        SameIdMeansUntouched(es, ns, k, i, j, i);
      }
    }
  }

  // ---------------------------------------------------------------- flush_all

  /** Item `x` is not linked anew by the steps from `i` to `j`. */
  ghost predicate NotRelinked(tr: seq<Snap>, i: nat, j: nat, x: Ptr)
    requires i <= j < |tr|
  {
    forall l {:trigger tr[l]} :: i <= l < j ==> x !in Newly(tr[l].index, tr[l + 1].index)
  }

  /** Some step from `i` to `j` is an update that moves `x`. */
  ghost predicate Resurfaced(script: seq<Step>, tr: seq<Snap>, i: nat, j: nat, x: Ptr)
    requires i <= j <= |script| < |tr|
  {
    exists u {:trigger script[u]} :: i <= u < j && Resurfaces(script[u], tr[u], x)
  }

  ghost predicate NoFlush(script: seq<Step>, i: nat, j: nat)
    requires i <= j <= |script|
  {
    forall l {:trigger script[l]} :: i <= l < j ==> !script[l].FlushAll?
  }

  lemma CarriesOn(a: Sight, b: Sight, born: set<Ptr>, x: Ptr)
    requires Carries(a, b, born) && x in b.linked && x !in born
    ensures x in a.linked && (x in b.doomed <==> x in a.doomed)
  {
  }

  /** A step other than a flush: an item that stays is hidden after it if and only if it was hidden before and the
      step does not move it. */
  lemma StepHides(s: Step, y: Sys, a: Snap, out: Out, b: Snap, useCas: bool, x: Ptr)
    requires Did(s, y, a, out, b, useCas) && a.doomed <= a.m.linked && !s.FlushAll?
    requires x in b.m.linked && x !in Newly(a.index, b.index)
    ensures x in a.m.linked && (x in b.doomed <==> x in a.doomed && !Resurfaces(s, a, x))
  {
    hide Starved, NoSpace, Regrowless, Reply, Updates, Counts, Counted;
    hide CheaplyLost, Dict, EntryOf, CasOf, SeenIn, Line, Newly, OthersAsBefore;
    if !s.Update? && b != a && !s.Tick? && !s.Release? {
      CarriesOn(SightIn(a), SightIn(b), if s.Store? || s.AddDelta? then Newly(a.index, b.index) else {}, x);
    }
  }

  /** After a flush at `f`, and until the next, an item linked before is hidden exactly as long as no update moves
      it. */
  lemma {:induction false} HiddenSinceFlush(script: seq<Step>, sys: seq<Sys>, tr: seq<Snap>, outs: seq<Out>,
                                            useCas: bool, f: nat, j: nat, x: Ptr)
    requires Ran(script, sys, tr, outs, useCas) && f < j <= |script| && script[f].FlushAll? && NoFlush(script, f + 1, j)
    requires NotRelinked(tr, f + 1, j, x) && x in tr[j].m.linked
    ensures x in tr[j].doomed <==> !Resurfaced(script, tr, f + 1, j, x)
    decreases j
  {
    hide Did, Newly, Resurfaces, Resurfaced, SnapOk;
    StepAt(script, sys, tr, outs, useCas, j - 1);
    ResurfacedGrows(script, tr, f + 1, j, x);
    if j == f + 1 {
      FlushHides(sys[f], tr[f], outs[f], tr[j], useCas);
    } else {
      assert !script[j - 1].FlushAll? && x !in Newly(tr[j - 1].index, tr[j].index);
      StepHides(script[j - 1], sys[j - 1], tr[j - 1], outs[j - 1], tr[j], useCas, x);
      HiddenSinceFlush(script, sys, tr, outs, useCas, f, j - 1, x);
    }
  }

  lemma StepAt(script: seq<Step>, sys: seq<Sys>, tr: seq<Snap>, outs: seq<Out>, useCas: bool, i: nat)
    requires Ran(script, sys, tr, outs, useCas) && i < |script|
    ensures Did(script[i], sys[i], tr[i], outs[i], tr[i + 1], useCas)
    ensures SnapOk(tr[i], useCas) && SnapOk(tr[i + 1], useCas)
    ensures tr[i].doomed <= tr[i].m.linked
  {
    hide Did, IdsOk;
    assert SnapOk(tr[i], useCas) && SnapOk(tr[i + 1], useCas);
  }

  lemma ResurfacedGrows(script: seq<Step>, tr: seq<Snap>, i: nat, j: nat, x: Ptr)
    requires i <= j <= |script| < |tr|
    ensures i == j ==> !Resurfaced(script, tr, i, j, x)
    ensures i < j ==> (Resurfaced(script, tr, i, j, x) <==>
      Resurfaced(script, tr, i, j - 1, x) || Resurfaces(script[j - 1], tr[j - 1], x))
  {
    hide Resurfaces;
  }

  lemma FlushHides(y: Sys, a: Snap, out: Out, b: Snap, useCas: bool)
    requires Did(FlushAll, y, a, out, b, useCas)
    ensures b.doomed == b.m.linked
  {
  }

  /** What item_get at step `j` returns. */
  lemma GetAnswers(script: seq<Step>, sys: seq<Sys>, tr: seq<Snap>, outs: seq<Out>, useCas: bool, j: nat)
    requires Ran(script, sys, tr, outs, useCas) && j < |script| && (script[j].Get? || script[j].Read?)
    ensures outs[j] == Item(SeenIn(tr[j], script[j].k), {})
    ensures outs[j].it != 0 ==> outs[j].it in tr[j].m.linked && outs[j].it !in tr[j].doomed
    ensures script[j].k in tr[j].index ==> tr[j].index[script[j].k] in tr[j].m.linked && tr[j].index[script[j].k] != 0
  {
    hide Follows, EntriesIn, Expired, IdsOk;
    assert Did(script[j], sys[j], tr[j], outs[j], tr[j + 1], useCas) && SnapOk(tr[j], useCas);
  }

  /** A lookup of an item linked before the last flush, and not expired, returns it if and only if some update since
      that flush moved it. */
  lemma ReturnedIffResurfaced(script: seq<Step>, sys: seq<Sys>, tr: seq<Snap>, outs: seq<Out>, useCas: bool, f: nat,
                              j: nat, x: Ptr)
    requires Ran(script, sys, tr, outs, useCas) && f < j < |script| && script[f].FlushAll? && NoFlush(script, f + 1, j)
    requires (script[j].Get? || script[j].Read?) && script[j].k in tr[j].index && tr[j].index[script[j].k] == x
    requires NotRelinked(tr, f + 1, j, x) && !Expired(tr[j].m, x)
    ensures outs[j].Item? && (outs[j].it == x <==> Resurfaced(script, tr, f + 1, j, x))
  {
    hide Ran, NoFlush, NotRelinked, Resurfaced, Expired;
    GetAnswers(script, sys, tr, outs, useCas, j);
    HiddenSinceFlush(script, sys, tr, outs, useCas, f, j, x);
  }

  /** Whatever flushes come later: an item linked before a flush is returned after it only if some update since that
      flush moved it. */
  lemma {:induction false} FlushedNeedsUpdate(script: seq<Step>, sys: seq<Sys>, tr: seq<Snap>, outs: seq<Out>,
                                              useCas: bool, f: nat, j: nat)
    requires Ran(script, sys, tr, outs, useCas) && f < j < |script| && script[f].FlushAll?
    requires (script[j].Get? || script[j].Read?) && outs[j].Item? && outs[j].it != 0
    requires NotRelinked(tr, f + 1, j, outs[j].it)
    ensures Resurfaced(script, tr, f + 1, j, outs[j].it)
    decreases j - f
  {
    hide Did, SnapOk, Resurfaces, Newly;
    var x := outs[j].it;
    if NoFlush(script, f + 1, j) {
      GetAnswers(script, sys, tr, outs, useCas, j);
      HiddenSinceFlush(script, sys, tr, outs, useCas, f, j, x);
    } else {
      var g :| f + 1 <= g < j && script[g].FlushAll?;
      FlushedNeedsUpdate(script, sys, tr, outs, useCas, g, j);
      var u :| g + 1 <= u < j && Resurfaces(script[u], tr[u], x);
    }
  }

  /** If lookup and update always come in one step, an item that a lookup returns was linked after every flush. */
  lemma ReadsRespectFlush(script: seq<Step>, sys: seq<Sys>, tr: seq<Snap>, outs: seq<Out>, useCas: bool, f: nat, j: nat)
    requires Ran(script, sys, tr, outs, useCas) && f < j < |script| && script[f].FlushAll?
    requires (script[j].Get? || script[j].Read?) && outs[j].Item? && outs[j].it != 0
    requires forall u {:trigger script[u]} :: f < u < j ==> !script[u].Update?
    ensures exists l {:trigger tr[l]} :: f < l < j && outs[j].it in Newly(tr[l].index, tr[l + 1].index)
  {
    hide Did, SnapOk, Newly;
    if NotRelinked(tr, f + 1, j, outs[j].it) {
      FlushedNeedsUpdate(script, sys, tr, outs, useCas, f, j);
    }
  }

  /** What was linked at step `l` is not hidden until the next flush. */
  lemma {:induction false} ShownSinceLinked(script: seq<Step>, sys: seq<Sys>, tr: seq<Snap>, outs: seq<Out>,
                                            useCas: bool, l: nat, j: nat, x: Ptr)
    requires Ran(script, sys, tr, outs, useCas) && l < j <= |script| && NoFlush(script, l, j)
    requires x in Newly(tr[l].index, tr[l + 1].index)
    ensures x !in tr[j].doomed
    decreases j
  {
    hide Newly, Resurfaces, Did;
    assert Did(script[j - 1], sys[j - 1], tr[j - 1], outs[j - 1], tr[j], useCas);
    assert SnapOk(tr[j - 1], useCas) && SnapOk(tr[j], useCas) && !script[j - 1].FlushAll?;
    if x in Newly(tr[j - 1].index, tr[j].index) {
      BornShown(script[j - 1], sys[j - 1], tr[j - 1], outs[j - 1], tr[j], useCas, x);
    } else {
      ShownSinceLinked(script, sys, tr, outs, useCas, l, j - 1, x);
      if x in tr[j].m.linked {
        StepHides(script[j - 1], sys[j - 1], tr[j - 1], outs[j - 1], tr[j], useCas, x);
      }
    }
  }

  lemma BornShown(s: Step, y: Sys, a: Snap, out: Out, b: Snap, useCas: bool, x: Ptr)
    requires Did(s, y, a, out, b, useCas) && !s.FlushAll? && x in Newly(a.index, b.index)
    ensures x !in b.doomed
  {
    hide Starved, NoSpace, Regrowless, Reply, Updates, Counts, Counted;
    hide CheaplyLost, Dict, EntryOf, CasOf, SeenIn, Line, OthersAsBefore;
  }

  // ---------------------------------------------------------------- a flushed item that comes back

  /** An item is stored and looked up; 98 seconds later a flush hides it, the connection that looked it up updates it,
      and another lookup follows. */
  function Comeback(): seq<Step>
  {
    [New("a", 0, 0, "1\r\n", 0, Set), Store(0, Set), Get("a"), Tick(100), FlushAll, Update(1), Get("a")]
  }

  /** A server just started, with chunks of 1024 bytes and no limit of memory. */
  ghost predicate Started(a: Snap)
  {
    && a.m.now == 2 && a.index == map[] && a.pool == [] && a.room.useCas && a.room.stock.largest == 1
    && a.room.stock.limit == 0 && a.room.stock.base == 0
    && |a.room.stock.sc| > 1 && a.room.stock.sc[1].size == 1024
  }

  /** A connection is about to store under "a". */
  ghost predicate AboutToStore(a: Snap)
  {
    && a.m.now == 2 && a.index == map[] && Storable(a, 0) && |a.pool| == 1 && a.key[a.pool[0]] == "a"
    && Ld(a.m.exptime, a.pool[0]) == 0
  }

  /** The entry of "a", which does not expire, is that of `y`. */
  ghost predicate Present(a: Snap, y: Ptr)
  {
    && "a" in a.index && a.index["a"] == y && y in a.m.linked && y != 0 && y in a.key && a.key[y] == "a"
    && Ld(a.m.exptime, y) == 0
  }

  /** Besides, it was last used at the start. */
  ghost predicate Lingers(a: Snap, y: Ptr)
  {
    Present(a, y) && Ld(a.m.time, y) <= 2
  }

  lemma RoomForOne(r: Room, m: Items, sys: Sys)
    requires r.stock.limit == 0 && r.stock.base == 0 && sys.mallocOk && r.stock.largest == 1 && r.useCas
    requires |r.stock.sc| > 1 && r.stock.sc[1].size == 1024
    ensures !Starved(r, m, "a", 0, 3, sys)
  {
    AmpleMemory(r, m, "a", 0, 3, sys);
    assert DecLen(0) == 1 && DecLen(1) == 1;
    assert NTotal(Header(1, 0, 3, true)) == 67;
  }

  lemma Begun(y: Sys, a: Snap, out: Out, b: Snap)
    requires Started(a) && y.mallocOk && Did(New("a", 0, 0, "1\r\n", 0, Set), y, a, out, b, true)
    ensures AboutToStore(b)
  {
    hide CheaplyLost, Line, Dict, Starved;
    RoomForOne(a.room, a.m, y);
    assert EndsLine("1\r\n");
  }

  lemma StoredFirst(y: Sys, a: Snap, out: Out, b: Snap)
    requires AboutToStore(a) && Did(Store(0, Set), y, a, out, b, true) && SnapOk(b, true)
    ensures "a" in b.index && Lingers(b, b.index["a"]) && b.index["a"] !in b.doomed && b.m.now == 2 && |b.pool| == 1
  {
    hide CheaplyLost, CasOf, OthersAsBefore, IdsOk, NoSpace;
    var x := b.index["a"];
    assert EntriesIn(b)["a"].exptime == 0;
    assert x in b.m.linked;
  }

  lemma LookedUp(y: Sys, a: Snap, out: Out, b: Snap, x: Ptr)
    requires Present(a, x) && x !in a.doomed && Did(Get("a"), y, a, out, b, true)
    ensures out == Item(x, {}) && Present(b, x) && b.m.time == a.m.time && b.m.now == a.m.now && b.pool == a.pool + [x]
  {
  }

  lemma Ticked(y: Sys, a: Snap, out: Out, b: Snap, x: Ptr)
    requires Lingers(a, x) && Did(Tick(100), y, a, out, b, true) && a.m.now == 2
    ensures Lingers(b, x) && b.m.now == 100 && b.pool == a.pool
  {
  }

  lemma FlushedThen(y: Sys, a: Snap, out: Out, b: Snap, x: Ptr)
    requires Lingers(a, x) && Did(FlushAll, y, a, out, b, true) && SnapOk(b, true) && a.m.now == 100
    ensures Lingers(b, x) && x in b.doomed && b.m.now == 100 && b.pool == a.pool
  {
    hide IdsOk;
    assert x in b.m.linked;
  }

  lemma UpdatedThen(y: Sys, a: Snap, out: Out, b: Snap, x: Ptr)
    requires Lingers(a, x) && Did(Update(1), y, a, out, b, true) && |a.pool| == 2 && a.pool[1] == x && a.m.now == 100
    ensures Present(b, x) && x !in b.doomed
  {
  }

  lemma RanShape(script: seq<Step>, sys: seq<Sys>, tr: seq<Snap>, outs: seq<Out>)
    requires Ran(script, sys, tr, outs, true)
    ensures |tr| == |script| + 1 && |outs| == |sys| == |script|
  {
  }

  /** The last lookup of the script returns an item that was linked before the flush and hidden by it. */
  ghost predicate ReturnsFlushed(tr: seq<Snap>, outs: seq<Out>)
  {
    && |tr| == 8 && |outs| == 7
    && outs[6].Item? && outs[6].it != 0 && outs[6].it in tr[4].m.linked && outs[6].it in tr[5].doomed
  }

  /** It does so in every run on a server just started on which the first malloc succeeds. */
  lemma ComesBack(sys: seq<Sys>, tr: seq<Snap>, outs: seq<Out>)
    requires Ran(Comeback(), sys, tr, outs, true) && Started(tr[0]) && sys[0].mallocOk
    ensures ReturnsFlushed(tr, outs)
  {
    hide Ran, Did, SnapOk, Started, AboutToStore;
    var script := Comeback();
    RanShape(script, sys, tr, outs);
    StepAt(script, sys, tr, outs, true, 0);
    Begun(sys[0], tr[0], outs[0], tr[1]);
    StepAt(script, sys, tr, outs, true, 1);
    StoredFirst(sys[1], tr[1], outs[1], tr[2]);
    var x := tr[2].index["a"];
    StepAt(script, sys, tr, outs, true, 2);
    LookedUp(sys[2], tr[2], outs[2], tr[3], x);
    StepAt(script, sys, tr, outs, true, 3);
    Ticked(sys[3], tr[3], outs[3], tr[4], x);
    StepAt(script, sys, tr, outs, true, 4);
    FlushedThen(sys[4], tr[4], outs[4], tr[5], x);
    StepAt(script, sys, tr, outs, true, 5);
    assert |tr[5].pool| == 2 && tr[5].pool[1] == x;
    UpdatedThen(sys[5], tr[5], outs[5], tr[6], x);
    StepAt(script, sys, tr, outs, true, 6);
    LookedUp(sys[6], tr[6], outs[6], tr[7], x);
  }

  /** There is such a run. */
  method FlushedItemReturns(hash: HashFn) returns (ghost sys: seq<Sys>, ghost tr: seq<Snap>, ghost outs: seq<Out>)
    ensures Ran(Comeback(), sys, tr, outs, true) && ReturnsFlushed(tr, outs)
  {
    hide Good, Did, SnapOk, Dict;
    var sizes := seq(POWER_LARGEST + 1, i => 1024);
    var perslab := seq(POWER_LARGEST + 1, i => 1024);
    var c := Boot(hash, 16, sizes, perslab, 1, 0, 0, true, true);
    var answers := seq(7, i => Sys(true, true, true));
    var pool;
    pool, tr, outs := Serve(c, Comeback(), [], answers);
    sys := answers;
    ComesBack(sys, tr, outs);
  }
}
