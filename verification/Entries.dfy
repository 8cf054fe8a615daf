/** memcached-1.4.5: what a client can see of the cache, as a map from keys to entries, and the
    meaning of the ids that gets returns and cas checks. */
module Entries {
  import opened Assoc
  import opened ItemState

  datatype Entry = Entry(data: string, flags: int, exptime: nat, cas: nat)

  function Text(data: map<Ptr, string>, x: Ptr): string { if x in data then data[x] else "" }
  function Flags(flags: map<Ptr, int>, x: Ptr): int { if x in flags then flags[x] else 0 }

  ghost function EntryOf(m: Items, x: Ptr): Entry
  {
    Entry(Text(m.data, x), Flags(m.flags, x), Ld(m.exptime, x), Ld(m.cas, x))
  }

  /** The entries stored, whether or not they are hidden. */
  ghost function Dict(m: Items, index: map<Key, Ptr>): map<Key, Entry>
  {
    map k | k in index :: EntryOf(m, index[k])
  }

  // ---------------------------------------------------------------- ids

  /** One step of the cache: every entry after it was there before, unchanged, or has a new id. */
  ghost predicate CasStep(e: map<Key, Entry>, n: nat, e': map<Key, Entry>, n': nat)
  {
    && n <= n'
    && forall k {:trigger e'[k]} :: k in e' ==> (k in e && e[k] == e'[k]) || n < e'[k].cas
  }

  lemma CasStepTrans(e: map<Key, Entry>, n: nat, e1: map<Key, Entry>, n1: nat, e2: map<Key, Entry>, n2: nat)
    requires CasStep(e, n, e1, n1) && CasStep(e1, n1, e2, n2)
    ensures CasStep(e, n, e2, n2)
  {
    forall k | k in e2 ensures (k in e && e[k] == e2[k]) || n < e2[k].cas {
      if k in e1 && e1[k] == e2[k] {}
    }
  }

  /** Ids have been handed out, to one entry each. */
  ghost predicate IdsOk(e: map<Key, Entry>, n: nat)
  {
    && (forall k {:trigger e[k]} :: k in e ==> 0 < e[k].cas <= n)
    && (forall k, l {:trigger e[k], e[l]} :: k in e && l in e && k != l ==> e[k].cas != e[l].cas)
  }

  /** A run: the entries and the id counter after each step. */
  ghost predicate Run(es: seq<map<Key, Entry>>, ns: seq<nat>)
  {
    && |es| == |ns|
    && (forall i {:trigger es[i]} :: 0 <= i < |es| ==> IdsOk(es[i], ns[i]))
    && (forall i {:trigger es[i]} :: 0 < i < |es| ==> CasStep(es[i - 1], ns[i - 1], es[i], ns[i]))
  }

  lemma {:induction false} CounterGrows(es: seq<map<Key, Entry>>, ns: seq<nat>, i: nat, j: nat)
    requires Run(es, ns) && i <= j < |es|
    ensures ns[i] <= ns[j]
    decreases j
  {
    if i < j {
      assert CasStep(es[j - 1], ns[j - 1], es[j], ns[j]);
      CounterGrows(es, ns, i, j - 1);
    }
  }

  /** If `k` has an id at step `j` that it already had at step `i`, its entry was there, unchanged, at
      every step between: no store, increment, deletion or eviction of `k` came in between. */
  lemma {:induction false} SameIdMeansUntouched(es: seq<map<Key, Entry>>, ns: seq<nat>, k: Key, i: nat, j: nat, l: nat)
    requires Run(es, ns) && i <= l <= j < |es|
    requires k in es[i] && k in es[j] && es[i][k].cas == es[j][k].cas
    ensures k in es[l] && es[l][k] == es[j][k]
    decreases j
  {
    if l < j {
      assert CasStep(es[j - 1], ns[j - 1], es[j], ns[j]) && IdsOk(es[i], ns[i]);
      CounterGrows(es, ns, i, j - 1);
      SameIdMeansUntouched(es, ns, k, i, j - 1, l);
    }
  }

  /** No id comes back: an entry's id is handed out in one place of the run only. */
  lemma {:induction false} IdsNotReused(es: seq<map<Key, Entry>>, ns: seq<nat>, k: Key, l: Key, i: nat, j: nat)
    requires Run(es, ns) && i <= j < |es| && k in es[i] && l in es[j] && es[i][k].cas == es[j][l].cas
    ensures k == l && es[i][k] == es[j][l]
    decreases j
  {
    hide IdsOk, CasStep;
    assert IdsOk(es[i], ns[i]);
    if i == j {
      IdsApart(es[i], ns[i], k, l);
    } else {
      assert CasStep(es[j - 1], ns[j - 1], es[j], ns[j]);
      CounterGrows(es, ns, i, j - 1);
      IdWasThere(es[j - 1], ns[j - 1], es[j], ns[j], es[i], ns[i], k, l);
      IdsNotReused(es, ns, k, l, i, j - 1);
    }
  }

  lemma IdsApart(e: map<Key, Entry>, n: nat, k: Key, l: Key)
    requires IdsOk(e, n) && k in e && l in e && e[k].cas == e[l].cas
    ensures k == l
  {
  }

  /** An id handed out before a step is not new after it. */
  lemma IdWasThere(e: map<Key, Entry>, n: nat, e': map<Key, Entry>, n': nat, e0: map<Key, Entry>, n0: nat, k: Key,
                   l: Key)
    requires CasStep(e, n, e', n') && IdsOk(e0, n0) && n0 <= n && k in e0 && l in e' && e0[k].cas == e'[l].cas
    ensures l in e && e[l] == e'[l]
  {
  }

  lemma IdsAre(m: Items, v: Views)
    requires IndexLinked(v.index, v.key, m.linked) && CasOk(m.linked, m.cas, m.casId, true)
    ensures IdsOk(Dict(m, v.index), m.casId)
  {
    forall k, l | k in v.index && l in v.index && k != l ensures Ld(m.cas, v.index[k]) != Ld(m.cas, v.index[l]) {
      assert v.index[k] in m.linked && v.index[l] in m.linked && v.index[k] != v.index[l];
    }
    forall k | k in v.index ensures 0 < Ld(m.cas, v.index[k]) <= m.casId { assert v.index[k] in m.linked; }
  }

  /** Entries can be lost at any step. */
  lemma LossStep(e: map<Key, Entry>, e': map<Key, Entry>, n: nat)
    requires forall k :: k in e' ==> k in e && e[k] == e'[k]
    ensures CasStep(e, n, e', n)
  {
  }

  /** One entry gets the next id. */
  lemma StampStep(e: map<Key, Entry>, lost: set<Key>, e': map<Key, Entry>, k: Key, n: nat)
    requires k in e' && e'[k].cas == n + 1 && e' == (e - lost)[k := e'[k]]
    ensures CasStep(e, n, e', n + 1)
  {
  }

  // ---------------------------------------------------------------- effect of each operation

  lemma EntriesRelinked(m: Items, v: Views, useCas: bool, it: Ptr)
    requires IndexLinked(v.index, v.key, m.linked) && it in v.key && it !in m.linked
    ensures Dict(Relinked(m, it, useCas), v.index[v.key[it] := it]) ==
            Dict(m, v.index)[v.key[it] := EntryOf(m, it).(cas := if useCas then m.casId + 1 else Ld(m.cas, it))]
  {
    hide Bytes;
  }

  /** Data of linked items is as long as it says, and ends a line. */
  ghost predicate DataOk(linked: set<Ptr>, shape: map<Ptr, Shape>, data: map<Ptr, string>)
  {
    forall x {:trigger x in linked} :: x in linked ==> Line(x, shape, data)
  }

  predicate Line(x: Ptr, shape: map<Ptr, Shape>, data: map<Ptr, string>)
  {
    && x in shape && x in data && |data[x]| == shape[x].nbytes && |data[x]| >= 2
    && data[x][|data[x]| - 2..] == "\r\n"
  }

  // ---------------------------------------------------------------- frames

  /** The fields a client sees are the same. */
  ghost predicate SameText(m: Items, m': Items)
  {
    m'.data == m.data && m'.flags == m.flags && m'.exptime == m.exptime && m'.cas == m.cas && m'.shape == m.shape
  }

  lemma EntriesSame(m: Items, m': Items, index: map<Key, Ptr>)
    requires SameText(m, m')
    ensures Dict(m', index) == Dict(m, index)
    ensures forall x {:trigger EntryOf(m', x)} :: EntryOf(m', x) == EntryOf(m, x)
  {
  }

  lemma SelfQuiet(m: Items)
    ensures Quiet(m, m)
  {
  }

  lemma QuietKeeps(m: Items, m': Items, index: map<Key, Ptr>)
    requires Quiet(m, m') && DataOk(m.linked, m.shape, m.data)
    ensures DataOk(m'.linked, m'.shape, m'.data) && m'.now == m.now
    ensures Dict(m', index) == Dict(m, index)
  {
    hide DataOk, Dict;
    DataShrinks(m.linked, m'.linked, m.shape, m.data);
    EntriesSame(m, m', index);
  }

  lemma EntriesWithout(m: Items, index: map<Key, Ptr>, k: Key)
    ensures Dict(m, index - {k}) == Dict(m, index) - {k}
  {
  }

  lemma DataShrinks(linked: set<Ptr>, linked': set<Ptr>, shape: map<Ptr, Shape>, data: map<Ptr, string>)
    requires DataOk(linked, shape, data) && linked' <= linked
    ensures DataOk(linked', shape, data)
  {
  }

  lemma DataLinks(linked: set<Ptr>, shape: map<Ptr, Shape>, data: map<Ptr, string>, it: Ptr)
    requires DataOk(linked, shape, data) && Line(it, shape, data)
    ensures DataOk(linked + {it}, shape, data)
  {
  }

  /** Writing an item that is not linked. */
  lemma DataFresh(linked: set<Ptr>, shape: map<Ptr, Shape>, data: map<Ptr, string>, it: Ptr, sh: Shape)
    requires DataOk(linked, shape, data) && it !in linked
    ensures DataOk(linked, shape[it := sh], data)
  {
    forall x | x in linked ensures Line(x, shape[it := sh], data) { assert Line(x, shape, data); }
  }

  lemma DataFilled(linked: set<Ptr>, shape: map<Ptr, Shape>, data: map<Ptr, string>, it: Ptr, d: string)
    requires DataOk(linked - {it}, shape, data)
    ensures it !in linked ==> DataOk(linked, shape, data[it := d])
    ensures Line(it, shape, data[it := d]) ==> DataOk(linked, shape, data[it := d])
  {
    forall x | x in linked && x != it ensures Line(x, shape, data[it := d]) { assert x in linked - {it}; }
  }

  ghost function KeyOf(key: map<Ptr, Key>, x: Ptr): set<Key> { if x != 0 && x in key then {key[x]} else {} }

  /** do_item_alloc costs at most the entry of its victim. */
  lemma EntriesAllocs(m: Items, v: Views, m': Items, it: Ptr, victim: Ptr, sh: Shape, flags: int, exptime: nat)
    requires IndexLinked(v.index, v.key, m.linked) && Allocs(m, m', it, victim, sh, flags, exptime)
    ensures victim != 0 ==> victim in v.key
    ensures Dict(m', v.index - KeyOf(v.key, victim)) == Dict(m, v.index) - KeyOf(v.key, victim)
  {
    var index' := v.index - KeyOf(v.key, victim);
    forall k | k in index' ensures EntryOf(m', index'[k]) == EntryOf(m, v.index[k]) {
      assert v.index[k] in m.linked && v.index[k] != victim;
    }
  }
}
