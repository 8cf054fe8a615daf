/** memcached-1.4.5/memcached.c: the incr and decr commands, and sequences of them. */
module Counters {
  import opened Assoc
  import opened ItemState
  import opened Entries
  import opened Hiding
  import opened Cache
  import opened Numbers
  import opened Commands

  ghost predicate VisibleIn(c: Cache, k: Key)
    reads c, c.assoc
  {
    Visible(c.m, c.assoc.index, c.doomed, k)
  }

  /** The number that the entry of `k` shows. */
  ghost function Shows(c: Cache, k: Key): Option<nat>
    reads c, c.assoc
  {
    if k in All(c) then ParseU64(All(c)[k].data) else None
  }

  /** process_arithmetic_command without another command in between: item_get, add_delta, item_remove */
  method Arithmetic(c: Cache, k: Key, incr: bool, delta: nat, sys: Sys) returns (res: Option<DeltaResult>)
    requires Good(c) && delta < TWO_64
    modifies c`m, c`held, c`doomed, c.assoc, c.lru, c.slabs
    ensures Good(c) && c.held == old(c.held) && (res.None? <==> !old(VisibleIn(c, k)))
    ensures res.Some? ==> VisibleIn(c, k) && old(k in All(c)) && k in All(c)
    ensures res.Some? ==> (res.value.NonNumeric? <==> old(Shows(c, k)) == None)
    ensures res.Some? && res.value.OK? ==> Reckons(old(Shows(c, k)), incr, delta, res.value.value)
    ensures res.Some? && res.value.OK? && !incr && delta <= old(Shows(c, k)).value ==>
      res.value.value + delta == old(Shows(c, k)).value
    ensures res.Some? && res.value.OK? && !incr && delta > old(Shows(c, k)).value ==> res.value.value == 0
    ensures res.Some? && res.value.OK? ==> Shows(c, k) == Some(res.value.value) && |All(c)[k].data| > 2
    ensures res.Some? && !res.value.OK? ==> Shows(c, k) == old(Shows(c, k)) && All(c)[k] == old(All(c))[k]
    ensures res.Some? && res.value.OutOfMemory? ==>
      exists n :: Reckons(old(Shows(c, k)), incr, delta, n) && |Dec(n)| + 2 > |All(c)[k].data|
    ensures res.Some? && res.value.OutOfMemory? && !incr ==> All(c)[k].data == "\r\n"
  {
    hide Good, ParseU64, Dec, Expired, Raised, Reckons, Reckoned;
    if VisibleIn(c, k) { ShownIsVisible(c, k); }
    var it := Look(c, k);
    res := None;
    if it != 0 {
      ghost var e := All(c)[k];
      var r := Reckon(c, it, k, incr, delta, sys);
      ReckonedIs(e.data, incr, delta, All(c)[k].data, r);
      DifferenceIs(ParseU64(e.data), delta);
      Release(c, it);
      res := Some(r);
      ShownIsVisible(c, k);
    }
  }

  /** What a counter of text `d` shows after do_add_delta, and its answer. */
  ghost predicate Reckoned(d: string, incr: bool, delta: nat, d': string, r: DeltaResult)
  {
    match r
    case NonNumeric => ParseU64(d).None? && d' == d
    case OutOfMemory =>
      && ParseU64(d).Some? && d' == d && (!incr ==> d == "\r\n")
      && exists n :: Reckons(ParseU64(d), incr, delta, n) && |Dec(n)| + 2 > |d|
    case OK(n) => Reckons(ParseU64(d), incr, delta, n) && ParseU64(d') == Some(n) && |d'| > 2
  }

  lemma ReckonedIs(d: string, incr: bool, delta: nat, d': string, r: DeltaResult)
    requires Reckoned(d, incr, delta, d', r)
    ensures r.NonNumeric? <==> ParseU64(d) == None
    ensures if r.OK? then Reckons(ParseU64(d), incr, delta, r.value) && ParseU64(d') == Some(r.value) && |d'| > 2
            else d' == d
    ensures r.OutOfMemory? ==> exists n :: Reckons(ParseU64(d), incr, delta, n) && |Dec(n)| + 2 > |d|
    ensures r.OutOfMemory? && !incr ==> d == "\r\n"
  {
    hide ParseU64, Dec;
  }

  /** do_add_delta of the item under `k` */
  method Reckon(c: Cache, it: Ptr, k: Key, incr: bool, delta: nat, sys: Sys) returns (r: DeltaResult)
    requires Good(c) && delta < TWO_64 && c.held[it] > 0 && it in c.m.linked && it in c.assoc.key
    requires c.assoc.key[it] == k && k in c.assoc.index && c.assoc.index[k] == it && it !in c.doomed
    modifies c`m, c`held, c`doomed, c.assoc, c.lru, c.slabs
    ensures Good(c) && c.held == old(c.held) && Shown(c, k) && c.m.now == old(c.m).now && k in All(c)
    ensures old(k in All(c)) && All(c)[k].exptime == old(All(c))[k].exptime
    ensures !r.OK? ==> All(c)[k] == old(All(c))[k]
    ensures Reckoned(old(All(c))[k].data, incr, delta, All(c)[k].data, r)
  {
    hide Good, ParseU64, AddDelta, Dec, Follows, Settled, Regrowless, CheaplyLost, RegrowCosts, Reckons, EntryOf;
    hide Counted, CounterText, Pad, Counts, Dict, Reckoned;
    LinkedLine(c, it);
    EntryIs(c.m, it);
    DictAt(c.m, c.assoc.index, k);
    ghost var text := Text(c.m.data, it);
    ghost var lost;
    r, lost := Delta(c, it, incr, delta, sys);
    if r.OK? {
      CountsShows(old(All(c)) - lost, All(c), k, r.value, NextId(old(c.m), c.useCas));
    }
    ReckonedSo(text, incr, delta, All(c)[k].data, r);
  }

  lemma CountsShows(e: map<Key, Entry>, e': map<Key, Entry>, k: Key, value: nat, id: nat)
    requires Counts(e, e', k, value, id)
    ensures k in e && k in e' && ParseU64(e'[k].data) == Some(value) && |e'[k].data| > 2
    ensures e'[k].exptime == e[k].exptime
  {
    hide ParseU64, CounterText, Pad;
    CounterLong(value, Pad(value, |e[k].data|));
  }

  lemma ReckonedSo(d: string, incr: bool, delta: nat, d': string, r: DeltaResult)
    requires EndsLine(d) && delta < TWO_64
    requires match Counted(d, incr, delta)
      case None => r == NonNumeric
      case Some(n) => r == OK(n) || (r == OutOfMemory && |Dec(n)| + 2 > |d|)
    requires if r.OK? then ParseU64(d') == Some(r.value) && |d'| > 2 else d' == d
    ensures Reckoned(d, incr, delta, d', r)
  {
    hide ParseU64, Dec, Reckons, Counted, EndsLine;
    CountedReckons(d, incr, delta);
    if r.OutOfMemory? && !incr {
      SmallerFits(d, delta, Counted(d, incr, delta).value);
    }
  }

  lemma CounterLong(n: nat, pad: nat)
    ensures |CounterText(n, pad)| > 2
  {
    hide Dec;
  }

  lemma LinkedLine(c: Cache, it: Ptr)
    requires Good(c) && it in c.m.linked
    ensures EndsLine(Text(c.m.data, it))
  {
    hide Coherent, TablesOk;
    LinesEnd(c.m, it);
  }

  /** A decrement fits where the old number was, unless that was an empty text, which counts as 0. */
  lemma SmallerFits(text: string, delta: nat, n: nat)
    requires EndsLine(text) && Reckons(ParseU64(text), false, delta, n) && |Dec(n)| + 2 > |text|
    ensures text == "\r\n"
  {
    hide ParseU64, Dec;
    if |text| > 2 {
      DecMonotone(n, ParseU64(text).value);
      ParsedFits(text);
      assert false;
    }
    assert text == text[|text| - 2..];
  }

  /** Increments one after the other until one fails. The counter then shows its old value plus all that were added,
      modulo 2^64; one can only fail where the new number has no room in its item. */
  method Increments(c: Cache, k: Key, ds: seq<nat>, sys: seq<Sys>) returns (done: nat)
    requires Good(c) && VisibleIn(c, k) && Shows(c, k).Some? && |sys| == |ds|
    requires forall i :: 0 <= i < |ds| ==> ds[i] < TWO_64
    modifies c`m, c`held, c`doomed, c.assoc, c.lru, c.slabs
    ensures Good(c) && c.held == old(c.held) && VisibleIn(c, k) && done <= |ds|
    ensures done > 0 ==> Shows(c, k) == Some((old(Shows(c, k)).value + Total(ds[..done])) % TWO_64)
    ensures k in All(c)
    ensures done < |ds| ==>
      |Dec((old(Shows(c, k)).value + Total(ds[..done + 1])) % TWO_64)| + 2 > |All(c)[k].data|
  {
    hide Good, ParseU64, AddDelta, Dec, Expired, Visible, Dict;
    done := 0;
    ghost var v := Shows(c, k).value;
    while done < |ds|
      invariant Good(c) && c.held == old(c.held) && VisibleIn(c, k) && done <= |ds|
      invariant Shows(c, k) == Some(Incremented(v, ds[..done]))
    {
      var res := Arithmetic(c, k, true, ds[done], sys[done]);
      Extend(v, ds, done);
      SumIs(Incremented(v, ds[..done]), ds[done]);
      if res.None? || !res.value.OK? {
        IncrementsAdd(v, ds[..done + 1]);
        break;
      }
      done := done + 1;
    }
    IncrementsAdd(v, ds[..done]);
  }

  lemma Extend(v: nat, ds: seq<nat>, n: nat)
    requires n < |ds|
    ensures Incremented(v, ds[..n + 1]) == AddDelta(Incremented(v, ds[..n]), true, ds[n])
  {
    assert ds[..n + 1][..n] == ds[..n];
  }

  lemma DifferenceIs(had: Option<nat>, delta: nat)
    ensures forall n {:trigger Reckons(had, false, delta, n)} :: Reckons(had, false, delta, n) ==>
      had.Some? && n == if delta <= had.value then had.value - delta else 0
  {
  }

  lemma SumIs(a: nat, delta: nat)
    requires a < TWO_64 && delta < TWO_64
    ensures forall n {:trigger Reckons(Some(a), true, delta, n)} ::
      Reckons(Some(a), true, delta, n) ==> n == AddDelta(a, true, delta)
  {
  }

  /** Decrements one after the other: the counter then shows its old value less all that was taken, or 0 once that is
      more. They never fail for want of memory, except that of an empty text. */
  method Decrements(c: Cache, k: Key, ds: seq<nat>, sys: seq<Sys>) returns (done: nat)
    requires Good(c) && VisibleIn(c, k) && Shows(c, k).Some? && |sys| == |ds|
    requires forall i :: 0 <= i < |ds| ==> ds[i] < TWO_64
    modifies c`m, c`held, c`doomed, c.assoc, c.lru, c.slabs
    ensures Good(c) && c.held == old(c.held) && VisibleIn(c, k) && k in All(c) && Shows(c, k).Some?
    ensures done == |ds| || (done == 0 && All(c)[k].data == "\r\n")
    ensures Total(ds[..done]) <= old(Shows(c, k)).value ==>
      Shows(c, k).value + Total(ds[..done]) == old(Shows(c, k)).value
    ensures Total(ds[..done]) > old(Shows(c, k)).value ==> Shows(c, k).value == 0
  {
    hide Good, ParseU64, Dec, Expired, Visible, Dict;
    done := 0;
    ghost var v := Shows(c, k).value;
    while done < |ds|
      invariant Good(c) && c.held == old(c.held) && VisibleIn(c, k) && done <= |ds|
      invariant Shows(c, k) == Some(if Total(ds[..done]) <= v then v - Total(ds[..done]) else 0)
      invariant done > 0 ==> k in All(c) && |All(c)[k].data| > 2
    {
      var res := Arithmetic(c, k, false, ds[done], sys[done]);
      assert ds[..done + 1][..done] == ds[..done];
      if res.None? || !res.value.OK? {
        break;
      }
      done := done + 1;
    }
  }
}
