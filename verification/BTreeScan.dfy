/** The leaf chain is the in-order traversal, and the height is logarithmic. */
module BTreeScan {
  import opened BSearch
  import opened BTreeShape
  import opened BTreeSplit

  predicate BoundLt(a: Bound, b: Bound) { BoundLe(a, b) && a != b }

  /** Leaves whose interval starts to the right of where `n`'s does. */
  ghost function Ahead(t: Tree, n: Ref): set<Ref>
    requires n in t.g
  {
    set x | x in t.g && t.g[x].lev == 1 && BoundLt(t.g[n].lo, t.g[x].lo)
  }

  ghost predicate Chained(t: Tree) { Inv(t, NONE, {}, 0) && ChainOk(t) }

  lemma NextFacts(t: Tree, n: Ref)
    requires Chained(t) && n in t.mem && t.g[n].lev == 1
    ensures var m := t.mem[n].next;
      if m == 0 then t.g[n].hi == PosInf
      else m in t.mem && t.g[m].lev == 1 && t.g[n].hi.At? && t.g[m].lo == t.g[n].hi
           && BoundLt(t.g[n].lo, t.g[m].lo) && t.mem[m].nkeys > 0
  {
    assert LinkOk(t, n) && SizeOk(t, n, 0) && KeysOk(t, n);
    var m := t.mem[n].next;
    if m != 0 {
      assert SizeOk(t, m, 0);
      assert KeyFits(t.g[n], t.mem[n].arr[0].key);
    }
  }

  lemma AheadShrinks(t: Tree, n: Ref)
    requires Chained(t) && n in t.mem && t.g[n].lev == 1 && t.mem[n].next != 0
    ensures var m := t.mem[n].next; m in t.mem && t.g[m].lev == 1 && Ahead(t, m) < Ahead(t, n)
  {
    NextFacts(t, n);
    hide Chained, Inv;
    var m := t.mem[n].next;
    assert m in Ahead(t, n) && m !in Ahead(t, m);
  }

  /** The leaves from `n` to the end of the chain. */
  ghost function ChainFrom(t: Tree, n: Ref): seq<Ref>
    requires Chained(t) && n in t.mem && t.g[n].lev == 1
    decreases Ahead(t, n)
  {
    if t.mem[n].next == 0 then [n]
    else
      AheadShrinks(t, n);
      [n] + ChainFrom(t, t.mem[n].next)
  }

  /** The occupied slots of a sequence of leaves. */
  ghost function Slots(mem: map<Ref, Node>, ls: seq<Ref>): seq<Slot>
    requires forall n :: n in ls ==> n in mem && mem[n].nkeys <= |mem[n].arr|
  {
    if ls == [] then [] else mem[ls[0]].arr[..mem[ls[0]].nkeys] + Slots(mem, ls[1..])
  }

  /** `ls` follows the `next` pointers to the end of the chain, through non-empty leaves. */
  ghost predicate Linked(mem: map<Ref, Node>, ls: seq<Ref>)
  {
    && ls != [] && ls[0] in mem && mem[ls[0]].nkeys <= |mem[ls[0]].arr| && ls[0] !in ls[1..]
    && if |ls| == 1 then mem[ls[0]].next == 0
       else mem[ls[0]].next == ls[1] != 0 && Linked(mem, ls[1..]) && mem[ls[1]].nkeys > 0
  }

  lemma {:induction false} LinkedAll(mem: map<Ref, Node>, ls: seq<Ref>)
    requires Linked(mem, ls)
    ensures forall n :: n in ls ==> n in mem && mem[n].nkeys <= |mem[n].arr|
  {
    if |ls| > 1 {
      LinkedAll(mem, ls[1..]);
      assert forall n :: n in ls ==> n == ls[0] || n in ls[1..];
    }
  }

  lemma LinkedCons(mem: map<Ref, Node>, ls: seq<Ref>)
    requires |ls| > 1 && Linked(mem, ls[1..]) && ls[0] in mem && ls[0] !in ls[1..]
    requires mem[ls[0]].nkeys <= |mem[ls[0]].arr| && mem[ls[0]].next == ls[1] != 0 && mem[ls[1]].nkeys > 0
    ensures Linked(mem, ls)
  {
  }

  lemma {:induction false} ChainLinked(t: Tree, n: Ref)
    requires Chained(t) && n in t.mem && t.g[n].lev == 1
    ensures var ls := ChainFrom(t, n); Linked(t.mem, ls) && ls[0] == n
    ensures forall x :: x in ChainFrom(t, n) ==> x == n || x in Ahead(t, n)
    decreases Ahead(t, n)
  {
    assert KeysOk(t, n);
    NextFacts(t, n);
    if t.mem[n].next != 0 {
      AheadShrinks(t, n);
      var m := t.mem[n].next;
      ChainLinked(t, m);
      var ls, rest := ChainFrom(t, n), ChainFrom(t, m);
      assert ls == [n] + rest;
      hide Chained, Inv, ChainFrom, Linked;
      assert m in Ahead(t, n) && n !in Ahead(t, n);
      assert forall x :: x in rest ==> x in Ahead(t, n);
      assert ls[1..] == rest;
      LinkedCons(t.mem, ls);
    }
  }

  lemma {:induction false} SameLinks(mem: map<Ref, Node>, mem': map<Ref, Node>, ls: seq<Ref>)
    requires Linked(mem, ls)
    requires forall n :: n in ls ==> n in mem' && n in mem && mem'[n] == mem[n]
    ensures Linked(mem', ls)
    ensures forall n :: n in ls ==> n in mem && mem[n].nkeys <= |mem[n].arr|
    ensures Slots(mem', ls) == Slots(mem, ls)
  {
    LinkedAll(mem, ls);
    if |ls| > 1 { SameLinks(mem, mem', ls[1..]); }
  }

  /** Wiping a slot of the current leaf leaves the links and the leaves ahead alone. */
  lemma WipeBehind(mem: map<Ref, Node>, mem': map<Ref, Node>, ls: seq<Ref>)
    requires Linked(mem, ls) && ls[0] in mem' && ls[0] in mem
    requires mem'[ls[0]] == mem[ls[0]].(arr := mem'[ls[0]].arr) && |mem'[ls[0]].arr| == |mem[ls[0]].arr|
    requires forall n :: n in mem && n != ls[0] ==> n in mem' && mem'[n] == mem[n]
    ensures Linked(mem', ls)
    ensures forall n :: n in ls[1..] ==> n in mem && mem[n].nkeys <= |mem[n].arr| && n in mem' && mem'[n] == mem[n]
    ensures Slots(mem', ls[1..]) == Slots(mem, ls[1..])
  {
    LinkedAll(mem, ls);
    if |ls| > 1 { SameLinks(mem, mem', ls[1..]); }
  }

  // ---------------------------------------------------------------- in-order traversal

  /** `ss` lists a map: its keys once each in ascending order, with their entries. */
  ghost predicate Lists(ss: seq<Slot>, m: map<Key, Entry>)
  {
    && Ascending(ss, |ss|)
    && (forall j :: 0 <= j < |ss| ==> ss[j].key in m && m[ss[j].key] == EntryOf(ss[j]))
    && (forall k :: k in m ==> HasKey(ss, k))
  }

  ghost predicate HasKey(ss: seq<Slot>, k: Key) { exists j :: 0 <= j < |ss| && ss[j].key == k }

  /** A listing is as long as the map is large. */
  lemma {:induction false} ListsCount(ss: seq<Slot>, m: map<Key, Entry>)
    requires Lists(ss, m)
    ensures |ss| == |m|
  {
    if ss == [] {
      forall k ensures k !in m { assert !HasKey(ss, k); }
      assert m.Keys == {};
    } else {
      var last, rest := ss[|ss| - 1], ss[..|ss| - 1];
      var m' := m - {last.key};
      assert m'.Keys == m.Keys - {last.key};
      forall k | k in m' ensures HasKey(rest, k) {
        assert HasKey(ss, k);
        var j :| 0 <= j < |ss| && ss[j].key == k;
        assert rest[j].key == k;
      }
      forall j | 0 <= j < |rest| ensures rest[j].key in m' && m'[rest[j].key] == EntryOf(rest[j]) {
        assert rest[j] == ss[j];
      }
      ListsCount(rest, m');
      assert |m'.Keys| == |m.Keys| - 1;
    }
  }

  /** The part of a map from bound `b` on. */
  ghost function From(m: map<Key, Entry>, b: Bound): map<Key, Entry>
  {
    map k | k in m && AtLeast(k, b) :: m[k]
  }

  /** One leaf lists the keys of its interval. */
  lemma LeafLists(t: Tree, at: map<Key, Loc>, n: Ref)
    requires Inv(t, NONE, {}, 0) && Located(t, at) && n in t.mem && t.g[n].lev == 1
    ensures t.mem[n].nkeys <= |t.mem[n].arr|
    ensures var ss, m := t.mem[n].arr[..t.mem[n].nkeys], Contents(t, at);
      && Ascending(ss, |ss|)
      && (forall j :: 0 <= j < |ss| ==> ss[j].key in m && m[ss[j].key] == EntryOf(ss[j]) && Covers(t.g[n], ss[j].key))
      && (forall k :: k in m && Covers(t.g[n], k) ==> HasKey(ss, k))
  {
    assert KeysOk(t, n);
    var ss, m := t.mem[n].arr[..t.mem[n].nkeys], Contents(t, at);
    forall j | 0 <= j < |ss|
      ensures ss[j].key in m && m[ss[j].key] == EntryOf(ss[j]) && Covers(t.g[n], ss[j].key)
    {
      assert KeyFits(t.g[n], t.mem[n].arr[j].key);
      assert at[t.mem[n].arr[j].key] == Loc(n, j);
    }
    forall k | k in m && Covers(t.g[n], k) ensures HasKey(ss, k) {
      var l := at[k];
      assert KeysOk(t, l.leaf);
      assert KeyFits(t.g[l.leaf], t.mem[l.leaf].arr[l.pos].key);
      assert Apart(t, l.leaf, n);
      assert ss[l.pos].key == k;
    }
  }

  /** Joining the listing of one interval with that of everything to its right. */
  lemma JoinLists(a: seq<Slot>, b: seq<Slot>, m: map<Key, Entry>, lo: Bound, mid: Key)
    requires Ascending(a, |a|) && Lists(b, From(m, At(mid)))
    requires forall j :: 0 <= j < |a| ==>
      a[j].key in m && m[a[j].key] == EntryOf(a[j]) && AtLeast(a[j].key, lo) && a[j].key < mid
    requires forall k :: k in m && AtLeast(k, lo) && k < mid ==> HasKey(a, k)
    requires BoundLe(lo, At(mid))
    ensures Lists(a + b, From(m, lo))
  {
    var ss := a + b;
    forall k | k in From(m, lo) ensures HasKey(ss, k) {
      if k < mid {
        assert HasKey(a, k);
        var j :| 0 <= j < |a| && a[j].key == k;
        assert ss[j].key == k;
      } else {
        assert HasKey(b, k);
        var j :| 0 <= j < |b| && b[j].key == k;
        assert ss[|a| + j].key == k;
      }
    }
  }

  lemma LastLists(a: seq<Slot>, m: map<Key, Entry>, lo: Bound)
    requires Ascending(a, |a|)
    requires forall j :: 0 <= j < |a| ==> a[j].key in m && m[a[j].key] == EntryOf(a[j]) && AtLeast(a[j].key, lo)
    requires forall k :: k in m && AtLeast(k, lo) ==> HasKey(a, k)
    ensures Lists(a, From(m, lo))
  {
  }

  lemma {:induction false} ChainLists(t: Tree, at: map<Key, Loc>, n: Ref)
    requires Chained(t) && Located(t, at) && n in t.mem && t.g[n].lev == 1
    ensures forall x :: x in ChainFrom(t, n) ==> x in t.mem && t.mem[x].nkeys <= |t.mem[x].arr|
    ensures Lists(Slots(t.mem, ChainFrom(t, n)), From(Contents(t, at), t.g[n].lo))
    decreases Ahead(t, n)
  {
    LeafLists(t, at, n);
    NextFacts(t, n);
    ChainLinked(t, n);
    var a, m, ls := t.mem[n].arr[..t.mem[n].nkeys], Contents(t, at), ChainFrom(t, n);
    if t.mem[n].next == 0 {
      assert Slots(t.mem, ls) == a + Slots(t.mem, []) == a;
      hide Inv, ChainFrom, Slots, Contents;
      LastLists(a, m, t.g[n].lo);
    } else {
      AheadShrinks(t, n);
      var q := t.mem[n].next;
      ChainLists(t, at, q);
      assert ls == [n] + ChainFrom(t, q);
      assert ls[1..] == ChainFrom(t, q);
      var b := Slots(t.mem, ChainFrom(t, q));
      assert Slots(t.mem, ls) == a + b;
      hide Inv, ChainFrom, Slots, Contents, Chained, Located;
      JoinLists(a, b, m, t.g[n].lo, t.g[n].hi.k);
    }
  }

  /** From the leftmost leaf the chain lists the whole map. */
  lemma ChainListsAll(t: Tree, at: map<Key, Loc>, n: Ref)
    requires Chained(t) && Located(t, at) && n in t.mem && t.g[n].lev == 1 && t.g[n].lo == NegInf
    ensures forall x :: x in ChainFrom(t, n) ==> x in t.mem && t.mem[x].nkeys <= |t.mem[x].arr|
    ensures Lists(Slots(t.mem, ChainFrom(t, n)), Contents(t, at))
  {
    ChainLists(t, at, n);
    assert From(Contents(t, at), NegInf) == Contents(t, at);
  }

  // ---------------------------------------------------------------- height

  function Pow(b: nat, e: nat): nat { if e == 0 then 1 else b * Pow(b, e - 1) }

  /** The stored keys between two bounds. */
  ghost function Within(at: map<Key, Loc>, lo: Bound, hi: Bound): set<Key>
  {
    set k | k in at && AtLeast(k, lo) && Below(k, hi)
  }

  lemma WithinSplit(at: map<Key, Loc>, lo: Bound, mid: Bound, hi: Bound)
    requires BoundLe(lo, mid) && BoundLe(mid, hi) && mid != NegInf && mid != PosInf
    ensures |Within(at, lo, hi)| == |Within(at, lo, mid)| + |Within(at, mid, hi)|
  {
    assert Within(at, lo, hi) == Within(at, lo, mid) + Within(at, mid, hi);
  }

  /** A leaf stores exactly the keys of its interval. */
  lemma LeafHolds(t: Tree, at: map<Key, Loc>, n: Ref)
    requires Inv(t, NONE, {}, 0) && Located(t, at) && n in t.mem && t.g[n].lev == 1
    ensures |Within(at, t.g[n].lo, t.g[n].hi)| == t.mem[n].nkeys
  {
    LeafLists(t, at, n);
    var ss, w := t.mem[n].arr[..t.mem[n].nkeys], Within(at, t.g[n].lo, t.g[n].hi);
    var c := Contents(t, at);
    assert c.Keys == at.Keys;
    hide Inv, Located, Contents;
    var m := map k | k in w :: c[k];
    assert m.Keys == w;
    ListsCount(ss, m);
  }

  lemma {:induction false} NodeHolds(t: Tree, at: map<Key, Loc>, n: Ref)
    requires Inv(t, NONE, {}, 0) && Located(t, at) && n in t.mem && n != t.root
    ensures |Within(at, t.g[n].lo, t.g[n].hi)| >= Pow(ORDER + 1, t.g[n].lev)
    decreases t.g[n].lev, 1, 0
  {
    assert SizeOk(t, n, 0);
    if t.g[n].lev == 1 {
      LeafHolds(t, at, n);
      assert Pow(ORDER + 1, 1) == (ORDER + 1) * Pow(ORDER + 1, 0);
    } else {
      KidsHold(t, at, n, t.mem[n].nkeys);
      PowStep(t.mem[n].nkeys, t.g[n].lev);
    }
  }

  lemma PowStep(k: nat, lev: nat)
    requires k >= ORDER && lev >= 1
    ensures (k + 1) * Pow(ORDER + 1, lev - 1) >= Pow(ORDER + 1, lev)
  {
  }

  /** The first `j + 1` children of `n` hold at least so many keys. */
  lemma {:induction false} KidsHold(t: Tree, at: map<Key, Loc>, n: Ref, j: nat)
    requires Inv(t, NONE, {}, 0) && Located(t, at) && n in t.mem && t.g[n].lev > 1 && j <= t.mem[n].nkeys
    ensures |Within(at, t.g[n].lo, HiAt(t, n, j))| >= (j + 1) * Pow(ORDER + 1, t.g[n].lev - 1)
    decreases t.g[n].lev, 0, j
  {
    assert KidsOk(t, n, NONE) && KeysOk(t, n);
    assert KidOk(t, n, j, NONE);
    var c := t.mem[n].arr[j].child;
    NodeHolds(t, at, c);
    if j > 0 {
      KidsHold(t, at, n, j - 1);
      assert KeyFits(t.g[n], t.mem[n].arr[j - 1].key);
      hide Inv, Located, KidsOk, KidOk;
      WithinSplit(at, t.g[n].lo, HiAt(t, n, j - 1), HiAt(t, n, j));
    }
  }

  /** nkeys >= 2 * (order + 1)^(nlevel - 1): the height grows with the logarithm of the size. */
  lemma HeightIsLogarithmic(t: Tree, at: map<Key, Loc>)
    requires Inv(t, NONE, {}, 0) && Located(t, at) && t.nlevel >= 2
    ensures |at| >= 2 * Pow(ORDER + 1, t.nlevel - 1)
  {
    assert SizeOk(t, t.root, 0);
    KidsHold(t, at, t.root, t.mem[t.root].nkeys);
    hide Inv, Located, Store, Pow;
    assert Within(at, NegInf, PosInf) == at.Keys;
    assert |at| == |at.Keys|;
    AtLeastTwice(t.mem[t.root].nkeys + 1, Pow(ORDER + 1, t.nlevel - 1));
  }

  lemma AtLeastTwice(n: nat, x: nat)
    requires n >= 2
    ensures n * x >= 2 * x
  {
    assert n * x == 2 * x + (n - 2) * x;
  }
}
