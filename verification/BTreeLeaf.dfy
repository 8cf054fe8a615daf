/** What the leaf operations of keyvals_btree.c do to the stored map and to the leaf chain. */
module BTreeLeaf {
  import opened BSearch
  import opened BTreeShape
  import opened BTreeSplit

  // ---------------------------------------------------------------- one slot in, or one slot replaced

  /** `b` is `a` with slot `s` inserted at `pos` among the first `n`. */
  ghost predicate Inserted(a: seq<Slot>, b: seq<Slot>, n: nat, pos: nat, s: Slot)
  {
    && |a| == CAP && |b| == CAP && pos <= n < CAP
    && (forall j :: 0 <= j < pos ==> b[j] == a[j])
    && b[pos] == s
    && (forall j :: pos < j <= n ==> b[j] == a[j - 1])
  }

  ghost predicate InsertsSlot(t: Tree, u: Tree, n: Ref, pos: nat, s: Slot)
    requires Store(t) && Store(u)
  {
    && Rewrites(t, u, n) && t.g[n].lev == 1 && u.mem[n].next == t.mem[n].next
    && u.mem[n].nkeys == t.mem[n].nkeys + 1
    && Inserted(t.mem[n].arr, u.mem[n].arr, t.mem[n].nkeys, pos, s)
  }

  /** The locations after a slot with key `k` went in at `pos` of leaf `n`. */
  ghost function Relocate(at: map<Key, Loc>, n: Ref, pos: nat, k: Key): map<Key, Loc>
  {
    map x | x in at.Keys + {k} ::
      if x == k then Loc(n, pos)
      else if at[x].leaf == n && at[x].pos >= pos then Loc(n, at[x].pos + 1) else at[x]
  }

  lemma InsertKeys(t: Tree, u: Tree, n: Ref, pos: nat, s: Slot)
    requires Store(t) && Store(u) && InsertsSlot(t, u, n, pos, s) && KeysOk(t, n)
    requires KeyFits(t.g[n], s.key)
    requires forall j :: 0 <= j < pos ==> t.mem[n].arr[j].key < s.key
    requires forall j :: pos <= j < t.mem[n].nkeys ==> s.key < t.mem[n].arr[j].key
    ensures KeysOk(u, n)
  {
  }

  lemma InsertSlotAt(t: Tree, u: Tree, at: map<Key, Loc>, n: Ref, pos: nat, s: Slot, x: Ref, j: nat)
    requires Store(t) && Store(u) && InsertsSlot(t, u, n, pos, s) && Located(t, at) && s.key !in at
    requires x in u.mem && u.g[x].lev == 1 && j < u.mem[x].nkeys
    ensures var at' := Relocate(at, n, pos, s.key);
      u.mem[x].arr[j].key in at' && at'[u.mem[x].arr[j].key] == Loc(x, j)
  {
    if x == n && j > pos {
      assert t.mem[x].arr[j - 1].key in at;
    } else if x != n || j < pos {
      assert t.mem[x].arr[j].key in at;
    }
  }

  lemma InsertKeyAt(t: Tree, u: Tree, at: map<Key, Loc>, n: Ref, pos: nat, s: Slot, k: Key)
    requires Store(t) && Store(u) && InsertsSlot(t, u, n, pos, s) && Located(t, at) && s.key !in at
    requires k in Relocate(at, n, pos, s.key)
    ensures var l := Relocate(at, n, pos, s.key)[k];
      l.leaf in u.mem && u.g[l.leaf].lev == 1 && l.pos < u.mem[l.leaf].nkeys && u.mem[l.leaf].arr[l.pos].key == k
  {
  }

  lemma InsertLocates(t: Tree, u: Tree, at: map<Key, Loc>, n: Ref, pos: nat, s: Slot)
    requires Store(t) && Store(u) && InsertsSlot(t, u, n, pos, s) && Located(t, at)
    requires s.key !in at
    ensures Located(u, Relocate(at, n, pos, s.key))
  {
    hide InsertsSlot, Relocate;
    var at' := Relocate(at, n, pos, s.key);
    forall k | k in at'
      ensures at'[k].leaf in u.mem && u.g[at'[k].leaf].lev == 1
      ensures at'[k].pos < u.mem[at'[k].leaf].nkeys && u.mem[at'[k].leaf].arr[at'[k].pos].key == k
    {
      InsertKeyAt(t, u, at, n, pos, s, k);
    }
    forall x, j | x in u.mem && u.g[x].lev == 1 && 0 <= j < u.mem[x].nkeys
      ensures u.mem[x].arr[j].key in at' && at'[u.mem[x].arr[j].key] == Loc(x, j)
    {
      InsertSlotAt(t, u, at, n, pos, s, x, j);
    }
  }

  lemma UpdateOnly<K, V>(c: map<K, V>, c': map<K, V>, k: K)
    requires c'.Keys == c.Keys + {k}
    requires forall x :: x in c && x != k ==> c'[x] == c[x]
    ensures c' == c[k := c'[k]]
  {
  }

  /** The same, when no key is added. */
  lemma SameMap(t: Tree, at: map<Key, Loc>, u: Tree, at': map<Key, Loc>)
    requires Store(t) && Store(u) && Located(t, at) && Located(u, at') && at'.Keys == at.Keys
    requires forall x :: x in at ==>
      EntryOf(u.mem[at'[x].leaf].arr[at'[x].pos]) == EntryOf(t.mem[at[x].leaf].arr[at[x].pos])
    ensures Contents(u, at') == Contents(t, at)
  {
    hide Located, Store;
    var c, c' := Contents(t, at), Contents(u, at');
    assert c'.Keys == c.Keys;
    forall x | x in c ensures c'[x] == c[x] { }
  }

  /** Where a slot of a leaf is after the insertion. */
  ghost function Pushed(l: Loc, n: Ref, pos: nat): Loc
  {
    if l.leaf == n && l.pos >= pos then Loc(n, l.pos + 1) else l
  }

  lemma InsertMoves(t: Tree, u: Tree, n: Ref, pos: nat, s: Slot, l: Loc)
    requires Store(t) && Store(u) && InsertsSlot(t, u, n, pos, s)
    requires l.leaf in t.mem && t.g[l.leaf].lev == 1 && l.pos < t.mem[l.leaf].nkeys
    ensures var l' := Pushed(l, n, pos);
      l'.leaf in u.mem && l'.pos < |u.mem[l'.leaf].arr| && u.mem[l'.leaf].arr[l'.pos] == t.mem[l.leaf].arr[l.pos]
  {
  }

  lemma RelocateAt(at: map<Key, Loc>, n: Ref, pos: nat, k: Key, x: Key)
    requires k !in at && x in at
    ensures x in Relocate(at, n, pos, k) && Relocate(at, n, pos, k)[x] == Pushed(at[x], n, pos)
  {
  }

  lemma InsertEntry(t: Tree, u: Tree, at: map<Key, Loc>, n: Ref, pos: nat, s: Slot, k: Key)
    requires Store(t) && Store(u) && InsertsSlot(t, u, n, pos, s) && Located(t, at)
    requires s.key !in at && Located(u, Relocate(at, n, pos, s.key)) && k in at
    ensures var at' := Relocate(at, n, pos, s.key);
      k in Contents(u, at') && Contents(u, at')[k] == Contents(t, at)[k]
  {
    hide Store, Located, InsertsSlot, Relocate, Contents, Pushed;
    LocatedAt(t, at, k);
    InsertMoves(t, u, n, pos, s, at[k]);
    RelocateAt(at, n, pos, s.key, k);
    SlotEntry(t, at, k);
    SlotEntry(u, Relocate(at, n, pos, s.key), k);
  }

  lemma LocatedAt(t: Tree, at: map<Key, Loc>, k: Key)
    requires Store(t) && Located(t, at) && k in at
    ensures at[k].leaf in t.mem && at[k].leaf in t.g && t.g[at[k].leaf].lev == 1
    ensures at[k].pos < t.mem[at[k].leaf].nkeys <= |t.mem[at[k].leaf].arr|
    ensures t.mem[at[k].leaf].arr[at[k].pos].key == k
  {
  }

  lemma RelocateKeys(at: map<Key, Loc>, n: Ref, pos: nat, k: Key)
    requires k !in at
    ensures var at' := Relocate(at, n, pos, k);
      at'.Keys == at.Keys + {k} && at'[k] == Loc(n, pos) && |at'| == |at| + 1
  {
    var at' := Relocate(at, n, pos, k);
    assert at'.Keys == at.Keys + {k};
    assert |at'| == |at'.Keys| && |at| == |at.Keys|;
  }

  lemma SlotEntry(u: Tree, at: map<Key, Loc>, k: Key)
    requires Store(u) && Located(u, at) && k in at
    ensures Contents(u, at).Keys == at.Keys && at[k].leaf in u.mem && at[k].pos < |u.mem[at[k].leaf].arr|
    ensures Contents(u, at)[k] == EntryOf(u.mem[at[k].leaf].arr[at[k].pos])
  {
  }

  lemma ContentsKeys(u: Tree, at: map<Key, Loc>)
    requires Store(u) && Located(u, at)
    ensures Contents(u, at).Keys == at.Keys
  {
  }

  lemma InsertContents(t: Tree, u: Tree, at: map<Key, Loc>, n: Ref, pos: nat, s: Slot)
    requires Store(t) && Store(u) && InsertsSlot(t, u, n, pos, s) && Located(t, at)
    requires s.key !in at && Located(u, Relocate(at, n, pos, s.key))
    ensures Contents(u, Relocate(at, n, pos, s.key)) == Contents(t, at)[s.key := EntryOf(s)]
    ensures |Relocate(at, n, pos, s.key)| == |at| + 1
  {
    InsertedAt(t, u, n, pos, s);
    hide Located, Relocate, Contents, InsertsSlot, Store;
    var at' := Relocate(at, n, pos, s.key);
    RelocateKeys(at, n, pos, s.key);
    SlotEntry(u, at', s.key);
    ContentsKeys(t, at);
    var c, c' := Contents(t, at), Contents(u, at');
    forall k | k in c ensures k in c' && c'[k] == c[k] {
      InsertEntry(t, u, at, n, pos, s, k);
    }
    UpdateOnly(c, c', s.key);
  }

  lemma InsertedAt(t: Tree, u: Tree, n: Ref, pos: nat, s: Slot)
    requires Store(t) && Store(u) && InsertsSlot(t, u, n, pos, s)
    ensures n in u.mem && pos < |u.mem[n].arr| && u.mem[n].arr[pos] == s
  {
  }

  ghost predicate ReplacesSlot(t: Tree, u: Tree, n: Ref, pos: nat, s: Slot)
    requires Store(t) && Store(u)
  {
    && Rewrites(t, u, n) && t.g[n].lev == 1
    && pos < t.mem[n].nkeys && s.key == t.mem[n].arr[pos].key
    && u.mem[n] == t.mem[n].(arr := t.mem[n].arr[pos := s])
  }

  lemma ReplaceContents(t: Tree, u: Tree, at: map<Key, Loc>, n: Ref, pos: nat, s: Slot)
    requires Store(t) && Store(u) && ReplacesSlot(t, u, n, pos, s) && Located(t, at)
    ensures Located(u, at) && Contents(u, at) == Contents(t, at)[s.key := EntryOf(s)]
  {
    assert t.mem[n].arr[pos].key in at;
    forall x, j | x in u.mem && u.g[x].lev == 1 && 0 <= j < u.mem[x].nkeys
      ensures u.mem[x].arr[j].key in at && at[u.mem[x].arr[j].key] == Loc(x, j)
    {
      assert t.mem[x].arr[j].key in at;
    }
    assert Located(u, at);
    assert at[s.key] == Loc(n, pos) && u.mem[n].arr[pos] == s;
    hide Located, Store, Contents, ReplacesSlot;
    SlotEntry(u, at, s.key);
    ContentsKeys(t, at);
    var c, c' := Contents(t, at), Contents(u, at);
    forall k | k in c && k != s.key ensures c'[k] == c[k] { ReplaceEntry(t, u, at, n, pos, s, k); }
    UpdateOnly(c, c', s.key);
  }

  lemma ReplaceEntry(t: Tree, u: Tree, at: map<Key, Loc>, n: Ref, pos: nat, s: Slot, k: Key)
    requires Store(t) && Store(u) && ReplacesSlot(t, u, n, pos, s) && Located(t, at) && Located(u, at)
    requires k in at && k != s.key
    ensures Contents(u, at)[k] == Contents(t, at)[k]
  {
    hide Contents;
    SlotEntry(t, at, k);
    SlotEntry(u, at, k);
    assert t.mem[n].arr[pos].key in at;
  }

  lemma ReplaceKeepsInv(t: Tree, u: Tree, n: Ref, pos: nat, s: Slot, over: Ref)
    requires Inv(t, NONE, {}, over) && Store(u) && ReplacesSlot(t, u, n, pos, s) && (over == 0 || over == n)
    ensures Inv(u, NONE, {}, over)
  {
    assert KeysOk(t, n) && SizeOk(t, n, over);
    hide Inv;
    RewriteKeepsInv(t, u, n, over, over);
  }

  /** A leaf's slots do not matter to the chain. */
  lemma RewriteKeepsChain(t: Tree, u: Tree, n: Ref)
    requires Store(t) && Store(u) && ChainOk(t) && Rewrites(t, u, n) && u.mem[n].next == t.mem[n].next
    ensures ChainOk(u)
  {
    forall x | x in u.mem && u.g[x].lev == 1 ensures LinkOk(u, x) {
      assert LinkOk(t, x);
    }
  }

  // ---------------------------------------------------------------- splitting a leaf

  ghost function RelocateHalf(at: map<Key, Loc>, n: Ref, q: Ref): map<Key, Loc>
  {
    map x | x in at ::
      if at[x].leaf == n && at[x].pos >= ORDER + 1 then Loc(q, at[x].pos - (ORDER + 1)) else at[x]
  }

  lemma SplitLocates(t: Tree, u: Tree, at: map<Key, Loc>, n: Ref, q: Ref)
    requires Store(t) && Store(u) && n in t.mem && Splits(t, u, n, q) && t.g[n].lev == 1
    requires t.mem[n].nkeys == 2 * ORDER + 2 && Located(t, at)
    ensures Located(u, RelocateHalf(at, n, q))
  {
    var at' := RelocateHalf(at, n, q);
    forall x, j | x in u.mem && u.g[x].lev == 1 && 0 <= j < u.mem[x].nkeys
      ensures u.mem[x].arr[j].key in at' && at'[u.mem[x].arr[j].key] == Loc(x, j)
    {
      SplitSlot(t, u, at, n, q, x, j);
    }
    forall k | k in at' ensures at'[k].leaf in u.mem && u.g[at'[k].leaf].lev == 1
      && at'[k].pos < u.mem[at'[k].leaf].nkeys && u.mem[at'[k].leaf].arr[at'[k].pos].key == k
    {
      SplitKey(t, u, at, n, q, k);
    }
    hide Splits, RelocateHalf;
  }

  lemma SplitSlot(t: Tree, u: Tree, at: map<Key, Loc>, n: Ref, q: Ref, x: Ref, j: nat)
    requires Store(t) && Store(u) && n in t.mem && Splits(t, u, n, q) && t.g[n].lev == 1
    requires t.mem[n].nkeys == 2 * ORDER + 2 && Located(t, at)
    requires x in u.mem && u.g[x].lev == 1 && j < u.mem[x].nkeys
    ensures var at' := RelocateHalf(at, n, q);
      u.mem[x].arr[j].key in at' && at'[u.mem[x].arr[j].key] == Loc(x, j)
  {
    if x == q {
      assert t.mem[n].arr[j + ORDER + 1].key in at;
    } else {
      assert t.mem[x].arr[j].key in at;
    }
  }

  lemma SplitKey(t: Tree, u: Tree, at: map<Key, Loc>, n: Ref, q: Ref, k: Key)
    requires Store(t) && Store(u) && n in t.mem && Splits(t, u, n, q) && t.g[n].lev == 1
    requires t.mem[n].nkeys == 2 * ORDER + 2 && Located(t, at) && k in at
    ensures var at' := RelocateHalf(at, n, q);
      && at'[k].leaf in u.mem && u.g[at'[k].leaf].lev == 1
      && at'[k].pos < u.mem[at'[k].leaf].nkeys && u.mem[at'[k].leaf].arr[at'[k].pos].key == k
  {
  }

  lemma SplitContents(t: Tree, u: Tree, at: map<Key, Loc>, n: Ref, q: Ref)
    requires Store(t) && Store(u) && n in t.mem && Splits(t, u, n, q) && t.g[n].lev == 1
    requires t.mem[n].nkeys == 2 * ORDER + 2 && Located(t, at) && Located(u, RelocateHalf(at, n, q))
    ensures Contents(u, RelocateHalf(at, n, q)) == Contents(t, at)
    ensures |RelocateHalf(at, n, q)| == |at|
  {
    hide Located, Contents, Splits, Store;
    var at' := RelocateHalf(at, n, q);
    assert at'.Keys == at.Keys;
    assert |at'| == |at'.Keys| && |at| == |at.Keys|;
    ContentsKeys(t, at);
    ContentsKeys(u, at');
    var c, c' := Contents(t, at), Contents(u, at');
    forall k | k in c ensures c'[k] == c[k] {
      SplitEntry(t, u, at, n, q, k);
    }
  }

  ghost function Halved(l: Loc, n: Ref, q: Ref): Loc
  {
    if l.leaf == n && l.pos >= ORDER + 1 then Loc(q, l.pos - (ORDER + 1)) else l
  }

  lemma SplitMoves(t: Tree, u: Tree, n: Ref, q: Ref, l: Loc)
    requires Store(t) && Store(u) && n in t.mem && Splits(t, u, n, q) && t.mem[n].nkeys == 2 * ORDER + 2
    requires l.leaf in t.mem && l.pos < t.mem[l.leaf].nkeys
    ensures var l' := Halved(l, n, q);
      l'.leaf in u.mem && l'.pos < |u.mem[l'.leaf].arr| && u.mem[l'.leaf].arr[l'.pos] == t.mem[l.leaf].arr[l.pos]
  {
  }

  lemma SplitEntry(t: Tree, u: Tree, at: map<Key, Loc>, n: Ref, q: Ref, k: Key)
    requires Store(t) && Store(u) && n in t.mem && Splits(t, u, n, q) && t.g[n].lev == 1
    requires t.mem[n].nkeys == 2 * ORDER + 2 && Located(t, at) && Located(u, RelocateHalf(at, n, q)) && k in at
    ensures var at' := RelocateHalf(at, n, q);
      k in Contents(u, at') && Contents(u, at')[k] == Contents(t, at)[k]
  {
    var at' := RelocateHalf(at, n, q);
    assert k in at' && at'[k] == Halved(at[k], n, q);
    hide Store, Located, Splits, RelocateHalf, Contents, Halved;
    LocatedAt(t, at, k);
    SplitMoves(t, u, n, q, at[k]);
    SlotEntry(t, at, k);
    SlotEntry(u, at', k);
  }

  /** Work above the leaves changes no location and no entry. */
  lemma SameBelowContents(t: Tree, u: Tree, at: map<Key, Loc>)
    requires Store(t) && Store(u) && SameBelow(t, u, 1) && Located(t, at)
    ensures Located(u, at) && Contents(u, at) == Contents(t, at)
  {
    forall x, j | x in u.mem && u.g[x].lev == 1 && 0 <= j < u.mem[x].nkeys
      ensures u.mem[x].arr[j].key in at && at[u.mem[x].arr[j].key] == Loc(x, j)
    {
      assert t.mem[x].arr[j].key in at;
    }
    assert Located(u, at);
    SameMap(t, at, u, at);
  }

  /** split_leaf's last lines: the new leaf goes into the chain right after the old one. */
  ghost predicate Relinks(v: Tree, w: Tree, n: Ref, q: Ref)
  {
    && w.g == v.g && w.root == v.root && w.nlevel == v.nlevel && w.mem.Keys == v.mem.Keys
    && n in v.mem && q in v.mem && n != q
    && (forall x :: x in v.mem && x != n && x != q ==> w.mem[x] == v.mem[x])
    && w.mem[n] == v.mem[n].(next := q) && w.mem[q] == v.mem[q].(next := v.mem[n].next)
  }

  /** What the chain can see of a leaf split followed by work above the leaves. */
  ghost predicate ChainSplit(t: Tree, v: Tree, n: Ref, q: Ref)
    requires Store(t) && Store(v)
  {
    && n in t.mem && q !in t.mem && n in v.mem && q in v.mem
    && t.g[n].lev == 1 && v.g[n].lev == 1 && v.g[q].lev == 1
    && v.g[n].hi == v.g[q].lo && v.g[q].lo.At? && v.g[q].hi == t.g[n].hi && v.g[n].lo == t.g[n].lo
    && (forall x :: x in t.mem && t.g[x].lev == 1 ==> x in v.mem && v.g[x].lev == 1)
    && (forall x :: x in v.mem && v.g[x].lev == 1 && x != q ==> x in t.mem && t.g[x].lev == 1)
    && (forall x :: x in t.mem && t.g[x].lev == 1 ==> v.mem[x].next == t.mem[x].next && v.g[x].lo == t.g[x].lo)
    && (forall x :: x in t.mem && t.g[x].lev == 1 && x != n ==> v.g[x].hi == t.g[x].hi)
  }

  lemma SplitIsChainSplit(t: Tree, u: Tree, v: Tree, n: Ref, q: Ref)
    requires Store(t) && Store(u) && Store(v) && n in t.mem && t.g[n].lev == 1
    requires Splits(t, u, n, q) && SameBelow(u, v, 1)
    ensures ChainSplit(t, v, n, q)
  {
    assert q in v.mem && v.g[q].lo == u.g[q].lo && v.g[q].hi == u.g[q].hi;
    assert v.g[n].hi == u.g[n].hi && v.g[n].lo == u.g[n].lo;
  }

  lemma RelinkChain(t: Tree, v: Tree, w: Tree, n: Ref, q: Ref)
    requires Store(t) && Store(v) && Store(w) && ChainOk(t)
    requires ChainSplit(t, v, n, q) && Relinks(v, w, n, q)
    ensures ChainOk(w)
  {
    assert LinkOk(t, n);
    forall x | x in w.mem && w.g[x].lev == 1 ensures LinkOk(w, x) {
      if x != n && x != q { assert LinkOk(t, x); }
    }
  }

  lemma RelinkContents(v: Tree, w: Tree, at: map<Key, Loc>, n: Ref, q: Ref)
    requires Store(v) && Store(w) && Relinks(v, w, n, q) && Located(v, at)
    ensures Located(w, at) && Contents(w, at) == Contents(v, at)
  {
    forall x, j | x in w.mem && w.g[x].lev == 1 && 0 <= j < w.mem[x].nkeys
      ensures w.mem[x].arr[j].key in at && at[w.mem[x].arr[j].key] == Loc(x, j)
    {
      assert v.mem[x].arr[j].key in at;
    }
    assert Located(w, at);
    SameMap(v, at, w, at);
  }

  lemma SingleLeaf(t: Tree, n: Ref)
    requires t == Tree(map[n := Blank()], map[n := Info(1, NegInf, PosInf, 0, 0)], n, 1) && n != 0
    ensures Inv(t, NONE, {}, 0) && Located(t, map[]) && ChainOk(t) && Contents(t, map[]) == map[]
  {
  }

  lemma RoomFacts(t: Tree, n: Ref)
    requires Inv(t, NONE, {}, 0) && n in t.mem && t.g[n].lev == 1
    ensures Store(t) && t.mem[n].nkeys <= 2 * ORDER + 1 && KeysOk(t, n)
  {
    assert SizeOk(t, n, 0) && KeysOk(t, n);
  }

  /** Inserting a slot where it belongs keeps everything but the leaf's size limit. */
  lemma InsertGood(t: Tree, u: Tree, at: map<Key, Loc>, n: Ref, pos: nat, s: Slot)
    requires Inv(t, NONE, {}, 0) && Located(t, at) && ChainOk(t)
    requires Store(u) && InsertsSlot(t, u, n, pos, s) && s.key !in at && Covers(t.g[n], s.key)
    requires forall j :: 0 <= j < pos ==> t.mem[n].arr[j].key < s.key
    requires forall j :: pos <= j < t.mem[n].nkeys ==> s.key < t.mem[n].arr[j].key
    ensures var at' := Relocate(at, n, pos, s.key);
      && Inv(u, NONE, {}, n) && Located(u, at') && ChainOk(u) && |at'| == |at| + 1
      && at'.Keys == at.Keys + {s.key}
      && Contents(u, at') == Contents(t, at)[s.key := EntryOf(s)]
  {
    RoomFacts(t, n);
    hide Inv, Located, ChainOk, Contents;
    InsertKeys(t, u, n, pos, s);
    RewriteKeepsInv(t, u, n, 0, n);
    InsertLocates(t, u, at, n, pos, s);
    InsertContents(t, u, at, n, pos, s);
    RewriteKeepsChain(t, u, n);
  }

  lemma InsertStep(t: Tree, u: Tree, n: Ref, pos: nat, b: seq<Slot>)
    requires Store(t) && n in t.mem && t.g[n].lev == 1 && t.mem[n].nkeys < CAP && |b| == CAP && pos <= t.mem[n].nkeys
    requires u == t.(mem := t.mem[n := t.mem[n].(arr := b, nkeys := t.mem[n].nkeys + 1)])
    requires Inserted(t.mem[n].arr, b, t.mem[n].nkeys, pos, b[pos])
    ensures Store(u) && InsertsSlot(t, u, n, pos, b[pos])
  {
  }

  lemma SetStep(t: Tree, u: Tree, n: Ref, pos: nat, s: Slot)
    requires Store(t) && n in t.mem && t.g[n].lev == 1 && pos < t.mem[n].nkeys && s.key == t.mem[n].arr[pos].key
    requires u == t.(mem := t.mem[n := t.mem[n].(arr := t.mem[n].arr[pos := s])])
    ensures Store(u) && ReplacesSlot(t, u, n, pos, s)
  {
  }

  /** A full leaf split in two, its sibling not yet known to the parent. */
  lemma SplitLeafStep(t: Tree, u: Tree, at: map<Key, Loc>, n: Ref, q: Ref)
    requires Inv(t, NONE, {}, n) && Located(t, at) && n in t.mem && n != 0 && t.g[n].lev == 1
    requires t.mem[n].nkeys == 2 * ORDER + 2 && Splits(t, u, n, q)
    ensures Inv(u, Pending(n, q), {}, 0) && u.g[q].lo == At(t.mem[n].arr[ORDER + 1].key)
    ensures u.g[n].lev == 1 && n in u.mem && q in u.mem
    ensures var at' := RelocateHalf(at, n, q); Located(u, at') && Contents(u, at') == Contents(t, at) && |at'| == |at|
  {
    SplitKeepsInv(t, u, {}, n, q);
    forall c | c in Moved(u, q) ensures false {
      MovedLevel(u, Pending(n, q), {} + Moved(u, q), c);
    }
    assert {} + Moved(u, q) == {};
    SplitLocates(t, u, at, n, q);
    SplitContents(t, u, at, n, q);
  }

  lemma SplitLeafAbove(t: Tree, u: Tree, v: Tree, at: map<Key, Loc>, n: Ref, q: Ref)
    requires Store(t) && Store(u) && Inv(v, NONE, {}, 0) && n in t.mem && t.g[n].lev == 1
    requires Splits(t, u, n, q) && SameBelow(u, v, 1) && Located(u, at)
    ensures Store(v) && n in v.mem && q in v.mem
    ensures ChainSplit(t, v, n, q) && Located(v, at) && Contents(v, at) == Contents(u, at)
  {
    InvStore(v, NONE, {}, 0);
    hide Inv;
    SplitIsChainSplit(t, u, v, n, q);
    hide Splits;
    SameBelowContents(u, v, at);
  }

  /** A leaf's `next` does not matter to the structural invariant. */
  lemma SetNext(v: Tree, w: Tree, n: Ref, m: Ref)
    requires Inv(v, NONE, {}, 0) && n in v.mem && v.g[n].lev == 1
    requires w == v.(mem := v.mem[n := v.mem[n].(next := m)])
    ensures Inv(w, NONE, {}, 0)
  {
    assert KeysOk(v, n) && SizeOk(v, n, 0);
    hide Inv;
    RewriteKeepsInv(v, w, n, 0, 0);
  }

  lemma RelinkStep(v: Tree, w: Tree, n: Ref, q: Ref)
    requires Inv(v, NONE, {}, 0) && n in v.mem && q in v.mem && n != q && v.g[n].lev == 1 && v.g[q].lev == 1
    requires w == v.(mem := v.mem[n := v.mem[n].(next := q)][q := v.mem[q].(next := v.mem[n].next)])
    ensures Store(v) && Store(w) && Relinks(v, w, n, q) && Inv(w, NONE, {}, 0)
  {
    InvStore(v, NONE, {}, 0);
    hide Inv;
    var x := v.(mem := v.mem[n := v.mem[n].(next := q)]);
    SetNext(v, x, n, q);
    SetNext(x, w, q, v.mem[n].next);
    InvStore(w, NONE, {}, 0);
  }

  ghost predicate MinOrRoot(t: Tree, n: Ref)
    requires n in t.mem
  {
    n == t.root || ORDER + 1 <= t.mem[n].nkeys
  }

  lemma NotFull(t: Tree, n: Ref)
    requires Inv(t, NONE, {}, n) && n in t.mem && t.g[n].lev == 1 && MinOrRoot(t, n)
    requires t.mem[n].nkeys <= 2 * ORDER + 1
    ensures Inv(t, NONE, {}, 0)
  {
    forall x | x in t.mem ensures SizeOk(t, x, 0) {
      assert SizeOk(t, x, n);
    }
  }

  /** The leaf responsible for a key is where that key is, if it is stored at all. */
  lemma LeafFacts(t: Tree, at: map<Key, Loc>, n: Ref, key: Key)
    requires Inv(t, NONE, {}, 0) && Located(t, at) && n in t.mem && t.g[n].lev == 1 && Covers(t.g[n], key)
    ensures Store(t) && KeysOk(t, n) && t.mem[n].nkeys <= 2 * ORDER + 1 && MinOrRoot(t, n)
    ensures key in at <==> key in Contents(t, at)
    ensures key in at <==> exists j :: 0 <= j < t.mem[n].nkeys && t.mem[n].arr[j].key == key
    ensures forall j :: 0 <= j < t.mem[n].nkeys && t.mem[n].arr[j].key == key ==>
      key in at && Contents(t, at)[key] == EntryOf(t.mem[n].arr[j])
  {
    RoomFacts(t, n);
    assert SizeOk(t, n, 0);
    if key in at {
      var l := at[key];
      assert KeysOk(t, l.leaf);
      assert KeyFits(t.g[l.leaf], t.mem[l.leaf].arr[l.pos].key);
      assert Apart(t, l.leaf, n);
    }
  }

  lemma Overwrite<K, V>(m: map<K, V>, k: K, a: V, b: V)
    ensures m[k := a][k := b] == m[k := b]
  {
  }

  lemma RelinkGood(t: Tree, v: Tree, w: Tree, at: map<Key, Loc>, n: Ref, q: Ref)
    requires Inv(v, NONE, {}, 0) && Store(v) && Store(t) && ChainOk(t) && ChainSplit(t, v, n, q) && Located(v, at)
    requires w == v.(mem := v.mem[n := v.mem[n].(next := q)][q := v.mem[q].(next := v.mem[n].next)])
    ensures Inv(w, NONE, {}, 0) && w.nlevel > 0 && Located(w, at) && ChainOk(w) && Contents(w, at) == Contents(v, at)
  {
    assert n in v.mem && q in v.mem && n != q && v.g[n].lev == 1 && v.g[q].lev == 1;
    hide Inv, Located, ChainOk, Contents, ChainSplit;
    RelinkStep(v, w, n, q);
    RelinkContents(v, w, at, n, q);
    RelinkChain(t, v, w, n, q);
    InvStore(w, NONE, {}, 0);
  }

  lemma LeafKeys(t: Tree, n: Ref)
    requires Store(t) && n in t.mem && KeysOk(t, n)
    ensures t.mem[n].nkeys <= |t.mem[n].arr| && Ascending(t.mem[n].arr, t.mem[n].nkeys)
  {
  }
}
