/** metis/lib/btreebktmgr.c: a worker's row of buckets, and the rehash of the row filled while sampling into
    a row with another number of columns. */
module Buckets {
  import opened BSearch
  import opened BTreeShape
  import opened BTreeScan
  import opened BTree

  type View = map<Key, Entry>

  /** The contents of a row after map_put_kvs. */
  ghost function Put(vs: seq<View>, s: Slot): seq<View>
    requires |vs| > 0
  {
    var col := s.hash % |vs|;
    vs[col := vs[col][s.key := EntryOf(s)]]
  }

  ghost predicate At(vs: seq<View>, h: Key -> nat, c: nat, k: Key)
    requires c < |vs| && k in vs[c]
  {
    vs[c][k].hash == h(k) && c == h(k) % |vs|
  }

  /** Every entry has its key's hash and is in the column of that hash. */
  ghost predicate Placed(vs: seq<View>, h: Key -> nat)
  {
    |vs| > 0 && forall c: nat, k: Key {:trigger k in vs[c]} :: c < |vs| && k in vs[c] ==> At(vs, h, c, k)
  }

  /** The column a key belongs to. */
  ghost function Column(vs: seq<View>, h: Key -> nat, k: Key): View
    requires |vs| > 0
  {
    vs[h(k) % |vs|]
  }

  /** The row as one map: every entry in its place, and there the same as in `m`. */
  ghost predicate Maps(vs: seq<View>, h: Key -> nat, m: View)
  {
    && Placed(vs, h)
    && forall k: Key {:trigger Column(vs, h, k)} {:trigger k in m} ::
         (k in m <==> k in Column(vs, h, k)) && (k in m ==> m[k] == Column(vs, h, k)[k])
  }

  lemma PutMaps(vs: seq<View>, h: Key -> nat, m: View, s: Slot)
    requires Maps(vs, h, m) && s.hash == h(s.key)
    ensures s.key !in m ==> s.key !in vs[s.hash % |vs|]
    ensures Maps(Put(vs, s), h, m[s.key := EntryOf(s)])
  {
    var vs', m' := Put(vs, s), m[s.key := EntryOf(s)];
    var col := s.hash % |vs|;
    assert Column(vs, h, s.key) == vs[col];
    forall c: nat, k: Key {:trigger k in vs'[c]} | c < |vs'| && k in vs'[c] ensures At(vs', h, c, k) {
      if k != s.key || c != col { assert k in vs[c] && At(vs, h, c, k); }
    }
    forall k: Key ensures (k in m' <==> k in Column(vs', h, k)) && (k in m' ==> m'[k] == Column(vs', h, k)[k]) {
      assert k in m <==> k in Column(vs, h, k);
    }
  }

  // ---------------------------------------------------------------- listings

  /** `m` with the slots of a listing added. */
  ghost function Plus(m: View, ss: seq<Slot>): View
  {
    if ss == [] then m else Plus(m, ss[..|ss| - 1])[ss[|ss| - 1].key := EntryOf(ss[|ss| - 1])]
  }

  lemma KeyIn(ss: seq<Slot>, k: Key)
    requires ss != []
    ensures HasKey(ss, k) <==> HasKey(ss[..|ss| - 1], k) || k == ss[|ss| - 1].key
  {
    var rest := ss[..|ss| - 1];
    if j :| 0 <= j < |ss| && ss[j].key == k && j < |ss| - 1 { assert rest[j].key == k; }
    if j :| 0 <= j < |rest| && rest[j].key == k { assert ss[j].key == k; }
    if k == ss[|ss| - 1].key { assert ss[|ss| - 1].key == k; }
  }

  lemma {:induction false} PlusHas(m: View, ss: seq<Slot>, k: Key)
    ensures k in Plus(m, ss) <==> k in m || HasKey(ss, k)
  {
    if ss != [] {
      PlusHas(m, ss[..|ss| - 1], k);
      KeyIn(ss, k);
    }
  }

  lemma {:induction false} PlusGet(m: View, e: View, ss: seq<Slot>, k: Key)
    requires Ascending(ss, |ss|) && forall j :: 0 <= j < |ss| ==> ss[j].key in e && e[ss[j].key] == EntryOf(ss[j])
    ensures k in Plus(m, ss) && HasKey(ss, k) ==> k in e && Plus(m, ss)[k] == e[k]
    ensures k in Plus(m, ss) && !HasKey(ss, k) ==> k in m && Plus(m, ss)[k] == m[k]
  {
    hide HasKey;
    PlusHas(m, ss, k);
    if ss == [] {
      NoKey(k);
    } else {
      PlusGet(m, e, ss[..|ss| - 1], k);
      PlusHas(m, ss[..|ss| - 1], k);
      KeyIn(ss, k);
    }
  }

  lemma NoKey(k: Key)
    ensures !HasKey([], k)
  {
  }

  /** Adding a listing of `e` adds `e`. */
  lemma PlusIs(m: View, e: View, ss: seq<Slot>)
    requires Lists(ss, e)
    ensures Plus(m, ss) == m + e
  {
    var r := Plus(m, ss);
    forall k: Key ensures k in r <==> k in m + e {
      PlusHas(m, ss, k);
      if j :| 0 <= j < |ss| && ss[j].key == k { assert k in e; }
    }
    forall k | k in r ensures r[k] == (m + e)[k] {
      PlusGet(m, e, ss, k);
      PlusHas(m, ss, k);
    }
  }

  // ---------------------------------------------------------------- rows of trees

  /** Separate, valid trees. */
  ghost predicate RowOk(row: seq<BTree>)
    reads row
  {
    && |row| > 0 && (forall i, j :: 0 <= i < j < |row| ==> row[i] != row[j])
    && forall i :: 0 <= i < |row| ==> row[i].Valid()
  }

  ghost function Views(row: seq<BTree>): (vs: seq<View>)
    requires RowOk(row)
    reads row
    ensures |vs| == |row|
  {
    seq(|row|, i requires 0 <= i < |row| reads row requires RowOk(row) => row[i].View())
  }

  /** map_put_kvs: an entry whose key is new to the row; so the assertion in pch_insert_kvs holds */
  method MapPutKvs(row: seq<BTree>, kvs: Slot, ghost h: Key -> nat, ghost m: View)
    requires RowOk(row) && Maps(Views(row), h, m) && kvs.hash == h(kvs.key) && kvs.key !in m
    modifies row
    ensures RowOk(row) && Maps(Views(row), h, m[kvs.key := EntryOf(kvs)])
  {
    hide Maps, BTree.Valid, BTree.View;
    ghost var vs := Views(row);
    PutMaps(vs, h, m, kvs);
    var col := kvs.hash % |row|;
    row[col].InsertKvs(kvs);
    assert Views(row) == Put(vs, kvs);
  }

  /** mbm_map_put */
  method MapPut(row: seq<BTree>, key: Key, val: Value, ghost h: Key -> nat, hash: nat, ghost m: View)
    requires RowOk(row) && Maps(Views(row), h, m) && hash == h(key)
    modifies row
    ensures RowOk(row)
    ensures Maps(Views(row), h, m[key := Entry((if key in m then m[key].vals else []) + [val], hash)])
  {
    hide Maps, BTree.Valid, BTree.View;
    ghost var vs := Views(row);
    MapsAt(vs, h, m, key);
    var col := hash % |row|;
    var isNew := row[col].InsertKv(key, val, hash);
    ghost var s := Slot(key, (if key in m then m[key].vals else []) + [val], 0, hash);
    PutMaps(vs, h, m, s);
    assert [] + [val] == [val];
    assert Views(row) == Put(vs, s);
  }

  lemma MapsAt(vs: seq<View>, h: Key -> nat, m: View, k: Key)
    requires Maps(vs, h, m)
    ensures |vs| > 0 && (k in m <==> k in vs[h(k) % |vs|])
    ensures k in m ==> m[k] == vs[h(k) % |vs|][k] && m[k].hash == h(k)
  {
    assert Column(vs, h, k) == vs[h(k) % |vs|];
    if k in m { assert At(vs, h, h(k) % |vs|, k); }
  }

  // ---------------------------------------------------------------- rehashing

  /** The next entry of a listing is new to the row. */
  lemma NextIsNew(m: View, e: View, ss: seq<Slot>, j: nat)
    requires Lists(ss, e) && j < |ss| && forall k :: k in e ==> k !in m
    ensures ss[j].key !in Plus(m, ss[..j]) && ss[j].key in e && e[ss[j].key] == EntryOf(ss[j])
    ensures Plus(m, ss[..j + 1]) == Plus(m, ss[..j])[ss[j].key := EntryOf(ss[j])]
  {
    PlusHas(m, ss[..j], ss[j].key);
    forall i | 0 <= i < |ss[..j]| ensures ss[..j][i].key != ss[j].key { assert ss[i].key < ss[j].key; }
    assert ss[..j + 1][..j] == ss[..j];
  }

  /** The bucket is freed, and all slots of the leaves `ls` are wiped. */
  ghost predicate Emptied(entry: BTree, ls: seq<Ref>)
    reads entry
  {
    entry.nlevel == 0 && forall n {:trigger n in ls} :: n in ls ==>
      n in entry.mem && WipedTo(entry.mem, n, entry.mem[n].nkeys)
  }

  /** The leaves `ls` hold the whole contents of a bucket. */
  ghost predicate Holds(entry: BTree, ls: seq<Ref>)
    requires entry.Valid()
    reads entry
  {
    Lists(entry.Slotted(ls), entry.View())
  }

  /** bkt_rehash: all entries of a bucket go to their columns of the row, and the slots they were in are wiped */
  method BktRehash(entry: BTree, row: seq<BTree>, ghost h: Key -> nat, ghost m: View) returns (ghost ls: seq<Ref>)
    requires entry.Valid() && RowOk(row) && entry !in row && Maps(Views(row), h, m)
    requires forall k {:trigger k in entry.View()} :: k in entry.View() ==> entry.View()[k].hash == h(k) && k !in m
    modifies row, entry
    ensures RowOk(row) && Maps(Views(row), h, m + old(entry.View()))
    ensures Emptied(entry, ls) && old(Holds(entry, ls))
  {
    hide Maps, BTree.Valid, BTree.View, BTree.Walking, BTree.Rest, BTree.Behind, BTree.Slotted, Lists, Plus;
    ghost var e := entry.View();
    var iter := entry.IterBegin();
    if iter == null {
      assert m + e == m;
      ls := [];
      NothingHeld(entry);
      return;
    }
    ls := iter.past + iter.leaves;
    ghost var all := entry.Rest(iter);
    Drain(entry, iter, row, h, m, e);
    PlusIs(m, e, all);
    AllBehind(entry, iter);
    entry.ShallowFree();
  }

  /** The loop of bkt_rehash: what the iterator has before it goes to the row, and is wiped behind it */
  method Drain(entry: BTree, iter: Iter, row: seq<BTree>, ghost h: Key -> nat, ghost m: View, ghost e: View)
    requires entry.Walking(iter) && entry.Behind(iter) && Lists(entry.Rest(iter), e)
    requires RowOk(row) && entry !in row && Maps(Views(row), h, m)
    requires forall k {:trigger k in e} :: k in e ==> e[k].hash == h(k) && k !in m
    modifies row, entry`mem, iter
    ensures RowOk(row) && Maps(Views(row), h, Plus(m, old(entry.Rest(iter))))
    ensures entry.Behind(iter) && LeftAt(entry, iter) && iter.past + iter.leaves == old(iter.past + iter.leaves)
  {
    hide Maps, BTree.Valid, BTree.View, BTree.Walking, BTree.Rest, BTree.Behind, Lists, Plus, LeftAt;
    ghost var all, j := entry.Rest(iter), 0;
    var kvs := NextOf(entry, iter, row, all, 0);
    NonePlus(m, all);
    while kvs.Some?
      invariant entry.Walking(iter) && entry.Behind(iter) && iter.past + iter.leaves == old(iter.past + iter.leaves)
      invariant j <= |all| && RowOk(row) && Maps(Views(row), h, Plus(m, all[..j]))
      invariant if kvs.Some? then j < |all| && kvs.value == all[j] && entry.Rest(iter) == all[j + 1..]
                else j == |all| && LeftAt(entry, iter)
      decreases |all| - j
    {
      NextIsNew(m, e, all, j);
      MapPutKvs(row, kvs.value, h, Plus(m, all[..j]));
      j := j + 1;
      kvs := NextOf(entry, iter, row, all, j);
    }
    assert all[..|all|] == all;
  }

  /** pch_iter_next_kvs does not disturb the row */
  method NextOf(entry: BTree, iter: Iter, row: seq<BTree>, ghost all: seq<Slot>, ghost j: nat)
    returns (kvs: Option<Slot>)
    requires entry.Walking(iter) && entry.Behind(iter) && j <= |all| && entry.Rest(iter) == all[j..]
    requires RowOk(row) && entry !in row
    modifies entry`mem, iter
    ensures RowOk(row) && Views(row) == old(Views(row))
    ensures entry.Walking(iter) && entry.Behind(iter) && iter.past + iter.leaves == old(iter.past + iter.leaves)
    ensures if kvs.Some? then j < |all| && kvs.value == all[j] && entry.Rest(iter) == all[j + 1..]
            else j == |all| && LeftAt(entry, iter)
  {
    hide BTree.Valid, BTree.View, BTree.Walking, BTree.Rest, BTree.Behind;
    ghost var rest := entry.Rest(iter);
    kvs := entry.IterNext(iter, true);
    if kvs.Some? { Advance(all, j, rest, kvs.value, entry.Rest(iter)); }
  }

  /** The iterator is at the end of the last leaf. */
  ghost predicate LeftAt(entry: BTree, it: Iter)
    reads entry, it
  {
    it.leaves == [it.node] && it.node in entry.mem && it.next == entry.mem[it.node].nkeys
  }

  lemma AllBehind(entry: BTree, it: Iter)
    requires entry.Behind(it) && LeftAt(entry, it)
    ensures forall n {:trigger n in it.past + it.leaves} :: n in it.past + it.leaves ==>
      n in entry.mem && WipedTo(entry.mem, n, entry.mem[n].nkeys)
  {
    forall n | n in it.past + it.leaves ensures n in entry.mem && WipedTo(entry.mem, n, entry.mem[n].nkeys) {
      assert n in it.past || n == it.node;
    }
  }

  lemma NothingHeld(entry: BTree)
    requires entry.Valid() && entry.View() == map[]
    ensures Holds(entry, [])
  {
  }

  lemma NonePlus(m: View, ss: seq<Slot>)
    ensures Plus(m, ss[..0]) == m
  {
  }

  lemma Advance(all: seq<Slot>, j: nat, rest: seq<Slot>, s: Slot, rest': seq<Slot>)
    requires j <= |all| && rest == all[j..] && rest == [s] + rest'
    ensures j < |all| && s == all[j] && rest' == all[j + 1..]
  {
    assert rest'  == rest[1..];
  }

  /** The first `n` columns as one map. */
  ghost function Upto(vs: seq<View>, n: nat): View
    requires n <= |vs|
  {
    if n == 0 then map[] else Upto(vs, n - 1) + vs[n - 1]
  }

  lemma {:induction false} UptoHas(vs: seq<View>, h: Key -> nat, m: View, n: nat, k: Key)
    requires Maps(vs, h, m) && n <= |vs|
    ensures k in Upto(vs, n) <==> k in m && h(k) % |vs| < n
    ensures k in Upto(vs, n) ==> Upto(vs, n)[k] == m[k]
  {
    MapsAt(vs, h, m, k);
    if n > 0 {
      UptoHas(vs, h, m, n - 1, k);
      if k in vs[n - 1] { assert At(vs, h, n - 1, k); }
    }
  }

  lemma UptoAll(vs: seq<View>, h: Key -> nat, m: View)
    requires Maps(vs, h, m)
    ensures Upto(vs, |vs|) == m
  {
    var r := Upto(vs, |vs|);
    forall k: Key ensures (k in r <==> k in m) && (k in r ==> r[k] == m[k]) { UptoHas(vs, h, m, |vs|, k); }
  }

  lemma ColumnFits(vs: seq<View>, h: Key -> nat, m: View, i: nat)
    requires Maps(vs, h, m) && i < |vs|
    ensures forall k {:trigger k in vs[i]} :: k in vs[i] ==> vs[i][k].hash == h(k) && k !in Upto(vs, i)
  {
    forall k {:trigger k in vs[i]} | k in vs[i] ensures vs[i][k].hash == h(k) && k !in Upto(vs, i) {
      assert At(vs, h, i, k);
      UptoHas(vs, h, m, i, k);
    }
  }

  /** mbm_rehash_bak: a row with any other number of columns ends up with the same map, every entry in the
      column of its hash, and no key is met twice on the way */
  method RehashBak(bak: seq<BTree>, row: seq<BTree>, ghost h: Key -> nat, ghost m: View)
    returns (ghost lss: seq<seq<Ref>>)
    requires RowOk(bak) && RowOk(row) && (forall b :: b in bak ==> b !in row)
    requires Maps(Views(bak), h, m) && Maps(Views(row), h, map[])
    modifies bak, row
    ensures RowOk(row) && Maps(Views(row), h, m)
    ensures |lss| == |bak| && forall i :: 0 <= i < |bak| ==> Emptied(bak[i], lss[i]) && old(Holds(bak[i], lss[i]))
  {
    hide Maps, BTree.Valid, BTree.View, Upto, Lists, BTree.Slotted, WipedTo;
    ghost var vs := Views(bak);
    NoColumns(vs);
    lss := [];
    for i := 0 to |bak|
      invariant RowOk(row) && Maps(Views(row), h, Upto(vs, i)) && |lss| == i
      invariant forall j {:trigger bak[j]} :: i <= j < |bak| ==> unchanged(bak[j])
      invariant forall j :: 0 <= j < i ==> Emptied(bak[j], lss[j]) && old(Holds(bak[j], lss[j]))
    {
      ColumnFits(vs, h, m, i);
      NextColumn(vs, i);
      forall j | 0 <= j < |bak| ensures bak[j] !in row && (j != i ==> bak[j] != bak[i]) { assert bak[j] in bak; }
      ghost var ls := BktRehash(bak[i], row, h, Upto(vs, i));
      lss := lss + [ls];
    }
    UptoAll(vs, h, m);
  }

  lemma NoColumns(vs: seq<View>)
    ensures Upto(vs, 0) == map[]
  {
  }

  lemma NextColumn(vs: seq<View>, i: nat)
    requires i < |vs|
    ensures Upto(vs, i + 1) == Upto(vs, i) + vs[i]
  {
  }

  // ---------------------------------------------------------------- sampling, rehash, mapping

  /** mbm_mbks_init: a row of empty buckets */
  method NewRow(cols: nat, ghost h: Key -> nat) returns (row: seq<BTree>)
    requires cols > 0
    ensures |row| == cols && RowOk(row) && Maps(Views(row), h, map[]) && fresh(row)
  {
    hide BTree.Valid, BTree.View;
    row := [];
    for i := 0 to cols
      invariant |row| == i && fresh(row) && forall b :: b in row ==> b.Valid() && b.View() == map[]
      invariant forall j, k :: 0 <= j < k < |row| ==> row[j] != row[k]
    {
      var b := new BTree();
      row := row + [b];
    }
    forall c | 0 <= c < |row| ensures Views(row)[c] == map[] { assert row[c] in row; }
  }

  /** The pairs a map worker emits, with their keys' hashes. */
  ghost predicate Emitted(puts: seq<Op>, h: Key -> nat)
  {
    forall i {:trigger puts[i]} :: 0 <= i < |puts| ==> puts[i].Kv? && puts[i].hash == h(puts[i].key)
  }

  /** A worker emits the pairs from `lo` to `hi` */
  method PutAll(row: seq<BTree>, puts: seq<Op>, lo: nat, hi: nat, ghost h: Key -> nat)
    requires lo <= hi <= |puts| && Emitted(puts, h) && RowOk(row) && Maps(Views(row), h, Replay(puts[..lo]))
    modifies row
    ensures RowOk(row) && Maps(Views(row), h, Replay(puts[..hi]))
  {
    hide Maps, BTree.Valid, BTree.View, Replay;
    for i := lo to hi
      invariant RowOk(row) && Maps(Views(row), h, Replay(puts[..i]))
    {
      ReplayNext(Views(row), puts, i, h);
      MapPut(row, puts[i].key, puts[i].val, h, puts[i].hash, Replay(puts[..i]));
    }
  }

  lemma ReplayNext(vs: seq<View>, puts: seq<Op>, i: nat, h: Key -> nat)
    requires i < |puts| && Emitted(puts, h) && Maps(vs, h, Replay(puts[..i]))
    ensures var m, op := Replay(puts[..i]), puts[i];
      op.Kv? && op.hash == h(op.key) &&
      Replay(puts[..i + 1]) == m[op.key := Entry((if op.key in m then m[op.key].vals else []) + [op.val], op.hash)]
  {
    hide Maps;
    assert puts[..i + 1][..i] == puts[..i];
    MapsAt(vs, h, Replay(puts[..i]), puts[i].key);
    assert [] + [puts[i].val] == [puts[i].val];
  }

  /** A worker's row over a whole job: what it emits while sampling goes to a row of `cols` buckets, which is then
      rehashed into one of `cols'` buckets for the rest. The row ends up as if everything had been put into one map. */
  method SampleThenMap(puts: seq<Op>, nsampled: nat, cols: nat, cols': nat, ghost h: Key -> nat)
    returns (row: seq<BTree>)
    requires nsampled <= |puts| && Emitted(puts, h) && cols > 0 && cols' > 0
    ensures |row| == cols' && RowOk(row) && Maps(Views(row), h, Replay(puts))
  {
    hide Maps, BTree.Valid, BTree.View;
    var bak := NewRow(cols, h);
    assert puts[..0] == [];
    PutAll(bak, puts, 0, nsampled, h);
    row := NewRow(cols', h);
    ghost var lss := RehashBak(bak, row, h, Replay(puts[..nsampled]));
    PutAll(row, puts, nsampled, |puts|, h);
    assert puts[..|puts|] == puts;
  }
}
