/** metis/lib/keyvals_btree.c: the collection of sorted keys with their value lists. */
module BTree {
  import opened BSearch
  import opened BTreeShape
  import opened BTreeSplit
  import opened BTreeLeaf
  import opened BTreeScan

  /** The two shifting loops of btree_insert_index. */
  method ShiftIn(a: seq<Slot>, n: nat, i: nat, key: Key, right: Ref) returns (b: seq<Slot>)
    requires |a| == CAP && i <= n && n + 1 < CAP
    ensures Shifted(a, b, n, i, key, right)
  {
    b := a;
    var j := n;
    while j > i
      invariant i <= j <= n && |b| == CAP
      invariant forall x :: 0 <= x < CAP ==> b[x].child == a[x].child
      invariant forall x :: 0 <= x <= j ==> b[x].key == a[x].key
      invariant forall x :: j < x <= n ==> b[x].key == a[x - 1].key
    {
      b := b[j := b[j].(key := b[j - 1].key)];
      j := j - 1;
    }
    ghost var c := b;
    j := n + 1;
    while j > i + 1
      invariant i + 1 <= j <= n + 1 && |b| == CAP
      invariant forall x :: 0 <= x < CAP ==> b[x].key == c[x].key
      invariant forall x :: 0 <= x <= j && x <= n ==> b[x].child == a[x].child
      invariant forall x :: j < x <= n + 1 ==> b[x].child == a[x - 1].child
    {
      b := b[j := b[j].(child := b[j - 1].child)];
      j := j - 1;
    }
    b := b[i := b[i].(key := key)];
    b := b[i + 1 := b[i + 1].(child := right)];
  }

  /** insert_key's memmove and the new slot's fields: key set, no values, the old hash left behind. */
  method MakeRoom(a: seq<Slot>, n: nat, pos: nat, key: Key) returns (b: seq<Slot>)
    requires |a| == CAP && pos <= n < CAP
    ensures |b| == CAP && Inserted(a, b, n, pos, b[pos]) && b[pos].key == key && b[pos].vals == []
  {
    b := a;
    if pos < n {
      b := a[..pos + 1] + a[pos..n] + a[n + 1..];
    }
    b := b[pos := b[pos].(key := key, vals := [])];
  }

  datatype Option<T> = None | Some(value: T)

  /** iter_t. `past` are the leaves done with, `leaves` those still to be visited, the current one first. */
  class Iter {
    var next: nat
    var node: Ref
    ghost var past: seq<Ref>
    ghost var leaves: seq<Ref>

    constructor (node: Ref, ghost leaves: seq<Ref>)
      ensures this.node == node && next == 0 && past == [] && this.leaves == leaves
    {
      this.node, next, past, this.leaves := node, 0, [], leaves;
    }
  }

  const WIPED: Slot := Slot(0.0, [], 0, 0)

  /** Memory after the slot an iterator stood on was zeroed. */
  function Wiped(mem: map<Ref, Node>, n: Ref, i: nat): map<Ref, Node>
  {
    if n in mem && i < |mem[n].arr| then mem[n := mem[n].(arr := mem[n].arr[i := WIPED])] else mem
  }

  /** The first `n` slots of a node are zeroed. */
  ghost predicate WipedTo(mem: map<Ref, Node>, x: Ref, n: nat)
  {
    x in mem && n <= |mem[x].arr| && forall i {:trigger mem[x].arr[i]} :: 0 <= i < n ==> mem[x].arr[i] == WIPED
  }

  lemma StillWiped(mem: map<Ref, Node>, mem': map<Ref, Node>, x: Ref, i: nat)
    requires x in mem && i < |mem[x].arr| && mem' == Wiped(mem, x, i)
    ensures forall y, n {:trigger WipedTo(mem, y, n)} :: WipedTo(mem, y, n) ==> WipedTo(mem', y, n)
    ensures WipedTo(mem, x, i) ==> WipedTo(mem', x, i + 1)
    ensures forall y :: y in mem ==> y in mem' && mem'[y].nkeys == mem[y].nkeys
  {
  }

  /** A call of pch_insert_kv, or of pch_insert_kvs with a whole entry. */
  datatype Op = Kv(key: Key, val: Value, hash: nat) | Kvs(key: Key, vals: seq<Value>, hash: nat)

  function Given(op: Op): seq<Value> { if op.Kv? then [op.val] else op.vals }

  /** The map that a sequence of insertions should build. */
  function Replay(ops: seq<Op>): map<Key, Entry>
  {
    if ops == [] then map[]
    else
      var m, op := Replay(ops[..|ops| - 1]), ops[|ops| - 1];
      if op.key in m then m[op.key := Entry(m[op.key].vals + Given(op), m[op.key].hash)]
      else m[op.key := Entry(Given(op), op.hash)]
  }

  /** pch_insert_kvs is called with keys that are not there, as it asserts. */
  predicate Legal(ops: seq<Op>)
  {
    forall i {:trigger ops[i]} :: 0 <= i < |ops| && ops[i].Kvs? ==> ops[i].key !in Replay(ops[..i])
  }

  /** The values given for one key, in insertion order. */
  function ValuesFor(ops: seq<Op>, k: Key): seq<Value>
  {
    if ops == [] then []
    else ValuesFor(ops[..|ops| - 1], k) + if ops[|ops| - 1].key == k then Given(ops[|ops| - 1]) else []
  }

  ghost predicate Mentions(ops: seq<Op>, k: Key) { exists i {:trigger ops[i]} :: 0 <= i < |ops| && ops[i].key == k }

  lemma MentionsLast(ops: seq<Op>, k: Key)
    requires ops != []
    ensures Mentions(ops, k) <==> Mentions(ops[..|ops| - 1], k) || ops[|ops| - 1].key == k
  {
    var rest := ops[..|ops| - 1];
    if i :| 0 <= i < |rest| && rest[i].key == k { assert ops[i].key == k; }
    if i :| 0 <= i < |ops| && ops[i].key == k && i < |rest| { assert rest[i].key == k; }
    if ops[|ops| - 1].key == k { assert Mentions(ops, k); }
  }

  lemma {:induction false} ReplayGroupsByKey(ops: seq<Op>, k: Key)
    ensures k in Replay(ops) <==> Mentions(ops, k)
    ensures k in Replay(ops) ==> Replay(ops)[k].vals == ValuesFor(ops, k)
    ensures k !in Replay(ops) ==> ValuesFor(ops, k) == []
  {
    if ops != [] {
      hide Mentions;
      ReplayGroupsByKey(ops[..|ops| - 1], k);
      MentionsLast(ops, k);
    }
  }

  /** A run of both insertions, in any order, on a new collection. */
  method InsertAll(ops: seq<Op>) returns (bt: BTree)
    requires Legal(ops)
    ensures fresh(bt) && bt.Valid() && bt.View() == Replay(ops)
  {
    bt := new BTree();
    hide BTree.Valid, BTree.View;
    var i := 0;
    while i < |ops|
      invariant 0 <= i <= |ops| && fresh(bt) && bt.Valid() && bt.View() == Replay(ops[..i])
    {
      assert ops[..i + 1][..i] == ops[..i];
      match ops[i] {
        case Kv(key, val, hash) =>
          var isNew := bt.InsertKv(key, val, hash);
        case Kvs(key, vals, hash) =>
          bt.InsertKvs(Slot(key, vals, 0, hash));
      }
      i := i + 1;
    }
    assert ops[..i] == ops;
  }

  /** The leaf chain from the leftmost leaf lists the contents. */
  lemma WholeChain(t: Tree, at: map<Key, Loc>, n: Ref) returns (ls: seq<Ref>)
    requires Inv(t, NONE, {}, 0) && Located(t, at) && ChainOk(t)
    requires n in t.mem && n in t.g && t.g[n].lev == 1 && t.g[n].lo == NegInf
    ensures Linked(t.mem, ls) && ls[0] == n != 0 && Store(t)
    ensures forall x :: x in ls ==> x in t.mem && t.mem[x].nkeys <= |t.mem[x].arr|
    ensures Lists(Slots(t.mem, ls), Contents(t, at))
  {
    hide Lists, Contents;
    ls := ChainFrom(t, n);
    ChainListsAll(t, at, n);
    ChainLinked(t, n);
  }

  lemma SameSize(t: Tree, at: map<Key, Loc>)
    requires Store(t) && Located(t, at)
    ensures |Contents(t, at)| == |at|
  {
    var m := Contents(t, at);
    assert m.Keys == at.Keys;
    assert |m| == |m.Keys| && |at| == |at.Keys|;
  }

  /** What a split makes of the nodes' levels, intervals and parents. */
  ghost function SplitInfo(g: map<Ref, Info>, n: Ref, q: Ref, sep: Bound): map<Ref, Info>
    requires n in g
  {
    map x | x in g.Keys + {q} ::
      if x == q then Info(g[n].lev, sep, g[n].hi, 0, 0)
      else if x == n then g[n].(hi := sep)
      else if g[x].par == n && g[x].ix > ORDER then g[x].(par := q, ix := g[x].ix - (ORDER + 1)) else g[x]
  }

  /** What a new child of `q` behind number `i` makes of the nodes' parents. */
  ghost function KidInfo(g: map<Ref, Info>, q: Ref, i: nat, right: Ref): map<Ref, Info>
  {
    map n | n in g :: if n == right then g[n].(par := q, ix := i + 1)
      else if g[n].par == q && g[n].ix > i then g[n].(ix := g[n].ix + 1) else g[n]
  }

  lemma KidIs(t: Tree, u: Tree, q: Ref, i: nat, key: Key, left: Ref, right: Ref, arr: seq<Slot>)
    requires Store(t) && left in t.mem && right in t.mem && q in t.mem && q != right
    requires t.g[right].lo == At(key) && t.g[left].par == q && t.g[left].ix == i <= t.mem[q].nkeys <= CAP - 2
    requires Shifted(t.mem[q].arr, arr, t.mem[q].nkeys, i, key, right)
    requires u == Tree(t.mem[q := t.mem[q].(arr := arr, nkeys := t.mem[q].nkeys + 1)]
                            [right := t.mem[right].(parent := q)], KidInfo(t.g, q, i, right), t.root, t.nlevel)
    ensures AddsKid(t, u, Pending(left, right))
  {
    hide Shifted;
  }

  lemma WriteTwice(mem: map<Ref, Node>, q: Ref, x: Node, y: Node)
    ensures mem[q := x][q := y] == mem[q := y]
  {
  }

  /** The tree after the upper half of `n` has moved to `q`. */
  ghost function Split(t: Tree, n: Ref, q: Ref, m: nat): Tree
    requires Store(t) && n in t.mem && m == Kept(t.g[n].lev)
  {
    Tree(t.mem[q := Blank().(nkeys := m, arr := t.mem[n].arr[ORDER + 1..] + Blank().arr[ORDER + 1..])]
              [n := t.mem[n].(nkeys := m)],
         SplitInfo(t.g, n, q, At(t.mem[n].arr[m].key)), t.root, t.nlevel)
  }

  lemma SplitIs(t: Tree, n: Ref, q: Ref, m: nat)
    requires Store(t) && n in t.mem && m == Kept(t.g[n].lev) && q !in t.mem && q != 0
    ensures Splits(t, Split(t, n, q, m), n, q)
  {
    var a, b := t.mem[n].arr[ORDER + 1..], Blank().arr[ORDER + 1..];
    assert forall j :: 0 <= j < ORDER + 1 ==> (a + b)[j] == a[j];
  }

  class BTree {
    var nkeys: nat
    var nlevel: nat
    var root: Ref
    var mem: map<Ref, Node>
    var brk: Ref                    // addresses from here on are unused
    ghost var g: map<Ref, Info>
    ghost var at: map<Key, Loc>

    ghost function T(): Tree
      reads this
    {
      Tree(mem, g, root, nlevel)
    }

    ghost predicate Fresh()
      reads this
    {
      brk > 0 && forall n :: n in mem ==> n < brk
    }

    /** A non-empty tree, up to one leaf `over` that may be about to be split. */
    ghost predicate Good(over: Ref)
      reads this
    {
      && Fresh() && nlevel > 0
      && Inv(T(), NONE, {}, over) && Located(T(), at) && ChainOk(T()) && nkeys == |at|
    }

    ghost predicate Valid()
      reads this
    {
      if nlevel == 0 then Fresh() && mem == map[] && g == map[] && at == map[] && nkeys == 0
      else Good(0)
    }

    /** The map from keys to value lists and hashes. */
    ghost function View(): map<Key, Entry>
      requires Valid()
      reads this
    {
      if nlevel == 0 then map[] else Contents(T(), at)
    }

    /** pch_init */
    constructor ()
      ensures Valid() && View() == map[]
    {
      nkeys, nlevel, root, mem, brk, g, at := 0, 0, 0, map[], 1, map[], map[];
    }

    /** create_node */
    method CreateNode() returns (r: Ref)
      requires Fresh()
      modifies this`mem, this`brk
      ensures Fresh() && r != 0 && r !in old(mem) && r == old(brk)
      ensures mem == old(mem)[r := Blank()]
    {
      r := brk;
      mem := mem[r := Blank()];
      brk := brk + 1;
    }

    /** btree_insert_index, first branch: a new root over `left` and `right` */
    method LinkRoot(key: Key, left: Ref, right: Ref) returns (r: Ref)
      requires Fresh() && Store(T()) && left in mem && right in mem && left != right
      requires g[right].lo == At(key)
      modifies this`mem, this`brk, this`g, this`root, this`nlevel
      ensures Fresh() && r !in old(mem) && GrowsRoot(old(T()), T(), Pending(left, right), r)
    {
      r := LinkRootNode(key, left, right);
      root := r;
      nlevel := nlevel + 1;
      RecordRoot(left, right, r);
    }

    method LinkRootNode(key: Key, left: Ref, right: Ref) returns (r: Ref)
      requires Fresh() && left in mem && right in mem && left != right
      modifies this`mem, this`brk
      ensures Fresh() && r !in old(mem) && r != 0
      ensures RootInMemory(old(mem), mem, Pending(left, right), r, key)
    {
      r := CreateNode();
      var b := Blank().arr;
      b := b[0 := b[0].(key := key, child := left)];
      b := b[1 := b[1].(child := right)];
      mem := mem[r := Blank().(nkeys := 1, arr := b)];
      mem := mem[left := mem[left].(parent := r)];
      mem := mem[right := mem[right].(parent := r)];
    }

    ghost method RecordRoot(left: Ref, right: Ref, r: Ref)
      requires left in g && right in g && left != right && r !in g
      modifies this`g
      ensures RootRecorded(old(g), g, Pending(left, right), r, nlevel)
    {
      g := g[r := Info(nlevel, NegInf, PosInf, 0, 0)];
      g := g[left := g[left].(par := r, ix := 0)];
      g := g[right := g[right].(par := r, ix := 1)];
    }

    /** btree_insert_index, second branch: `key` and `right` into node `q` at index `i` */
    method LinkKid(q: Ref, i: nat, key: Key, ghost left: Ref, right: Ref)
      requires Fresh() && Store(T()) && left in mem && right in mem && q in mem && q != right
      requires g[right].lo == At(key) && g[left].par == q && g[left].ix == i <= mem[q].nkeys <= CAP - 2
      modifies this`mem, this`g
      ensures Fresh() && AddsKid(old(T()), T(), Pending(left, right))
    {
      hide Shifted, AddsKid;
      ghost var t := T();
      var arr := ShiftIn(mem[q].arr, mem[q].nkeys, i, key, right);
      mem := mem[q := mem[q].(arr := arr, nkeys := mem[q].nkeys + 1)];
      mem := mem[right := mem[right].(parent := q)];
      g := KidInfo(t.g, q, i, right);
      KidIs(t, T(), q, i, key, left, right, arr);
    }

    /** split_leaf and btree_split_internal: the upper half of `n` goes to a new node; `m` keys stay */
    method SplitNode(n: Ref, m: nat) returns (q: Ref)
      requires Fresh() && Store(T()) && n in mem && m == Kept(g[n].lev)
      modifies this`mem, this`brk, this`g
      ensures Fresh() && q == old(brk) && Splits(old(T()), T(), n, q)
    {
      hide Splits, SplitInfo, Blank;
      ghost var t := T();
      var src := mem[n].arr;
      q := CreateNode();
      ghost var made := mem;
      mem := mem[q := Blank().(nkeys := m, arr := src[ORDER + 1..] + Blank().arr[ORDER + 1..])];
      mem := mem[n := mem[n].(nkeys := m)];
      WriteTwice(t.mem, q, Blank(), Blank().(nkeys := m, arr := src[ORDER + 1..] + Blank().arr[ORDER + 1..]));
      assert mem[n] == t.mem[n].(nkeys := m);
      g := SplitInfo(t.g, n, q, At(t.mem[n].arr[m].key));
      assert T() == Split(t, n, q, m);
      SplitIs(t, n, q, m);
      forall x | x in mem ensures x < brk { assert x in made; }
    }

    method AddRoot(key: Key, left: Ref, right: Ref, ghost stale: set<Ref>)
      requires Fresh() && Inv(T(), Pending(left, right), stale, 0)
      requires left != 0 && left == root && left !in stale && right !in stale && stale <= mem.Keys
      requires g[right].lo == At(key)
      modifies this`mem, this`brk, this`g, this`root, this`nlevel
      ensures Fresh() && Inv(T(), NONE, stale, 0)
      ensures SameBelow(old(T()), T(), old(g[left].lev))
    {
      ghost var t := T();
      var r := LinkRoot(key, left, right);
      GrowRootKeepsInv(t, T(), Pending(left, right), stale, r);
    }

    /** Finds the index by binary search; it is the place right after `left`. */
    method AddKid(key: Key, left: Ref, right: Ref, ghost stale: set<Ref>) returns (q: Ref)
      requires Fresh() && Inv(T(), Pending(left, right), stale, 0)
      requires left != 0 && left != root && left !in stale && right !in stale
      requires g[right].lo == At(key)
      modifies this`mem, this`g
      ensures Fresh() && q == old(g[left].par) && Inv(T(), NONE, stale, q)
      ensures mem.Keys == old(mem.Keys) && q in mem
      ensures mem[q].nkeys == 2 * ORDER + 1 || Inv(T(), NONE, stale, 0)
      ensures SameBelow(old(T()), T(), old(g[left].lev)) && g[q].lev == old(g[left].lev) + 1
    {
      ghost var t, p := T(), Pending(left, right);
      AddKidSeparator(t, p, stale);
      q := mem[left].parent;
      assert KeysOk(t, q) && SizeOk(t, q, 0) && UpOk(t, left, p);
      var i := SearchLargest(key, mem[q].arr, mem[q].nkeys);
      LinkKid(q, i, key, left, right);
      AddKidKeepsInv(t, T(), p, stale);
      AddKidFits(t, T(), p, stale);
    }

    /** "fix parent pointers": the loop over the children of the new sibling */
    method FixParents(q: Ref, ghost stale: set<Ref>)
      requires Fresh() && q in mem && q in g && g[q].lev > 1
      requires Inv(T(), NONE, stale + Moved(T(), q), 0)
      modifies this`mem
      ensures Fresh() && Inv(T(), NONE, stale, 0) && Reparents(old(T()), T())
      ensures forall n :: n in mem && n in g && g[n].par != q ==> mem[n] == old(mem)[n]
    {
      hide Inv, Reparents;
      ghost var t := T();
      KidsOfNode(t, stale + Moved(t, q), q);
      var i := 0;
      while i < mem[q].nkeys + 1
        invariant 0 <= i <= t.mem[q].nkeys + 1 && mem.Keys == t.mem.Keys
        invariant forall n :: n in mem ==> mem[n] == t.mem[n].(parent :=
                    if t.g[n].par == q && t.g[n].ix < i then q else t.mem[n].parent)
      {
        var c := mem[q].arr[i].child;
        mem := mem[c := mem[c].(parent := q)];
        i := i + 1;
      }
      FixedParents(t, T(), stale, q);
    }

    /** btree_insert_index, the overflow case: split `q`, insert its sibling one level up, fix parents */
    method SplitUpward(q: Ref, ghost stale: set<Ref>)
      requires Fresh() && q in mem && Inv(T(), NONE, stale, q) && g[q].lev > 1
      requires mem[q].nkeys == 2 * ORDER + 1 && q !in stale && stale <= mem.Keys
      requires forall c :: c in stale ==> g[c].lev < g[q].lev
      modifies this`mem, this`brk, this`g, this`root, this`nlevel
      ensures Fresh() && Inv(T(), NONE, stale, 0)
      ensures SameBelow(old(T()), T(), old(g[q].lev) - 1)
      decreases nlevel - g[q].lev, 1
    {
      ghost var t, lev := T(), g[q].lev;
      InvStore(t, NONE, stale, q);
      hide Inv, SameBelow, Store, PendingOk;
      var newkey := mem[q].arr[ORDER].key;
      var sib := SplitNode(q, ORDER);
      ghost var u := T();
      ghost var stale' := stale + Moved(u, sib);
      SplitKeepsInv(t, u, stale, q, sib);
      SplitFacts(t, u, stale, q, sib);
      InsertIndex(newkey, q, sib, stale');
      ghost var v := T();
      MovedStays(u, v, Pending(q, sib), stale);
      FixParents(sib, stale);
      SplitUpwardSame(t, u, v, T(), stale, q, sib);
    }

    /** btree_insert_index */
    method InsertIndex(key: Key, left: Ref, right: Ref, ghost stale: set<Ref>)
      requires Fresh() && Inv(T(), Pending(left, right), stale, 0)
      requires left != 0 && left !in stale && right !in stale && stale <= mem.Keys
      requires g[right].lo == At(key)
      requires forall c :: c in stale ==> g[c].lev < g[left].lev
      modifies this`mem, this`brk, this`g, this`root, this`nlevel
      ensures Fresh() && Inv(T(), NONE, stale, 0)
      ensures SameBelow(old(T()), T(), old(g[left].lev))
      decreases nlevel - g[left].lev, 0
    {
      ghost var t, lev := T(), g[left].lev;
      assert UpOk(t, left, Pending(left, right));
      hide Inv, SameBelow;
      if mem[left].parent == 0 {
        AddRoot(key, left, right, stale);
      } else {
        var q := AddKid(key, left, right, stale);
        ghost var u := T();
        if mem[q].nkeys == 2 * ORDER + 1 {
          AddKidStale(t, u, stale, left, lev);
          SplitUpward(q, stale);
          InvStore(T(), NONE, stale, 0);
          SameBelowTrans(t, u, T(), lev, lev);
        }
      }
    }

    /** get_leaf */
    method GetLeaf(key: Key) returns (n: Ref)
      requires Valid()
      modifies this
      ensures Good(0) && View() == old(View())
      ensures n in mem && n in g && g[n].lev == 1 && Covers(g[n], key)
    {
      if nlevel == 0 {
        n := FirstLeaf();
      } else {
        n := Descend(key);
      }
    }

    method FirstLeaf() returns (n: Ref)
      requires Valid() && nlevel == 0
      modifies this
      ensures Good(0) && View() == old(View()) && n in mem
      ensures g == map[n := Info(1, NegInf, PosInf, 0, 0)]
    {
      n := CreateNode();
      root := n;
      nlevel := 1;
      nkeys := 0;
      g := map[n := Info(1, NegInf, PosInf, 0, 0)];
      SingleLeaf(T(), n);
    }

    method Descend(key: Key) returns (n: Ref)
      requires Good(0)
      ensures n in mem && n in g && g[n].lev == 1 && Covers(g[n], key)
    {
      n := root;
      var i := 0;
      while i < nlevel - 1
        invariant 0 <= i <= nlevel - 1
        invariant n in mem && n in g && g[n].lev == nlevel - i && Covers(g[n], key)
      {
        assert KeysOk(T(), n) && KidsOk(T(), n, NONE);
        var ipt := SearchLargest(key, mem[n].arr, mem[n].nkeys);
        assert KidOk(T(), n, ipt, NONE);
        n := mem[n].arr[ipt].child;
        i := i + 1;
      }
    }

    /** insert_key: room for `key` at `pos` of `leaf`, without values */
    method InsertKey(leaf: Ref, key: Key, pos: nat)
      requires Good(0) && leaf in mem && leaf in g && g[leaf].lev == 1 && Covers(g[leaf], key)
      requires pos <= mem[leaf].nkeys && key !in at
      requires forall j :: 0 <= j < pos ==> mem[leaf].arr[j].key < key
      requires forall j :: pos <= j < mem[leaf].nkeys ==> key < mem[leaf].arr[j].key
      modifies this`mem, this`nkeys, this`at
      ensures Good(leaf) && leaf in mem && mem[leaf].nkeys == old(mem[leaf].nkeys) + 1 <= |mem[leaf].arr|
      ensures at.Keys == old(at.Keys) + {key}
      ensures pos < mem[leaf].nkeys && mem[leaf].arr[pos].key == key && mem[leaf].arr[pos].vals == []
      ensures Contents(T(), at) == old(Contents(T(), at))[key := EntryOf(mem[leaf].arr[pos])]
    {
      hide Inv, Located, ChainOk, Contents, KeysOk, Relocate, InsertsSlot;
      ghost var t := T();
      ghost var old_at := at;
      RoomFacts(t, leaf);
      var n := mem[leaf].nkeys;
      var b := MakeRoom(mem[leaf].arr, n, pos, key);
      mem := mem[leaf := mem[leaf].(arr := b, nkeys := n + 1)];
      nkeys := nkeys + 1;
      at := Relocate(old_at, leaf, pos, key);
      InsertStep(t, T(), leaf, pos, b);
      InsertGood(t, T(), old_at, leaf, pos, b[pos]);
    }

    /** The assignment `leaf->arr[pos] = s`, for a slot with the same key */
    method SetSlot(leaf: Ref, pos: nat, s: Slot, ghost over: Ref)
      requires Good(over) && leaf in mem && leaf in g && g[leaf].lev == 1 && (over == 0 || over == leaf)
      requires pos < mem[leaf].nkeys <= |mem[leaf].arr| && s.key == mem[leaf].arr[pos].key
      modifies this`mem
      ensures Good(over) && leaf in mem && mem[leaf] == old(mem[leaf]).(arr := old(mem[leaf]).arr[pos := s])
      ensures Contents(T(), at) == old(Contents(T(), at))[s.key := EntryOf(s)]
    {
      ghost var t := T();
      InvStore(t, NONE, {}, over);
      hide Inv, Located, ChainOk, Contents;
      mem := mem[leaf := mem[leaf].(arr := mem[leaf].arr[pos := s])];
      SetStep(t, T(), leaf, pos, s);
      ReplaceKeepsInv(t, T(), leaf, pos, s, over);
      ReplaceContents(t, T(), at, leaf, pos, s);
      RewriteKeepsChain(t, T(), leaf);
    }

    /** split_leaf, first lines: the upper half of `leaf` moves to a new leaf */
    method HalveLeaf(leaf: Ref) returns (right: Ref)
      requires Good(leaf) && leaf in mem && leaf in g && g[leaf].lev == 1 && mem[leaf].nkeys == 2 * ORDER + 2
      modifies this`mem, this`brk, this`g, this`at
      ensures Fresh() && Splits(old(T()), T(), leaf, right) && Inv(T(), Pending(leaf, right), {}, 0)
      ensures g[leaf].lev == 1 && g[right].lo == At(old(mem[leaf].arr[ORDER + 1].key))
      ensures Located(T(), at) && Contents(T(), at) == old(Contents(T(), at)) && |at| == old(|at|)
    {
      hide Inv, Located, ChainOk, Contents, Splits, PendingOk, Store, RelocateHalf;
      ghost var t := T();
      ghost var at0 := at;
      InvStore(t, NONE, {}, leaf);
      right := SplitNode(leaf, ORDER + 1);
      SplitLeafStep(t, T(), at0, leaf, right);
      at := RelocateHalf(at0, leaf, right);
    }

    /** split_leaf */
    method SplitLeaf(leaf: Ref)
      requires Good(leaf) && leaf in mem && leaf in g && g[leaf].lev == 1 && mem[leaf].nkeys == 2 * ORDER + 2
      modifies this
      ensures Good(0) && Contents(T(), at) == old(Contents(T(), at))
    {
      hide Inv, Located, ChainOk, Contents, SameBelow, Splits, PendingOk, Store;
      ghost var t := T();
      InvStore(t, NONE, {}, leaf);
      ArrLen(t, leaf);
      var key := mem[leaf].arr[ORDER + 1].key;
      var right := HalveLeaf(leaf);
      ghost var u := T();
      InvStore(u, Pending(leaf, right), {}, 0);
      InsertIndex(key, leaf, right, {});
      LinkLeaf(t, u, leaf, right);
    }

    /** split_leaf, last lines: `right` into the chain after `leaf` */
    method LinkLeaf(ghost t: Tree, ghost u: Tree, leaf: Ref, right: Ref)
      requires Fresh() && Inv(T(), NONE, {}, 0)
      requires Store(t) && Store(u) && ChainOk(t) && Located(u, at) && leaf in t.mem && t.g[leaf].lev == 1
      requires Splits(t, u, leaf, right) && SameBelow(u, T(), 1)
      modifies this`mem
      ensures Fresh() && Inv(T(), NONE, {}, 0) && Located(T(), at) && ChainOk(T()) && nlevel > 0
      ensures Contents(T(), at) == Contents(u, at)
    {
      hide Inv, Located, ChainOk, Contents, SameBelow, Splits, Store, ChainSplit;
      ghost var v := T();
      SplitLeafAbove(t, u, v, at, leaf, right);
      var next := mem[leaf].next;
      mem := mem[leaf := mem[leaf].(next := right)];
      mem := mem[right := mem[right].(next := next)];
      RelinkGood(t, v, T(), at, leaf, right);
    }

    /** Splits the leaf if it has become full. */
    method SplitIfFull(leaf: Ref)
      requires Good(leaf) && leaf in mem && leaf in g && g[leaf].lev == 1 && MinOrRoot(T(), leaf)
      requires mem[leaf].nkeys <= 2 * ORDER + 2
      modifies this
      ensures Good(0) && Contents(T(), at) == old(Contents(T(), at))
    {
      if mem[leaf].nkeys == 2 * ORDER + 2 {
        SplitLeaf(leaf);
      } else {
        NotFull(T(), leaf);
      }
    }

    /** insert_key followed by the hash */
    method NewKey(leaf: Ref, key: Key, pos: nat, hash: nat)
      requires Good(0) && leaf in mem && leaf in g && g[leaf].lev == 1 && Covers(g[leaf], key)
      requires pos <= mem[leaf].nkeys && key !in at
      requires forall j :: 0 <= j < pos ==> mem[leaf].arr[j].key < key
      requires forall j :: pos <= j < mem[leaf].nkeys ==> key < mem[leaf].arr[j].key
      modifies this`mem, this`nkeys, this`at
      ensures Good(leaf) && leaf in mem && mem[leaf].nkeys == old(mem[leaf].nkeys) + 1 <= |mem[leaf].arr|
      ensures pos < mem[leaf].nkeys && mem[leaf].arr[pos].key == key
      ensures EntryOf(mem[leaf].arr[pos]) == Entry([], hash)
      ensures Contents(T(), at) == old(Contents(T(), at))[key := Entry([], hash)]
    {
      ghost var c := Contents(T(), at);
      hide Inv, Located, ChainOk, Contents, Covers;
      InsertKey(leaf, key, pos);
      ghost var e := EntryOf(mem[leaf].arr[pos]);
      SetSlot(leaf, pos, mem[leaf].arr[pos].(hash := hash), leaf);
      Overwrite(c, key, e, Entry([], hash));
    }

    /** values_insert: `val` after the key's other values */
    method AddValue(leaf: Ref, pos: nat, val: Value, ghost over: Ref)
      requires Good(over) && leaf in mem && leaf in g && g[leaf].lev == 1 && (over == 0 || over == leaf)
      requires pos < mem[leaf].nkeys <= |mem[leaf].arr|
      modifies this`mem
      ensures Good(over) && leaf in mem && mem[leaf].nkeys == old(mem[leaf].nkeys)
      ensures var s := old(mem[leaf].arr[pos]);
        Contents(T(), at) == old(Contents(T(), at))[s.key := Entry(s.vals + [val], s.hash)]
    {
      var s := mem[leaf].arr[pos];
      hide Inv, Located, ChainOk, Contents;
      SetSlot(leaf, pos, s.(vals := s.vals + [val]), over);
    }

    /** pch_insert_kv. `val` is appended to the key's values; returns whether the key is new. */
    method InsertKv(key: Key, val: Value, hash: nat) returns (isNew: bool)
      requires Valid()
      modifies this
      ensures Valid() && nlevel > 0
      ensures isNew == (key !in old(View()))
      ensures View() == old(View())[key := if isNew then Entry([val], hash)
                                           else Entry(old(View())[key].vals + [val], old(View())[key].hash)]
    {
      hide Inv, Located, ChainOk, KeysOk, Store, Contents, Covers;
      var leaf := GetLeaf(key);
      ghost var c := View();
      LeafFacts(T(), at, leaf, key);
      LeafKeys(T(), leaf);
      var pos, found := SearchEqual(key, mem[leaf].arr, mem[leaf].nkeys);
      isNew := !found;
      if !found {
        NewKey(leaf, key, pos, hash);
        assert mem[leaf].arr[pos].vals + [val] == [val];
        AddValue(leaf, pos, val, leaf);
        Overwrite(c, key, Entry([], hash), Entry([val], hash));
        SplitIfFull(leaf);
      } else {
        assert c[key] == EntryOf(mem[leaf].arr[pos]);
        AddValue(leaf, pos, val, 0);
      }
    }

    /** pch_insert_kvs: a whole entry under a key that must not be there yet (the code's own assert) */
    method InsertKvs(k: Slot)
      requires Valid() && k.key !in View()
      modifies this
      ensures Valid() && nlevel > 0 && View() == old(View())[k.key := EntryOf(k)]
    {
      hide Inv, Located, ChainOk, KeysOk, Store, Contents, Covers;
      var leaf := GetLeaf(k.key);
      ghost var c := View();
      LeafFacts(T(), at, leaf, k.key);
      LeafKeys(T(), leaf);
      var pos, found := SearchEqual(k.key, mem[leaf].arr, mem[leaf].nkeys);
      assert !found;
      InsertKey(leaf, k.key, pos);
      ghost var e := EntryOf(mem[leaf].arr[pos]);
      SetSlot(leaf, pos, k, leaf);
      Overwrite(c, k.key, e, EntryOf(k));
      SplitIfFull(leaf);
    }

    /** The descent along arr[0] shared by pch_iter_begin and pch_copy_kvs */
    method Leftmost() returns (n: Ref)
      requires Good(0)
      ensures n in mem && n in g && g[n].lev == 1 && g[n].lo == NegInf
    {
      n := root;
      var i := 0;
      while i < nlevel - 1
        invariant 0 <= i <= nlevel - 1
        invariant n in mem && n in g && g[n].lev == nlevel - i && g[n].lo == NegInf
      {
        assert KidsOk(T(), n, NONE);
        assert KidOk(T(), n, 0, NONE);
        n := mem[n].arr[0].child;
        i := i + 1;
      }
    }

    ghost predicate Walking(it: Iter)
      reads this, it
    {
      Linked(mem, it.leaves) && it.leaves[0] == it.node && it.next <= mem[it.node].nkeys
    }

    /** The slots an iterator has still to visit. */
    ghost function Rest(it: Iter): seq<Slot>
      requires Walking(it)
      reads this, it
    {
      LinkedAll(mem, it.leaves);
      mem[it.node].arr[it.next..mem[it.node].nkeys] + Slots(mem, it.leaves[1..])
    }

    /** pch_iter_begin */
    method IterBegin() returns (it: Iter?)
      requires Valid()
      ensures it == null <==> nlevel == 0
      ensures it == null ==> View() == map[]
      ensures it != null ==> fresh(it) && Walking(it) && Lists(Rest(it), View()) && Behind(it)
      ensures it != null ==> Rest(it) == Slotted(it.past + it.leaves)
    {
      if nlevel == 0 { return null; }
      hide Inv, Located, ChainOk, Contents, Lists, Store, Linked;
      var n := Leftmost();
      ghost var ls := WholeChain(T(), at, n);
      it := new Iter(n, ls);
      LinkedAll(mem, ls);
      assert it.past + it.leaves == ls;
      assert Rest(it) == Slots(mem, ls);
    }

    /** The entries of some leaves. */
    ghost function Slotted(ls: seq<Ref>): seq<Slot>
      reads this
    {
      if forall n :: n in ls ==> n in mem && mem[n].nkeys <= |mem[n].arr| then Slots(mem, ls) else []
    }

    /** Every slot behind the iterator has been wiped. */
    ghost predicate Behind(it: Iter)
      reads this, it
    {
      && (forall n {:trigger n in it.past} :: n in it.past ==> WipedTo(mem, n, if n in mem then mem[n].nkeys else 0))
      && WipedTo(mem, it.node, it.next)
    }

    /** pch_iter_next_kvs; with `clear` each visited slot is wiped behind the iterator */
    method IterNext(it: Iter, clear: bool) returns (r: Option<Slot>)
      requires Walking(it)
      modifies this`mem, it
      ensures Walking(it)
      ensures if old(Rest(it)) == [] then r == None && Rest(it) == []
              else r.Some? && old(Rest(it)) == [r.value] + Rest(it)
      ensures if clear && r.Some? then it.next > 0 && mem == Wiped(old(mem), it.node, it.next - 1) else mem == old(mem)
      ensures it.past + it.leaves == old(it.past + it.leaves) && (clear && old(Behind(it)) ==> Behind(it))
      ensures r.None? ==> it.leaves == [it.node] && it.node in mem && it.next == mem[it.node].nkeys
    {
      ghost var rest := Rest(it);
      LinkedAll(mem, it.leaves);
      if it.next == mem[it.node].nkeys {
        if mem[it.node].next == 0 { return None; }
        it.past := it.past + [it.node];
        it.node := mem[it.node].next;
        it.next := 0;
        it.leaves := it.leaves[1..];
        LinkedAll(mem, it.leaves);
        assert Rest(it) == rest;
      }
      ghost var mem0 := mem;
      var src := IterTake(it, clear);
      r := Some(src);
      if clear { StillWiped(mem0, mem, it.node, it.next - 1); }
    }

    /** pch_iter_next_kvs, once the iterator stands on a slot */
    method IterTake(it: Iter, clear: bool) returns (src: Slot)
      requires Walking(it) && it.next < mem[it.node].nkeys
      modifies this`mem, it`next
      ensures Walking(it) && old(Rest(it)) == [src] + Rest(it)
      ensures it.next == old(it.next) + 1 && mem == if clear then Wiped(old(mem), it.node, old(it.next)) else old(mem)
    {
      ghost var rest, mem0 := Rest(it), mem;
      LinkedAll(mem, it.leaves);
      src := mem[it.node].arr[it.next];
      assert rest == [src] + (mem[it.node].arr[it.next + 1..mem[it.node].nkeys] + Slots(mem, it.leaves[1..]));
      if clear {
        mem := mem[it.node := mem[it.node].(arr := mem[it.node].arr[it.next := WIPED])];
        WipeBehind(mem0, mem, it.leaves);
      }
      it.next := it.next + 1;
    }

    /** pch_shallow_free: the collection is empty; its nodes are garbage from here on */
    method ShallowFree()
      modifies this`nlevel
      ensures nlevel == 0
    {
      nlevel := 0;
    }

    /** The loop of pch_copy_kvs, along the leaf chain `ls` */
    method CopyChain(first: Ref, ghost ls: seq<Ref>) returns (dst: seq<Slot>)
      requires Linked(mem, ls) && ls[0] == first && first != 0
      ensures dst == Slotted(ls)
    {
      LinkedAll(mem, ls);
      ghost var all, rest := Slots(mem, ls), ls;
      var node := first;
      dst := [];
      while node != 0
        invariant forall n :: n in rest ==> n in mem && mem[n].nkeys <= |mem[n].arr|
        invariant if node == 0 then dst == all
                  else Linked(mem, rest) && rest[0] == node && dst + Slots(mem, rest) == all
        decreases if node == 0 then 0 else 1, |rest|
      {
        dst := dst + mem[node].arr[..mem[node].nkeys];
        assert dst + Slots(mem, rest[1..]) == all;
        node := mem[node].next;
        if node != 0 {
          rest := rest[1..];
          LinkedAll(mem, rest);
        } else {
          assert dst + [] == dst;
        }
      }
    }

    /** pch_copy_kvs: the chain copied to an array; its length is nkeys (the code's own assert) */
    method CopyKvs() returns (dst: seq<Slot>)
      requires Valid()
      ensures Lists(dst, View()) && |dst| == nkeys
    {
      dst := [];
      if nlevel == 0 { return; }
      hide Inv, Located, ChainOk, Contents, Lists, Store, Linked;
      var node := Leftmost();
      ghost var t, m := T(), View();
      ghost var ls := WholeChain(t, at, node);
      SameSize(t, at);
      LinkedAll(mem, ls);
      dst := CopyChain(node, ls);
      ListsCount(dst, m);
    }
  }
}
