/** The B+tree of metis/lib/keyvals_btree.c: memory, ghost bookkeeping and the invariant.

    Nodes live in an explicit memory `mem` from addresses to node records, so that every
    pointer write of the C code is an update of `mem`. For each node a ghost record says
    where it belongs: its level (leaves are level 1), the half-open key interval it is
    responsible for, its parent and its index there. With these the whole invariant is a
    conjunction of facts about single nodes and their neighbours. */
module BTreeShape {
  import opened BSearch

  const ORDER: nat := 3
  const CAP: nat := 2 * ORDER + 2

  datatype Node = Node(nkeys: nat, parent: Ref, arr: seq<Slot>, next: Ref)

  datatype Bound = NegInf | At(k: Key) | PosInf

  datatype Info = Info(lev: nat, lo: Bound, hi: Bound, par: Ref, ix: nat)

  /** The tree proper: node memory, where each node belongs, the root and the height. */
  datatype Tree = Tree(mem: map<Ref, Node>, g: map<Ref, Info>, root: Ref, nlevel: nat)

  predicate AtLeast(k: Key, b: Bound) { b.NegInf? || (b.At? && b.k <= k) }
  predicate Above(k: Key, b: Bound) { b.NegInf? || (b.At? && b.k < k) }
  predicate Below(k: Key, b: Bound) { b.PosInf? || (b.At? && k < b.k) }
  predicate BoundLe(a: Bound, b: Bound) { a.NegInf? || b.PosInf? || (a.At? && b.At? && a.k <= b.k) }

  predicate Covers(i: Info, k: Key) { AtLeast(k, i.lo) && Below(k, i.hi) }

  /** calloc'd node. */
  function Blank(): (n: Node)
    ensures |n.arr| == CAP && n.nkeys == 0 && n.parent == 0 && n.next == 0
  {
    Node(0, 0, seq(CAP, i => Slot(0.0, [], 0, 0)), 0)
  }

  /** Every address is known, non-NULL and has an array of full capacity. */
  ghost predicate Store(t: Tree)
  {
    && t.mem.Keys == t.g.Keys
    && 0 !in t.mem
    && (forall n :: n in t.mem ==> |t.mem[n].arr| == CAP && t.mem[n].nkeys <= CAP && t.g[n].lev >= 1)
    && (forall n :: n in t.mem && t.g[n].lev > 1 ==> t.mem[n].nkeys < CAP)
  }

  ghost predicate KeyFits(i: Info, k: Key)
  {
    (if i.lev == 1 then AtLeast(k, i.lo) else Above(k, i.lo)) && Below(k, i.hi)
  }

  /** Keys of a node ascend strictly and lie inside its interval; separators strictly inside. */
  ghost predicate KeysOk(t: Tree, n: Ref)
    requires Store(t) && n in t.mem
  {
    && Ascending(t.mem[n].arr, t.mem[n].nkeys)
    && forall j :: 0 <= j < t.mem[n].nkeys ==> KeyFits(t.g[n], t.mem[n].arr[j].key)
  }

  function LoAt(t: Tree, n: Ref, j: nat): Bound
    requires n in t.mem && n in t.g && j <= t.mem[n].nkeys <= |t.mem[n].arr|
  {
    if j == 0 then t.g[n].lo else At(t.mem[n].arr[j - 1].key)
  }

  function HiAt(t: Tree, n: Ref, j: nat): Bound
    requires n in t.mem && n in t.g && j <= t.mem[n].nkeys <= |t.mem[n].arr|
  {
    if j == t.mem[n].nkeys then t.g[n].hi else At(t.mem[n].arr[j].key)
  }

  /** A split under way: `left` has given up the upper part of its interval to `right`,
      which no parent knows yet. `left == 0` means no split is pending. */
  datatype Pending = Pending(left: Ref, right: Ref)
  const NONE: Pending := Pending(0, 0)

  /** The upper end of `c`'s interval as its parent still sees it. */
  function SeenHi(t: Tree, c: Ref, p: Pending): Bound
    requires c in t.g && (p.left != 0 ==> p.right in t.g)
  {
    if p.left != 0 && c == p.left then t.g[p.right].hi else t.g[c].hi
  }

  ghost predicate PendingOk(t: Tree, p: Pending)
    requires Store(t)
  {
    p.left != 0 ==>
      && p.left in t.mem && p.right in t.mem && p.left != p.right && p.right != t.root
      && t.g[p.left].lev == t.g[p.right].lev
      && t.g[p.right].lo.At? && t.g[p.left].hi == t.g[p.right].lo
      && Above(t.g[p.right].lo.k, t.g[p.left].lo)
      && Below(t.g[p.right].lo.k, t.g[p.right].hi)
      && MinKeys(t.g[p.left].lev) <= t.mem[p.left].nkeys
  }

  /** Child `j` of `n` is one level down, knows its place and has exactly the interval
      between the separators around it: left < separator <= right. */
  ghost predicate KidOk(t: Tree, n: Ref, j: nat, p: Pending)
    requires Store(t) && PendingOk(t, p) && n in t.mem && j <= t.mem[n].nkeys < CAP
  {
    var c := t.mem[n].arr[j].child;
    && c in t.mem && (p.left != 0 ==> c != p.right)
    && t.g[c].lev + 1 == t.g[n].lev
    && t.g[c].par == n && t.g[c].ix == j
    && t.g[c].lo == LoAt(t, n, j) && SeenHi(t, c, p) == HiAt(t, n, j)
  }

  ghost predicate KidsOk(t: Tree, n: Ref, p: Pending)
    requires Store(t) && PendingOk(t, p) && n in t.mem
  {
    t.g[n].lev > 1 ==> forall j {:trigger KidOk(t, n, j, p)} :: 0 <= j <= t.mem[n].nkeys ==> KidOk(t, n, j, p)
  }

  /** Every node but the root and a pending right sibling hangs from its recorded parent. */
  ghost predicate UpOk(t: Tree, c: Ref, p: Pending)
    requires Store(t) && c in t.mem
  {
    c == t.root || (p.left != 0 && c == p.right) ||
    var q := t.g[c].par;
    q in t.mem && t.g[q].lev == t.g[c].lev + 1 && t.g[c].ix <= t.mem[q].nkeys < CAP
    && t.mem[q].arr[t.g[c].ix].child == c
  }

  /** The root spans all keys and is alone at the top level: every leaf has depth nlevel. */
  ghost predicate RootOk(t: Tree, p: Pending)
    requires Store(t) && PendingOk(t, p)
  {
    && t.root in t.mem && t.g[t.root].lev == t.nlevel && t.g[t.root].par == 0
    && t.g[t.root].lo == NegInf && SeenHi(t, t.root, p) == PosInf
    && (forall n :: n in t.mem ==> t.g[n].lev <= t.nlevel)
    && (forall n :: n in t.mem && t.g[n].lev == t.nlevel ==>
          n == t.root || (p.left != 0 && n == p.right && p.left == t.root))
  }

  function MinKeys(lev: nat): nat { if lev == 1 then ORDER + 1 else ORDER }
  function MaxKeys(lev: nat): nat { if lev == 1 then 2 * ORDER + 1 else 2 * ORDER }

  /** Occupancy of every node except `over`, which is about to be split. */
  ghost predicate SizeOk(t: Tree, n: Ref, over: Ref)
    requires Store(t) && n in t.mem
  {
    n == over ||
    var k, lev := t.mem[n].nkeys, t.g[n].lev;
    && k <= MaxKeys(lev)
    && (n != t.root ==> MinKeys(lev) <= k)
    && (n == t.root && lev > 1 ==> 1 <= k)
  }

  /** Nodes of one level are responsible for disjoint intervals. */
  ghost predicate Apart(t: Tree, a: Ref, b: Ref)
    requires a in t.g && b in t.g
  {
    a == b || t.g[a].lev != t.g[b].lev || BoundLe(t.g[a].hi, t.g[b].lo) || BoundLe(t.g[b].hi, t.g[a].lo)
  }

  ghost predicate AllApart(t: Tree)
  {
    forall a, b {:trigger Apart(t, a, b)} :: a in t.g && b in t.g ==> Apart(t, a, b)
  }

  /** The parent pointers in memory are exact, except for `stale` nodes and a pending right sibling. */
  ghost predicate ParentsOk(t: Tree, p: Pending, stale: set<Ref>)
    requires Store(t)
  {
    forall c :: c in t.mem && c !in stale && !(p.left != 0 && c == p.right) ==>
      t.mem[c].parent == if c == t.root then 0 else t.g[c].par
  }

  /** The structural invariant. `NONE`, {} and 0 give the invariant between operations. */
  ghost predicate Inv(t: Tree, p: Pending, stale: set<Ref>, over: Ref)
  {
    && Store(t) && PendingOk(t, p)
    && (forall n {:trigger KeysOk(t, n)} :: n in t.mem ==> KeysOk(t, n))
    && (forall n {:trigger KidsOk(t, n, p)} :: n in t.mem ==> KidsOk(t, n, p))
    && (forall n {:trigger UpOk(t, n, p)} :: n in t.mem ==> UpOk(t, n, p))
    && RootOk(t, p)
    && (forall n {:trigger SizeOk(t, n, over)} :: n in t.mem ==> SizeOk(t, n, over))
    && AllApart(t)
    && ParentsOk(t, p, stale)
  }

  /** What a change above level `lev` leaves alone. */
  ghost predicate SameBelow(t: Tree, t': Tree, lev: nat)
    requires Store(t) && Store(t')
  {
    && (forall n :: n in t.mem ==> n in t'.mem && t'.g[n].lev == t.g[n].lev)
    && (forall n :: n in t'.mem && n !in t.mem ==> t'.g[n].lev > lev)
    && (forall n :: n in t.mem && t.g[n].lev <= lev ==>
          && t'.mem[n] == t.mem[n].(parent := t'.mem[n].parent)
          && t'.g[n] == t.g[n].(par := t'.g[n].par, ix := t'.g[n].ix))
    && (forall n :: n in t.mem && t.g[n].lev < lev ==> t'.mem[n] == t.mem[n] && t'.g[n] == t.g[n])
  }

  // ---------------------------------------------------------------- leaves and contents

  /** Where a stored key is. */
  datatype Loc = Loc(leaf: Ref, pos: nat)

  /** `at` locates exactly the keys in the leaves. */
  ghost predicate Located(t: Tree, at: map<Key, Loc>)
    requires Store(t)
  {
    && (forall k :: k in at ==>
          && at[k].leaf in t.mem && t.g[at[k].leaf].lev == 1
          && at[k].pos < t.mem[at[k].leaf].nkeys && t.mem[at[k].leaf].arr[at[k].pos].key == k)
    && (forall n, j {:trigger t.mem[n].arr[j]} :: n in t.mem && t.g[n].lev == 1 && 0 <= j < t.mem[n].nkeys ==>
          t.mem[n].arr[j].key in at && at[t.mem[n].arr[j].key] == Loc(n, j))
  }

  /** `next` leads to the leaf whose interval starts where this one's ends. */
  ghost predicate LinkOk(t: Tree, n: Ref)
    requires Store(t) && n in t.mem
  {
    var m := t.mem[n].next;
    if m == 0 then t.g[n].hi == PosInf
    else m in t.mem && t.g[m].lev == 1 && t.g[m].lo == t.g[n].hi && t.g[n].hi.At?
  }

  ghost predicate ChainOk(t: Tree)
    requires Store(t)
  {
    forall n {:trigger LinkOk(t, n)} :: n in t.mem && t.g[n].lev == 1 ==> LinkOk(t, n)
  }

  datatype Entry = Entry(vals: seq<Value>, hash: nat)

  ghost function EntryOf(s: Slot): Entry { Entry(s.vals, s.hash) }

  /** The key-to-values map a tree stands for. */
  ghost function Contents(t: Tree, at: map<Key, Loc>): map<Key, Entry>
    requires Store(t) && Located(t, at)
  {
    map k | k in at :: EntryOf(t.mem[at[k].leaf].arr[at[k].pos])
  }
}
