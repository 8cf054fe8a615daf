/** Each pointer surgery of keyvals_btree.c keeps the B+tree invariant. A step is stated by
    what it does to each node; the methods of module BTree are proved to perform these steps. */
module BTreeSplit {
  import opened BSearch
  import opened BTreeShape

  lemma SameBelowTrans(t: Tree, u: Tree, v: Tree, lev: nat, lev': nat)
    requires Store(t) && Store(u) && Store(v)
    requires SameBelow(t, u, lev) && SameBelow(u, v, lev') && lev <= lev'
    ensures SameBelow(t, v, lev)
  {
  }

  // ---------------------------------------------------------------- a new root

  /** btree_insert_index, first branch: root `r` over the two halves of the old root. */
  ghost predicate GrowsRoot(t: Tree, u: Tree, p: Pending, r: Ref)
    requires Store(t) && p.left in t.mem && p.right in t.mem && t.g[p.right].lo.At?
  {
    && r !in t.mem && r != 0 && u.root == r && u.nlevel == t.nlevel + 1
    && RootInMemory(t.mem, u.mem, p, r, t.g[p.right].lo.k)
    && RootRecorded(t.g, u.g, p, r, t.nlevel + 1)
  }

  ghost predicate RootInMemory(m: map<Ref, Node>, m': map<Ref, Node>, p: Pending, r: Ref, key: Key)
  {
    && m'.Keys == m.Keys + {r}
    && (forall n :: n in m && n != r ==>
          m'[n] == if n == p.left || n == p.right then m[n].(parent := r) else m[n])
    && m'[r].parent == 0 && m'[r].nkeys == 1 && |m'[r].arr| == CAP
    && m'[r].arr[0].key == key && m'[r].arr[0].child == p.left && m'[r].arr[1].child == p.right
  }

  ghost predicate RootRecorded(g: map<Ref, Info>, g': map<Ref, Info>, p: Pending, r: Ref, lev: nat)
    requires p.left in g && p.right in g
  {
    && g'.Keys == g.Keys + {r}
    && (forall n :: n in g && n != r && n != p.left && n != p.right ==> g'[n] == g[n])
    && g'[p.left] == g[p.left].(par := r, ix := 0)
    && g'[p.right] == g[p.right].(par := r, ix := 1)
    && g'[r] == Info(lev, NegInf, PosInf, 0, 0)
  }

  ghost predicate RootSplit(t: Tree, u: Tree, p: Pending, stale: set<Ref>, r: Ref)
  {
    && Inv(t, p, stale, 0) && p.left == t.root && p.left != 0
    && r !in stale && p.right !in stale && p.left !in stale
    && GrowsRoot(t, u, p, r)
  }

  lemma GrowRootStore(t: Tree, u: Tree, p: Pending, stale: set<Ref>, r: Ref)
    requires RootSplit(t, u, p, stale, r)
    ensures Store(u)
  {
    hide KeysOk, KidsOk, KidOk, UpOk, SizeOk, AllApart, ParentsOk;
  }

  lemma GrowRootSame(t: Tree, u: Tree, p: Pending, stale: set<Ref>, r: Ref)
    requires RootSplit(t, u, p, stale, r) && Store(u)
    ensures SameBelow(t, u, t.g[p.left].lev)
  {
    hide KeysOk, KidsOk, KidOk, UpOk, SizeOk, AllApart, ParentsOk;
  }

  lemma GrowRootTop(t: Tree, u: Tree, p: Pending, stale: set<Ref>, r: Ref)
    requires RootSplit(t, u, p, stale, r) && Store(u)
    ensures RootOk(u, NONE) && ParentsOk(u, NONE, stale)
  {
    hide KeysOk, KidsOk, KidOk, UpOk, SizeOk, AllApart;
  }

  lemma GrowRootKids(t: Tree, u: Tree, p: Pending, stale: set<Ref>, r: Ref, n: Ref)
    requires RootSplit(t, u, p, stale, r) && Store(u) && n in u.mem
    ensures KidsOk(u, n, NONE)
  {
    hide KeysOk, UpOk, SizeOk, AllApart, ParentsOk;
    if n == r {
      assert KidOk(u, r, 0, NONE);
      assert KidOk(u, r, 1, NONE);
    } else if u.g[n].lev > 1 {
      assert KidsOk(t, n, p);
      forall j | 0 <= j <= u.mem[n].nkeys ensures KidOk(u, n, j, NONE) {
        assert KidOk(t, n, j, p);
      }
    }
  }

  lemma GrowRootKeys(t: Tree, u: Tree, p: Pending, stale: set<Ref>, r: Ref, n: Ref)
    requires RootSplit(t, u, p, stale, r) && Store(u) && n in u.mem
    ensures KeysOk(u, n)
  {
    hide KidsOk, KidOk, AllApart, ParentsOk, UpOk, SizeOk, RootOk;
    if n != r { assert KeysOk(t, n); }
  }

  lemma GrowRootUp(t: Tree, u: Tree, p: Pending, stale: set<Ref>, r: Ref, n: Ref)
    requires RootSplit(t, u, p, stale, r) && Store(u) && n in u.mem
    ensures UpOk(u, n, NONE)
  {
    hide KidsOk, KidOk, AllApart, ParentsOk, KeysOk, SizeOk;
    if n != r { assert UpOk(t, n, p); }
  }

  lemma GrowRootSize(t: Tree, u: Tree, p: Pending, stale: set<Ref>, r: Ref, n: Ref)
    requires RootSplit(t, u, p, stale, r) && Store(u) && n in u.mem
    ensures SizeOk(u, n, 0)
  {
    hide KidsOk, KidOk, AllApart, ParentsOk, KeysOk, UpOk;
    if n != r { assert SizeOk(t, n, 0); }
  }

  lemma GrowRootLocal(t: Tree, u: Tree, p: Pending, stale: set<Ref>, r: Ref, n: Ref)
    requires RootSplit(t, u, p, stale, r) && Store(u) && n in u.mem
    ensures KeysOk(u, n) && UpOk(u, n, NONE) && SizeOk(u, n, 0)
  {
    hide RootSplit, Store, KeysOk, UpOk, SizeOk;
    GrowRootKeys(t, u, p, stale, r, n);
    GrowRootUp(t, u, p, stale, r, n);
    GrowRootSize(t, u, p, stale, r, n);
  }

  lemma GrowRootApart(t: Tree, u: Tree, p: Pending, stale: set<Ref>, r: Ref)
    requires RootSplit(t, u, p, stale, r) && Store(u)
    ensures AllApart(u)
  {
    forall a, b | a in u.g && b in u.g ensures Apart(u, a, b) {
      if a != r && b != r { assert Apart(t, a, b); }
    }
  }

  lemma GrowRootKeepsInv(t: Tree, u: Tree, p: Pending, stale: set<Ref>, r: Ref)
    requires RootSplit(t, u, p, stale, r)
    ensures Inv(u, NONE, stale, 0) && SameBelow(t, u, t.g[p.left].lev)
  {
    GrowRootStore(t, u, p, stale, r);
    GrowRootSame(t, u, p, stale, r);
    GrowRootTop(t, u, p, stale, r);
    forall n | n in u.mem ensures KeysOk(u, n) && UpOk(u, n, NONE) && SizeOk(u, n, 0) {
      GrowRootLocal(t, u, p, stale, r, n);
    }
    forall n | n in u.mem ensures KidsOk(u, n, NONE) {
      GrowRootKids(t, u, p, stale, r, n);
    }
    GrowRootApart(t, u, p, stale, r);
  }

  // ---------------------------------------------------------------- a new separator in the parent

  /** The arrays after the two shifting loops of btree_insert_index. */
  ghost predicate Shifted(a: seq<Slot>, b: seq<Slot>, n: nat, i: nat, key: Key, child: Ref)
  {
    && |a| == CAP && |b| == CAP && i <= n && n + 1 < CAP
    && (forall j :: 0 <= j < i ==> b[j].key == a[j].key)
    && b[i].key == key
    && (forall j :: i < j <= n ==> b[j].key == a[j - 1].key)
    && (forall j :: 0 <= j <= i ==> b[j].child == a[j].child)
    && b[i + 1].child == child
    && (forall j :: i + 1 < j <= n + 1 ==> b[j].child == a[j - 1].child)
  }

  /** btree_insert_index, second branch: the parent takes in the pending right sibling. */
  ghost predicate AddsKid(t: Tree, u: Tree, p: Pending)
    requires Store(t) && p.left in t.mem && p.right in t.mem && t.g[p.right].lo.At?
  {
    var q, i := t.g[p.left].par, t.g[p.left].ix;
    && q in t.mem && q != p.right
    && u.mem.Keys == t.mem.Keys && u.g.Keys == t.mem.Keys
    && (forall n :: n in t.mem && n != q && n != p.right ==> u.mem[n] == t.mem[n])
    && u.mem[p.right] == t.mem[p.right].(parent := q)
    && u.mem[q].parent == t.mem[q].parent && u.mem[q].next == t.mem[q].next
    && u.mem[q].nkeys == t.mem[q].nkeys + 1
    && Shifted(t.mem[q].arr, u.mem[q].arr, t.mem[q].nkeys, i, t.g[p.right].lo.k, p.right)
    && u.g[p.right] == t.g[p.right].(par := q, ix := i + 1)
    && (forall n :: n in t.mem && n != p.right ==>
          u.g[n] == if t.g[n].par == q && t.g[n].ix > i then t.g[n].(ix := t.g[n].ix + 1) else t.g[n])
    && u.root == t.root && u.nlevel == t.nlevel
  }

  ghost predicate KidStep(t: Tree, u: Tree, p: Pending, stale: set<Ref>)
  {
    && Inv(t, p, stale, 0) && p.left != 0 && p.left != t.root && p.right !in stale
    && AddsKid(t, u, p)
  }

  lemma AddKidStore(t: Tree, u: Tree, p: Pending, stale: set<Ref>)
    requires KidStep(t, u, p, stale)
    ensures Store(u)
  {
    hide KeysOk, KidsOk, KidOk, AllApart, ParentsOk, RootOk;
    assert UpOk(t, p.left, p);
    assert SizeOk(t, t.g[p.left].par, 0);
  }

  lemma AddKidSame(t: Tree, u: Tree, p: Pending, stale: set<Ref>)
    requires KidStep(t, u, p, stale) && Store(u)
    ensures SameBelow(t, u, t.g[p.left].lev)
  {
    hide KeysOk, KidsOk, KidOk, SizeOk, AllApart, ParentsOk;
    assert UpOk(t, p.left, p);
    forall n | n in t.mem && t.g[n].lev < t.g[p.left].lev
      ensures u.mem[n] == t.mem[n] && u.g[n] == t.g[n]
    {
      assert UpOk(t, n, p);
    }
  }

  lemma AddKidTop(t: Tree, u: Tree, p: Pending, stale: set<Ref>)
    requires KidStep(t, u, p, stale) && Store(u)
    ensures RootOk(u, NONE) && ParentsOk(u, NONE, stale)
  {
    assert UpOk(t, p.left, p);
    assert UpOk(t, t.root, p);
  }

  /** Child `j` of the parent after the shift is its old child `j0`. */
  lemma AddKidOldChild(t: Tree, u: Tree, p: Pending, stale: set<Ref>, j: nat, j0: nat)
    requires KidStep(t, u, p, stale) && Store(u)
    requires var q, i := t.g[p.left].par, t.g[p.left].ix;
      j <= u.mem[q].nkeys && (if j <= i then j0 == j else j > i + 1 && j0 == j - 1)
    ensures KidOk(u, t.g[p.left].par, j, NONE)
  {
    OldChildFacts(t, p, stale, j0);
    hide Inv, Store, KidsOk, UpOk;
    OldChildPlace(t, u, p, j, j0);
    OldChildBounds(t, u, p, j, j0);
  }

  /** What the invariant says of the child, and of the one that was split. */
  lemma OldChildFacts(t: Tree, p: Pending, stale: set<Ref>, j0: nat)
    requires Inv(t, p, stale, 0) && p.left != 0 && p.left != t.root && p.left in t.mem && p.left in t.g
    requires t.g[p.left].par in t.mem && j0 <= t.mem[t.g[p.left].par].nkeys
    ensures var q, i := t.g[p.left].par, t.g[p.left].ix;
      && q in t.g && t.g[q].lev > 1 && t.mem[q].nkeys < CAP && i <= t.mem[q].nkeys && p.right in t.mem
      && KidOk(t, q, j0, p) && KidOk(t, q, i, p) && t.mem[q].arr[i].child == p.left
  {
    hide KeysOk, SizeOk, AllApart, ParentsOk, RootOk;
    var q := t.g[p.left].par;
    assert UpOk(t, p.left, p);
    assert KidsOk(t, q, p);
  }

  lemma OldChildPlace(t: Tree, u: Tree, p: Pending, j: nat, j0: nat)
    requires Store(t) && Store(u) && PendingOk(t, p) && p.left in t.mem && p.right in t.mem && p.left != 0
    requires t.g[p.left].par in t.mem && t.g[p.left].ix <= t.mem[t.g[p.left].par].nkeys < CAP && AddsKid(t, u, p)
    requires var q, i := t.g[p.left].par, t.g[p.left].ix;
      && j <= u.mem[q].nkeys && j0 <= t.mem[q].nkeys && (if j <= i then j0 == j else j > i + 1 && j0 == j - 1)
      && KidOk(t, q, j0, p)
    ensures var q := t.g[p.left].par; var c := u.mem[q].arr[j].child;
      && c == t.mem[q].arr[j0].child && c in u.mem && u.g[c].lev + 1 == u.g[q].lev && u.g[c].par == q && u.g[c].ix == j
  {
  }

  lemma OldChildBounds(t: Tree, u: Tree, p: Pending, j: nat, j0: nat)
    requires Store(t) && Store(u) && PendingOk(t, p) && p.left in t.mem && p.right in t.mem && p.left != 0
    requires t.g[p.left].par in t.mem && t.g[p.left].ix <= t.mem[t.g[p.left].par].nkeys < CAP && AddsKid(t, u, p)
    requires var q, i := t.g[p.left].par, t.g[p.left].ix;
      && j <= u.mem[q].nkeys && j0 <= t.mem[q].nkeys && (if j <= i then j0 == j else j > i + 1 && j0 == j - 1)
      && KidOk(t, q, j0, p) && KidOk(t, q, i, p) && t.mem[q].arr[i].child == p.left
      && u.mem[q].arr[j].child == t.mem[q].arr[j0].child
    ensures var q := t.g[p.left].par; var c := u.mem[q].arr[j].child;
      c in u.g && u.g[c].lo == LoAt(u, q, j) && u.g[c].hi == HiAt(u, q, j)
  {
  }

  /** The parent's own children after the shift. */
  lemma AddKidParent(t: Tree, u: Tree, p: Pending, stale: set<Ref>, j: nat)
    requires KidStep(t, u, p, stale) && Store(u)
    requires var q := t.g[p.left].par; j <= u.mem[q].nkeys
    ensures KidOk(u, t.g[p.left].par, j, NONE)
  {
    hide KeysOk, SizeOk, AllApart, ParentsOk, RootOk;
    var q, i := t.g[p.left].par, t.g[p.left].ix;
    if j != i + 1 {
      hide Inv, KidOk;
      AddKidOldChild(t, u, p, stale, j, if j <= i then j else j - 1);
    } else {
      assert UpOk(t, p.left, p);
      assert KidsOk(t, q, p);
      assert KidOk(t, q, i, p);
      assert u.mem[q].arr[j].child == p.right;
      hide Inv, KidsOk, UpOk;
    }
  }

  lemma AddKidKids(t: Tree, u: Tree, p: Pending, stale: set<Ref>, n: Ref)
    requires KidStep(t, u, p, stale) && Store(u) && n in u.mem
    ensures KidsOk(u, n, NONE)
  {
    hide KeysOk, SizeOk, AllApart, ParentsOk, RootOk;
    var q := t.g[p.left].par;
    assert UpOk(t, p.left, p);
    if u.g[n].lev > 1 {
      forall j | 0 <= j <= u.mem[n].nkeys ensures KidOk(u, n, j, NONE) {
        if n == q {
          AddKidParent(t, u, p, stale, j);
        } else {
          assert KidsOk(t, n, p);
          assert KidOk(t, n, j, p);
        }
      }
    }
  }

  /** The new separator goes strictly between its neighbours. */
  lemma AddKidSeparator(t: Tree, p: Pending, stale: set<Ref>)
    requires Inv(t, p, stale, 0) && p.left != 0 && p.left != t.root
    ensures var q, i, k := t.g[p.left].par, t.g[p.left].ix, t.g[p.right].lo.k;
      && q in t.mem && i <= t.mem[q].nkeys && KeyFits(t.g[q], k)
      && (i > 0 ==> t.mem[q].arr[i - 1].key < k)
      && (i < t.mem[q].nkeys ==> k < t.mem[q].arr[i].key)
  {
    var q, i := t.g[p.left].par, t.g[p.left].ix;
    assert UpOk(t, p.left, p);
    assert KeysOk(t, q);
    assert KidsOk(t, q, p);
    assert KidOk(t, q, i, p);
    if i > 0 { assert KeyFits(t.g[q], t.mem[q].arr[i - 1].key); }
    if i < t.mem[q].nkeys { assert KeyFits(t.g[q], t.mem[q].arr[i].key); }
  }

  lemma ShiftedAscending(a: seq<Slot>, b: seq<Slot>, n: nat, i: nat, key: Key, child: Ref)
    requires Shifted(a, b, n, i, key, child) && Ascending(a, n)
    requires i > 0 ==> a[i - 1].key < key
    requires i < n ==> key < a[i].key
    ensures Ascending(b, n + 1)
  {
  }

  lemma ShiftedFits(a: seq<Slot>, b: seq<Slot>, n: nat, i: nat, key: Key, child: Ref, info: Info)
    requires Shifted(a, b, n, i, key, child) && KeyFits(info, key)
    requires forall j :: 0 <= j < n ==> KeyFits(info, a[j].key)
    ensures forall j :: 0 <= j < n + 1 ==> KeyFits(info, b[j].key)
  {
  }

  lemma AddKidKeys(t: Tree, u: Tree, p: Pending, stale: set<Ref>, n: Ref)
    requires KidStep(t, u, p, stale) && Store(u) && n in u.mem
    ensures KeysOk(u, n)
  {
    hide KidsOk, KidOk, UpOk, SizeOk, AllApart, ParentsOk, RootOk;
    var q, i, k := t.g[p.left].par, t.g[p.left].ix, t.g[p.right].lo.k;
    assert KeysOk(t, n);
    if n == q {
      AddKidSeparator(t, p, stale);
      hide Inv, Shifted, KeyFits;
      ShiftedAscending(t.mem[q].arr, u.mem[q].arr, t.mem[q].nkeys, i, k, p.right);
      ShiftedFits(t.mem[q].arr, u.mem[q].arr, t.mem[q].nkeys, i, k, p.right, t.g[q]);
      assert KeyFits(u.g[q], k) && u.g[q].lo == t.g[q].lo && u.g[q].hi == t.g[q].hi && u.g[q].lev == t.g[q].lev;
    }
  }

  lemma AddKidUp(t: Tree, u: Tree, p: Pending, stale: set<Ref>, n: Ref)
    requires KidStep(t, u, p, stale) && Store(u) && n in u.mem
    ensures UpOk(u, n, NONE)
  {
    hide KeysOk, KidsOk, KidOk, SizeOk, AllApart, ParentsOk, RootOk;
    assert UpOk(t, p.left, p) && UpOk(t, n, p);
    var q, i := t.g[p.left].par, t.g[p.left].ix;
    if n == p.right {
      assert u.mem[q].arr[i + 1].child == n;
    } else if n != t.root && t.g[n].par == q {
      assert u.g[n].ix == if t.g[n].ix > i then t.g[n].ix + 1 else t.g[n].ix;
      assert u.mem[q].arr[u.g[n].ix].child == t.mem[q].arr[t.g[n].ix].child;
    }
  }

  lemma AddKidLocal(t: Tree, u: Tree, p: Pending, stale: set<Ref>, n: Ref)
    requires KidStep(t, u, p, stale) && Store(u) && n in u.mem
    ensures UpOk(u, n, NONE) && SizeOk(u, n, t.g[p.left].par)
  {
    hide KeysOk, KidsOk, KidOk, AllApart, ParentsOk, RootOk, UpOk;
    AddKidUp(t, u, p, stale, n);
    assert SizeOk(t, n, 0);
  }

  lemma AddKidApart(t: Tree, u: Tree, p: Pending, stale: set<Ref>)
    requires KidStep(t, u, p, stale) && Store(u)
    ensures AllApart(u)
  {
    forall a, b | a in u.g && b in u.g ensures Apart(u, a, b) {
      assert Apart(t, a, b);
    }
  }

  lemma AddKidKeepsInv(t: Tree, u: Tree, p: Pending, stale: set<Ref>)
    requires KidStep(t, u, p, stale)
    ensures Inv(u, NONE, stale, t.g[p.left].par) && SameBelow(t, u, t.g[p.left].lev)
  {
    AddKidStore(t, u, p, stale);
    AddKidSame(t, u, p, stale);
    AddKidTop(t, u, p, stale);
    forall n | n in u.mem ensures UpOk(u, n, NONE) && SizeOk(u, n, t.g[p.left].par) {
      AddKidLocal(t, u, p, stale, n);
    }
    forall n | n in u.mem ensures KeysOk(u, n) {
      AddKidKeys(t, u, p, stale, n);
    }
    forall n | n in u.mem ensures KidsOk(u, n, NONE) {
      AddKidKids(t, u, p, stale, n);
    }
    AddKidApart(t, u, p, stale);
  }

  /** Without overflow the invariant is whole again. */
  lemma AddKidFits(t: Tree, u: Tree, p: Pending, stale: set<Ref>)
    requires KidStep(t, u, p, stale) && Inv(u, NONE, stale, t.g[p.left].par)
    ensures var q := t.g[p.left].par; u.mem[q].nkeys == 2 * ORDER + 1 || Inv(u, NONE, stale, 0)
  {
    var q := t.g[p.left].par;
    assert UpOk(t, p.left, p) && SizeOk(t, q, 0);
    forall n | n in u.mem && u.mem[q].nkeys != 2 * ORDER + 1 ensures SizeOk(u, n, 0) {
      assert SizeOk(u, n, q);
    }
  }

  /** Stale nodes stay where they are. */
  lemma AddKidStale(t: Tree, u: Tree, stale: set<Ref>, left: Ref, lev: nat)
    requires Store(t) && Store(u) && left in t.mem && SameBelow(t, u, lev) && u.mem.Keys == t.mem.Keys
    requires stale <= t.mem.Keys && forall c :: c in stale ==> t.g[c].lev < lev
    ensures stale <= u.mem.Keys && forall c :: c in stale ==> u.g[c].lev < lev
  {
  }

  // ---------------------------------------------------------------- splitting an overfull node

  /** Keys that stay left: a leaf keeps ORDER + 1, an internal node ORDER (one moves up). */
  function Kept(lev: nat): nat { if lev == 1 then ORDER + 1 else ORDER }

  /** split_leaf and btree_split_internal: the upper half of `n` moves to the new node `q`. */
  ghost predicate Splits(t: Tree, u: Tree, n: Ref, q: Ref)
    requires Store(t) && n in t.mem
  {
    var m := Kept(t.g[n].lev);
    var sep := At(t.mem[n].arr[m].key);
    && q !in t.mem && q != 0
    && u.mem.Keys == t.mem.Keys + {q} && u.g.Keys == t.mem.Keys + {q}
    && (forall x :: x in t.mem && x != n ==> u.mem[x] == t.mem[x])
    && u.mem[n] == t.mem[n].(nkeys := m)
    && u.mem[q].nkeys == m && |u.mem[q].arr| == CAP
    && (forall j :: 0 <= j < ORDER + 1 ==> u.mem[q].arr[j] == t.mem[n].arr[j + ORDER + 1])
    && u.g[n] == t.g[n].(hi := sep)
    && u.g[q].lev == t.g[n].lev && u.g[q].lo == sep && u.g[q].hi == t.g[n].hi
    && u.g[q].par == 0
    && (forall x :: x in t.mem && x != n ==>
          u.g[x] == if t.g[x].par == n && t.g[x].ix > ORDER
                    then t.g[x].(par := q, ix := t.g[x].ix - (ORDER + 1)) else t.g[x])
    && u.root == t.root && u.nlevel == t.nlevel
  }

  /** The children that moved and whose parent pointers are still to be fixed. */
  ghost function Moved(u: Tree, q: Ref): set<Ref>
  {
    set c | c in u.g && u.g[c].par == q
  }

  ghost predicate SplitStep(t: Tree, u: Tree, stale: set<Ref>, n: Ref, q: Ref)
  {
    && Inv(t, NONE, stale, n) && n in t.mem && n != 0
    && t.mem[n].nkeys == MaxKeys(t.g[n].lev) + 1
    && Splits(t, u, n, q)
  }

  lemma SplitStore(t: Tree, u: Tree, stale: set<Ref>, n: Ref, q: Ref)
    requires SplitStep(t, u, stale, n, q)
    ensures Store(u)
  {
    hide KeysOk, KidsOk, KidOk, UpOk, SizeOk, AllApart, ParentsOk, RootOk;
  }

  lemma SplitPending(t: Tree, u: Tree, stale: set<Ref>, n: Ref, q: Ref)
    requires SplitStep(t, u, stale, n, q) && Store(u)
    ensures PendingOk(u, Pending(n, q))
  {
    hide KidsOk, KidOk, UpOk, SizeOk, AllApart, ParentsOk;
    assert KeysOk(t, n);
    assert KeyFits(t.g[n], t.mem[n].arr[0].key);
    assert KeyFits(t.g[n], t.mem[n].arr[Kept(t.g[n].lev)].key);
  }

  lemma SplitSame(t: Tree, u: Tree, stale: set<Ref>, n: Ref, q: Ref)
    requires SplitStep(t, u, stale, n, q) && Store(u)
    ensures SameBelow(t, u, t.g[n].lev - 1)
  {
    forall x | x in t.mem && t.g[x].lev < t.g[n].lev - 1 ensures u.g[x] == t.g[x] {
      assert UpOk(t, x, NONE);
    }
  }

  lemma SplitTop(t: Tree, u: Tree, stale: set<Ref>, n: Ref, q: Ref)
    requires SplitStep(t, u, stale, n, q) && Store(u) && PendingOk(u, Pending(n, q))
    ensures RootOk(u, Pending(n, q))
  {
  }

  lemma SplitParents(t: Tree, u: Tree, stale: set<Ref>, n: Ref, q: Ref)
    requires SplitStep(t, u, stale, n, q) && Store(u)
    ensures ParentsOk(u, Pending(n, q), stale + Moved(u, q))
  {
    assert UpOk(t, n, NONE);
  }

  lemma SplitKeys(t: Tree, u: Tree, stale: set<Ref>, n: Ref, q: Ref, x: Ref)
    requires SplitStep(t, u, stale, n, q) && Store(u) && x in u.mem
    ensures KeysOk(u, x)
  {
    hide KidsOk, KidOk, UpOk, SizeOk, AllApart, ParentsOk, RootOk;
    assert KeysOk(t, n);
    if x != n && x != q { assert KeysOk(t, x); }
  }

  /** Children of the two halves. */
  lemma SplitHalves(t: Tree, u: Tree, stale: set<Ref>, n: Ref, q: Ref, j: nat)
    requires SplitStep(t, u, stale, n, q) && Store(u) && PendingOk(u, Pending(n, q))
    requires t.g[n].lev > 1 && j <= ORDER
    ensures KidOk(u, n, j, Pending(n, q)) && KidOk(u, q, j, Pending(n, q))
  {
    hide KeysOk, UpOk, SizeOk, AllApart, ParentsOk, RootOk;
    assert KidsOk(t, n, NONE);
    assert KidOk(t, n, j, NONE);
    assert KidOk(t, n, j + ORDER + 1, NONE);
  }

  lemma SplitKids(t: Tree, u: Tree, stale: set<Ref>, n: Ref, q: Ref, x: Ref)
    requires SplitStep(t, u, stale, n, q) && Store(u) && PendingOk(u, Pending(n, q)) && x in u.mem
    ensures KidsOk(u, x, Pending(n, q))
  {
    if u.g[x].lev > 1 {
      forall j | 0 <= j <= u.mem[x].nkeys ensures KidOk(u, x, j, Pending(n, q)) {
        if x == n || x == q {
          SplitHalves(t, u, stale, n, q, j);
        } else {
          assert KidsOk(t, x, NONE);
          assert KidOk(t, x, j, NONE);
        }
      }
    }
  }

  lemma SplitUp(t: Tree, u: Tree, stale: set<Ref>, n: Ref, q: Ref, x: Ref)
    requires SplitStep(t, u, stale, n, q) && Store(u) && x in u.mem
    ensures UpOk(u, x, Pending(n, q))
  {
    hide KeysOk, KidsOk, KidOk, SizeOk, AllApart, ParentsOk;
    if x != q { assert UpOk(t, x, NONE); }
  }

  lemma SplitSize(t: Tree, u: Tree, stale: set<Ref>, n: Ref, q: Ref, x: Ref)
    requires SplitStep(t, u, stale, n, q) && Store(u) && x in u.mem
    ensures SizeOk(u, x, 0)
  {
    hide KeysOk, KidsOk, KidOk, UpOk, AllApart, ParentsOk, RootOk;
    if x != q { assert SizeOk(t, x, n); }
  }

  lemma SplitApart(t: Tree, u: Tree, stale: set<Ref>, n: Ref, q: Ref, a: Ref, b: Ref)
    requires SplitStep(t, u, stale, n, q) && Store(u) && PendingOk(u, Pending(n, q))
    requires a in u.g && b in u.g
    ensures Apart(u, a, b)
  {
    hide KeysOk, KidsOk, KidOk, UpOk, SizeOk, ParentsOk, RootOk;
    if a != q && b != q {
      assert Apart(t, a, b);
    } else if a != q {
      assert Apart(t, a, n);
    } else if b != q {
      assert Apart(t, n, b);
    }
  }

  lemma SplitKeepsInv(t: Tree, u: Tree, stale: set<Ref>, n: Ref, q: Ref)
    requires SplitStep(t, u, stale, n, q)
    ensures Inv(u, Pending(n, q), stale + Moved(u, q), 0)
  {
    SplitStore(t, u, stale, n, q);
    SplitPending(t, u, stale, n, q);
    SplitTop(t, u, stale, n, q);
    SplitParents(t, u, stale, n, q);
    forall x | x in u.mem ensures KeysOk(u, x) && SizeOk(u, x, 0) {
      SplitKeys(t, u, stale, n, q, x);
      SplitSize(t, u, stale, n, q, x);
    }
    forall x | x in u.mem ensures KidsOk(u, x, Pending(n, q)) && UpOk(u, x, Pending(n, q)) {
      SplitKids(t, u, stale, n, q, x);
      SplitUp(t, u, stale, n, q, x);
    }
    forall a, b | a in u.g && b in u.g ensures Apart(u, a, b) {
      SplitApart(t, u, stale, n, q, a, b);
    }
  }

  // ---------------------------------------------------------------- parent pointers and leaf slots

  /** Only parent pointers in memory changed. */
  ghost predicate Reparents(t: Tree, u: Tree)
  {
    && u.g == t.g && u.root == t.root && u.nlevel == t.nlevel && u.mem.Keys == t.mem.Keys
    && forall n :: n in t.mem ==> u.mem[n] == t.mem[n].(parent := u.mem[n].parent)
  }

  lemma ReparentKeepsInv(t: Tree, u: Tree, stale: set<Ref>, stale': set<Ref>)
    requires Inv(t, NONE, stale, 0) && Reparents(t, u)
    requires Store(u) && ParentsOk(u, NONE, stale')
    ensures Inv(u, NONE, stale', 0)
  {
    forall n | n in u.mem ensures KeysOk(u, n) && UpOk(u, n, NONE) && SizeOk(u, n, 0) {
      assert KeysOk(t, n) && UpOk(t, n, NONE) && SizeOk(t, n, 0);
    }
    forall n | n in u.mem ensures KidsOk(u, n, NONE) {
      assert KidsOk(t, n, NONE);
      if u.g[n].lev > 1 {
        forall j | 0 <= j <= u.mem[n].nkeys ensures KidOk(u, n, j, NONE) {
          assert KidOk(t, n, j, NONE);
        }
      }
    }
    forall a, b | a in u.g && b in u.g ensures Apart(u, a, b) {
      assert Apart(t, a, b);
    }
  }

  /** Only the slots and links of leaf `n` changed. */
  ghost predicate Rewrites(t: Tree, u: Tree, n: Ref)
  {
    && n in t.mem && u.g == t.g && u.root == t.root && u.nlevel == t.nlevel && u.mem.Keys == t.mem.Keys
    && u.mem[n].parent == t.mem[n].parent
    && forall x :: x in t.mem && x != n ==> u.mem[x] == t.mem[x]
  }

  lemma RewriteLocal(t: Tree, u: Tree, n: Ref, over: Ref, over': Ref, x: Ref)
    requires Inv(t, NONE, {}, over) && Rewrites(t, u, n) && t.g[n].lev == 1 && (over == 0 || over == n)
    requires Store(u) && KeysOk(u, n) && SizeOk(u, n, over') && x in u.mem
    ensures KeysOk(u, x) && UpOk(u, x, NONE) && SizeOk(u, x, over')
  {
    assert KeysOk(t, x) && UpOk(t, x, NONE) && SizeOk(t, x, over);
  }

  lemma RewriteKids(t: Tree, u: Tree, n: Ref, over: Ref, x: Ref)
    requires Inv(t, NONE, {}, over) && Rewrites(t, u, n) && t.g[n].lev == 1
    requires Store(u) && x in u.mem
    ensures KidsOk(u, x, NONE)
  {
    assert KidsOk(t, x, NONE);
    if u.g[x].lev > 1 {
      forall j | 0 <= j <= u.mem[x].nkeys ensures KidOk(u, x, j, NONE) {
        assert KidOk(t, x, j, NONE);
      }
    }
  }

  lemma RewriteKeepsInv(t: Tree, u: Tree, n: Ref, over: Ref, over': Ref)
    requires Inv(t, NONE, {}, over) && Rewrites(t, u, n) && t.g[n].lev == 1 && (over == 0 || over == n)
    requires Store(u) && KeysOk(u, n) && SizeOk(u, n, over')
    ensures Inv(u, NONE, {}, over')
  {
    forall x | x in u.mem ensures KeysOk(u, x) && UpOk(u, x, NONE) && SizeOk(u, x, over') {
      RewriteLocal(t, u, n, over, over', x);
    }
    forall x | x in u.mem ensures KidsOk(u, x, NONE) {
      RewriteKids(t, u, n, over, x);
    }
    hide KeysOk, UpOk, SizeOk, KidsOk;
    forall a, b | a in u.g && b in u.g ensures Apart(u, a, b) {
      assert Apart(t, a, b);
    }
  }

  /** Levels of the children that moved. */
  lemma MovedLevel(u: Tree, p: Pending, stale: set<Ref>, c: Ref)
    requires Inv(u, p, stale, 0) && p.left != 0 && u.g[p.right].par == 0
    requires c in Moved(u, p.right)
    ensures u.g[c].lev + 1 == u.g[p.left].lev && c != u.root
  {
    assert UpOk(u, c, p);
  }

  /** A change above the children's level leaves them moved and stale. */
  lemma MovedStays(u: Tree, v: Tree, p: Pending, stale: set<Ref>)
    requires Inv(u, p, stale + Moved(u, p.right), 0) && p.left != 0 && u.g[p.right].par == 0
    requires Inv(v, NONE, stale + Moved(u, p.right), 0) && SameBelow(u, v, u.g[p.left].lev)
    ensures Inv(v, NONE, stale + Moved(v, p.right), 0)
  {
    forall c | c in Moved(u, p.right) ensures c in Moved(v, p.right) {
      MovedLevel(u, p, stale + Moved(u, p.right), c);
    }
  }

  lemma InvStore(t: Tree, p: Pending, stale: set<Ref>, over: Ref)
    requires Inv(t, p, stale, over)
    ensures Store(t) && PendingOk(t, p) && t.nlevel >= 1
  {
  }

  /** Node `q`'s children, each with its index. */
  lemma KidsOfNode(t: Tree, stale: set<Ref>, q: Ref)
    requires Inv(t, NONE, stale, 0) && q in t.mem && t.g[q].lev > 1
    ensures Store(t)
    ensures forall j :: 0 <= j <= t.mem[q].nkeys ==>
      var c := t.mem[q].arr[j].child; c in t.mem && t.g[c].par == q && t.g[c].ix == j && c != q
    ensures forall c :: c in t.mem && t.g[c].par == q ==>
      t.g[c].ix <= t.mem[q].nkeys && t.mem[q].arr[t.g[c].ix].child == c
  {
    assert KidsOk(t, q, NONE);
    forall j | 0 <= j <= t.mem[q].nkeys
      ensures var c := t.mem[q].arr[j].child; c in t.mem && t.g[c].par == q && t.g[c].ix == j && c != q
    {
      assert KidOk(t, q, j, NONE);
    }
    forall c | c in t.mem && t.g[c].par == q
      ensures t.g[c].ix <= t.mem[q].nkeys && t.mem[q].arr[t.g[c].ix].child == c
    {
      assert UpOk(t, c, NONE);
    }
  }

  lemma FixedParents(t: Tree, u: Tree, stale: set<Ref>, q: Ref)
    requires Inv(t, NONE, stale + Moved(t, q), 0) && q in t.mem && q in t.g && q != 0
    requires u.g == t.g && u.root == t.root && u.nlevel == t.nlevel && u.mem.Keys == t.mem.Keys
    requires forall n :: n in t.mem ==> u.mem[n] == t.mem[n].(parent :=
               if n in t.g && t.g[n].par == q then q else t.mem[n].parent)
    ensures Inv(u, NONE, stale, 0) && Reparents(t, u)
  {
    assert Store(u) && ParentsOk(u, NONE, stale);
    hide Inv;
    ReparentKeepsInv(t, u, stale + Moved(t, q), stale);
  }

  /** What the recursive insertion needs to know after a split. */
  lemma SplitFacts(t: Tree, u: Tree, stale: set<Ref>, n: Ref, q: Ref)
    requires SplitStep(t, u, stale, n, q) && Inv(u, Pending(n, q), stale + Moved(u, q), 0)
    requires n !in stale && stale <= t.mem.Keys && t.g[n].lev > 1
    requires forall c :: c in stale ==> t.g[c].lev < t.g[n].lev
    ensures var s := stale + Moved(u, q);
      && n !in s && q !in s && s <= u.mem.Keys
      && (forall c :: c in s ==> u.g[c].lev < u.g[n].lev)
      && u.g[q].lo == At(t.mem[n].arr[ORDER].key) && u.g[q].par == 0 && u.g[n].lev == t.g[n].lev
      && u.nlevel == t.nlevel
  {
    forall c | c in Moved(u, q) ensures u.g[c].lev + 1 == u.g[n].lev {
      MovedLevel(u, Pending(n, q), stale + Moved(u, q), c);
    }
  }

  lemma FixedSame(v: Tree, w: Tree, stale: set<Ref>, q: Ref)
    requires Inv(v, NONE, stale, 0) && Store(w) && Reparents(v, w) && q in v.mem && q != 0 && v.g[q].lev > 1
    requires forall x :: x in v.mem && v.g[x].par != q ==> w.mem[x] == v.mem[x]
    ensures SameBelow(v, w, v.g[q].lev - 1)
  {
    forall x | x in v.mem && v.g[x].lev < v.g[q].lev - 1 ensures w.mem[x] == v.mem[x] {
      assert UpOk(v, x, NONE);
    }
  }

  lemma SplitUpwardSame(t: Tree, u: Tree, v: Tree, w: Tree, stale: set<Ref>, n: Ref, q: Ref)
    requires SplitStep(t, u, stale, n, q) && t.g[n].lev > 1 && Store(u) && Store(v) && Store(w)
    requires SameBelow(u, v, t.g[n].lev) && Reparents(v, w) && v.g[q].lev == t.g[n].lev
    requires Inv(v, NONE, stale + Moved(v, q), 0) && q in v.mem && q != 0
    requires forall x :: x in v.mem && v.g[x].par != q ==> w.mem[x] == v.mem[x]
    ensures SameBelow(t, w, t.g[n].lev - 1)
  {
    SplitSame(t, u, stale, n, q);
    FixedSame(v, w, stale + Moved(v, q), q);
    hide *;
    SameBelowTrans(t, u, v, t.g[n].lev - 1, t.g[n].lev);
    SameBelowTrans(t, v, w, t.g[n].lev - 1, t.g[n].lev - 1);
  }

  lemma ArrLen(t: Tree, n: Ref)
    requires Store(t) && n in t.mem
    ensures |t.mem[n].arr| == CAP && n in t.g
  {
  }
}
