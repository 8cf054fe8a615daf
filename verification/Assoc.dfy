/** memcached-1.4.5/assoc.c: the hash index that grows bucket by bucket while in use. */
module Assoc {

  /** An item's address; 0 is NULL. */
  type Ptr = nat
  type Key = string

  /** A pointer field of item memory: memory that was never written reads as zero. */
  function Ld(m: map<Ptr, Ptr>, p: Ptr): Ptr { if p in m then m[p] else 0 }

  /** The hash function, by its graph: any function from keys to numbers. */
  type HashFn = imap<Key, nat>

  function Hv(hash: HashFn, k: Key): nat { if k in hash then hash[k] else 0 }

  /** hashsize(n) */
  function HashSize(n: nat): (r: nat)
    ensures r > 0
  {
    if n == 0 then 1 else 2 * HashSize(n - 1)
  }

  lemma HashSizes()
    ensures HashSize(0) == 1 && HashSize(16) == 65536
  {
    assert HashSize(4) == 16 && HashSize(8) == 256 && HashSize(12) == 4096;
  }

  lemma Remainder(x: nat, s: nat, q: nat, r: nat)
    requires r < s && x == s * q + r
    ensures x % s == r
  {
    var q', r' := x / s, x % s;
    assert x == s * q' + r';
    Gap(s, q, q');
    Gap(s, q', q);
  }

  lemma Gap(s: nat, a: nat, b: nat)
    ensures a < b ==> s * b >= s * a + s
  {
    if a < b {
      assert s * b == s * (a + 1) + s * (b - a - 1);
    }
  }

  lemma Twice(s: nat, h: nat)
    ensures s * (2 * h) == (2 * s) * h && s * (2 * h + 1) == (2 * s) * h + s
  {
  }

  lemma Divided(x: nat, s: nat)
    requires s > 0
    ensures x == s * (x / s) + x % s
  {
  }

  lemma Halves(x: nat, s: nat)
    requires s > 0
    ensures x % (2 * s) == x % s || x % (2 * s) == x % s + s
  {
    var q, r := x / s, x % s;
    Divided(x, s);
    var h := q / 2;
    Twice(s, h);
    if q == 2 * h {
      Remainder(x, 2 * s, h, r);
    } else {
      Remainder(x, 2 * s, h, r + s);
    }
  }

  /** Doubling the table splits a bucket in two: an item of bucket b of the old one belongs in the new one to b, or to
      b plus the size of the old one. */
  lemma SplitsInTwo(hv: nat, n: nat)
    ensures HashSize(n + 1) == 2 * HashSize(n) && HashSize(n) > 0
    ensures hv % HashSize(n + 1) == hv % HashSize(n) || hv % HashSize(n + 1) == hv % HashSize(n) + HashSize(n)
  {
    Halves(hv, HashSize(n));
  }

  /** Which of the two tables, and which bucket. */
  datatype Place = InOld(b: nat) | InNew(b: nat)

  /** The test made by assoc_find, _hashitem_before and assoc_insert. */
  function PlaceOf(hv: nat, hashpower: nat, expanding: bool, expandBucket: nat): Place
    requires expanding ==> hashpower > 0
  {
    if expanding && hv % HashSize(hashpower - 1) >= expandBucket then InOld(hv % HashSize(hashpower - 1))
    else InNew(hv % HashSize(hashpower))
  }

  /** The item after position `i` of a chain. */
  function After(s: seq<Ptr>, i: nat): Ptr { if i + 1 < |s| then s[i + 1] else 0 }

  ghost predicate NoDup(s: seq<Ptr>) { forall i, j :: 0 <= i < j < |s| ==> s[i] != s[j] }

  /** `s` is the chain that starts at `head`. */
  ghost predicate Chain(hNext: map<Ptr, Ptr>, head: Ptr, s: seq<Ptr>)
  {
    && head == (if s == [] then 0 else s[0])
    && (forall i :: 0 <= i < |s| ==> s[i] != 0)
    && (forall i {:trigger Ld(hNext, s[i])} :: 0 <= i < |s| ==> Ld(hNext, s[i]) == After(s, i))
    && NoDup(s)
  }

  /** Writing `h_next` of an item that is not in the chain. */
  lemma ChainFrame(h: map<Ptr, Ptr>, h': map<Ptr, Ptr>, head: Ptr, s: seq<Ptr>)
    requires Chain(h, head, s)
    requires forall x :: x in s ==> Ld(h', x) == Ld(h, x)
    ensures Chain(h', head, s)
  {
    forall i | 0 <= i < |s| ensures Ld(h', s[i]) == After(s, i) {
      assert Ld(h, s[i]) == After(s, i);
    }
  }

  lemma ChainPush(h: map<Ptr, Ptr>, head: Ptr, s: seq<Ptr>, it: Ptr)
    requires Chain(h, head, s) && it !in s && it != 0
    ensures Chain(h[it := head], it, [it] + s)
  {
    var h', s' := h[it := head], [it] + s;
    forall i | 0 <= i < |s'| ensures Ld(h', s'[i]) == After(s', i) {
      if i > 0 { assert s'[i] == s[i - 1] && Ld(h, s[i - 1]) == After(s, i - 1) == After(s', i); }
    }
  }

  /** Cutting out the head. */
  lemma ChainCutHead(h: map<Ptr, Ptr>, head: Ptr, s: seq<Ptr>)
    requires Chain(h, head, s) && s != []
    ensures Chain(h[head := 0], Ld(h, head), s[1..])
  {
    var s' := s[1..];
    forall i | 0 <= i < |s'| ensures Ld(h[head := 0], s'[i]) == After(s', i) {
      assert s'[i] == s[i + 1] && Ld(h, s[i + 1]) == After(s, i + 1) == After(s', i);
    }
  }

  /** A sequence without its element `n`. */
  function Without(s: seq<Ptr>, n: nat): (r: seq<Ptr>)
    requires n < |s|
    ensures |r| == |s| - 1
    ensures forall i :: 0 <= i < |r| ==> r[i] == s[if i < n then i else i + 1]
  {
    s[..n] + s[n + 1..]
  }

  /** Cutting out a later element by rewriting its predecessor. */
  lemma ChainCut(h: map<Ptr, Ptr>, head: Ptr, s: seq<Ptr>, n: nat)
    requires Chain(h, head, s) && 0 < n < |s|
    ensures Chain(h[s[n] := 0][s[n - 1] := Ld(h, s[n])], head, Without(s, n))
  {
    var h', s' := h[s[n] := 0][s[n - 1] := Ld(h, s[n])], Without(s, n);
    forall i | 0 <= i < |s'| ensures Ld(h', s'[i]) == After(s', i) {
      var k := if i < n then i else i + 1;
      assert s'[i] == s[k] && Ld(h, s[k]) == After(s, k) && s[k] != s[n];
      if k == n - 1 {
        assert Ld(h', s[k]) == Ld(h, s[n]) == After(s, n);
      } else {
        assert s[k] != s[n - 1];
        assert Ld(h', s[k]) == Ld(h, s[k]);
      }
    }
  }

  // ---------------------------------------------------------------- the two tables and the map

  type Chains = map<Place, seq<Ptr>>

  /** The table dimensions that decide where a hash value goes. */
  datatype Dims = Dims(hashpower: nat, expanding: bool, expandBucket: nat)

  ghost predicate DimsOk(d: Dims)
  {
    d.expanding ==> d.hashpower > 0 && d.expandBucket <= HashSize(d.hashpower - 1)
  }

  function Where(hv: nat, d: Dims): Place
    requires DimsOk(d)
  {
    PlaceOf(hv, d.hashpower, d.expanding, d.expandBucket)
  }

  /** The first item of a bucket, read from the table it is in. */
  function Head(primary: seq<Ptr>, prior: seq<Ptr>, p: Place): Ptr
  {
    match p
    case InNew(b) => if b < |primary| then primary[b] else 0
    case InOld(b) => if b < |prior| then prior[b] else 0
  }

  /** Every bucket's chain is what its head pointer and the `h_next` fields say. */
  ghost predicate Heads(c: Chains, primary: seq<Ptr>, prior: seq<Ptr>, hNext: map<Ptr, Ptr>)
  {
    forall p {:trigger c[p]} :: p in c ==> Chain(hNext, Head(primary, prior, p), c[p])
  }

  ghost predicate Sits(x: Ptr, p: Place, index: map<Key, Ptr>, key: map<Ptr, Key>, hash: HashFn, d: Dims)
    requires DimsOk(d)
  {
    x in key && key[x] in index && index[key[x]] == x && Where(Hv(hash, key[x]), d) == p
  }

  /** An indexed item is in the bucket that the expand_bucket test picks, unless it is being moved. */
  ghost predicate Filed(k: Key, c: Chains, index: map<Key, Ptr>, key: map<Ptr, Key>, hash: HashFn, d: Dims,
                        moving: seq<Ptr>)
    requires DimsOk(d) && k in index
  {
    && index[k] in key && key[index[k]] == k && Where(Hv(hash, k), d) in c
    && (index[k] in moving || index[k] in c[Where(Hv(hash, k), d)])
  }

  /** Chains and map agree: each item of the map is in exactly one bucket, the right one.
      `moving` are items taken off their old bucket and not yet filed again. */
  ghost predicate Agree(c: Chains, index: map<Key, Ptr>, key: map<Ptr, Key>, hash: HashFn, d: Dims,
                        moving: seq<Ptr>)
    requires DimsOk(d)
  {
    && (forall p, x {:trigger x in c[p]} :: p in c && x in c[p] ==> Sits(x, p, index, key, hash, d) && x !in moving)
    && (forall k {:trigger index[k]} :: k in index ==> Filed(k, c, index, key, hash, d, moving))
    && NoDup(moving)
    && (forall i :: 0 <= i < |moving| ==>
          moving[i] in key && key[moving[i]] in index && index[key[moving[i]]] == moving[i])
  }

  /** An item can only be in the one bucket its key picks. */
  lemma OnlyOneBucket(c: Chains, index: map<Key, Ptr>, key: map<Ptr, Key>, hash: HashFn, d: Dims,
                      moving: seq<Ptr>, p: Place, q: Place, x: Ptr)
    requires DimsOk(d) && Agree(c, index, key, hash, d, moving) && p in c && q in c && x in c[p] && x in c[q]
    ensures p == q
  {
    assert Sits(x, p, index, key, hash, d) && Sits(x, q, index, key, hash, d);
  }

  // ---------------------------------------------------------------- steps

  /** Pushing a new item on its bucket. */
  lemma PushAgree(c: Chains, index: map<Key, Ptr>, key: map<Ptr, Key>, hash: HashFn, d: Dims, it: Ptr)
    requires DimsOk(d) && Agree(c, index, key, hash, d, [])
    requires it in key && key[it] !in index && Where(Hv(hash, key[it]), d) in c
    ensures var p := Where(Hv(hash, key[it]), d);
      && (forall q :: q in c ==> it !in c[q])
      && Agree(c[p := [it] + c[p]], index[key[it] := it], key, hash, d, [])
  {
    var p := Where(Hv(hash, key[it]), d);
    forall q | q in c ensures it !in c[q] { }
    var c', index' := c[p := [it] + c[p]], index[key[it] := it];
    forall q, x {:trigger x in c'[q]} | q in c' && x in c'[q] ensures Sits(x, q, index', key, hash, d) {
      if x != it { assert x in c[q]; }
    }
    forall k | k in index' ensures Filed(k, c', index', key, hash, d, []) {
      if k != key[it] { assert Filed(k, c, index, key, hash, d, []); }
    }
  }

  lemma PushHeads(c: Chains, primary: seq<Ptr>, prior: seq<Ptr>, hNext: map<Ptr, Ptr>, p: Place, it: Ptr,
                  primary': seq<Ptr>, prior': seq<Ptr>)
    requires Heads(c, primary, prior, hNext) && p in c && it != 0
    requires forall q {:trigger c[q]} :: q in c ==> it !in c[q]
    requires Head(primary', prior', p) == it
    requires forall q {:trigger c[q]} :: q in c && q != p ==> Head(primary', prior', q) == Head(primary, prior, q)
    ensures Heads(c[p := [it] + c[p]], primary', prior', hNext[it := Head(primary, prior, p)])
  {
    var h', c' := hNext[it := Head(primary, prior, p)], c[p := [it] + c[p]];
    forall q | q in c' ensures Chain(h', Head(primary', prior', q), c'[q]) {
      assert Chain(hNext, Head(primary, prior, q), c[q]);
      if q == p {
        ChainPush(hNext, Head(primary, prior, p), c[p], it);
      } else {
        ChainFrame(hNext, h', Head(primary, prior, q), c[q]);
      }
    }
  }

  /** Cutting the item of key `k` out of its bucket. */
  lemma CutAgree(c: Chains, index: map<Key, Ptr>, key: map<Ptr, Key>, hash: HashFn, d: Dims, k: Key, n: nat)
    requires DimsOk(d) && Agree(c, index, key, hash, d, [])
    requires k in index && Where(Hv(hash, k), d) in c
    requires n < |c[Where(Hv(hash, k), d)]| && c[Where(Hv(hash, k), d)][n] == index[k]
    requires NoDup(c[Where(Hv(hash, k), d)])
    ensures var p := Where(Hv(hash, k), d);
      Agree(c[p := Without(c[p], n)], index - {k}, key, hash, d, [])
  {
    var p := Where(Hv(hash, k), d);
    var s, s' := c[p], Without(c[p], n);
    var c', index' := c[p := s'], index - {k};
    CutOut(s, n);
    hide Where, Without;
    assert Filed(k, c, index, key, hash, d, []);
    forall q, x {:trigger x in c'[q]} | q in c' && x in c'[q] ensures Sits(x, q, index', key, hash, d) {
      assert x in c[q] && Sits(x, q, index, key, hash, d);
    }
    forall k' | k' in index' ensures Filed(k', c', index', key, hash, d, []) {
      assert Filed(k', c, index, key, hash, d, []);
    }
  }

  lemma CutOut(s: seq<Ptr>, n: nat)
    requires n < |s| && NoDup(s)
    ensures forall x {:trigger x in Without(s, n)} {:trigger x in s} :: x in Without(s, n) <==> x in s && x != s[n]
  {
    var s' := Without(s, n);
    forall i | 0 <= i < |s'| ensures s'[i] in s && s'[i] != s[n] { assert s'[i] == s[if i < n then i else i + 1]; }
    forall i | 0 <= i < |s| && i != n ensures s[i] in s' { assert s[i] == s'[if i < n then i else i - 1]; }
  }

  lemma CutHeads(c: Chains, index: map<Key, Ptr>, key: map<Ptr, Key>, hash: HashFn, d: Dims,
                 primary: seq<Ptr>, prior: seq<Ptr>, hNext: map<Ptr, Ptr>, p: Place, n: nat,
                 primary': seq<Ptr>, prior': seq<Ptr>, hNext': map<Ptr, Ptr>)
    requires DimsOk(d) && Agree(c, index, key, hash, d, []) && Heads(c, primary, prior, hNext)
    requires p in c && n < |c[p]|
    requires if n == 0
      then hNext' == hNext[c[p][0] := 0] && Head(primary', prior', p) == Ld(hNext, c[p][0])
      else hNext' == hNext[c[p][n] := 0][c[p][n - 1] := Ld(hNext, c[p][n])]
           && Head(primary', prior', p) == Head(primary, prior, p)
    requires forall q {:trigger c[q]} :: q in c && q != p ==> Head(primary', prior', q) == Head(primary, prior, q)
    ensures Heads(c[p := Without(c[p], n)], primary', prior', hNext')
  {
    var c' := c[p := Without(c[p], n)];
    forall q | q in c' ensures Chain(hNext', Head(primary', prior', q), c'[q]) {
      assert Chain(hNext, Head(primary, prior, q), c[q]);
      if q == p {
        if n == 0 {
          ChainCutHead(hNext, Head(primary, prior, p), c[p]);
          assert Without(c[p], 0) == c[p][1..];
        } else {
          ChainCut(hNext, Head(primary, prior, p), c[p], n);
        }
      } else {
        forall x | x in c[q] ensures Ld(hNext', x) == Ld(hNext, x) {
          if x in c[p] { OnlyOneBucket(c, index, key, hash, d, [], p, q, x); }
        }
        ChainFrame(hNext, hNext', Head(primary, prior, q), c[q]);
      }
    }
  }

  lemma DistinctIn(c: Chains, primary: seq<Ptr>, prior: seq<Ptr>, hNext: map<Ptr, Ptr>, p: Place)
    requires Heads(c, primary, prior, hNext) && p in c
    ensures NoDup(c[p]) && Chain(hNext, Head(primary, prior, p), c[p])
  {
    assert Chain(hNext, Head(primary, prior, p), c[p]);
  }

  // ---------------------------------------------------------------- moving a bucket

  /** Taking bucket `b` off the old table: its items are now being moved. */
  lemma LiftAgree(c: Chains, index: map<Key, Ptr>, key: map<Ptr, Key>, hash: HashFn, d: Dims)
    requires DimsOk(d) && d.expanding && d.expandBucket < HashSize(d.hashpower - 1)
    requires Agree(c, index, key, hash, d, []) && InOld(d.expandBucket) in c
    requires NoDup(c[InOld(d.expandBucket)])
    requires forall b: nat :: b < HashSize(d.hashpower) ==> InNew(b) in c
    ensures var d', s := d.(expandBucket := d.expandBucket + 1), c[InOld(d.expandBucket)];
      && Agree(c - {InOld(d.expandBucket)}, index, key, hash, d', s)
      && (forall x :: x in s ==> Where(Hv(hash, key[x]), d') == InNew(Hv(hash, key[x]) % HashSize(d.hashpower)))
  {
    var e := InOld(d.expandBucket);
    var d', s, c' := d.(expandBucket := d.expandBucket + 1), c[e], c - {e};
    forall p, x {:trigger x in c'[p]} | p in c' && x in c'[p] ensures Sits(x, p, index, key, hash, d') && x !in s {
      assert x in c[p] && Sits(x, p, index, key, hash, d);
      if x in s { OnlyOneBucket(c, index, key, hash, d, [], p, e, x); }
    }
    forall k | k in index ensures Filed(k, c', index, key, hash, d', s) {
      assert Filed(k, c, index, key, hash, d, []);
    }
    forall x | x in s
      ensures x in key && key[x] in index && index[key[x]] == x
      ensures Where(Hv(hash, key[x]), d') == InNew(Hv(hash, key[x]) % HashSize(d.hashpower))
    {
      assert Sits(x, e, index, key, hash, d);
    }
    forall i | 0 <= i < |s| ensures s[i] in key && key[s[i]] in index && index[key[s[i]]] == s[i] {
      assert s[i] in s;
    }
  }

  /** Filing the first of the moving items in the new table. */
  lemma RefileAgree(c: Chains, index: map<Key, Ptr>, key: map<Ptr, Key>, hash: HashFn, d: Dims, moving: seq<Ptr>)
    requires DimsOk(d) && Agree(c, index, key, hash, d, moving) && moving != []
    requires moving[0] in key && Where(Hv(hash, key[moving[0]]), d) in c
    ensures var it := moving[0]; var p := Where(Hv(hash, key[it]), d);
      && (forall q :: q in c ==> it !in c[q])
      && Agree(c[p := [it] + c[p]], index, key, hash, d, moving[1..])
  {
    var it := moving[0];
    var p := Where(Hv(hash, key[it]), d);
    var c', rest := c[p := [it] + c[p]], moving[1..];
    forall q | q in c ensures it !in c[q] {
      assert it in moving;
    }
    forall q, x {:trigger x in c'[q]} | q in c' && x in c'[q] ensures Sits(x, q, index, key, hash, d) && x !in rest {
      if x != it { assert x in c[q]; }
    }
    forall k | k in index ensures Filed(k, c', index, key, hash, d, rest) {
      assert Filed(k, c, index, key, hash, d, moving);
      if index[k] in moving && index[k] != it { assert index[k] in rest; }
    }
  }

  /** The emptied bucket is a bucket again. */
  lemma EmptyBucketAgree(c: Chains, index: map<Key, Ptr>, key: map<Ptr, Key>, hash: HashFn, d: Dims, p: Place)
    requires DimsOk(d) && Agree(c, index, key, hash, d, []) && p !in c
    ensures Agree(c[p := []], index, key, hash, d, [])
  {
    var c' := c[p := []];
    forall q, x {:trigger x in c'[q]} | q in c' && x in c'[q] ensures Sits(x, q, index, key, hash, d) {
      assert x in c[q];
    }
    forall k | k in index ensures Filed(k, c', index, key, hash, d, []) {
      assert Filed(k, c, index, key, hash, d, []);
    }
  }

  lemma NonEmpty(s: seq<Ptr>)
    ensures s != [] ==> exists x :: x in s
  {
    if s != [] { assert s[0] in s; }
  }

  /** The new-table part of the chains. */
  ghost function NewOnly(c: Chains): Chains
  {
    map p | p in c && p.InNew? :: c[p]
  }

  /** When every old bucket has been moved the old table holds nothing and may be dropped. */
  lemma FinishAgree(c: Chains, index: map<Key, Ptr>, key: map<Ptr, Key>, hash: HashFn, d: Dims)
    requires DimsOk(d) && d.expanding && d.expandBucket == HashSize(d.hashpower - 1)
    requires Agree(c, index, key, hash, d, [])
    ensures Agree(NewOnly(c), index, key, hash, Dims(d.hashpower, false, d.expandBucket), [])
    ensures forall p :: p in c && p.InOld? ==> c[p] == []
  {
    var d', c' := Dims(d.hashpower, false, d.expandBucket), NewOnly(c);
    forall p | p in c && p.InOld? ensures c[p] == [] {
      NonEmpty(c[p]);
    }
    forall p, x {:trigger x in c'[p]} | p in c' && x in c'[p] ensures Sits(x, p, index, key, hash, d') {
      assert x in c[p] && Sits(x, p, index, key, hash, d);
    }
    forall k | k in index ensures Filed(k, c', index, key, hash, d', []) {
      assert Filed(k, c, index, key, hash, d, []);
    }
  }

  // ---------------------------------------------------------------- starting an expansion

  ghost function NewPlaces(n: nat): set<Place> { set b | 0 <= b < n :: InNew(b) }
  ghost function OldPlaces(n: nat): set<Place> { set b | 0 <= b < n :: InOld(b) }

  /** The old primary table becomes the old table; the new one starts empty. */
  ghost function Shift(c: Chains, hashpower: nat): Chains
  {
    map p | p in NewPlaces(HashSize(hashpower + 1)) + OldPlaces(HashSize(hashpower)) ::
      if p.InOld? && InNew(p.b) in c then c[InNew(p.b)] else []
  }

  lemma ExpandAgree(c: Chains, index: map<Key, Ptr>, key: map<Ptr, Key>, hash: HashFn, d: Dims)
    requires !d.expanding && Agree(c, index, key, hash, d, [])
    requires forall p :: p in c <==> p.InNew? && p.b < HashSize(d.hashpower)
    ensures Agree(Shift(c, d.hashpower), index, key, hash, Dims(d.hashpower + 1, true, 0), [])
  {
    var c', d' := Shift(c, d.hashpower), Dims(d.hashpower + 1, true, 0);
    forall p, x {:trigger x in c'[p]} | p in c' && x in c'[p] ensures Sits(x, p, index, key, hash, d') {
      assert x in c[InNew(p.b)] && Sits(x, InNew(p.b), index, key, hash, d);
    }
    forall k | k in index ensures Filed(k, c', index, key, hash, d', []) {
      assert Filed(k, c, index, key, hash, d, []);
    }
  }

  lemma ExpandHeads(c: Chains, primary: seq<Ptr>, prior: seq<Ptr>, hNext: map<Ptr, Ptr>, hashpower: nat,
                    fresh_: seq<Ptr>)
    requires Heads(c, primary, prior, hNext) && (forall p :: p in c <==> p.InNew? && p.b < HashSize(hashpower))
    requires |primary| == HashSize(hashpower) && |fresh_| == HashSize(hashpower + 1)
    requires forall i :: 0 <= i < |fresh_| ==> fresh_[i] == 0
    ensures Heads(Shift(c, hashpower), fresh_, primary, hNext)
  {
    var c' := Shift(c, hashpower);
    forall p | p in c' ensures Chain(hNext, Head(fresh_, primary, p), c'[p]) {
      if p.InOld? { assert Chain(hNext, Head(primary, prior, InNew(p.b)), c[InNew(p.b)]); }
    }
  }

  /** The dimensions fit the tables. */
  ghost predicate ShapeOk(d: Dims, primary: seq<Ptr>, prior: seq<Ptr>, c: Chains)
  {
    && |primary| == HashSize(d.hashpower)
    && (d.expanding ==> d.hashpower > 0 && |prior| == HashSize(d.hashpower - 1) && d.expandBucket < |prior|)
    && (forall p :: p in c <==> if p.InNew? then p.b < |primary| else d.expanding && p.b < |prior|)
  }

  /** The two tables together stand for `index`. */
  ghost predicate TablesOk(c: Chains, primary: seq<Ptr>, prior: seq<Ptr>, hNext: map<Ptr, Ptr>,
                           index: map<Key, Ptr>, key: map<Ptr, Key>, hash: HashFn, d: Dims)
  {
    && ShapeOk(d, primary, prior, c) && DimsOk(d)
    && Heads(c, primary, prior, hNext) && Agree(c, index, key, hash, d, [])
  }

  /** Without an expansion under way the old table is not looked at. */
  lemma SamePrior(c: Chains, primary: seq<Ptr>, prior: seq<Ptr>, hNext: map<Ptr, Ptr>,
                  index: map<Key, Ptr>, key: map<Ptr, Key>, hash: HashFn, d: Dims, prior': seq<Ptr>)
    requires TablesOk(c, primary, prior, hNext, index, key, hash, d) && !d.expanding
    ensures TablesOk(c, primary, prior', hNext, index, key, hash, d)
  {
    forall p | p in c ensures Chain(hNext, Head(primary, prior', p), c[p]) {
      assert Chain(hNext, Head(primary, prior, p), c[p]);
    }
  }

  lemma ExpandTables(c: Chains, primary: seq<Ptr>, prior: seq<Ptr>, hNext: map<Ptr, Ptr>,
                     index: map<Key, Ptr>, key: map<Ptr, Key>, hash: HashFn, d: Dims, fresh_: seq<Ptr>)
    requires TablesOk(c, primary, prior, hNext, index, key, hash, d) && !d.expanding
    requires |fresh_| == HashSize(d.hashpower + 1) && forall i :: 0 <= i < |fresh_| ==> fresh_[i] == 0
    ensures TablesOk(Shift(c, d.hashpower), fresh_, primary, hNext, index, key, hash, Dims(d.hashpower + 1, true, 0))
    ensures |primary| == HashSize(d.hashpower)
  {
    hide Agree, Heads;
    ExpandAgree(c, index, key, hash, d);
    ExpandHeads(c, primary, prior, hNext, d.hashpower, fresh_);
  }

  lemma CutTables(c: Chains, primary: seq<Ptr>, prior: seq<Ptr>, hNext: map<Ptr, Ptr>,
                  index: map<Key, Ptr>, key: map<Ptr, Key>, hash: HashFn, d: Dims, k: Key, n: nat,
                  primary': seq<Ptr>, prior': seq<Ptr>, hNext': map<Ptr, Ptr>)
    requires TablesOk(c, primary, prior, hNext, index, key, hash, d) && k in index
    requires var p := Where(Hv(hash, k), d); p in c && n < |c[p]| && c[p][n] == index[k]
    requires Cuts(c[Where(Hv(hash, k), d)], Where(Hv(hash, k), d), n, primary, prior, hNext, primary', prior', hNext')
    ensures var p := Where(Hv(hash, k), d);
      TablesOk(c[p := Without(c[p], n)], primary', prior', hNext', index - {k}, key, hash, d)
    ensures |index - {k}| == |index| - 1
  {
    var p := Where(Hv(hash, k), d);
    hide Agree, Heads, HashSize, Head, Where, Chain, DimsOk, Without, NoDup, Cuts, ShapeOk;
    DistinctIn(c, primary, prior, hNext, p);
    CutAgree(c, index, key, hash, d, k, n);
    CutsHeads(c, index, key, hash, d, primary, prior, hNext, p, n, primary', prior', hNext');
    SameShape(d, primary, prior, c, p, Without(c[p], n), primary', prior');
    OneLess(index, k);
  }

  lemma SameShape(d: Dims, primary: seq<Ptr>, prior: seq<Ptr>, c: Chains, p: Place, s: seq<Ptr>,
                  primary': seq<Ptr>, prior': seq<Ptr>)
    requires ShapeOk(d, primary, prior, c) && p in c && |primary'| == |primary| && |prior'| == |prior|
    ensures ShapeOk(d, primary', prior', c[p := s])
  {
    hide HashSize;
  }

  /** Item `n` of the chain `s` in bucket `p` was taken out, by pointer writes. */
  ghost predicate Cuts(s: seq<Ptr>, p: Place, n: nat, primary: seq<Ptr>, prior: seq<Ptr>, hNext: map<Ptr, Ptr>,
                       primary': seq<Ptr>, prior': seq<Ptr>, hNext': map<Ptr, Ptr>)
    requires n < |s|
  {
    var prev := if n == 0 then 0 else s[n - 1];
    && |primary'| == |primary| && |prior'| == |prior|
    && hNext' == (if prev == 0 then hNext[s[n] := 0] else hNext[s[n] := 0][prev := Ld(hNext, s[n])])
    && Head(primary', prior', p) == (if prev == 0 then Ld(hNext, s[n]) else Head(primary, prior, p))
    && forall q :: q != p ==> Head(primary', prior', q) == Head(primary, prior, q)
  }

  lemma CutsHeads(c: Chains, index: map<Key, Ptr>, key: map<Ptr, Key>, hash: HashFn, d: Dims,
                  primary: seq<Ptr>, prior: seq<Ptr>, hNext: map<Ptr, Ptr>, p: Place, n: nat,
                  primary': seq<Ptr>, prior': seq<Ptr>, hNext': map<Ptr, Ptr>)
    requires DimsOk(d) && Agree(c, index, key, hash, d, []) && Heads(c, primary, prior, hNext)
    requires p in c && n < |c[p]| && Cuts(c[p], p, n, primary, prior, hNext, primary', prior', hNext')
    ensures Heads(c[p := Without(c[p], n)], primary', prior', hNext')
    ensures |primary'| == |primary| && |prior'| == |prior|
  {
    hide Agree, Heads, Head, Without;
    DistinctIn(c, primary, prior, hNext, p);
    CutHeads(c, index, key, hash, d, primary, prior, hNext, p, n, primary', prior', hNext');
  }

  lemma OneLess(index: map<Key, Ptr>, k: Key)
    requires k in index
    ensures |index - {k}| == |index| - 1
  {
    var i' := index - {k};
    assert i'.Keys == index.Keys - {k} && |i'| == |i'.Keys| && |index| == |index.Keys|;
  }

  lemma ChainTail(h: map<Ptr, Ptr>, h': map<Ptr, Ptr>, s: seq<Ptr>)
    requires s != [] && Chain(h, s[0], s)
    requires forall x :: x in s[1..] ==> Ld(h', x) == Ld(h, x)
    ensures Chain(h', Ld(h, s[0]), s[1..])
  {
    var r := s[1..];
    assert Ld(h, s[0]) == After(s, 0);
    forall i | 0 <= i < |r| ensures Ld(h', r[i]) == After(r, i) {
      assert r[i] == s[i + 1] && Ld(h, s[i + 1]) == After(s, i + 1) == After(r, i);
    }
  }

  /** In the middle of moving a bucket: `moving` hangs from `it`, everything else is in its place. */
  ghost predicate Moving(c: Chains, primary: seq<Ptr>, prior: seq<Ptr>, hNext: map<Ptr, Ptr>,
                         index: map<Key, Ptr>, key: map<Ptr, Key>, hash: HashFn, d: Dims, it: Ptr, moving: seq<Ptr>)
  {
    && DimsOk(d) && |primary| == HashSize(d.hashpower)
    && (forall b: nat :: b < |primary| ==> InNew(b) in c)
    && Heads(c, primary, prior, hNext) && Agree(c, index, key, hash, d, moving)
    && Chain(hNext, it, moving)
    && (forall x ::
          x in moving ==> x in key && Where(Hv(hash, key[x]), d) == InNew(Hv(hash, key[x]) % HashSize(d.hashpower)))
  }

  lemma RefileHeads(c: Chains, primary: seq<Ptr>, prior: seq<Ptr>, hNext: map<Ptr, Ptr>, it: Ptr, b: nat)
    requires Heads(c, primary, prior, hNext) && b < |primary| && InNew(b) in c && it != 0
    requires forall q {:trigger c[q]} :: q in c ==> it !in c[q]
    ensures Heads(c[InNew(b) := [it] + c[InNew(b)]], primary[b := it], prior, hNext[it := primary[b]])
  {
    PushHeads(c, primary, prior, hNext, InNew(b), it, primary[b := it], prior);
  }

  /** One turn of the maintenance thread's inner loop. */
  lemma MoveOne(c: Chains, primary: seq<Ptr>, prior: seq<Ptr>, hNext: map<Ptr, Ptr>,
                index: map<Key, Ptr>, key: map<Ptr, Key>, hash: HashFn, d: Dims, it: Ptr, moving: seq<Ptr>)
    requires Moving(c, primary, prior, hNext, index, key, hash, d, it, moving) && it != 0
    ensures moving != [] && it == moving[0] && it in key
    ensures var b := Hv(hash, key[it]) % HashSize(d.hashpower);
      && b < |primary| && InNew(b) in c
      && Moving(c[InNew(b) := [it] + c[InNew(b)]], primary[b := it], prior, hNext[it := primary[b]],
                index, key, hash, d, Ld(hNext, it), moving[1..])
  {
    assert it == moving[0] && it in moving;
    var b := Hv(hash, key[it]) % HashSize(d.hashpower);
    hide Agree, Heads, HashSize;
    RefileAgree(c, index, key, hash, d, moving);
    RefileHeads(c, primary, prior, hNext, it, b);
    ChainTail(hNext, hNext[it := primary[b]], moving);
  }

  lemma LiftTables(c: Chains, primary: seq<Ptr>, prior: seq<Ptr>, hNext: map<Ptr, Ptr>,
                   index: map<Key, Ptr>, key: map<Ptr, Key>, hash: HashFn, d: Dims)
    requires TablesOk(c, primary, prior, hNext, index, key, hash, d) && d.expanding
    ensures var e := InOld(d.expandBucket);
      && e in c && d.expandBucket < |prior|
      && Moving(c - {e}, primary, prior, hNext, index, key, hash, d.(expandBucket := d.expandBucket + 1),
                prior[d.expandBucket], c[e])
  {
    var e := InOld(d.expandBucket);
    hide Agree;
    DistinctIn(c, primary, prior, hNext, e);
    LiftAgree(c, index, key, hash, d);
    var c' := c - {e};
    forall p | p in c' ensures Chain(hNext, Head(primary, prior, p), c'[p]) {
      assert Chain(hNext, Head(primary, prior, p), c[p]);
    }
    forall x | x in c[e] ensures x in key {
      MovingKeys(c', index, key, hash, d.(expandBucket := d.expandBucket + 1), c[e], x);
    }
  }

  lemma MovingKeys(c: Chains, index: map<Key, Ptr>, key: map<Ptr, Key>, hash: HashFn, d: Dims, moving: seq<Ptr>, x: Ptr)
    requires DimsOk(d) && Agree(c, index, key, hash, d, moving) && x in moving
    ensures x in key
  {
  }

  /** Every bucket of a table is empty. */
  ghost predicate Emptied(table: seq<Ptr>) { forall b :: 0 <= b < |table| ==> table[b] == 0 }

  /** A bucket is done and there are more. */
  lemma LandTables(c: Chains, primary: seq<Ptr>, prior: seq<Ptr>, hNext: map<Ptr, Ptr>,
                   index: map<Key, Ptr>, key: map<Ptr, Key>, hash: HashFn, d: Dims, e: nat, c0: Chains)
    requires Moving(c, primary, prior, hNext, index, key, hash, d, 0, []) && d.expanding
    requires ShapeOk(d.(expandBucket := e), primary, prior, c0) && c.Keys == c0.Keys - {InOld(e)}
    requires d.expandBucket == e + 1 < |prior|
    ensures TablesOk(c[InOld(e) := []], primary, prior[e := 0], hNext, index, key, hash, d)
  {
    var c', prior' := c[InOld(e) := []], prior[e := 0];
    EmptyBucketAgree(c, index, key, hash, d, InOld(e));
    forall p | p in c' ensures Chain(hNext, Head(primary, prior', p), c'[p]) {
      if p != InOld(e) { assert Chain(hNext, Head(primary, prior, p), c[p]); }
    }
  }

  /** The last bucket is done: the old table is empty and is dropped. */
  lemma LandLast(c: Chains, primary: seq<Ptr>, prior: seq<Ptr>, hNext: map<Ptr, Ptr>,
                 index: map<Key, Ptr>, key: map<Ptr, Key>, hash: HashFn, d: Dims, e: nat, c0: Chains)
    requires Moving(c, primary, prior, hNext, index, key, hash, d, 0, []) && d.expanding
    requires ShapeOk(d.(expandBucket := e), primary, prior, c0) && c.Keys == c0.Keys - {InOld(e)}
    requires d.expandBucket == e + 1 == |prior|
    ensures TablesOk(NewOnly(c), primary, prior[e := 0], hNext, index, key, hash, Dims(d.hashpower, false, e + 1))
    ensures Emptied(prior[e := 0])
  {
    FinishAgree(c, index, key, hash, d);
    var c' := NewOnly(c);
    forall p | p in c' ensures Chain(hNext, Head(primary, prior[e := 0], p), c'[p]) {
      assert Chain(hNext, Head(primary, prior, p), c[p]);
    }
    var prior' := prior[e := 0];
    forall b | 0 <= b < |prior'| ensures prior'[b] == 0 {
      if b != e { assert InOld(b) in c; assert Chain(hNext, Head(primary, prior, InOld(b)), c[InOld(b)]); }
    }
  }

  lemma TablesShape(c: Chains, primary: seq<Ptr>, prior: seq<Ptr>, hNext: map<Ptr, Ptr>,
                    index: map<Key, Ptr>, key: map<Ptr, Key>, hash: HashFn, d: Dims)
    requires TablesOk(c, primary, prior, hNext, index, key, hash, d)
    ensures ShapeOk(d, primary, prior, c)
  {
  }

  lemma NothingMoving(c: Chains, primary: seq<Ptr>, prior: seq<Ptr>, hNext: map<Ptr, Ptr>,
                      index: map<Key, Ptr>, key: map<Ptr, Key>, hash: HashFn, d: Dims, moving: seq<Ptr>)
    requires Moving(c, primary, prior, hNext, index, key, hash, d, 0, moving)
    ensures moving == []
  {
  }

  /** An indexed item is in the bucket picked by the expand_bucket test, once, and in no other. */
  lemma ExactlyOneBucket(c: Chains, primary: seq<Ptr>, prior: seq<Ptr>, hNext: map<Ptr, Ptr>,
                         index: map<Key, Ptr>, key: map<Ptr, Key>, hash: HashFn, d: Dims, k: Key, p: Place)
    requires TablesOk(c, primary, prior, hNext, index, key, hash, d) && k in index && p in c
    ensures index[k] in c[p] <==> p == Where(Hv(hash, k), d)
    ensures NoDup(c[p]) && Chain(hNext, Head(primary, prior, p), c[p])
  {
    DistinctIn(c, primary, prior, hNext, p);
    assert Filed(k, c, index, key, hash, d, []);
    if index[k] in c[p] { assert Sits(index[k], p, index, key, hash, d); }
  }

  /** Writing key and `h_next` of an item that is in no bucket. */
  lemma PrepareTables(c: Chains, primary: seq<Ptr>, prior: seq<Ptr>, hNext: map<Ptr, Ptr>,
                      index: map<Key, Ptr>, key: map<Ptr, Key>, hash: HashFn, d: Dims, it: Ptr, k: Key)
    requires TablesOk(c, primary, prior, hNext, index, key, hash, d)
    requires forall x :: x in index ==> index[x] != it
    ensures TablesOk(c, primary, prior, hNext[it := 0], index, key[it := k], hash, d)
  {
    var h', key' := hNext[it := 0], key[it := k];
    forall p, x {:trigger x in c[p]} | p in c && x in c[p] ensures Sits(x, p, index, key', hash, d) && x != it {
      assert Sits(x, p, index, key, hash, d);
    }
    forall x | x in index ensures Filed(x, c, index, key', hash, d, []) {
      assert Filed(x, c, index, key, hash, d, []);
    }
    forall p | p in c ensures Chain(h', Head(primary, prior, p), c[p]) {
      ChainFrame(hNext, h', Head(primary, prior, p), c[p]);
    }
  }

  /** The loop of assoc_find and _hashitem_before along one chain. */
  method Walk(hNext: map<Ptr, Ptr>, key: map<Ptr, Key>, k: Key, head: Ptr, ghost s: seq<Ptr>)
    returns (prev: Ptr, it: Ptr, ghost n: nat)
    requires Chain(hNext, head, s)
    requires forall x :: x in s ==> x in key
    ensures n <= |s| && it == (if n < |s| then s[n] else 0) && prev == (if n == 0 then 0 else s[n - 1])
    ensures forall i :: 0 <= i < n ==> key[s[i]] != k
    ensures it != 0 ==> key[it] == k
  {
    prev, it, n := 0, head, 0;
    while it != 0 && key[it] != k
      invariant 0 <= n <= |s| && it == (if n < |s| then s[n] else 0) && prev == (if n == 0 then 0 else s[n - 1])
      invariant forall i :: 0 <= i < n ==> key[s[i]] != k
      decreases |s| - n
    {
      assert Ld(hNext, s[n]) == After(s, n);
      prev, it, n := it, Ld(hNext, it), n + 1;
    }
  }

  /** In its bucket, and only there, the item of a key is the one with that key. */
  lemma BucketKeys(c: Chains, primary: seq<Ptr>, prior: seq<Ptr>, hNext: map<Ptr, Ptr>,
                   index: map<Key, Ptr>, key: map<Ptr, Key>, hash: HashFn, d: Dims, p: Place, k: Key)
    requires TablesOk(c, primary, prior, hNext, index, key, hash, d) && p in c && p == Where(Hv(hash, k), d)
    ensures Chain(hNext, Head(primary, prior, p), c[p])
    ensures forall x :: x in c[p] ==> x in key && x != 0
    ensures forall x :: x in c[p] && key[x] == k ==> k in index && index[k] == x
    ensures k in index ==> index[k] in c[p] && key[index[k]] == k
  {
    assert Chain(hNext, Head(primary, prior, p), c[p]);
    assert k in index ==> Filed(k, c, index, key, hash, d, []);
    forall x | x in c[p] ensures x in key && x != 0 && (key[x] == k ==> k in index && index[k] == x) {
      assert Sits(x, p, index, key, hash, d);
    }
  }

  // ---------------------------------------------------------------- assoc.c

  /** The bucket moves left after a maintenance turn. */
  function LeftAfter(left: int, bulkMove: int): int
  {
    if bulkMove <= 0 then left else if left <= bulkMove then 0 else left - bulkMove
  }

  class Assoc {
    const hash: HashFn              // hash(key, nkey, 0)
    var hashpower: nat
    var primary: seq<Ptr>           // primary_hashtable
    var prior: seq<Ptr>             // old_hashtable
    var hashItems: nat
    var expanding: bool
    var expandBucket: nat
    var hNext: map<Ptr, Ptr>        // h_next of every item
    var key: map<Ptr, Key>          // ITEM_key of every item
    ghost var chains: Chains
    ghost var index: map<Key, Ptr>  // the map the index stands for

    /** The index agrees with the map, in the middle of an expansion or not. */
    ghost predicate Valid()
      reads this
    {
      && TablesOk(chains, primary, prior, hNext, index, key, hash, Dims(hashpower, expanding, expandBucket))
      && hashItems == |index|
    }

    /** Bucket moves left until the current expansion is over. */
    ghost function Left(): int
      reads this
    {
      if expanding then |prior| - expandBucket else 0
    }

    /** assoc_init */
    constructor (hash: HashFn, hashpower: nat)
      ensures Valid() && index == map[] && this.hash == hash && !expanding
    {
      this.hash, this.hashpower := hash, hashpower;
      primary := seq(HashSize(hashpower), i => 0);
      prior, hashItems, expanding, expandBucket := [], 0, false, 0;
      hNext, key, index := map[], map[], map[];
      chains := map p | p in NewPlaces(HashSize(hashpower)) :: [];
    }

    /** assoc_find */
    method Find(k: Key) returns (it: Ptr)
      requires Valid()
      ensures it == if k in index then index[k] else 0
    {
      var p, prev;
      ghost var n;
      p, prev, it, n := Before(k);
    }

    /** The place of `k` under the expand_bucket test, and the head of its bucket. */
    method Bucket(k: Key) returns (p: Place, it: Ptr)
      requires Valid()
      ensures p == Where(Hv(hash, k), Dims(hashpower, expanding, expandBucket))
      ensures p in chains && it == Head(primary, prior, p)
      ensures p.InNew? ==> p.b < |primary|
      ensures p.InOld? ==> p.b < |prior|
    {
      var hv := Hv(hash, k);
      if expanding && hv % HashSize(hashpower - 1) >= expandBucket {
        p := InOld(hv % HashSize(hashpower - 1));
        it := prior[p.b];
      } else {
        p := InNew(hv % HashSize(hashpower));
        it := primary[p.b];
      }
    }

    /** _hashitem_before: the item with the key and the one before it in its chain (0 at the head) */
    method Before(k: Key) returns (p: Place, prev: Ptr, it: Ptr, ghost n: nat)
      requires Valid()
      ensures it == if k in index then index[k] else 0
      ensures p == Where(Hv(hash, k), Dims(hashpower, expanding, expandBucket)) && p in chains
      ensures p.InNew? ==> p.b < |primary|
      ensures p.InOld? ==> p.b < |prior|
      ensures k in index ==>
        var s := chains[p]; n < |s| && s[n] == it && prev == (if n == 0 then 0 else s[n - 1])
    {
      hide Agree, Heads, Where, HashSize, Head;
      p, it := Bucket(k);
      BucketKeys(chains, primary, prior, hNext, index, key, hash, Dims(hashpower, expanding, expandBucket), p, k);
      prev, it, n := Walk(hNext, key, k, it, chains[p]);
    }

    /** assoc_insert. The key must not be in the index (the code's own assert). */
    method Insert(it: Ptr, callocOk: bool)
      requires Valid() && it != 0 && it in key && key[it] !in index
      modifies this
      ensures Valid() && key == old(key) && index == old(index)[old(key[it]) := it]
      ensures old(expanding) ==> expanding && hashpower == old(hashpower) && Left() == old(Left())
      ensures !old(expanding) ==> (expanding <==> callocOk && |index| > HashSize(old(hashpower)) * 3 / 2)
      ensures !old(expanding) && expanding ==> hashpower == old(hashpower) + 1 && Left() == HashSize(old(hashpower))
    {
      hide Agree, Heads;
      Push(it);
      hashItems := hashItems + 1;
      if !expanding && hashItems > (HashSize(hashpower) * 3) / 2 {
        Expand(callocOk);
      }
    }

    method Push(it: Ptr)
      requires Valid() && it != 0 && it in key && key[it] !in index
      modifies this`hNext, this`primary, this`prior, this`chains, this`index
      ensures TablesOk(chains, primary, prior, hNext, index, key, hash, Dims(hashpower, expanding, expandBucket))
      ensures index == old(index)[key[it] := it] && |index| == old(|index|) + 1
      ensures |prior| == old(|prior|)
    {
      hide Agree, Heads, Where, HashSize;
      var p, head := Bucket(key[it]);
      PushAgree(chains, index, key, hash, Dims(hashpower, expanding, expandBucket), it);
      ghost var pr, ol := primary, prior;
      hNext := hNext[it := head];
      if p.InOld? {
        prior := prior[p.b := it];
      } else {
        primary := primary[p.b := it];
      }
      PushHeads(chains, pr, ol, old(hNext), p, it, primary, prior);
      chains := chains[p := [it] + chains[p]];
      index := index[key[it] := it];
    }

    /** assoc_expand; when calloc fails the index just keeps its size */
    method Expand(callocOk: bool)
      requires TablesOk(chains, primary, prior, hNext, index, key, hash, Dims(hashpower, expanding, expandBucket))
      requires !expanding
      modifies this`primary, this`prior, this`hashpower, this`expanding, this`expandBucket, this`chains
      ensures TablesOk(chains, primary, prior, hNext, index, key, hash, Dims(hashpower, expanding, expandBucket))
      ensures expanding == callocOk
      ensures expanding ==> hashpower == old(hashpower) + 1 && Left() == HashSize(old(hashpower))
    {
      hide TablesOk, HashSize;
      ghost var pr, ol := primary, prior;
      prior := primary;
      if callocOk {
        ghost var c := chains;
        primary := seq(HashSize(hashpower + 1), i => 0);
        chains := Shift(c, hashpower);
        ExpandTables(c, pr, ol, hNext, index, key, hash, Dims(hashpower, expanding, expandBucket), primary);
        hashpower := hashpower + 1;
        expanding := true;
        expandBucket := 0;
      } else {
        SamePrior(chains, pr, ol, hNext, index, key, hash, Dims(hashpower, expanding, expandBucket), prior);
      }
    }

    /** The pointer writes of assoc_delete: `*before = nxt` in a table or in the previous item. */
    method Unchain(p: Place, prev: Ptr, it: Ptr)
      requires if p.InOld? then p.b < |prior| else p.b < |primary|
      modifies this`hNext, this`primary, this`prior
      ensures |primary| == old(|primary|) && |prior| == old(|prior|)
      ensures hNext == if prev == 0 then old(hNext)[it := 0] else old(hNext)[it := 0][prev := Ld(old(hNext), it)]
      ensures Head(primary, prior, p) ==
        if prev == 0 then Ld(old(hNext), it) else Head(old(primary), old(prior), p)
      ensures forall q :: q != p ==> Head(primary, prior, q) == Head(old(primary), old(prior), q)
    {
      var nxt := Ld(hNext, it);
      hNext := hNext[it := 0];
      if prev != 0 {
        hNext := hNext[prev := nxt];
      } else if p.InOld? {
        prior := prior[p.b := nxt];
      } else {
        primary := primary[p.b := nxt];
      }
    }

    /** assoc_delete. The key must be in the index (the code's own assert). */
    method Delete(k: Key)
      requires Valid() && k in index
      modifies this
      ensures Valid() && index == old(index) - {k} && key == old(key)
      ensures expanding == old(expanding) && hashpower == old(hashpower)
      ensures Left() == old(Left())
    {
      hide TablesOk, Where, Head, Without;
      var p, prev, it, n := Before(k);
      ghost var c, i, pr, ol, h := chains, index, primary, prior, hNext;
      Unchain(p, prev, it);
      CutTables(c, pr, ol, h, i, key, hash, Dims(hashpower, expanding, expandBucket), k, n, primary, prior, hNext);
      hashItems := hashItems - 1;
      chains := c[p := Without(c[p], n)];
      index := i - {k};
    }

    /** assoc_maintenance_thread: one bucket of the old table moved to the new one */
    method MoveBucket()
      requires Valid() && expanding
      modifies this
      ensures Valid() && index == old(index) && key == old(key) && hashpower == old(hashpower)
      ensures old(Left()) == Left() + 1
      ensures !expanding ==> Emptied(prior)
    {
      hide TablesOk, Moving, HashSize;
      ghost var c0, d0 := chains, Dims(hashpower, expanding, expandBucket);
      ghost var d := d0.(expandBucket := expandBucket + 1);
      TablesShape(c0, primary, prior, hNext, index, key, hash, d0);
      LiftTables(c0, primary, prior, hNext, index, key, hash, d0);
      ghost var c, moving := c0 - {InOld(expandBucket)}, c0[InOld(expandBucket)];
      var it := prior[expandBucket];
      while it != 0
        modifies this`hNext, this`primary
        invariant Moving(c, primary, prior, hNext, index, key, hash, d, it, moving)
        invariant c.Keys == c0.Keys - {InOld(expandBucket)} && |primary| == old(|primary|)
        decreases |moving|
      {
        MoveOne(c, primary, prior, hNext, index, key, hash, d, it, moving);
        var next := Ld(hNext, it);
        var bucket := Hv(hash, key[it]) % HashSize(hashpower);
        hNext := hNext[it := primary[bucket]];
        primary := primary[bucket := it];
        c, moving := c[InNew(bucket) := [it] + c[InNew(bucket)]], moving[1..];
        it := next;
      }
      NothingMoving(c, primary, prior, hNext, index, key, hash, d, moving);
      Land(c, c0, d);
    }

    /** The end of one bucket move: the emptied bucket is cleared, after the last one the table is dropped. */
    method Land(ghost c: Chains, ghost c0: Chains, ghost d: Dims)
      requires expanding && d == Dims(hashpower, true, expandBucket + 1)
      requires Moving(c, primary, prior, hNext, index, key, hash, d, 0, [])
      requires ShapeOk(Dims(hashpower, true, expandBucket), primary, prior, c0)
      requires c.Keys == c0.Keys - {InOld(expandBucket)}
      modifies this`prior, this`expandBucket, this`expanding, this`chains
      ensures TablesOk(chains, primary, prior, hNext, index, key, hash, Dims(hashpower, expanding, expandBucket))
      ensures expandBucket == old(expandBucket) + 1 && |prior| == old(|prior|) && expanding == (expandBucket < |prior|)
      ensures !expanding ==> Emptied(prior)
    {
      hide TablesOk, Moving;
      if expandBucket + 1 < |prior| {
        LandTables(c, primary, prior, hNext, index, key, hash, d, expandBucket, c0);
        chains := c[InOld(expandBucket) := []];
      } else {
        LandLast(c, primary, prior, hNext, index, key, hash, d, expandBucket, c0);
        chains := NewOnly(c);
      }
      prior := prior[expandBucket := 0];
      expandBucket := expandBucket + 1;
      if expandBucket == HashSize(hashpower - 1) {
        expanding := false;
      }
    }

    /** assoc_maintenance_thread: up to hash_bulk_move bucket moves under one lock */
    method Maintain(bulkMove: int) returns (moved: nat)
      requires Valid()
      modifies this
      ensures Valid() && index == old(index) && key == old(key) && hashpower == old(hashpower)
      ensures old(Left()) == Left() + moved
      ensures (expanding ==> moved >= bulkMove) && (moved == 0 || moved <= bulkMove)
      ensures Left() == LeftAfter(old(Left()), bulkMove)
    {
      hide TablesOk, HashSize;
      TablesShape(chains, primary, prior, hNext, index, key, hash, Dims(hashpower, expanding, expandBucket));
      moved := 0;
      while moved < bulkMove && expanding
        invariant Valid() && index == old(index) && key == old(key) && hashpower == old(hashpower)
        invariant old(Left()) == Left() + moved
        invariant moved == 0 || moved <= bulkMove
      {
        MoveBucket();
        moved := moved + 1;
      }
      TablesShape(chains, primary, prior, hNext, index, key, hash, Dims(hashpower, expanding, expandBucket));
    }

    /** The part of do_item_alloc that writes an item's key and clears its h_next */
    method Prepare(it: Ptr, k: Key)
      requires Valid() && forall x :: x in index ==> index[x] != it
      modifies this`hNext, this`key
      ensures Valid() && key == old(key)[it := k] && hNext == old(hNext)[it := 0]
    {
      PrepareTables(chains, primary, prior, hNext, index, key, hash, Dims(hashpower, expanding, expandBucket), it, k);
      hNext := hNext[it := 0];
      key := key[it := k];
    }
  }
}
