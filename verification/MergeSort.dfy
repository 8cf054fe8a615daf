/** metis/lib/mergesort.c and the merge rounds of metis/lib/mr-sched.c: each worker merges every ncpus-th
    collection into one, and rounds with fewer and fewer workers leave a single sorted collection. */
module MergeSort {
  datatype Pair = Pair(key: int, val: int)

  /** Position `pos` of collection `coll`. */
  datatype Ref = Ref(coll: nat, pos: nat)

  predicate Sorted(s: seq<Pair>) { forall p, q :: 0 <= p < q < |s| ==> s[p].key <= s[q].key }

  predicate In(cs: seq<seq<Pair>>, x: Ref) { x.coll < |cs| && x.pos < |cs[x.coll]| }

  function Get(cs: seq<seq<Pair>>, x: Ref): Pair
    requires In(cs, x)
  {
    cs[x.coll][x.pos]
  }

  /** The order of a stable merge: by key, then by collection, then by position. */
  predicate Earlier(cs: seq<seq<Pair>>, x: Ref, y: Ref)
    requires In(cs, x) && In(cs, y)
  {
    || Get(cs, x).key < Get(cs, y).key
    || (Get(cs, x).key == Get(cs, y).key && (x.coll < y.coll || (x.coll == y.coll && x.pos < y.pos)))
  }

  /** `out` lists the pairs of all collections, each once, in that order; `src` says where each comes from. */
  ghost predicate Merged(cs: seq<seq<Pair>>, out: seq<Pair>, src: seq<Ref>)
  {
    && |src| == |out|
    && (forall k {:trigger src[k]} :: 0 <= k < |src| ==> In(cs, src[k]) && out[k] == Get(cs, src[k]))
    && (forall k, l {:trigger src[k], src[l]} :: 0 <= k < l < |src| ==> Earlier(cs, src[k], src[l]))
    && (forall x {:trigger In(cs, x)} :: In(cs, x) ==> x in src)
  }

  // ---------------------------------------------------------------- sums

  function Sum(s: seq<nat>): nat { if s == [] then 0 else Sum(s[..|s| - 1]) + s[|s| - 1] }

  ghost predicate AtMost(s: seq<nat>, t: seq<nat>) { |s| == |t| && forall i :: 0 <= i < |s| ==> s[i] <= t[i] }

  lemma {:induction false} SumBump(s: seq<nat>, i: nat)
    requires i < |s|
    ensures Sum(s[i := s[i] + 1]) == Sum(s) + 1
  {
    var n := |s| - 1;
    if i == n {
      assert s[i := s[i] + 1][..n] == s[..n];
    } else {
      SumBump(s[..n], i);
      assert s[i := s[i] + 1][..n] == s[..n][i := s[i] + 1];
    }
  }

  lemma {:induction false} SumAtMost(s: seq<nat>, t: seq<nat>)
    requires AtMost(s, t)
    ensures Sum(s) <= Sum(t) && (Sum(s) == Sum(t) ==> s == t)
  {
    if s != [] {
      var n := |s| - 1;
      SumAtMost(s[..n], t[..n]);
      assert s == s[..n] + [s[n]] && t == t[..n] + [t[n]];
    }
  }

  function Lens(cs: seq<seq<Pair>>): seq<nat> { seq(|cs|, i requires 0 <= i < |cs| => |cs[i]|) }

  // ---------------------------------------------------------------- the merge so far

  /** `pos[i]` pairs of each collection have been written, and they are the earliest ones. */
  ghost predicate Front(cs: seq<seq<Pair>>, pos: seq<nat>, out: seq<Pair>, src: seq<Ref>)
  {
    && |src| == |out| && AtMost(pos, Lens(cs))
    && (forall k {:trigger src[k]} ::
          0 <= k < |src| ==> In(cs, src[k]) && src[k].pos < pos[src[k].coll] && out[k] == Get(cs, src[k]))
    && (forall k, l {:trigger src[k], src[l]} :: 0 <= k < l < |src| ==> Earlier(cs, src[k], src[l]))
    && (forall x {:trigger In(cs, x)} :: In(cs, x) && x.pos < pos[x.coll] ==> x in src)
    && (forall k, y {:trigger src[k], In(cs, y)} ::
          0 <= k < |src| && In(cs, y) && y.pos >= pos[y.coll] ==> Earlier(cs, src[k], y))
  }

  /** `m` has the smallest next pair, and is the first such collection. */
  ghost predicate Smallest(cs: seq<seq<Pair>>, pos: seq<nat>, m: nat)
  {
    && |pos| == |cs| && m < |cs| && pos[m] < |cs[m]|
    && (forall i {:trigger pos[i]} :: 0 <= i < m && pos[i] < |cs[i]| ==> cs[m][pos[m]].key < cs[i][pos[i]].key)
    && (forall i {:trigger pos[i]} :: m < i < |cs| && pos[i] < |cs[i]| ==> cs[m][pos[m]].key <= cs[i][pos[i]].key)
  }

  lemma SmallestIsEarliest(cs: seq<seq<Pair>>, pos: seq<nat>, m: nat, y: Ref)
    requires Smallest(cs, pos, m) && (forall i :: 0 <= i < |cs| ==> Sorted(cs[i]))
    requires In(cs, y) && y.pos >= pos[y.coll] && y != Ref(m, pos[m])
    ensures Earlier(cs, Ref(m, pos[m]), y)
  {
    var p := pos[y.coll];
    assert Sorted(cs[y.coll]);
    assert cs[y.coll][p].key <= cs[y.coll][y.pos].key;
  }

  lemma FrontGrows(cs: seq<seq<Pair>>, pos: seq<nat>, out: seq<Pair>, src: seq<Ref>, m: nat)
    requires Front(cs, pos, out, src) && Smallest(cs, pos, m) && forall i :: 0 <= i < |cs| ==> Sorted(cs[i])
    ensures Front(cs, pos[m := pos[m] + 1], out + [cs[m][pos[m]]], src + [Ref(m, pos[m])])
  {
    var x := Ref(m, pos[m]);
    var pos', out', src' := pos[m := pos[m] + 1], out + [cs[m][pos[m]]], src + [x];
    assert In(cs, x);
    forall k, l {:trigger src'[k], src'[l]} | 0 <= k < l < |src'| ensures Earlier(cs, src'[k], src'[l]) {
      assert src'[k] == src[k];
      if l < |src| { assert src'[l] == src[l]; }
    }
    forall y {:trigger In(cs, y)} | In(cs, y) && y.pos < pos'[y.coll] ensures y in src' {
      if y != x { assert y in src; }
    }
    forall k, y {:trigger src'[k], In(cs, y)} | 0 <= k < |src'| && In(cs, y) && y.pos >= pos'[y.coll]
      ensures Earlier(cs, src'[k], y)
    {
      if k < |src| { assert src'[k] == src[k]; } else { SmallestIsEarliest(cs, pos, m, y); }
    }
    forall k {:trigger src'[k]} | 0 <= k < |src'|
      ensures In(cs, src'[k]) && src'[k].pos < pos'[src'[k].coll] && out'[k] == Get(cs, src'[k])
    {
      if k < |src| { assert src'[k] == src[k]; }
    }
  }

  lemma FrontEnds(cs: seq<seq<Pair>>, pos: seq<nat>, out: seq<Pair>, src: seq<Ref>)
    requires Front(cs, pos, out, src) && pos == Lens(cs)
    ensures Merged(cs, out, src)
  {
  }

  // ---------------------------------------------------------------- contents

  ghost function Bag(cs: seq<seq<Pair>>): multiset<Pair>
  {
    if cs == [] then multiset{} else Bag(cs[..|cs| - 1]) + multiset(cs[|cs| - 1])
  }

  lemma {:induction false} BagSet(cs: seq<seq<Pair>>, c: nat, s: seq<Pair>)
    requires c < |cs|
    ensures Bag(cs[c := s]) + multiset(cs[c]) == Bag(cs) + multiset(s)
  {
    var n := |cs| - 1;
    var rest, rest' := cs[..n], cs[c := s][..n];
    if c == n {
      assert rest' == rest;
      Shuffle(Bag(rest), multiset(s), multiset(cs[n]));
    } else {
      BagSet(rest, c, s);
      assert rest' == rest[c := s];
      Shuffle(Bag(rest'), multiset(cs[n]), multiset(cs[c]));
      Shuffle(Bag(rest), multiset(cs[n]), multiset(s));
    }
  }

  lemma Shuffle(a: multiset<Pair>, b: multiset<Pair>, c: multiset<Pair>)
    ensures a + b + c == a + c + b
  {
  }

  ghost function Taken(cs: seq<seq<Pair>>, pos: seq<nat>): seq<seq<Pair>>
    requires AtMost(pos, Lens(cs))
  {
    seq(|cs|, i requires 0 <= i < |cs| => cs[i][..pos[i]])
  }

  lemma TakenGrows(cs: seq<seq<Pair>>, pos: seq<nat>, m: nat)
    requires AtMost(pos, Lens(cs)) && m < |cs| && pos[m] < |cs[m]|
    ensures AtMost(pos[m := pos[m] + 1], Lens(cs))
    ensures Bag(Taken(cs, pos[m := pos[m] + 1])) == Bag(Taken(cs, pos)) + multiset{cs[m][pos[m]]}
  {
    var t, t' := Taken(cs, pos), Taken(cs, pos[m := pos[m] + 1]);
    assert t'[m] == t[m] + [cs[m][pos[m]]];
    assert t' == t[m := t'[m]];
    BagSet(t, m, t'[m]);
    CancelBag(Bag(t'), Bag(t), multiset(t[m]), multiset{cs[m][pos[m]]});
  }

  lemma CancelBag(a: multiset<Pair>, b: multiset<Pair>, c: multiset<Pair>, d: multiset<Pair>)
    requires a + c == b + (c + d)
    ensures a == b + d
  {
    forall p ensures a[p] == (b + d)[p] { assert (a + c)[p] == (b + (c + d))[p]; }
  }

  lemma {:induction false} NothingTaken(cs: seq<seq<Pair>>)
    requires forall i :: 0 <= i < |cs| ==> cs[i] == []
    ensures Bag(cs) == multiset{}
  {
    if cs != [] { NothingTaken(cs[..|cs| - 1]); }
  }

  // ---------------------------------------------------------------- mergesort

  /** The search for the smallest next pair */
  method FindMin(cs: seq<seq<Pair>>, pos: seq<nat>) returns (m: nat)
    requires AtMost(pos, Lens(cs)) && Sum(pos) < Sum(Lens(cs))
    ensures Smallest(cs, pos, m)
  {
    m := 0;
    var found := false;
    for i := 0 to |cs|
      invariant found ==> m < i && pos[m] < |cs[m]|
      invariant found ==> forall j {:trigger pos[j]} :: 0 <= j < m && pos[j] < |cs[j]| ==>
        cs[m][pos[m]].key < cs[j][pos[j]].key
      invariant found ==> forall j {:trigger pos[j]} :: m < j < i && pos[j] < |cs[j]| ==>
        cs[m][pos[m]].key <= cs[j][pos[j]].key
      invariant !found ==> forall j {:trigger pos[j]} :: 0 <= j < i ==> pos[j] == |cs[j]|
    {
      if pos[i] == |cs[i]| { continue; }
      if !found || cs[m][pos[m]].key > cs[i][pos[i]].key {
        m, found := i, true;
      }
    }
    SomeLeft(pos, Lens(cs));
  }

  lemma SomeLeft(s: seq<nat>, t: seq<nat>)
    requires |s| == |t| && Sum(s) < Sum(t)
    ensures exists i :: 0 <= i < |s| && s[i] != t[i]
  {
    assert s != t;
  }

  /** The merge loop: a sorted, stable permutation of the collections */
  method MergeAll(cs: seq<seq<Pair>>) returns (out: seq<Pair>, ghost src: seq<Ref>)
    requires forall i :: 0 <= i < |cs| ==> Sorted(cs[i])
    ensures Merged(cs, out, src) && multiset(out) == Bag(cs) && |out| == Sum(Lens(cs))
  {
    hide Front, Smallest, Sum, Bag, Taken, Merged;
    var npairs := Sum(Lens(cs));
    out, src := [], [];
    var taskPos: seq<nat> := seq(|cs|, i => 0);
    var nsorted := 0;
    StartFront(cs, taskPos);
    while nsorted < npairs
      invariant nsorted == Sum(taskPos) == |out| <= npairs && AtMost(taskPos, Lens(cs)) && Front(cs, taskPos, out, src)
      invariant multiset(out) == Bag(Taken(cs, taskPos))
    {
      var m := FindMin(cs, taskPos);
      MinIs(cs, taskPos, m);
      FrontGrows(cs, taskPos, out, src, m);
      TakenGrows(cs, taskPos, m);
      SumBump(taskPos, m);
      out, src := out + [cs[m][taskPos[m]]], src + [Ref(m, taskPos[m])];
      taskPos := taskPos[m := taskPos[m] + 1];
      nsorted := nsorted + 1;
      SumAtMost(taskPos, Lens(cs));
    }
    SumAtMost(taskPos, Lens(cs));
    FrontEnds(cs, taskPos, out, src);
    AllTaken(cs);
  }

  lemma AllTaken(cs: seq<seq<Pair>>)
    ensures AtMost(Lens(cs), Lens(cs)) && Taken(cs, Lens(cs)) == cs
  {
    var t := Taken(cs, Lens(cs));
    forall i | 0 <= i < |cs| ensures t[i] == cs[i] {}
  }

  lemma MinIs(cs: seq<seq<Pair>>, pos: seq<nat>, m: nat)
    requires Smallest(cs, pos, m)
    ensures |pos| == |cs| && m < |cs| && pos[m] < |cs[m]|
  {
  }

  lemma {:induction false} ZeroSum(s: seq<nat>)
    requires forall i :: 0 <= i < |s| ==> s[i] == 0
    ensures Sum(s) == 0
  {
    if s != [] { ZeroSum(s[..|s| - 1]); }
  }

  lemma StartFront(cs: seq<seq<Pair>>, pos: seq<nat>)
    requires |pos| == |cs| && forall i :: 0 <= i < |pos| ==> pos[i] == 0
    ensures Sum(pos) == 0 && AtMost(pos, Lens(cs)) && Front(cs, pos, [], []) && Bag(Taken(cs, pos)) == multiset{}
  {
    hide Front, Sum, Bag;
    ZeroSum(pos);
    NothingTaken(Taken(cs, pos));
    EmptyFront(cs, pos);
  }

  lemma EmptyFront(cs: seq<seq<Pair>>, pos: seq<nat>)
    requires |pos| == |cs| && forall i :: 0 <= i < |pos| ==> pos[i] == 0
    ensures Front(cs, pos, [], [])
  {
  }

  /** What a merge gives: sorted, and equal keys in the order of their collections. */
  lemma MergedIsSorted(cs: seq<seq<Pair>>, out: seq<Pair>, src: seq<Ref>)
    requires Merged(cs, out, src)
    ensures Sorted(out)
  {
    forall p, q | 0 <= p < q < |out| ensures out[p].key <= out[q].key { assert Earlier(cs, src[p], src[q]); }
  }

  // ---------------------------------------------------------------- who merges what

  /** How many collections worker `lcpu` has. */
  function MyColls(ncolls: nat, ncpus: nat, lcpu: nat): nat
    requires ncpus > 0
  {
    ncolls / ncpus + if lcpu < ncolls % ncpus then 1 else 0
  }

  lemma DivMod(c: nat, n: nat)
    requires n > 0
    ensures c == c / n * n + c % n && c % n < n
  {
  }

  /** Quotient and remainder are unique. */
  lemma OneQuotient(q: nat, r: nat, n: nat)
    requires r < n
    ensures (q * n + r) / n == q && (q * n + r) % n == r
  {
    var c := q * n + r;
    DivMod(c, n);
    var q' := c / n;
    if q < q' { TimesMono(q, q', n); } else if q' < q { TimesMono(q', q, n); }
  }

  lemma TimesMono(i: nat, j: nat, n: nat)
    requires i < j
    ensures i * n + n <= j * n
  {
    assert (i + 1) * n <= j * n by { if i + 1 < j { TimesLess(i + 1, j, n); } }
  }

  lemma TimesLess(i: nat, j: nat, n: nat)
    requires i <= j
    ensures i * n <= j * n
  {
    assert (j - i) * n >= 0;
    assert j * n == i * n + (j - i) * n;
  }

  /** The strides partition the collections: collection c is number c / ncpus of worker c % ncpus, and of no
      other, and every worker's count ends exactly where the collections do. */
  lemma Strides(ncolls: nat, ncpus: nat, lcpu: nat, i: nat)
    requires lcpu < ncpus
    ensures lcpu + i * ncpus < ncolls <==> i < MyColls(ncolls, ncpus, lcpu)
    ensures (lcpu + i * ncpus) % ncpus == lcpu && (lcpu + i * ncpus) / ncpus == i
  {
    OneQuotient(i, lcpu, ncpus);
    DivMod(ncolls, ncpus);
    var q, r := ncolls / ncpus, ncolls % ncpus;
    if i < q {
      TimesMono(i, q, ncpus);
    } else if i > q {
      TimesMono(q, i, ncpus);
    }
  }

  // ---------------------------------------------------------------- the collections

  ghost predicate Owns(ncpus: nat, lcpu: nat, c: nat)
    requires lcpu < ncpus
  {
    c % ncpus == lcpu
  }

  /** The collections of a worker, in order. */
  ghost function Mine(colls: seq<seq<Pair>>, ncpus: nat, lcpu: nat): seq<seq<Pair>>
    requires lcpu < ncpus
  {
    seq(MyColls(|colls|, ncpus, lcpu), i requires 0 <= i < MyColls(|colls|, ncpus, lcpu) =>
      (Strides(|colls|, ncpus, lcpu, i); colls[lcpu + i * ncpus]))
  }

  ghost predicate AllSorted(colls: seq<seq<Pair>>)
  {
    forall c {:trigger colls[c]} :: 0 <= c < |colls| ==> Sorted(colls[c])
  }

  /** A worker's own collections up to number `n` are empty; everything else is unchanged. */
  ghost predicate Freed(colls: seq<seq<Pair>>, colls': seq<seq<Pair>>, ncpus: nat, lcpu: nat, n: nat)
    requires lcpu < ncpus
  {
    && |colls'| == |colls|
    && forall c {:trigger colls'[c]} :: 0 <= c < |colls| ==>
         colls'[c] == if Owns(ncpus, lcpu, c) && c / ncpus < n then [] else colls[c]
  }

  lemma FreeOne(colls: seq<seq<Pair>>, colls': seq<seq<Pair>>, ncpus: nat, lcpu: nat, n: nat)
    requires lcpu < ncpus && Freed(colls, colls', ncpus, lcpu, n) && n < MyColls(|colls|, ncpus, lcpu)
    ensures lcpu + n * ncpus < |colls| && colls'[lcpu + n * ncpus] == colls[lcpu + n * ncpus]
    ensures Freed(colls, colls'[lcpu + n * ncpus := []], ncpus, lcpu, n + 1)
  {
    Strides(|colls|, ncpus, lcpu, n);
    var d := lcpu + n * ncpus;
    var colls'' := colls'[d := []];
    forall c {:trigger colls''[c]} | 0 <= c < |colls|
      ensures colls''[c] == if Owns(ncpus, lcpu, c) && c / ncpus < n + 1 then [] else colls[c]
    {
      DivMod(c, ncpus);
      assert Owns(ncpus, lcpu, c) && c / ncpus == n ==> c == d;
    }
  }

  class Collections {
    var colls: seq<seq<Pair>>

    constructor (colls: seq<seq<Pair>>)
      ensures this.colls == colls
    {
      this.colls := colls;
    }

    /** The count of a worker's pairs, and its collections */
    method Gather(ncpus: nat, lcpu: nat) returns (mine: seq<seq<Pair>>, npairs: nat)
      requires lcpu < ncpus
      ensures mine == Mine(colls, ncpus, lcpu) && npairs == Sum(Lens(mine))
    {
      var mycolls := |colls| / ncpus;
      if lcpu < |colls| % ncpus {
        mycolls := mycolls + 1;
      }
      mine, npairs := [], 0;
      ghost var all := Mine(colls, ncpus, lcpu);
      hide Mine, Sum, Lens;
      NoPairs();
      for i := 0 to mycolls
        invariant |all| == mycolls && mine == all[..i] && npairs == Sum(Lens(mine))
      {
        GatherOne(colls, ncpus, lcpu, i);
        npairs := npairs + |colls[lcpu + i * ncpus]|;
        mine := mine + [colls[lcpu + i * ncpus]];
      }
      assert all[..mycolls] == all;
    }

    /** pch_shallow_free of a worker's collections */
    method FreeMine(ncpus: nat, lcpu: nat, mycolls: nat)
      requires lcpu < ncpus && mycolls == MyColls(|colls|, ncpus, lcpu)
      modifies this
      ensures Freed(old(colls), colls, ncpus, lcpu, mycolls)
      ensures Bag(colls) + Bag(Mine(old(colls), ncpus, lcpu)) == Bag(old(colls))
    {
      hide Freed, Bag;
      ghost var mine := Mine(colls, ncpus, lcpu);
      NoneFreed(colls, ncpus, lcpu);
      BagEmpty(mine);
      for i := 0 to mycolls
        invariant |colls| == |old(colls)| && Freed(old(colls), colls, ncpus, lcpu, i)
        invariant Bag(colls) + Bag(mine[..i]) == Bag(old(colls))
      {
        FreeOne(old(colls), colls, ncpus, lcpu, i);
        BagSet(colls, lcpu + i * ncpus, []);
        BagSnoc(mine, i);
        Moved(Bag(colls), Bag(colls[lcpu + i * ncpus := []]), Bag(mine[..i]), multiset(mine[i]));
        FreedShape(old(colls), colls[lcpu + i * ncpus := []], ncpus, lcpu, i + 1);
        colls := colls[lcpu + i * ncpus := []];
      }
      assert mine[..mycolls] == mine;
    }

    /** mergesort: worker `lcpu` of `ncpus` merges its collections into the first of them, empties its others
        and touches no other worker's */
    method Mergesort(ncpus: nat, lcpu: nat) returns (ghost src: seq<Ref>)
      requires lcpu < ncpus && AllSorted(colls)
      modifies this
      ensures |colls| == |old(colls)| && AllSorted(colls) && Bag(colls) == Bag(old(colls))
      ensures forall c {:trigger colls[c]} :: 0 <= c < |colls| && !Owns(ncpus, lcpu, c) ==> colls[c] == old(colls)[c]
      ensures forall c {:trigger colls[c]} :: 0 <= c < |colls| && Owns(ncpus, lcpu, c) && c != lcpu ==> colls[c] == []
      ensures lcpu < |colls| ==> Merged(Mine(old(colls), ncpus, lcpu), colls[lcpu], src)
    {
      hide Freed, Bag, Merged, Sum, Owns;
      ghost var colls0 := colls;
      var mine, npairs := Gather(ncpus, lcpu);
      MineSorted(colls, ncpus, lcpu);
      if npairs == 0 {
        src := [];
        AllEmpty(colls, ncpus, lcpu);
        return;
      }
      var out;
      out, src := MergeAll(mine);
      MergedIsSorted(mine, out, src);
      FreeMine(ncpus, lcpu, |mine|);
      FirstIsMine(colls0, ncpus, lcpu);
      SetElems(colls0, colls, ncpus, lcpu, out, |mine|);
      BagSet(colls, lcpu, out);
      Replaced(Bag(colls0), Bag(colls), Bag(mine), Bag(colls[lcpu := out]));
      colls := colls[lcpu := out];
    }

    /** One merge phase: the workers in any order, and the result is the same for all */
    method Round(ncpus: nat, order: seq<nat>)
      requires 0 < ncpus && AllSorted(colls) && IsOrder(order, ncpus)
      modifies this
      ensures AllSorted(colls) && Bag(colls) == Bag(old(colls)) && Rounded(old(colls), colls, ncpus)
    {
      hide Bag, Merged, Mine, Owns, AllSorted, MergedTo;
      ghost var colls0 := colls;
      for i := 0 to |order|
        invariant AllSorted(colls) && Bag(colls) == Bag(colls0) && PartRounded(colls0, colls, ncpus, order[..i])
      {
        ghost var before := colls;
        var lcpu := order[i];
        ghost var src := Mergesort(ncpus, lcpu);
        RoundStep(colls0, before, colls, ncpus, order, i, src);
      }
      RoundDone(colls0, colls, ncpus, order);
    }

    /** The merge phase of mr_run_scheduler ends, and then collection 0 holds every pair, in order */
    method MergeRounds(nrCpus: nat) returns (ghost workers: seq<nat>)
      requires nrCpus > 0 && |colls| > 0 && AllSorted(colls)
      modifies this
      ensures |colls| == |old(colls)| && Sorted(colls[0]) && multiset(colls[0]) == Bag(old(colls))
      ensures forall c {:trigger colls[c]} :: 0 < c < |colls| ==> colls[c] == []
      ensures Halving(workers, if |colls| / 2 < nrCpus then |colls| / 2 else nrCpus, 0)
    {
      hide Bag, Sorted;
      workers := [];
      var mergeNsplits := |colls|;
      var mergeNcpus: nat := mergeNsplits / 2;
      if mergeNcpus > nrCpus {
        mergeNcpus := nrCpus;
      }
      while mergeNsplits > 1
        invariant Halving(workers, if |colls| / 2 < nrCpus then |colls| / 2 else nrCpus, mergeNcpus)
        invariant 0 < mergeNsplits && mergeNcpus <= mergeNsplits / 2 && (mergeNsplits > 1 ==> mergeNcpus > 0)
        invariant |colls| == |old(colls)| && AllSorted(colls) && Bag(colls) == Bag(old(colls))
        invariant forall c {:trigger colls[c]} :: mergeNsplits <= c < |colls| ==> colls[c] == []
        decreases mergeNsplits
      {
        InOrder(mergeNcpus);
        var order :| IsOrder(order, mergeNcpus);
        Round(mergeNcpus, order);
        workers := workers + [mergeNcpus];
        mergeNsplits := mergeNcpus;
        mergeNcpus := mergeNsplits / 2;
      }
      OnlyFirst(colls);
    }
  }

  /** The workers of each merge phase: `n` in the first, half as many in each further one, and `next` in the one to
      come. */
  ghost predicate Halving(workers: seq<nat>, n: nat, next: nat)
  {
    if workers == [] then next == n
    else
      && workers[0] == n && workers[|workers| - 1] / 2 == next
      && forall i :: 0 < i < |workers| ==> workers[i] == workers[i - 1] / 2
  }

  /** Every worker once. */
  predicate IsOrder(order: seq<nat>, n: nat)
  {
    && (forall i :: 0 <= i < |order| ==> order[i] < n) && (forall l :: 0 <= l < n ==> l in order)
    && forall i, j :: 0 <= i < j < |order| ==> order[i] != order[j]
  }

  lemma InOrder(n: nat)
    ensures exists order: seq<nat> :: IsOrder(order, n)
  {
    var order := seq(n, i requires 0 <= i => i as nat);
    forall l | 0 <= l < n ensures l in order { assert order[l] == l; }
    assert IsOrder(order, n);
  }

  ghost predicate MergedTo(cs: seq<seq<Pair>>, out: seq<Pair>) { exists src: seq<Ref> :: Merged(cs, out, src) }

  /** What a merge phase makes of the collections: the first ncpus hold what each worker merged. */
  ghost predicate Rounded(colls: seq<seq<Pair>>, colls': seq<seq<Pair>>, ncpus: nat)
  {
    && |colls'| == |colls|
    && forall c {:trigger colls'[c]} :: 0 <= c < |colls'| ==>
         if c < ncpus then MergedTo(Mine(colls, ncpus, c), colls'[c]) else colls'[c] == []
  }

  /** The same when the workers in `done` have run. */
  ghost predicate PartRounded(colls: seq<seq<Pair>>, colls': seq<seq<Pair>>, ncpus: nat, done: seq<nat>)
    requires ncpus > 0
  {
    && |colls'| == |colls|
    && forall c {:trigger colls'[c]} :: 0 <= c < |colls'| ==>
         if c % ncpus !in done then colls'[c] == colls[c]
         else if c < ncpus then MergedTo(Mine(colls, ncpus, c), colls'[c]) else colls'[c] == []
  }

  lemma MineSame(colls: seq<seq<Pair>>, colls': seq<seq<Pair>>, ncpus: nat, lcpu: nat)
    requires lcpu < ncpus && |colls'| == |colls|
    requires forall c {:trigger colls'[c]} :: 0 <= c < |colls| && c % ncpus == lcpu ==> colls'[c] == colls[c]
    ensures Mine(colls', ncpus, lcpu) == Mine(colls, ncpus, lcpu)
  {
    var mine, mine' := Mine(colls, ncpus, lcpu), Mine(colls', ncpus, lcpu);
    forall i | 0 <= i < |mine| ensures mine'[i] == mine[i] {
      Strides(|colls|, ncpus, lcpu, i);
    }
  }

  lemma RoundStep(colls0: seq<seq<Pair>>, colls: seq<seq<Pair>>, colls': seq<seq<Pair>>, ncpus: nat, order: seq<nat>,
                  i: nat, src: seq<Ref>)
    requires ncpus > 0 && i < |order| && order[i] < ncpus && order[i] !in order[..i]
    requires PartRounded(colls0, colls, ncpus, order[..i]) && |colls'| == |colls|
    requires forall c {:trigger colls'[c]} :: 0 <= c < |colls'| && !Owns(ncpus, order[i], c) ==> colls'[c] == colls[c]
    requires forall c {:trigger colls'[c]} :: 0 <= c < |colls'| && Owns(ncpus, order[i], c) && c != order[i] ==>
      colls'[c] == []
    requires order[i] < |colls'| ==> Merged(Mine(colls, ncpus, order[i]), colls'[order[i]], src)
    ensures PartRounded(colls0, colls', ncpus, order[..i + 1])
  {
    hide Merged, Mine;
    var l := order[i];
    MineSame(colls0, colls, ncpus, l);
    OwnFirst(ncpus, l);
    if l < |colls'| { assert MergedTo(Mine(colls0, ncpus, l), colls'[l]); }
    forall c {:trigger colls'[c]} | 0 <= c < |colls'|
      ensures if c % ncpus !in order[..i + 1] then colls'[c] == colls0[c]
              else if c < ncpus then MergedTo(Mine(colls0, ncpus, c), colls'[c]) else colls'[c] == []
    {
      assert colls[c] == colls[c];
      assert c % ncpus in order[..i + 1] <==> c % ncpus in order[..i] || c % ncpus == l;
      if c < ncpus { OwnFirst(ncpus, c); }
    }
  }

  lemma RoundDone(colls0: seq<seq<Pair>>, colls: seq<seq<Pair>>, ncpus: nat, order: seq<nat>)
    requires ncpus > 0 && IsOrder(order, ncpus) && PartRounded(colls0, colls, ncpus, order)
    ensures Rounded(colls0, colls, ncpus)
  {
    hide MergedTo, Mine;
    forall c {:trigger colls[c]} | 0 <= c < |colls|
      ensures if c < ncpus then MergedTo(Mine(colls0, ncpus, c), colls[c]) else colls[c] == []
    {
      assert c % ncpus in order;
    }
  }

  /** A stable merge has one result only. */
  lemma MergedUnique(cs: seq<seq<Pair>>, out: seq<Pair>, src: seq<Ref>, out': seq<Pair>, src': seq<Ref>)
    requires Merged(cs, out, src) && Merged(cs, out', src')
    ensures out == out'
  {
    SameUpTo(cs, out, src, out', src', |src|);
    SameUpTo(cs, out', src', out, src, |src'|);
    assert src[..|src|] == src && src'[..|src'|] == src';
    forall k | 0 <= k < |out| ensures out[k] == out'[k] { assert src[k] == src'[k]; }
  }

  lemma Before(cs: seq<seq<Pair>>, out: seq<Pair>, src: seq<Ref>, a: nat, b: nat)
    requires Merged(cs, out, src) && a < |src| && b < |src|
    ensures In(cs, src[a]) && In(cs, src[b])
    ensures (Earlier(cs, src[a], src[b]) <==> a < b) && (src[a] == src[b] <==> a == b)
  {
    assert a < b ==> Earlier(cs, src[a], src[b]);
    assert b < a ==> Earlier(cs, src[b], src[a]);
  }

  lemma Comparable(cs: seq<seq<Pair>>, x: Ref, y: Ref)
    requires In(cs, x) && In(cs, y)
    ensures x == y || Earlier(cs, x, y) || Earlier(cs, y, x)
  {
  }

  lemma {:induction false} SameUpTo(cs: seq<seq<Pair>>, out: seq<Pair>, src: seq<Ref>, out': seq<Pair>, src': seq<Ref>,
                                    k: nat)
    requires Merged(cs, out, src) && Merged(cs, out', src') && k <= |src|
    ensures k <= |src'| && src[..k] == src'[..k]
  {
    if k > 0 {
      SameUpTo(cs, out, src, out', src', k - 1);
      var j := Find(cs, out, src, out', src', k - 1);
      var i := Find(cs, out', src', out, src, k - 1);
      hide Merged, Earlier;
      Before(cs, out', src', j, k - 1);
      Before(cs, out, src, i, k - 1);
      Comparable(cs, src[k - 1], src'[k - 1]);
    }
  }

  /** Where the other order has the item at `k`: not before `k`. */
  lemma Find(cs: seq<seq<Pair>>, out: seq<Pair>, src: seq<Ref>, out': seq<Pair>, src': seq<Ref>, k: nat)
    returns (j: nat)
    requires Merged(cs, out, src) && Merged(cs, out', src') && k < |src| && k <= |src'| && src[..k] == src'[..k]
    ensures k <= j < |src'| && src'[j] == src[k]
  {
    assert In(cs, src[k]) && src[k] in src';
    j :| 0 <= j < |src'| && src'[j] == src[k];
    if j < k {
      assert src[..k][j] == src'[..k][j];
      Before(cs, out, src, j, k);
    }
  }

  /** So the collections after a merge phase do not depend on the order of the workers. */
  lemma OrderIsFree(colls: seq<seq<Pair>>, a: seq<seq<Pair>>, b: seq<seq<Pair>>, ncpus: nat)
    requires Rounded(colls, a, ncpus) && Rounded(colls, b, ncpus)
    ensures a == b
  {
    hide Merged, Mine;
    forall c | 0 <= c < |colls| ensures a[c] == b[c] {
      if c < ncpus {
        var cs := Mine(colls, ncpus, c);
        assert MergedTo(cs, a[c]) && MergedTo(cs, b[c]);
        var src: seq<Ref> :| Merged(cs, a[c], src);
        var src': seq<Ref> :| Merged(cs, b[c], src');
        MergedUnique(cs, a[c], src, b[c], src');
      }
    }
  }

  lemma NoPairs()
    ensures Sum(Lens([])) == 0
  {
  }

  lemma GatherOne(colls: seq<seq<Pair>>, ncpus: nat, lcpu: nat, i: nat)
    requires lcpu < ncpus && i < |Mine(colls, ncpus, lcpu)|
    ensures lcpu + i * ncpus < |colls| && Mine(colls, ncpus, lcpu)[i] == colls[lcpu + i * ncpus]
    ensures var mine := Mine(colls, ncpus, lcpu);
      mine[..i + 1] == mine[..i] + [mine[i]] && Sum(Lens(mine[..i + 1])) == Sum(Lens(mine[..i])) + |mine[i]|
  {
    Strides(|colls|, ncpus, lcpu, i);
    var mine := Mine(colls, ncpus, lcpu);
    assert Lens(mine[..i + 1]) == Lens(mine[..i]) + [|mine[i]|];
    SumSnoc(Lens(mine[..i]), |mine[i]|);
  }

  lemma SumSnoc(s: seq<nat>, x: nat)
    ensures Sum(s + [x]) == Sum(s) + x
  {
    assert (s + [x])[..|s|] == s;
  }

  lemma BagSnoc(cs: seq<seq<Pair>>, i: nat)
    requires i < |cs|
    ensures Bag(cs[..i + 1]) == Bag(cs[..i]) + multiset(cs[i])
  {
    assert cs[..i + 1][..i] == cs[..i];
  }

  lemma BagEmpty(cs: seq<seq<Pair>>)
    ensures Bag(cs[..0]) == multiset{}
  {
  }

  /** A collection's pairs move from one side to the other. */
  lemma Moved(a: multiset<Pair>, a': multiset<Pair>, b: multiset<Pair>, m: multiset<Pair>)
    requires a' + m == a + multiset([])
    ensures a' + (b + m) == a + b
  {
    forall p ensures (a' + (b + m))[p] == (a + b)[p] { assert (a' + m)[p] == (a + multiset([]))[p]; }
  }

  lemma Replaced(all: multiset<Pair>, rest: multiset<Pair>, mine: multiset<Pair>, all': multiset<Pair>)
    requires rest + mine == all && all' + multiset([]) == rest + mine
    ensures all' == all
  {
    assert all' + multiset([]) == all';
  }

  lemma NoneFreed(colls: seq<seq<Pair>>, ncpus: nat, lcpu: nat)
    requires lcpu < ncpus
    ensures Freed(colls, colls, ncpus, lcpu, 0)
  {
    forall c | 0 <= c < |colls| ensures c / ncpus >= 0 { DivMod(c, ncpus); }
  }

  lemma FreedShape(colls: seq<seq<Pair>>, colls': seq<seq<Pair>>, ncpus: nat, lcpu: nat, n: nat)
    requires lcpu < ncpus && Freed(colls, colls', ncpus, lcpu, n)
    ensures |colls'| == |colls|
  {
  }

  lemma MineSorted(colls: seq<seq<Pair>>, ncpus: nat, lcpu: nat)
    requires lcpu < ncpus && AllSorted(colls)
    ensures forall i :: 0 <= i < |Mine(colls, ncpus, lcpu)| ==> Sorted(Mine(colls, ncpus, lcpu)[i])
  {
    forall i | 0 <= i < |Mine(colls, ncpus, lcpu)| ensures Sorted(Mine(colls, ncpus, lcpu)[i]) {
      Strides(|colls|, ncpus, lcpu, i);
    }
  }

  /** Number c / ncpus of a worker's collections is collection c. */
  lemma IsMine(colls: seq<seq<Pair>>, ncpus: nat, lcpu: nat, c: nat)
    requires lcpu < ncpus && c < |colls| && Owns(ncpus, lcpu, c)
    ensures c / ncpus < |Mine(colls, ncpus, lcpu)| && Mine(colls, ncpus, lcpu)[c / ncpus] == colls[c]
  {
    DivMod(c, ncpus);
    Strides(|colls|, ncpus, lcpu, c / ncpus);
  }

  lemma {:induction false} SumZero(s: seq<nat>, i: nat)
    requires Sum(s) == 0 && i < |s|
    ensures s[i] == 0
  {
    if i < |s| - 1 { SumZero(s[..|s| - 1], i); }
  }

  /** Nothing to merge: all of the worker's collections are empty. */
  lemma AllEmpty(colls: seq<seq<Pair>>, ncpus: nat, lcpu: nat)
    requires lcpu < ncpus && Sum(Lens(Mine(colls, ncpus, lcpu))) == 0
    ensures forall c {:trigger colls[c]} :: 0 <= c < |colls| && Owns(ncpus, lcpu, c) ==> colls[c] == []
    ensures lcpu < |colls| ==> Merged(Mine(colls, ncpus, lcpu), colls[lcpu], [])
  {
    hide Merged, Sum, Owns, Mine;
    var mine := Mine(colls, ncpus, lcpu);
    forall i | 0 <= i < |mine| ensures mine[i] == [] { SumZero(Lens(mine), i); }
    NothingMerged(mine);
    forall c {:trigger colls[c]} | 0 <= c < |colls| && Owns(ncpus, lcpu, c)
      ensures colls[c] == []
    {
      IsMine(colls, ncpus, lcpu, c);
    }
    OwnFirst(ncpus, lcpu);
  }

  lemma NothingMerged(cs: seq<seq<Pair>>)
    requires forall i :: 0 <= i < |cs| ==> cs[i] == []
    ensures Merged(cs, [], [])
  {
  }

  lemma OwnFirst(ncpus: nat, lcpu: nat)
    requires lcpu < ncpus
    ensures Owns(ncpus, lcpu, lcpu) && lcpu / ncpus == 0
  {
    OneQuotient(0, lcpu, ncpus);
  }

  lemma FirstIsMine(colls: seq<seq<Pair>>, ncpus: nat, lcpu: nat)
    requires lcpu < ncpus && Sum(Lens(Mine(colls, ncpus, lcpu))) > 0
    ensures lcpu < |colls|
  {
    if Mine(colls, ncpus, lcpu) != [] { Strides(|colls|, ncpus, lcpu, 0); }
  }

  lemma SetElems(colls: seq<seq<Pair>>, freed: seq<seq<Pair>>, ncpus: nat, lcpu: nat, out: seq<Pair>, n: nat)
    requires lcpu < ncpus && lcpu < |colls| && Freed(colls, freed, ncpus, lcpu, n) && n == |Mine(colls, ncpus, lcpu)|
    requires AllSorted(colls) && Sorted(out)
    ensures |freed| == |colls| && freed[lcpu] == [] && AllSorted(freed[lcpu := out])
    ensures forall c {:trigger freed[lcpu := out][c]} :: 0 <= c < |colls| && !Owns(ncpus, lcpu, c) ==>
      freed[lcpu := out][c] == colls[c]
    ensures forall c {:trigger freed[lcpu := out][c]} :: 0 <= c < |colls| && Owns(ncpus, lcpu, c) && c != lcpu ==>
      freed[lcpu := out][c] == []
  {
    OwnFirst(ncpus, lcpu);
    var colls' := freed[lcpu := out];
    IsMine(colls, ncpus, lcpu, lcpu);
    assert freed[lcpu] == [];
    forall c {:trigger colls'[c]} | 0 <= c < |colls|
      ensures Sorted(colls'[c]) && (!Owns(ncpus, lcpu, c) ==> colls'[c] == colls[c])
      ensures (Owns(ncpus, lcpu, c) && c != lcpu ==> colls'[c] == [])
    {
      assert Sorted(colls[c]);
      if Owns(ncpus, lcpu, c) { IsMine(colls, ncpus, lcpu, c); }
      if c != lcpu { assert colls'[c] == freed[c]; }
    }
  }

  lemma {:induction false} OnlyFirst(cs: seq<seq<Pair>>)
    requires cs != [] && forall c {:trigger cs[c]} :: 0 < c < |cs| ==> cs[c] == []
    ensures Bag(cs) == multiset(cs[0])
  {
    if |cs| > 1 { OnlyFirst(cs[..|cs| - 1]); }
  }
}
