/** memcached-1.4.5/items.c: the doubly linked LRU queue of each slab class. */
module Lru {
  import opened Assoc

  /** LARGEST_ID: the number of queues. */
  const LARGEST_ID: nat := 200

  function Prior(s: seq<Ptr>, i: nat): Ptr
    requires i <= |s|
  {
    if i == 0 then 0 else s[i - 1]
  }

  function First(s: seq<Ptr>): Ptr { if s == [] then 0 else s[0] }
  function Last(s: seq<Ptr>): Ptr { if s == [] then 0 else s[|s| - 1] }

  /** `s` is the queue between `head` and `tail`, newest first. */
  ghost predicate Dll(prev: map<Ptr, Ptr>, next: map<Ptr, Ptr>, head: Ptr, tail: Ptr, s: seq<Ptr>)
  {
    && head == First(s) && tail == Last(s) && NoDup(s)
    && (forall i :: 0 <= i < |s| ==> s[i] != 0)
    && (forall i {:trigger Ld(next, s[i])} :: 0 <= i < |s| ==> Ld(next, s[i]) == After(s, i))
    && (forall i {:trigger Ld(prev, s[i])} :: 0 <= i < |s| ==> Ld(prev, s[i]) == Prior(s, i))
  }

  lemma DllFrame(prev: map<Ptr, Ptr>, next: map<Ptr, Ptr>, head: Ptr, tail: Ptr, s: seq<Ptr>,
                 prev': map<Ptr, Ptr>, next': map<Ptr, Ptr>)
    requires Dll(prev, next, head, tail, s)
    requires forall x :: x in s ==> Ld(prev', x) == Ld(prev, x) && Ld(next', x) == Ld(next, x)
    ensures Dll(prev', next', head, tail, s)
  {
    forall i | 0 <= i < |s| ensures Ld(next', s[i]) == After(s, i) && Ld(prev', s[i]) == Prior(s, i) {
      assert Ld(next, s[i]) == After(s, i) && Ld(prev, s[i]) == Prior(s, i);
    }
  }

  /** The pointers after item_link_q. */
  lemma DllPush(prev: map<Ptr, Ptr>, next: map<Ptr, Ptr>, head: Ptr, tail: Ptr, s: seq<Ptr>, it: Ptr,
                prev': map<Ptr, Ptr>, next': map<Ptr, Ptr>)
    requires Dll(prev, next, head, tail, s) && it != 0 && it !in s
    requires next' == next[it := head]
    requires prev' == if head == 0 then prev[it := 0] else prev[it := 0][head := it]
    ensures Dll(prev', next', it, if tail == 0 then it else tail, [it] + s)
  {
    var t := [it] + s;
    forall i | 0 <= i < |t| ensures Ld(next', t[i]) == After(t, i) && Ld(prev', t[i]) == Prior(t, i) {
      if i > 0 {
        assert t[i] == s[i - 1];
        assert Ld(next, s[i - 1]) == After(s, i - 1) == After(t, i);
        assert Ld(prev, s[i - 1]) == Prior(s, i - 1);
      }
    }
  }

  lemma CutNext(next: map<Ptr, Ptr>, s: seq<Ptr>, n: nat, next': map<Ptr, Ptr>)
    requires NoDup(s) && n < |s| && forall i {:trigger Ld(next, s[i])} :: 0 <= i < |s| ==> Ld(next, s[i]) == After(s, i)
    requires next' == if Prior(s, n) != 0 then next[Prior(s, n) := After(s, n)] else next
    requires forall i :: 0 <= i < |s| ==> s[i] != 0
    ensures var t := Without(s, n);
      forall i {:trigger Ld(next', t[i])} :: 0 <= i < |t| ==> Ld(next', t[i]) == After(t, i)
  {
    var t := Without(s, n);
    forall i | 0 <= i < |t| ensures Ld(next', t[i]) == After(t, i) {
      var k := if i < n then i else i + 1;
      assert t[i] == s[k] && Ld(next, s[k]) == After(s, k);
      if n > 0 && k != n - 1 { assert s[k] != s[n - 1]; }
    }
  }

  lemma CutPrev(prev: map<Ptr, Ptr>, s: seq<Ptr>, n: nat, prev': map<Ptr, Ptr>)
    requires NoDup(s) && n < |s| && forall i {:trigger Ld(prev, s[i])} :: 0 <= i < |s| ==> Ld(prev, s[i]) == Prior(s, i)
    requires prev' == if After(s, n) != 0 then prev[After(s, n) := Prior(s, n)] else prev
    requires forall i :: 0 <= i < |s| ==> s[i] != 0
    ensures var t := Without(s, n);
      forall i {:trigger Ld(prev', t[i])} :: 0 <= i < |t| ==> Ld(prev', t[i]) == Prior(t, i)
  {
    var t := Without(s, n);
    forall i | 0 <= i < |t| ensures Ld(prev', t[i]) == Prior(t, i) {
      var k := if i < n then i else i + 1;
      assert t[i] == s[k] && Ld(prev, s[k]) == Prior(s, k);
      if n + 1 < |s| && k != n + 1 { assert s[k] != s[n + 1]; }
    }
  }

  /** The pointers after item_unlink_q of the item at position `n`. */
  lemma DllCut(prev: map<Ptr, Ptr>, next: map<Ptr, Ptr>, head: Ptr, tail: Ptr, s: seq<Ptr>, n: nat,
               prev': map<Ptr, Ptr>, next': map<Ptr, Ptr>)
    requires Dll(prev, next, head, tail, s) && n < |s|
    requires prev' == if After(s, n) != 0 then prev[After(s, n) := Prior(s, n)] else prev
    requires next' == if Prior(s, n) != 0 then next[Prior(s, n) := After(s, n)] else next
    ensures Dll(prev', next', if head == s[n] then After(s, n) else head, if tail == s[n] then Prior(s, n) else tail,
                Without(s, n))
  {
    CutNext(next, s, n, next');
    CutPrev(prev, s, n, prev');
    assert s[0] == s[n] <==> n == 0;
    assert s[|s| - 1] == s[n] <==> n == |s| - 1;
    hide Ld;
  }

  // ---------------------------------------------------------------- all queues

  /** One queue of each class; `home` says which queue an item is in. */
  ghost predicate QueuesOk(q: seq<seq<Ptr>>, heads: seq<Ptr>, tails: seq<Ptr>, sizes: seq<nat>,
                           prev: map<Ptr, Ptr>, next: map<Ptr, Ptr>, home: map<Ptr, nat>)
  {
    && |q| == LARGEST_ID && |heads| == LARGEST_ID && |tails| == LARGEST_ID && |sizes| == LARGEST_ID
    && (forall c {:trigger q[c]} :: 0 <= c < LARGEST_ID ==>
          Dll(prev, next, heads[c], tails[c], q[c]) && sizes[c] == |q[c]|)
    && (forall c, x {:trigger x in q[c]} :: 0 <= c < LARGEST_ID && x in q[c] ==> x in home && home[x] == c)
    && (forall x {:trigger home[x]} :: x in home ==> home[x] < LARGEST_ID && x in q[home[x]])
  }

  lemma PushQueue(q: seq<seq<Ptr>>, heads: seq<Ptr>, tails: seq<Ptr>, sizes: seq<nat>,
                  prev: map<Ptr, Ptr>, next: map<Ptr, Ptr>, home: map<Ptr, nat>, it: Ptr, c: nat,
                  prev': map<Ptr, Ptr>, next': map<Ptr, Ptr>)
    requires QueuesOk(q, heads, tails, sizes, prev, next, home) && it != 0 && it !in home && c < LARGEST_ID
    requires next' == next[it := heads[c]]
    requires prev' == if heads[c] == 0 then prev[it := 0] else prev[it := 0][heads[c] := it]
    ensures QueuesOk(q[c := [it] + q[c]], heads[c := it], tails[c := if tails[c] == 0 then it else tails[c]],
                     sizes[c := sizes[c] + 1], prev', next', home[it := c])
  {
    var q', heads', tails', home' := q[c := [it] + q[c]], heads[c := it],
      tails[c := if tails[c] == 0 then it else tails[c]], home[it := c];
    forall d | 0 <= d < LARGEST_ID ensures Dll(prev', next', heads'[d], tails'[d], q'[d]) {
      assert Dll(prev, next, heads[d], tails[d], q[d]);
      if d == c {
        DllPush(prev, next, heads[c], tails[c], q[c], it, prev', next');
      } else {
        assert heads[c] != 0 ==> heads[c] in q[c];
        DllFrame(prev, next, heads[d], tails[d], q[d], prev', next');
      }
    }
    forall d, x {:trigger x in q'[d]} | 0 <= d < LARGEST_ID && x in q'[d] ensures x in home' && home'[x] == d {
      if x != it { assert x in q[d]; }
    }
  }

  lemma CutQueue(q: seq<seq<Ptr>>, heads: seq<Ptr>, tails: seq<Ptr>, sizes: seq<nat>,
                 prev: map<Ptr, Ptr>, next: map<Ptr, Ptr>, home: map<Ptr, nat>, it: Ptr, c: nat, n: nat,
                 prev': map<Ptr, Ptr>, next': map<Ptr, Ptr>)
    requires QueuesOk(q, heads, tails, sizes, prev, next, home)
    requires c < LARGEST_ID && n < |q[c]| && q[c][n] == it
    requires prev' == if Ld(next, it) != 0 then prev[Ld(next, it) := Ld(prev, it)] else prev
    requires next' == if Ld(prev, it) != 0 then next[Ld(prev, it) := Ld(next, it)] else next
    ensures sizes[c] >= 1
    ensures QueuesOk(q[c := Without(q[c], n)], heads[c := if heads[c] == it then Ld(next, it) else heads[c]],
                     tails[c := if tails[c] == it then Ld(prev, it) else tails[c]],
                     sizes[c := sizes[c] - 1], prev', next', home - {it})
  {
    var s := q[c];
    assert Ld(next, s[n]) == After(s, n) && Ld(prev, s[n]) == Prior(s, n);
    var t := Without(s, n);
    var q', heads', tails', home' := q[c := t], heads[c := if heads[c] == it then Ld(next, it) else heads[c]],
      tails[c := if tails[c] == it then Ld(prev, it) else tails[c]], home - {it};
    forall d | 0 <= d < LARGEST_ID ensures Dll(prev', next', heads'[d], tails'[d], q'[d]) {
      assert Dll(prev, next, heads[d], tails[d], q[d]);
      if d == c {
        DllCut(prev, next, heads[c], tails[c], s, n, prev', next');
      } else {
        assert After(s, n) != 0 ==> After(s, n) in q[c];
        assert Prior(s, n) != 0 ==> Prior(s, n) in q[c];
        DllFrame(prev, next, heads[d], tails[d], q[d], prev', next');
      }
    }
    CutMembers(s, n);
    assert it in q[c];
    forall d, x {:trigger x in q'[d]} | 0 <= d < LARGEST_ID && x in q'[d] ensures x in home' && home'[x] == d {
      assert x in q[d];
    }
  }

  lemma CutMembers(s: seq<Ptr>, n: nat)
    requires n < |s| && NoDup(s)
    ensures forall x :: x in Without(s, n) <==> x in s && x != s[n]
  {
    var t := Without(s, n);
    forall x | x in t ensures x in s && x != s[n] {
      var i :| 0 <= i < |t| && t[i] == x;
      assert s[if i < n then i else i + 1] == x;
    }
    forall x | x in s && x != s[n] ensures x in t {
      var i :| 0 <= i < |s| && s[i] == x;
      assert t[if i < n then i else i - 1] == x;
    }
  }

  // ---------------------------------------------------------------- items.c

  class Lru {
    var heads: seq<Ptr>
    var tails: seq<Ptr>
    var sizes: seq<nat>
    var prev: map<Ptr, Ptr>
    var next: map<Ptr, Ptr>
    ghost var q: seq<seq<Ptr>>       // each queue, newest first
    ghost var home: map<Ptr, nat>    // the queue of each queued item

    ghost predicate Valid()
      reads this
    {
      QueuesOk(q, heads, tails, sizes, prev, next, home)
    }

    constructor ()
      ensures Valid() && home == map[] && forall c :: 0 <= c < LARGEST_ID ==> q[c] == []
    {
      heads := seq(LARGEST_ID, i => 0);
      tails := seq(LARGEST_ID, i => 0);
      sizes := seq(LARGEST_ID, i => 0);
      prev, next, home := map[], map[], map[];
      q := seq(LARGEST_ID, i => []);
    }

    /** item_link_q */
    method LinkQ(it: Ptr, c: nat)
      requires Valid() && it != 0 && it !in home && c < LARGEST_ID
      modifies this
      ensures Valid() && |old(q)| == LARGEST_ID && q == old(q)[c := [it] + old(q)[c]] && home == old(home)[it := c]
    {
      hide QueuesOk;
      QueueShape(q, heads, tails, sizes, prev, next, home, c);
      ghost var prev0, next0, heads0, tails0, sizes0 := prev, next, heads, tails, sizes;
      prev := prev[it := 0];
      next := next[it := heads[c]];
      if heads[c] != 0 {
        prev := prev[heads[c] := it];
      }
      heads := heads[c := it];
      if tails[c] == 0 {
        tails := tails[c := it];
      }
      sizes := sizes[c := sizes[c] + 1];
      PushQueue(q, heads0, tails0, sizes0, prev0, next0, home, it, c, prev, next);
      assert tails == tails0[c := if tails0[c] == 0 then it else tails0[c]];
      q, home := q[c := [it] + q[c]], home[it := c];
    }

    /** do_item_alloc's initialisation of the links of an item in no queue */
    method Reset(it: Ptr)
      requires Valid() && it !in home
      modifies this`prev, this`next
      ensures Valid() && next == old(next)[it := 0] && prev == old(prev)[it := 0]
    {
      hide QueuesOk;
      ResetQueues(q, heads, tails, sizes, prev, next, home, it);
      next, prev := next[it := 0], prev[it := 0];
    }

    /** item_unlink_q */
    method UnlinkQ(it: Ptr, c: nat) returns (ghost n: nat)
      requires Valid() && it in home && home[it] == c
      modifies this
      ensures Valid() && c < LARGEST_ID == |old(q)| && n < |old(q)[c]| && old(q)[c][n] == it
      ensures q == old(q)[c := Without(old(q)[c], n)] && home == old(home) - {it}
    {
      hide QueuesOk;
      n := PositionOf(q, heads, tails, sizes, prev, next, home, it);
      ghost var prev0, next0, heads0, tails0, sizes0 := prev, next, heads, tails, sizes;
      if heads[c] == it {
        heads := heads[c := Ld(next, it)];
      }
      if tails[c] == it {
        tails := tails[c := Ld(prev, it)];
      }
      var after, before := Ld(next, it), Ld(prev, it);
      if after != 0 {
        prev := prev[after := before];
      }
      if before != 0 {
        next := next[before := after];
      }
      sizes := sizes[c := sizes[c] - 1];
      CutQueue(q, heads0, tails0, sizes0, prev0, next0, home, it, c, n, prev, next);
      assert heads == heads0[c := if heads0[c] == it then Ld(next0, it) else heads0[c]];
      assert tails == tails0[c := if tails0[c] == it then Ld(prev0, it) else tails0[c]];
      q, home := q[c := Without(q[c], n)], home - {it};
    }
  }

  lemma QueueShape(q: seq<seq<Ptr>>, heads: seq<Ptr>, tails: seq<Ptr>, sizes: seq<nat>,
                   prev: map<Ptr, Ptr>, next: map<Ptr, Ptr>, home: map<Ptr, nat>, c: nat)
    requires QueuesOk(q, heads, tails, sizes, prev, next, home) && c < LARGEST_ID
    ensures |q| == LARGEST_ID && |heads| == LARGEST_ID && |tails| == LARGEST_ID && |sizes| == LARGEST_ID
    ensures Dll(prev, next, heads[c], tails[c], q[c]) && sizes[c] == |q[c]|
  {
    assert q[c] == q[c];
  }

  lemma ResetQueues(q: seq<seq<Ptr>>, heads: seq<Ptr>, tails: seq<Ptr>, sizes: seq<nat>,
                    prev: map<Ptr, Ptr>, next: map<Ptr, Ptr>, home: map<Ptr, nat>, it: Ptr)
    requires QueuesOk(q, heads, tails, sizes, prev, next, home) && it !in home
    ensures QueuesOk(q, heads, tails, sizes, prev[it := 0], next[it := 0], home)
  {
    forall c | 0 <= c < LARGEST_ID ensures Dll(prev[it := 0], next[it := 0], heads[c], tails[c], q[c]) {
      assert it !in q[c];
      DllFrame(prev, next, heads[c], tails[c], q[c], prev[it := 0], next[it := 0]);
    }
  }

  /** Where in its queue an item is. */
  lemma PositionOf(q: seq<seq<Ptr>>, heads: seq<Ptr>, tails: seq<Ptr>, sizes: seq<nat>,
                   prev: map<Ptr, Ptr>, next: map<Ptr, Ptr>, home: map<Ptr, nat>, it: Ptr) returns (n: nat)
    requires QueuesOk(q, heads, tails, sizes, prev, next, home) && it in home
    ensures |q| == LARGEST_ID && |heads| == LARGEST_ID && |tails| == LARGEST_ID && |sizes| == LARGEST_ID
    ensures home[it] < LARGEST_ID && n < |q[home[it]]| && q[home[it]][n] == it && sizes[home[it]] > 0
  {
    var c := home[it];
    assert it in q[c];
    n :| 0 <= n < |q[c]| && q[c][n] == it;
  }
}
