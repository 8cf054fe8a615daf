/** memcached-1.4.5: what decides whether do_item_get returns an item, and how operations carry it on. */
module Hiding {
  import opened Assoc
  import opened ItemState

  /** The index, the linked items, those of them that the last flush hides, and the time. */
  datatype Sight = Sight(index: map<Key, Ptr>, linked: set<Ptr>, doomed: set<Ptr>, now: nat)

  ghost predicate SightOk(a: Sight, key: map<Ptr, Key>)
  {
    a.doomed <= a.linked && IndexLinked(a.index, key, a.linked)
  }

  /** What is hidden stays hidden while it stays linked. The items linked meanwhile, `born`, are not hidden. */
  ghost predicate Carries(a: Sight, b: Sight, born: set<Ptr>)
  {
    b.linked <= a.linked + born && b.doomed == a.doomed * b.linked - born && b.now == a.now
  }

  /** Besides, no key but `k` got another item. */
  ghost predicate Follows(a: Sight, b: Sight, k: Key, born: set<Ptr>)
  {
    && Carries(a, b, born)
    && forall x {:trigger x in b.index} {:trigger b.index[x]} :: x in b.index && x != k ==>
         x in a.index && b.index[x] == a.index[x]
  }

  /** Every entry left under another key is hidden if and only if it was. */
  ghost predicate OthersAsBefore(a: Sight, b: Sight, k: Key)
  {
    forall x {:trigger x in b.index} {:trigger b.index[x]} :: x in b.index && x != k ==>
      x in a.index && b.index[x] == a.index[x] && (b.index[x] in b.doomed <==> a.index[x] in a.doomed)
  }

  /** The items under a key that had another item before, or none. */
  ghost function Newly(index: map<Key, Ptr>, index': map<Key, Ptr>): set<Ptr>
  {
    set k | k in index' && !(k in index && index[k] == index'[k]) :: index'[k]
  }

  lemma FollowsTrans(a: Sight, b: Sight, c: Sight, k: Key, born: set<Ptr>)
    requires Follows(a, b, k, {}) && Follows(b, c, k, born)
    ensures Follows(a, c, k, born)
  {
  }

  lemma Same(a: Sight, b: Sight, k: Key)
    requires a.doomed <= a.linked && b == a
    ensures Follows(a, b, k, {})
  {
  }

  /** do_item_unlink */
  lemma Leaves(a: Sight, b: Sight, k: Key, x: Ptr, lost: set<Key>)
    requires a.doomed <= a.linked && b == Sight(a.index - lost, a.linked - {x}, a.doomed - {x}, a.now)
    ensures Follows(a, b, k, {})
  {
  }

  /** do_item_link */
  lemma Comes(a: Sight, b: Sight, k: Key, x: Ptr)
    requires a.doomed <= a.linked && x !in a.doomed
    requires b == Sight(a.index[k := x], a.linked + {x}, a.doomed, a.now)
    ensures Follows(a, b, k, {x})
  {
  }

  lemma Undisturbed(a: Sight, key: map<Ptr, Key>, b: Sight, key': map<Ptr, Key>, k: Key, born: set<Ptr>)
    requires SightOk(a, key) && SightOk(b, key') && Follows(a, b, k, born)
    requires forall x :: x in born ==> k in b.index && x == b.index[k]
    ensures OthersAsBefore(a, b, k)
  {
    assert k in b.index ==> key'[b.index[k]] == k;
    forall x | x in b.index && x != k ensures b.index[x] in b.doomed <==> a.index[x] in a.doomed {
      assert b.index[x] in b.linked && key'[b.index[x]] == x;
    }
  }

  /** Only `k` can have got another item. */
  lemma NewlyAt(a: Sight, b: Sight, k: Key, born: set<Ptr>)
    requires Follows(a, b, k, born)
    ensures Newly(a.index, b.index) ==
            if k in b.index && !(k in a.index && a.index[k] == b.index[k]) then {b.index[k]} else {}
  {
  }
}
