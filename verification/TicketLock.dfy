/** micro/spinlock.h and its client micro/lock.c: a ticket lock packed into one word, whose low byte is the
    ticket being served and whose next byte is the next ticket. Every memory access is one step of one thread. */
module TicketLock {

  // ---------------------------------------------------------------- the program

  /** Pointers of micro/list.h: the list head, thread i's entry, and the poison values. */
  datatype Node = Head | Link(i: nat) | Poison1 | Poison2

  /** Where a thread is: outside, spinning with its ticket and the owner it saw last, at step `k` of the
      critical section with its registers, or between the load and the store of the unlocking increment. */
  datatype Pc = Idle | Spin(ticket: nat, seen: nat) | Crit(k: nat, e: Node, p: Node, n: Node) | Loaded(v: nat)

  datatype State = State(owner: nat, next: nat, pc: seq<Pc>, lnext: map<Node, Node>, lprev: map<Node, Node>)

  function At(m: map<Node, Node>, x: Node): Node { if x in m then m[x] else Poison1 }

  function Init(n: nat): State
  {
    State(0, 0, seq(n, i => Idle), map[Head := Link(0), Link(0) := Head], map[Head := Link(0), Link(0) := Head])
  }

  /** The next step of thread `t`. */
  function Exec(s: State, t: nat): State
    requires t < |s.pc|
  {
    match s.pc[t]
    case Idle =>
      // xaddw: take a ticket and see the owner, at once
      s.(next := (s.next + 1) % 256, pc := s.pc[t := Spin(s.next, s.owner)])
    case Spin(ticket, seen) =>
      if ticket == seen then s.(pc := s.pc[t := Crit(0, Head, Head, Head)])
      else s.(pc := s.pc[t := Spin(ticket, s.owner)])
    case Crit(k, e, p, n) => Work(s, t, k, e, p, n)
    case Loaded(v) => s.(owner := (v + 1) % 256, pc := s.pc[t := Idle])
  }

  /** list_del(the_list.next); list_add(&the_linky[t].link, &the_list); then the load of the unlocking increment */
  function Work(s: State, t: nat, k: nat, e: Node, p: Node, n: Node): State
    requires t < |s.pc|
  {
    match k
    case 0 => s.(pc := s.pc[t := Crit(1, At(s.lnext, Head), p, n)])
    case 1 => s.(pc := s.pc[t := Crit(2, e, At(s.lprev, e), n)])
    case 2 => s.(pc := s.pc[t := Crit(3, e, p, At(s.lnext, e))])
    case 3 => s.(lprev := s.lprev[n := p], pc := s.pc[t := Crit(4, e, p, n)])
    case 4 => s.(lnext := s.lnext[p := n], pc := s.pc[t := Crit(5, e, p, n)])
    case 5 => s.(lnext := s.lnext[e := Poison1], pc := s.pc[t := Crit(6, e, p, n)])
    case 6 => s.(lprev := s.lprev[e := Poison2], pc := s.pc[t := Crit(7, e, p, n)])
    case 7 => s.(pc := s.pc[t := Crit(8, e, p, At(s.lnext, Head))])
    case 8 => s.(lprev := s.lprev[n := Link(t)], pc := s.pc[t := Crit(9, e, p, n)])
    case 9 => s.(lnext := s.lnext[Link(t) := n], pc := s.pc[t := Crit(10, e, p, n)])
    case 10 => s.(lprev := s.lprev[Link(t) := Head], pc := s.pc[t := Crit(11, e, p, n)])
    case 11 => s.(lnext := s.lnext[Head := Link(t)], pc := s.pc[t := Crit(12, e, p, n)])
    case _ => s.(pc := s.pc[t := Loaded(s.owner)])
  }

  predicate Schedule(n: nat, sched: seq<nat>) { forall i :: 0 <= i < |sched| ==> sched[i] < n }

  /** The state after the threads took their steps in the order `sched`. */
  function After(n: nat, sched: seq<nat>): (s: State)
    requires Schedule(n, sched)
    ensures |s.pc| == n
  {
    if sched == [] then Init(n) else Exec(After(n, sched[..|sched| - 1]), sched[|sched| - 1])
  }

  predicate Inside(pc: Pc) { pc.Crit? || pc.Loaded? }

  /** At most one thread is between lock and unlock. */
  predicate Exclusive(s: State)
  {
    forall t, u :: 0 <= t < |s.pc| && 0 <= u < |s.pc| && Inside(s.pc[t]) && Inside(s.pc[u]) ==> t == u
  }

  // ---------------------------------------------------------------- history

  /** Who took a ticket and who entered, in order; how often the lock was released; for each thread its
      ticket and the count of releases it saw last, without wrap-around. */
  datatype History = History(takers: seq<nat>, entered: seq<nat>, released: nat, full: seq<nat>, read: seq<nat>)

  function Record(s: State, h: History, t: nat): History
    requires t < |s.pc| == |h.full| == |h.read|
  {
    match s.pc[t]
    case Idle => h.(takers := h.takers + [t], full := h.full[t := |h.takers|], read := h.read[t := h.released])
    case Spin(ticket, seen) =>
      if ticket == seen then h.(entered := h.entered + [t]) else h.(read := h.read[t := h.released])
    case Crit(k, e, p, n) => h
    case Loaded(v) => h.(released := h.released + 1)
  }

  function HistoryOf(n: nat, sched: seq<nat>): (h: History)
    requires Schedule(n, sched)
    ensures |h.full| == |h.read| == n
  {
    if sched == [] then History([], [], 0, seq(n, i => 0), seq(n, i => 0))
    else
      var before := sched[..|sched| - 1];
      Record(After(n, before), HistoryOf(n, before), sched[|sched| - 1])
  }

  // ---------------------------------------------------------------- the invariant of the lock

  ghost predicate Counters(s: State, h: History)
  {
    s.next == |h.takers| % 256 && s.owner == h.released % 256 && h.released <= |h.takers|
  }

  /** A thread outside Idle holds a pending ticket. */
  ghost predicate Holds(s: State, h: History, t: nat)
    requires t < |s.pc| == |h.full|
  {
    s.pc[t] != Idle ==> h.released <= h.full[t] < |h.takers| && h.takers[h.full[t]] == t
  }

  /** A pending ticket is held by the thread that took it. */
  ghost predicate Pending(s: State, h: History, g: nat)
    requires g < |h.takers| && |s.pc| == |h.full|
  {
    h.takers[g] < |s.pc| && s.pc[h.takers[g]] != Idle && h.full[h.takers[g]] == g
  }

  /** What a spinning thread compares are its ticket and an owner at most 255 tickets back. */
  ghost predicate Reads(s: State, h: History, t: nat)
    requires t < |s.pc| == |h.full| == |h.read|
  {
    s.pc[t].Spin? ==>
      && s.pc[t].ticket == h.full[t] % 256 && s.pc[t].seen == h.read[t] % 256
      && h.read[t] <= h.released && h.full[t] < h.read[t] + 256
  }

  /** Whoever is inside has the ticket being served. */
  ghost predicate Serves(s: State, h: History, t: nat)
    requires t < |s.pc| == |h.full|
  {
    && (Inside(s.pc[t]) ==> h.full[t] == h.released && |h.entered| == h.released + 1)
    && (s.pc[t].Loaded? ==> s.pc[t].v == s.owner)
  }

  /** Threads entered in the order of their tickets. */
  ghost predicate Fifo(h: History)
  {
    && |h.entered| <= |h.takers| && h.entered == h.takers[..|h.entered|]
    && h.released <= |h.entered| <= h.released + 1
  }

  /** If someone has entered and not left, it is inside. */
  ghost predicate Occupied(s: State, h: History)
    requires |s.pc| == |h.full|
  {
    |h.entered| == h.released + 1 ==>
      h.released < |h.takers| && h.takers[h.released] < |s.pc| && Inside(s.pc[h.takers[h.released]])
  }

  ghost predicate Inv(s: State, h: History)
  {
    && |s.pc| == |h.full| == |h.read|
    && Counters(s, h) && Fifo(h) && Occupied(s, h)
    && (forall t {:trigger Holds(s, h, t)} :: 0 <= t < |s.pc| ==> Holds(s, h, t))
    && (forall g {:trigger Pending(s, h, g)} :: h.released <= g < |h.takers| ==> Pending(s, h, g))
    && (forall t {:trigger Reads(s, h, t)} :: 0 <= t < |s.pc| ==> Reads(s, h, t))
    && (forall t {:trigger Serves(s, h, t)} :: 0 <= t < |s.pc| ==> Serves(s, h, t))
  }

  // ---------------------------------------------------------------- how many tickets are pending

  lemma Pigeonhole(xs: seq<nat>, n: nat)
    requires forall i :: 0 <= i < |xs| ==> xs[i] < n
    requires forall i, j :: 0 <= i < j < |xs| ==> xs[i] != xs[j]
    ensures |xs| <= n
  {
    Upto(n);
    Distinct(xs);
    forall x | x in Elems(xs) ensures x in Below(n) { ElemsAre(xs, x); }
    SubsetSize(Elems(xs), Below(n));
  }

  ghost function Below(n: nat): set<nat> { if n == 0 then {} else Below(n - 1) + {n - 1} }

  lemma {:induction false} Upto(n: nat)
    ensures |Below(n)| == n && forall i: nat :: i in Below(n) <==> i < n
  {
    if n > 0 {
      Upto(n - 1);
      assert n - 1 !in Below(n - 1);
    }
  }

  ghost function Elems(xs: seq<nat>): set<nat> { if xs == [] then {} else Elems(xs[..|xs| - 1]) + {xs[|xs| - 1]} }

  lemma {:induction false} ElemsAre(xs: seq<nat>, x: nat)
    ensures x in Elems(xs) <==> x in xs
  {
    if xs != [] {
      ElemsAre(xs[..|xs| - 1], x);
      assert xs == xs[..|xs| - 1] + [xs[|xs| - 1]];
    }
  }

  lemma {:induction false} Distinct(xs: seq<nat>)
    requires forall i, j :: 0 <= i < j < |xs| ==> xs[i] != xs[j]
    ensures |Elems(xs)| == |xs|
  {
    if xs != [] {
      var l := |xs| - 1;
      Distinct(xs[..l]);
      ElemsAre(xs[..l], xs[l]);
    }
  }

  lemma {:induction false} SubsetSize(a: set<nat>, b: set<nat>)
    requires a <= b
    ensures |a| <= |b|
  {
    if a != {} {
      var x :| x in a;
      SubsetSize(a - {x}, b - {x});
    }
  }

  /** No more tickets are pending than there are threads. */
  lemma PendingBound(s: State, h: History)
    requires Inv(s, h)
    ensures |h.takers| - h.released <= |s.pc|
  {
    hide Holds, Reads, Serves, Fifo, Occupied;
    var xs := h.takers[h.released..];
    forall i, j | 0 <= i < j < |xs| ensures xs[i] != xs[j] {
      assert Pending(s, h, h.released + i) && Pending(s, h, h.released + j);
    }
    forall i | 0 <= i < |xs| ensures xs[i] < |s.pc| { assert Pending(s, h, h.released + i); }
    Pigeonhole(xs, |s.pc|);
  }

  /** While some thread is idle, fewer. */
  lemma PendingBoundIdle(s: State, h: History, t: nat)
    requires Inv(s, h) && t < |s.pc| && s.pc[t] == Idle
    ensures |h.takers| - h.released < |s.pc|
  {
    hide Holds, Reads, Serves, Fifo, Occupied;
    var xs := h.takers[h.released..] + [t];
    forall i, j | 0 <= i < j < |xs| ensures xs[i] != xs[j] {
      assert Pending(s, h, h.released + i);
      if j < |xs| - 1 { assert Pending(s, h, h.released + j); }
    }
    forall i | 0 <= i < |xs| ensures xs[i] < |s.pc| {
      if i < |xs| - 1 { assert Pending(s, h, h.released + i); }
    }
    Pigeonhole(xs, |s.pc|);
  }

  // ---------------------------------------------------------------- every step keeps it

  lemma InitInv(n: nat)
    ensures Inv(Init(n), History([], [], 0, seq(n, i => 0), seq(n, i => 0)))
  {
  }

  /** Bytes wrap around. */
  lemma ByteStep(x: nat)
    ensures (x % 256 + 1) % 256 == (x + 1) % 256
  {
  }

  lemma TakeThread(s: State, h: History, t: nat, u: nat)
    requires Inv(s, h) && t < |s.pc| && u < |s.pc| && s.pc[t] == Idle && |h.takers| < h.released + 256
    ensures Holds(Exec(s, t), Record(s, h, t), u) && Reads(Exec(s, t), Record(s, h, t), u)
    ensures Serves(Exec(s, t), Record(s, h, t), u)
  {
    hide Work, Fifo, Occupied, Pending;
    assert Holds(s, h, u) && Reads(s, h, u) && Serves(s, h, u);
  }

  lemma TakeRest(s: State, h: History, t: nat)
    requires Inv(s, h) && t < |s.pc| && s.pc[t] == Idle
    ensures Counters(Exec(s, t), Record(s, h, t)) && Fifo(Record(s, h, t)) && Occupied(Exec(s, t), Record(s, h, t))
  {
    hide Work, Holds, Reads, Serves, Pending;
    ByteStep(|h.takers|);
    assert Record(s, h, t).takers[..|h.entered|] == h.takers[..|h.entered|];
  }

  lemma TakeInv(s: State, h: History, t: nat)
    requires Inv(s, h) && t < |s.pc| <= 256 && s.pc[t] == Idle
    ensures Inv(Exec(s, t), Record(s, h, t))
  {
    PendingBoundIdle(s, h, t);
    TakeRest(s, h, t);
    hide Work, Holds, Reads, Serves, Counters, Fifo, Occupied;
    var s', h' := Exec(s, t), Record(s, h, t);
    forall u | 0 <= u < |s.pc|
      ensures Holds(s', h', u) && Reads(s', h', u) && Serves(s', h', u)
    {
      TakeThread(s, h, t, u);
    }
    forall g | h'.released <= g < |h'.takers| ensures Pending(s', h', g) {
      if g < |h.takers| { assert Pending(s, h, g); }
    }
  }

  /** The comparison succeeds exactly when the thread's ticket is being served. */
  lemma Equal(full: nat, read: nat, released: nat)
    requires read <= released <= full < read + 256
    ensures full % 256 == read % 256 <==> full == read
    ensures full % 256 == read % 256 ==> full == released
  {
  }

  lemma EnterInv(s: State, h: History, t: nat)
    requires Inv(s, h) && t < |s.pc| && s.pc[t].Spin? && s.pc[t].ticket == s.pc[t].seen
    ensures Inv(Exec(s, t), Record(s, h, t))
  {
    hide Work;
    assert Holds(s, h, t) && Reads(s, h, t);
    Equal(h.full[t], h.read[t], h.released);
    var s', h' := Exec(s, t), Record(s, h, t);
    assert Pending(s, h, h.released);
    forall u | 0 <= u < |s.pc| ensures Holds(s', h', u) && Reads(s', h', u) && Serves(s', h', u) {
      assert Holds(s, h, u) && Reads(s, h, u) && Serves(s, h, u);
    }
    forall g | h'.released <= g < |h'.takers| ensures Pending(s', h', g) { assert Pending(s, h, g); }
  }

  lemma ReloadInv(s: State, h: History, t: nat)
    requires Inv(s, h) && t < |s.pc| <= 256 && s.pc[t].Spin? && s.pc[t].ticket != s.pc[t].seen
    ensures Inv(Exec(s, t), Record(s, h, t))
  {
    hide Work;
    PendingBound(s, h);
    var s', h' := Exec(s, t), Record(s, h, t);
    forall u | 0 <= u < |s.pc| ensures Holds(s', h', u) && Reads(s', h', u) && Serves(s', h', u) {
      assert Holds(s, h, u) && Reads(s, h, u) && Serves(s, h, u);
    }
    forall g | h'.released <= g < |h'.takers| ensures Pending(s', h', g) { assert Pending(s, h, g); }
  }

  lemma WorkInv(s: State, h: History, t: nat)
    requires Inv(s, h) && t < |s.pc| && s.pc[t].Crit?
    ensures Inv(Exec(s, t), Record(s, h, t))
  {
    var s', h' := Exec(s, t), Record(s, h, t);
    var pc := s.pc[t];
    WorkMoves(s, t, pc.k, pc.e, pc.p, pc.n);
    hide Work;
    forall u | 0 <= u < |s.pc| ensures Holds(s', h', u) && Reads(s', h', u) && Serves(s', h', u) {
      assert Holds(s, h, u) && Reads(s, h, u) && Serves(s, h, u);
    }
    forall g | h'.released <= g < |h'.takers| ensures Pending(s', h', g) { assert Pending(s, h, g); }
  }

  /** Work touches only the list and the thread's own registers. */
  lemma WorkMoves(s: State, t: nat, k: nat, e: Node, p: Node, n: Node)
    requires t < |s.pc|
    ensures var s' := Work(s, t, k, e, p, n);
      && s'.owner == s.owner && s'.next == s.next && |s'.pc| == |s.pc| && s'.pc == s.pc[t := s'.pc[t]]
      && Inside(s'.pc[t]) && (s'.pc[t].Loaded? ==> s'.pc[t].v == s.owner)
  {
  }

  lemma ReleaseThread(s: State, h: History, t: nat, u: nat)
    requires Inv(s, h) && t < |s.pc| && u < |s.pc| && s.pc[t].Loaded?
    ensures Holds(Exec(s, t), Record(s, h, t), u) && Reads(Exec(s, t), Record(s, h, t), u)
    ensures Serves(Exec(s, t), Record(s, h, t), u)
  {
    hide Work, Fifo, Occupied, Pending, Counters;
    assert Holds(s, h, t) && Serves(s, h, t);
    assert Holds(s, h, u) && Reads(s, h, u) && Serves(s, h, u);
  }

  lemma ReleaseRest(s: State, h: History, t: nat)
    requires Inv(s, h) && t < |s.pc| && s.pc[t].Loaded?
    ensures Counters(Exec(s, t), Record(s, h, t)) && Fifo(Record(s, h, t)) && Occupied(Exec(s, t), Record(s, h, t))
  {
    hide Work, Reads, Pending;
    assert Holds(s, h, t) && Serves(s, h, t);
    ByteStep(h.released);
  }

  lemma ReleaseInv(s: State, h: History, t: nat)
    requires Inv(s, h) && t < |s.pc| && s.pc[t].Loaded?
    ensures Inv(Exec(s, t), Record(s, h, t))
  {
    ReleaseRest(s, h, t);
    assert Holds(s, h, t) && Serves(s, h, t);
    hide Work, Reads, Counters, Fifo, Occupied;
    var s', h' := Exec(s, t), Record(s, h, t);
    forall u | 0 <= u < |s.pc|
      ensures Holds(s', h', u) && Reads(s', h', u) && Serves(s', h', u)
    {
      ReleaseThread(s, h, t, u);
    }
    forall g | h'.released <= g < |h'.takers| ensures Pending(s', h', g) { assert Pending(s, h, g); }
  }

  lemma ExecInv(s: State, h: History, t: nat)
    requires Inv(s, h) && t < |s.pc| <= 256
    ensures Inv(Exec(s, t), Record(s, h, t))
  {
    hide Inv, Exec, Record;
    match s.pc[t]
    case Idle => TakeInv(s, h, t);
    case Spin(ticket, seen) => if ticket == seen { EnterInv(s, h, t); } else { ReloadInv(s, h, t); }
    case Crit(_, _, _, _) => WorkInv(s, h, t);
    case Loaded(_) => ReleaseInv(s, h, t);
  }

  lemma {:induction false} Reachable(n: nat, sched: seq<nat>)
    requires n <= 256 && Schedule(n, sched)
    ensures Inv(After(n, sched), HistoryOf(n, sched))
  {
    hide Inv, Exec, Record;
    if sched == [] {
      InitInv(n);
    } else {
      Reachable(n, sched[..|sched| - 1]);
      ExecInv(After(n, sched[..|sched| - 1]), HistoryOf(n, sched[..|sched| - 1]), sched[|sched| - 1]);
    }
  }

  // ---------------------------------------------------------------- exclusion, exactly up to 256 threads

  lemma InvExcludes(s: State, h: History)
    requires Inv(s, h)
    ensures Exclusive(s)
  {
    forall t, u | 0 <= t < |s.pc| && 0 <= u < |s.pc| && Inside(s.pc[t]) && Inside(s.pc[u]) ensures t == u {
      assert Holds(s, h, t) && Serves(s, h, t) && Holds(s, h, u) && Serves(s, h, u);
    }
  }

  /** After any steps of at most 256 threads, at most one is in the critical section. */
  lemma MutualExclusion(n: nat, sched: seq<nat>)
    requires n <= 256 && Schedule(n, sched)
    ensures Exclusive(After(n, sched))
  {
    Reachable(n, sched);
    InvExcludes(After(n, sched), HistoryOf(n, sched));
  }

  /** They enter in the order in which they took their tickets, one after each release. */
  lemma FirstComeFirstServed(n: nat, sched: seq<nat>)
    requires n <= 256 && Schedule(n, sched)
    ensures var h := HistoryOf(n, sched);
      h.entered <= h.takers && h.released <= |h.entered| <= h.released + 1
  {
    Reachable(n, sched);
    assert Fifo(HistoryOf(n, sched));
  }

  function FirstThreads(k: nat): (s: seq<nat>)
    ensures |s| == k && forall i :: 0 <= i < k ==> s[i] == i
  {
    seq(k, i => i)
  }

  /** All of the first `k` threads have taken a ticket and seen owner 0. */
  ghost predicate Taken(s: State, k: nat)
  {
    && s.owner == 0 && s.next == k % 256 && k <= |s.pc|
    && (forall i :: 0 <= i < k ==> s.pc[i] == Spin(i % 256, 0))
    && (forall i :: k <= i < |s.pc| ==> s.pc[i] == Idle)
  }

  lemma TakeOne(s: State, k: nat)
    requires Taken(s, k) && k < |s.pc|
    ensures Taken(Exec(s, k), k + 1)
  {
    hide Work;
    assert s.pc[k] == Idle;
  }

  lemma {:induction false} TakeAll(n: nat, k: nat)
    requires k <= n
    ensures Taken(After(n, FirstThreads(k)), k)
  {
    hide Exec, Taken;
    if k == 0 {
      NoneTaken(n);
    } else {
      TakeAll(n, k - 1);
      assert FirstThreads(k)[..k - 1] == FirstThreads(k - 1);
      TakeOne(After(n, FirstThreads(k - 1)), k - 1);
    }
  }

  lemma NoneTaken(n: nat)
    ensures Taken(Init(n), 0)
  {
  }

  /** With 257 threads two tickets are equal, and both of their holders get in. */
  lemma TooManyThreads(n: nat)
    requires n > 256
    ensures Schedule(n, FirstThreads(257) + [0] + [256]) && !Exclusive(After(n, FirstThreads(257) + [0] + [256]))
  {
    hide Work;
    TakeAll(n, 257);
    var a := FirstThreads(257);
    var b := a + [0];
    var c := b + [256];
    assert b[..257] == a && c[..258] == b;
    var s0 := After(n, a);
    var s1 := Exec(s0, 0);
    var s2 := Exec(s1, 256);
    assert After(n, b) == s1;
    assert After(n, c) == s2;
    assert s0.pc[0] == Spin(0, 0) && s0.pc[256] == Spin(0, 0);
    assert Inside(s2.pc[0]) && Inside(s2.pc[256]);
  }

  /** The lock excludes in every run if and only if there are at most 256 threads. */
  lemma ExclusionIff(n: nat)
    ensures (forall sched :: Schedule(n, sched) ==> Exclusive(After(n, sched))) <==> n <= 256
  {
    if n <= 256 {
      forall sched | Schedule(n, sched) ensures Exclusive(After(n, sched)) { MutualExclusion(n, sched); }
    } else {
      TooManyThreads(n);
    }
  }

  // ---------------------------------------------------------------- the client's list

  /** Entry `i` has never been in the list, or both of its pointers are poisoned. */
  predicate Out(s: State, i: nat)
  {
    || (Link(i) !in s.lnext && Link(i) !in s.lprev)
    || (Link(i) in s.lnext && s.lnext[Link(i)] == Poison1 && Link(i) in s.lprev && s.lprev[Link(i)] == Poison2)
  }

  /** No entry but `x` is in the list. */
  ghost predicate OthersOut(s: State, x: Node) { forall i :: Link(i) != x ==> Out(s, i) }

  /** The list is just thread j's entry. */
  ghost predicate Single(s: State, j: nat)
  {
    && At(s.lnext, Head) == Link(j) && At(s.lnext, Link(j)) == Head
    && At(s.lprev, Head) == Link(j) && At(s.lprev, Link(j)) == Head && OthersOut(s, Link(j))
  }

  /** What list_del has done to the entry it removed, before step `k`. */
  predicate Poisoned(s: State, e: Node, k: nat)
  {
    (k > 5 ==> e in s.lnext && s.lnext[e] == Poison1) && (k > 6 ==> e in s.lprev && s.lprev[e] == Poison2)
  }

  predicate Empty(s: State) { At(s.lnext, Head) == Head && At(s.lprev, Head) == Head }

  /** What the list looks like at each point of the critical section. */
  ghost predicate ListAt(s: State, t: nat, pc: Pc)
  {
    match pc
    case Crit(k, e, p, n) =>
      if k == 0 then exists j :: Single(s, j)
      else if k <= 3 then e.Link? && Single(s, e.i) && (k >= 2 ==> p == Head) && (k == 3 ==> n == Head)
      else if k == 4 then
        && e.Link? && At(s.lnext, Head) == e && At(s.lprev, Head) == Head && p == Head && n == Head
        && OthersOut(s, e)
      else if k <= 7 then e.Link? && Empty(s) && OthersOut(s, e) && Poisoned(s, e, k)
      else if k == 8 then n == Head && Empty(s) && OthersOut(s, Head)
      else if k <= 11 then
        && n == Head && At(s.lnext, Head) == Head && At(s.lprev, Head) == Link(t) && OthersOut(s, Link(t))
        && (k >= 10 ==> At(s.lnext, Link(t)) == Head) && (k == 11 ==> At(s.lprev, Link(t)) == Head)
      else Single(s, t)
    case Loaded(v) => Single(s, t)
    case _ => true
  }

  ghost predicate ListOk(s: State)
  {
    && (forall t {:trigger s.pc[t]} :: 0 <= t < |s.pc| && Inside(s.pc[t]) ==> ListAt(s, t, s.pc[t]))
    && ((forall t :: 0 <= t < |s.pc| ==> !Inside(s.pc[t])) ==> exists j :: Single(s, j))
  }

  lemma WorkList(s: State, t: nat)
    requires t < |s.pc| && s.pc[t].Crit? && ListAt(s, t, s.pc[t])
    ensures ListAt(Exec(s, t), t, Exec(s, t).pc[t])
  {
  }

  lemma ExecList(s: State, t: nat)
    requires t < |s.pc| && ListOk(s) && Exclusive(s) && Exclusive(Exec(s, t))
    ensures ListOk(Exec(s, t))
  {
    var s' := Exec(s, t);
    match s.pc[t]
    case Crit(k, e, p, n) =>
      WorkList(s, t);
      WorkMoves(s, t, k, e, p, n);
      hide Work, ListAt;
      assert Inside(s'.pc[t]);
    case Loaded(v) =>
      assert Single(s, t) && Single(s', t);
    case Idle =>
      SameList(s, s', t);
    case Spin(ticket, seen) =>
      if ticket == seen {
        assert Inside(s'.pc[t]);
        forall u | 0 <= u < |s.pc| ensures !Inside(s.pc[u]) {
          if u != t { assert s'.pc[u] == s.pc[u]; }
        }
        var j :| Single(s, j);
        assert Single(s', j);
      } else {
        SameList(s, s', t);
      }
  }

  lemma SameList(s: State, s': State, t: nat)
    requires t < |s.pc| == |s'.pc| && ListOk(s) && s'.pc == s.pc[t := s'.pc[t]]
    requires s'.lnext == s.lnext && s'.lprev == s.lprev
    requires !Inside(s.pc[t]) && !Inside(s'.pc[t])
    ensures ListOk(s')
  {
    forall u | 0 <= u < |s'.pc| && Inside(s'.pc[u]) ensures ListAt(s', u, s'.pc[u]) {
      assert s'.pc[u] == s.pc[u] && ListAt(s, u, s.pc[u]);
      if s.pc[u].Crit? && s.pc[u].k == 0 {
        var j :| Single(s, j);
        assert Single(s', j);
      }
    }
    if forall u :: 0 <= u < |s'.pc| ==> !Inside(s'.pc[u]) {
      forall u | 0 <= u < |s.pc| ensures !Inside(s.pc[u]) { assert u != t ==> s'.pc[u] == s.pc[u]; }
      var j :| Single(s, j);
      assert Single(s', j);
    }
  }

  lemma {:induction false} ListReachable(n: nat, sched: seq<nat>)
    requires n <= 256 && Schedule(n, sched)
    ensures ListOk(After(n, sched))
  {
    hide ListOk, Exclusive, Exec;
    if sched == [] {
      InitList(n);
    } else {
      var before := sched[..|sched| - 1];
      ListReachable(n, before);
      MutualExclusion(n, before);
      MutualExclusion(n, sched);
      ExecList(After(n, before), sched[|sched| - 1]);
    }
  }

  lemma InitList(n: nat)
    ensures ListOk(Init(n))
  {
    assert Single(Init(n), 0);
  }

  /** Whenever a thread is about to release the lock, and whenever nobody has it, the shared list has
      exactly one entry; at a release it is that of the releasing thread. */
  lemma OneEntryAtRelease(n: nat, sched: seq<nat>, t: nat)
    requires n <= 256 && Schedule(n, sched) && t < n
    ensures var s := After(n, sched);
      && (s.pc[t].Loaded? ==> Single(s, t))
      && ((forall u :: 0 <= u < n ==> !Inside(s.pc[u])) ==> exists j :: Single(s, j))
  {
    ListReachable(n, sched);
    var s := After(n, sched);
    if s.pc[t].Loaded? { assert ListAt(s, t, s.pc[t]); }
  }
}
