/** metis/lib/presplitter.c and the map workers of metis/lib/mr-sched.c: splits are handed out by an atomic
    fetch-and-add, first to the workers of the sampling phase and then to those of the map phase. */
module Presplitter {

  /** A worker is about to fetch, has fetched an index that it has still to compare, or has found no more. */
  datatype Pc = Ready | Got(i: nat) | Done

  /** A phase: the shared index, the number of splits and its backup, the workers, and the splits handed out in it
      so far. */
  datatype Phase = Phase(idx: nat, nsplits: nat, nsplitsBak: nat, pc: seq<Pc>, handed: seq<nat>)

  /** mr_run_task starts its workers. */
  function Run(s: Phase, workers: nat): Phase { s.(pc := seq(workers, i => Ready), handed := []) }

  /** The next step of worker `w` in mr_map_worker's loop around presplitter. */
  function Exec(s: Phase, w: nat): Phase
    requires w < |s.pc|
  {
    match s.pc[w]
    case Ready => s.(idx := s.idx + 1, pc := s.pc[w := Got(s.idx)])
    case Got(i) =>
      if i >= s.nsplits then s.(pc := s.pc[w := Done])
      else s.(handed := s.handed + [i], pc := s.pc[w := Ready])
    case Done => s
  }

  predicate Schedule(workers: nat, sched: seq<nat>) { forall i :: 0 <= i < |sched| ==> sched[i] < workers }

  function After(s: Phase, sched: seq<nat>): (r: Phase)
    requires Schedule(|s.pc|, sched)
    ensures |r.pc| == |s.pc| && r.nsplits == s.nsplits && r.nsplitsBak == s.nsplitsBak
  {
    if sched == [] then s else Exec(After(s, sched[..|sched| - 1]), sched[|sched| - 1])
  }

  /** All workers have been joined. */
  predicate Over(s: Phase) { forall w :: 0 <= w < |s.pc| ==> s.pc[w] == Done }

  // ---------------------------------------------------------------- one phase

  /** Split `j` is in the hands of a worker that has not compared it yet. */
  ghost predicate InFlight(s: Phase, j: nat) { exists w :: 0 <= w < |s.pc| && s.pc[w] == Got(j) }

  /** From `first` on, every index fetched was handed out, is in flight, or is past the end, and each once. */
  ghost predicate Inv(s: Phase, first: nat)
  {
    && first <= s.idx
    && (forall w :: 0 <= w < |s.pc| && s.pc[w].Got? ==> first <= s.pc[w].i < s.idx && s.pc[w].i !in s.handed)
    && (forall v, w :: 0 <= v < w < |s.pc| && s.pc[v].Got? && s.pc[w].Got? ==> s.pc[v] != s.pc[w])
    && (forall w :: 0 <= w < |s.pc| && s.pc[w].Done? ==> s.idx > s.nsplits)
    && (forall j :: j in s.handed ==> first <= j < s.nsplits && j < s.idx)
    && (forall p, q :: 0 <= p < q < |s.handed| ==> s.handed[p] != s.handed[q])
    && (forall j {:trigger j in s.handed} :: first <= j < s.idx && j < s.nsplits ==> j in s.handed || InFlight(s, j))
  }

  lemma ExecInv(s: Phase, first: nat, w: nat)
    requires Inv(s, first) && w < |s.pc|
    ensures Inv(Exec(s, w), first)
  {
    var s' := Exec(s, w);
    forall j {:trigger j in s'.handed} | first <= j < s'.idx && j < s'.nsplits
      ensures j in s'.handed || InFlight(s', j)
    {
      if j == s.idx {
        assert s'.pc[w] == Got(j);
      } else if j in s.handed {
        assert j in s'.handed;
      } else {
        var v :| 0 <= v < |s.pc| && s.pc[v] == Got(j);
        if v != w { assert s'.pc[v] == Got(j); }
      }
    }
  }

  lemma {:induction false} Reachable(s: Phase, workers: nat, sched: seq<nat>)
    requires Schedule(workers, sched)
    ensures Inv(After(Run(s, workers), sched), s.idx)
  {
    hide Exec, Inv;
    if sched == [] {
      RunInv(s, workers);
    } else {
      Reachable(s, workers, sched[..|sched| - 1]);
      ExecInv(After(Run(s, workers), sched[..|sched| - 1]), s.idx, sched[|sched| - 1]);
    }
  }

  lemma RunInv(s: Phase, workers: nat)
    ensures Inv(Run(s, workers), s.idx)
  {
  }

  /** `h` lists the numbers from `lo` up to `hi`, each once. */
  ghost predicate EachOnce(h: seq<nat>, lo: nat, hi: nat)
  {
    && (forall j: nat {:trigger j in h} :: j in h <==> lo <= j < hi)
    && (forall p, q :: 0 <= p < q < |h| ==> h[p] != h[q])
  }

  /** When its workers are done, a phase has handed out the splits from its first one to its last, each once, and the
      index is past the end. */
  lemma PhaseHandsOut(s: Phase, workers: nat, sched: seq<nat>)
    requires workers > 0 && Schedule(workers, sched) && Over(After(Run(s, workers), sched))
    ensures EachOnce(After(Run(s, workers), sched).handed, s.idx, s.nsplits)
    ensures After(Run(s, workers), sched).idx > s.nsplits
  {
    Reachable(s, workers, sched);
    var t := After(Run(s, workers), sched);
    assert t.pc[0] == Done;
    forall j: nat | s.idx <= j < s.nsplits ensures j in t.handed {
      assert j in t.handed || InFlight(t, j);
      assert !InFlight(t, j);
    }
  }

  // ---------------------------------------------------------------- sampling, then mapping

  const SAMPLE_PERCENT: nat := 5

  /** How many splits mr_sample uses: five percent of them, but one for each core if there are as many, and at least
      one. The assertion in presplitter_prep_sample holds. */
  function Sampled(ntotal: nat, nrCpus: nat): (n: nat)
    requires ntotal > 0
    ensures 0 < n <= ntotal && (n >= nrCpus || n == ntotal) && 100 * (n + 1) > 5 * ntotal
    ensures n == 1 || n == nrCpus || n == ntotal || 100 * n <= 5 * ntotal
  {
    var n := SAMPLE_PERCENT * ntotal / 100;
    var n' := if n < nrCpus then (if nrCpus < ntotal then nrCpus else ntotal) else n;
    if n' == 0 then 1 else n'
  }

  /** presplitter_init, after splitting into `ntotal` splits. */
  function Init(ntotal: nat): Phase { Phase(0, ntotal, 0, [], []) }

  /** presplitter_prep_sample */
  function PrepSample(s: Phase, ntasks: nat): Phase
    requires ntasks <= s.nsplits
  {
    s.(nsplitsBak := s.nsplits, nsplits := ntasks)
  }

  /** presplitter_done_sample */
  function DoneSample(s: Phase): Phase { s.(idx := s.nsplits, nsplits := s.nsplitsBak) }

  /** mr_sample up to the end of its workers. */
  function Sampling(ntotal: nat, nrCpus: nat, sched: seq<nat>): Phase
    requires ntotal > 0 && Schedule(nrCpus, sched)
  {
    After(Run(PrepSample(Init(ntotal), Sampled(ntotal, nrCpus)), nrCpus), sched)
  }

  /** The map phase after the sampling phase `s`. */
  function Mapping(s: Phase, nrCpus: nat, sched: seq<nat>): Phase
    requires Schedule(nrCpus, sched)
  {
    After(Run(DoneSample(s), nrCpus), sched)
  }

  /** Sampling, then mapping with what is left: for every interleaving of the workers of both phases each split is
      handed out exactly once, although the sampling workers run the index past their last split. */
  lemma EachSplitOnce(ntotal: nat, nrCpus: nat, sched1: seq<nat>, sched2: seq<nat>)
    requires ntotal > 0 && nrCpus > 0 && Schedule(nrCpus, sched1) && Schedule(nrCpus, sched2)
    requires Over(Sampling(ntotal, nrCpus, sched1)) && Over(Mapping(Sampling(ntotal, nrCpus, sched1), nrCpus, sched2))
    ensures var s := Sampling(ntotal, nrCpus, sched1);
      s.idx > Sampled(ntotal, nrCpus) && EachOnce(s.handed + Mapping(s, nrCpus, sched2).handed, 0, ntotal)
  {
    hide EachOnce;
    var n := Sampled(ntotal, nrCpus);
    var s := Sampling(ntotal, nrCpus, sched1);
    PhaseHandsOut(PrepSample(Init(ntotal), n), nrCpus, sched1);
    PhaseHandsOut(DoneSample(s), nrCpus, sched2);
    Together(s.handed, Mapping(s, nrCpus, sched2).handed, 0, n, ntotal);
  }

  lemma Together(h1: seq<nat>, h2: seq<nat>, a: nat, b: nat, c: nat)
    requires EachOnce(h1, a, b) && EachOnce(h2, b, c) && a <= b <= c
    ensures EachOnce(h1 + h2, a, c)
  {
    var all := h1 + h2;
    forall p, q | 0 <= p < q < |all| ensures all[p] != all[q] {
      if p < |h1| <= q {
        assert h1[p] in h1 && h2[q - |h1|] in h2;
      }
    }
  }
}
