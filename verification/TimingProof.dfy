/** Two consequences of the scheduler's shape: the exact duration of a classic query, and the
    harmlessness of start pulses that meet a running one. */
module TimingProof {
  import opened DbPkg
  import opened Aggregation
  import opened Operators
  import opened ColumnReader
  import opened Scheduler
  import opened PipelineProof
  import opened QueryProof
  import GroupbyEngine
  import GroupbyProof

  // ------------------------------------------------------------------ 2n + 1 edges

  /** The reader pushes on odd edges and the aggregator consumes on even ones, so the FIFO
      never holds more than one beat and the skid registers none. */
  ghost predicate Pace(j: Job, s: Sched, t: Trace) {
    var n := |t.xs|;
    && (s.fsm == Scan ==>
          && !s.pred.valid && !s.proj.valid
          && |s.rd.fifo| <= 1
          && t.edges == 2 * n + |s.rd.fifo|
          && (s.rd.busy ==> s.rd.pending == (s.rd.fifo == [])))
    && (s.fsm == Done ==> t.edges >= 2 * j.N() + 1)
  }

  lemma PaceEdge(j: Job, s: Sched, i: In, t: Trace)
    requires j.Ok() && !j.cfg.agg.groupby && RunInv(j, s, t) && Pace(j, s, t) && Inside(j, s, i)
    ensures Pace(j, Scheduler.Next(j.d, s, i), TraceNext(s, i, t))
    ensures s.fsm == Scan ==> t.edges <= 2 * j.N()
    ensures s.fsm == Scan && t.edges == 2 * j.N() ==> AggDone(j.cfg.agg, s.agg) && s.rd.done
  {
    hide AggNext, Pipe;
    if s.fsm == Scan {
      NextSteps(j.d, s, i);
      StreamConserved(j, s, t.xs);
      assert t.xs != [] ==> t.xs[|t.xs| - 1] == j.Fin(|t.xs| - 1);
      if AggDone(j.cfg.agg, s.agg) {
        AggDoneMeansDrained(j, s, t);
      } else {
        assert s.agg.classic.cnt.busy;
      }
    }
  }

  /** A classic query over n rows is in S_DONE from exactly 2n + 1 edges after the one that
      samples start. */
  lemma {:induction false} ClassicDuration(j: Job, s0: Sched, i0: In, ins: seq<In>)
    requires j.Ok() && !j.cfg.agg.groupby && Quiet(j.d, s0) && Starts(j, s0, i0)
    requires Behaves(j, Scheduler.Next(j.d, s0, i0), NO_TRACE, ins)
    ensures var (s, t) := After(j.d, Scheduler.Next(j.d, s0, i0), NO_TRACE, ins);
      && t.edges == |ins| && RunInv(j, s, t) && Pace(j, s, t)
      && (s.fsm == Done <==> |ins| >= 2 * j.N() + 1)
  {
    StartEdge(j, s0, i0);
    var s1 := Scheduler.Next(j.d, s0, i0);
    if ins == [] {
    } else {
      var prefix, i := ins[..|ins| - 1], ins[|ins| - 1];
      ClassicDuration(j, s0, i0, prefix);
      var (s, t) := After(j.d, s1, NO_TRACE, prefix);
      PaceEdge(j, s, i, t);
      RunEdge(j, s, i, t);
    }
  }

  // ------------------------------------------------------------------ GROUP BY

  /** The group-by engine waits for a row and none is offered. */
  predicate Waiting(s: Sched) {
    GroupbyEngine.Ready(s.agg.gb) && !ProjValid(s)
  }

  /** It offers a group that is not taken. */
  predicate Stalled(s: Sched, i: In) {
    s.agg.gb.busy && GroupbyEngine.OutValid(s.agg.gb) && !i.gready
  }

  /** How many edges of a run were spent waiting, and how many stalled. */
  function Lost(d: Dims, s: Sched, t: Trace, ins: seq<In>): (r: (nat, nat))
    requires Scheduler.Wf(d, s)
  {
    if ins == [] then (0, 0)
    else
      var (w, l) := Lost(d, s, t, ins[..|ins| - 1]);
      var s1 := After(d, s, t, ins[..|ins| - 1]).0;
      (w + (if Waiting(s1) then 1 else 0), l + (if Stalled(s1, ins[|ins| - 1]) then 1 else 0))
  }

  /** How far the reader has come: two edges a row. */
  function Fetched(s: Sched, a: nat): nat {
    2 * AtReader(s, a) + if s.rd.pending then 1 else 0
  }

  /** A waiting engine means empty stages, so the reader comes one step further. */
  lemma WaitFetches(j: Job, s: Sched, i: In, t: Trace)
    requires j.Ok() && ScanInv(j, s, t) && Inside(j, s, i) && j.cfg.agg.groupby
    ensures var s', t' := Scheduler.Next(j.d, s, i), TraceNext(s, i, t);
      Fetched(s', |t'.xs|) >= Fetched(s, |t.xs|) + if Waiting(s) then 1 else 0
  {
    hide AggNext;
    NextSteps(j.d, s, i);
    if PushValid(s.rd) { ReaderPushes(j, s.rd, AtReader(s, |t.xs|)); }
    StagesEdge(j, s, i, PushBeat(j.d, s.rd, j.cfg.numRows), Scheduler.Next(j.d, s, i), |t.xs|);
    if |t.xs| == j.N() { FullMeansEnded(j, t.xs); }
  }

  lemma FullMeansEnded(j: Job, xs: seq<Beat>)
    requires j.Ok() && ConsumedInv(j, xs) && |xs| == j.N()
    ensures exists r :: r in Rows(j.cfg.agg, xs) && r.last
  {
    assert Rows(j.cfg.agg, xs)[j.N() - 1].last;
  }

  /** The edges of a GROUP BY query: those its engine works, those it waits for a row (at most
      two per row), those its output stalls, and one to latch completion. */
  lemma {:induction false} GroupbyDuration(j: Job, s0: Sched, i0: In, ins: seq<In>)
    requires j.Ok() && j.cfg.agg.groupby && Quiet(j.d, s0) && Starts(j, s0, i0)
    requires Behaves(j, Scheduler.Next(j.d, s0, i0), NO_TRACE, ins)
    ensures var s1 := Scheduler.Next(j.d, s0, i0);
      var (s, t) := After(j.d, s1, NO_TRACE, ins);
      var (w, l) := Lost(j.d, s1, NO_TRACE, ins);
      && RunInv(j, s, t)
      && (s.fsm == Scan ==> |ins| == t.g.work + w + l && w <= Fetched(s, |t.xs|))
      && w <= 2 * j.N()
      && (s.fsm == Done ==> |ins| >= t.g.work + w + l + 1)
  {
    hide Scheduler.Next, RunInv, Waiting, Stalled, Fetched, TraceNext;
    StartEdge(j, s0, i0);
    var s1 := Scheduler.Next(j.d, s0, i0);
    if ins == [] {
    } else {
      var prefix, i := ins[..|ins| - 1], ins[|ins| - 1];
      GroupbyDuration(j, s0, i0, prefix);
      var (s, t) := After(j.d, s1, NO_TRACE, prefix);
      GroupbyDurationEdge(j, s, i, t);
      RunEdge(j, s, i, t);
    }
  }

  /** So it is in S_DONE from exactly that many edges after the one that samples start. */
  lemma GroupbyDoneIff(j: Job, s0: Sched, i0: In, ins: seq<In>)
    requires j.Ok() && j.cfg.agg.groupby && Quiet(j.d, s0) && Starts(j, s0, i0)
    requires Behaves(j, Scheduler.Next(j.d, s0, i0), NO_TRACE, ins)
    ensures var s1 := Scheduler.Next(j.d, s0, i0);
      var (w, l) := Lost(j.d, s1, NO_TRACE, ins);
      var work := GroupbyProof.RunCost(j.d.Gb().B(), j.d.AccMax(), Rows(j.cfg.agg, j.Ideal()));
      && w <= 2 * j.N()
      && (After(j.d, s1, NO_TRACE, ins).0.fsm == Done <==> |ins| >= work + w + l + 1)
  {
    hide Scheduler.Next, Lost;
    GroupbyDuration(j, s0, i0, ins);
    var (s, t) := After(j.d, Scheduler.Next(j.d, s0, i0), NO_TRACE, ins);
    if s.fsm == Scan { ScanWorkBound(j, s, t); }
  }

  lemma ScanWorkBound(j: Job, s: Sched, t: Trace)
    requires j.Ok() && j.cfg.agg.groupby && ScanInv(j, s, t)
    ensures t.g.work <= GroupbyProof.RunCost(j.d.Gb().B(), j.d.AccMax(), Rows(j.cfg.agg, j.Ideal()))
  {
    var rows := Rows(j.cfg.agg, j.Ideal());
    StreamConserved(j, s, t.xs);
    assert Rows(j.cfg.agg, t.xs) == rows[..|t.xs|];
    GroupbyProof.RunCostGrows(j.d.Gb().B(), j.d.AccMax(), rows, |t.xs|);
    GroupbyProof.InvBoundsWork(j.d.Gb(), s.agg.gb, t.g);
  }

  lemma GroupbyDurationEdge(j: Job, s: Sched, i: In, t: Trace)
    requires j.Ok() && j.cfg.agg.groupby && RunInv(j, s, t) && Inside(j, s, i)
    ensures var s', t' := Scheduler.Next(j.d, s, i), TraceNext(s, i, t);
      var e := (if Waiting(s) then 1 else 0) + if Stalled(s, i) then 1 else 0;
      && (s'.fsm == Scan ==> s.fsm == Scan && t'.g.work + e == t.g.work + 1)
      && (s'.fsm == Done ==> s.fsm != Idle && t'.g.work == t.g.work && e == 0)
      && (s.fsm == Scan ==> Fetched(s, |t.xs|) <= 2 * j.N())
      && (s.fsm == Scan ==> Fetched(s', |t'.xs|) >= Fetched(s, |t.xs|) + if Waiting(s) then 1 else 0)
      && (s'.fsm == Scan ==> Fetched(s', |t'.xs|) <= 2 * j.N())
  {
    hide AggNext, Pipe, ColumnReader.Next;
    RunEdge(j, s, i, t);
    if s.fsm == Scan {
      StreamConserved(j, s, t.xs);
      WaitFetches(j, s, i, t);
      if AggDone(j.cfg.agg, s.agg) { AggDoneMeansDrained(j, s, t); }
    }
    if Scheduler.Next(j.d, s, i).fsm == Scan {
      StreamConserved(j, Scheduler.Next(j.d, s, i), TraceNext(s, i, t).xs);
    }
  }

  // ------------------------------------------------------------------ start while busy

  function Unmarked(s: Sched): Sched {
    s.(error := ErrNone)
  }

  /** Two input sequences that differ only in start pulses sampled while the first run scans. */
  ghost predicate OnlyBusyStartsDiffer(d: Dims, s: Sched, t: Trace, ins: seq<In>, ins': seq<In>)
    requires Scheduler.Wf(d, s)
  {
    && |ins| == |ins'|
    && forall k | 0 <= k < |ins| ::
         && ins'[k] == ins[k].(start := ins'[k].start)
         && (ins'[k].start != ins[k].start ==> After(d, s, t, ins[..k]).0.fsm == Scan)
  }

  /** The stages never see the error code, nor a start pulse that meets a running query. */
  lemma BusyStartDatapath(d: Dims, s: Sched, s': Sched, i: In, i': In)
    requires Scheduler.Wf(d, s) && Scheduler.Wf(d, s') && Unmarked(s) == Unmarked(s') && !i.rst
    requires i' == i.(start := i'.start) && (i'.start != i.start ==> s.fsm == Scan)
    ensures Unmarked(Datapath(d, s, i)) == Unmarked(Datapath(d, s', i'))
  {
    hide ColumnReader.Next, AggNext, AxisRegister.Next, PredBeat, ProjBeat;
    assert QStart(s, i.start) == QStart(s', i'.start);
    assert PredIn(i.cfg, s) == PredIn(i'.cfg, s');
    assert ProjOut(i.cfg, s) == ProjOut(i'.cfg, s');
  }

  lemma BusyStartEdge(d: Dims, s: Sched, s': Sched, i: In, i': In)
    requires Scheduler.Wf(d, s) && Scheduler.Wf(d, s') && Unmarked(s) == Unmarked(s')
    requires i' == i.(start := i'.start) && (i'.start != i.start ==> s.fsm == Scan)
    ensures Unmarked(Scheduler.Next(d, s, i)) == Unmarked(Scheduler.Next(d, s', i'))
  {
    hide Datapath, ColumnReader.Reset, AggReset;
    if !i.rst { BusyStartDatapath(d, s, s', i, i'); }
  }

  /** They change nothing but the error code: every register, every output and the completion
      edge are those of the run without them. */
  lemma {:induction false} BusyStartsAreHarmless(d: Dims, s: Sched, t: Trace, ins: seq<In>, ins': seq<In>)
    requires Scheduler.Wf(d, s) && OnlyBusyStartsDiffer(d, s, t, ins, ins')
    ensures Unmarked(After(d, s, t, ins).0) == Unmarked(After(d, s, t, ins').0)
  {
    if ins == [] {
    } else {
      hide Scheduler.Next, Unmarked, TraceNext;
      var n := |ins| - 1;
      assert forall k | 0 <= k < n :: ins[..n][..k] == ins[..k];
      BusyStartsAreHarmless(d, s, t, ins[..n], ins'[..n]);
      BusyStartEdge(d, After(d, s, t, ins[..n]).0, After(d, s, t, ins'[..n]).0, ins[n], ins'[n]);
    }
  }
}
