/** A query, from its start edge to S_DONE: what is latched, what is emitted, and that the
    whole pipeline has drained. */
module QueryProof {
  import opened Values
  import opened RefTable
  import opened DbPkg
  import opened Aggregation
  import opened Scheduler
  import opened PipelineProof
  import GroupbyEngine
  import GroupbyProof

  // ------------------------------------------------------------------ the aggregation stage

  function Rows(a: AggCfg, xs: seq<Beat>): (rs: seq<Row>)
    ensures |rs| == |xs|
  {
    seq(|xs|, k requires 0 <= k < |xs| => RowOf(a, xs[k]))
  }

  ghost predicate GbQuiet(s: GroupbyEngine.Gb) {
    !s.busy && !s.dump.hold
  }

  ghost predicate ClassicQuiet(s: Classic) {
    Lockstep(s) && !s.cnt.busy
  }

  ghost predicate AggInv(j: Job, s: Agg, t: Trace) {
    var a := j.cfg.agg;
    if a.groupby then
      && GroupbyProof.Inv(j.d.Gb(), s.gb, t.g) && t.g.rows == Rows(a, t.xs)
      && ClassicQuiet(s.classic)
    else
      ClassicInv(j.d, a.column, s.classic, t.xs) && GbQuiet(s.gb)
  }

  ghost predicate ScanInv(j: Job, s: Sched, t: Trace) {
    Scheduler.Wf(j.d, s) && FlowInv(j, s, t.xs) && AggInv(j, s.agg, t)
  }

  /** Between queries: nothing in flight anywhere. */
  ghost predicate Quiet(d: Dims, s: Sched) {
    && Scheduler.Wf(d, s)
    && !s.rd.busy && !s.rd.pending && s.rd.raddr == 0 && s.rd.fifo == []
    && !s.pred.valid && !s.proj.valid
    && ClassicQuiet(s.agg.classic) && GbQuiet(s.agg.gb)
  }

  lemma FinFits(j: Job, k: nat, c: nat)
    requires j.Ok() && k < j.N()
    ensures Col(j.Fin(k).cols, c) <= j.d.ColMax()
  {
    var cols := TableRow(j.tab, k);
    if c < |cols| { assert cols[c] == j.tab[c][k]; }
  }

  lemma RowsFit(j: Job, a: AggCfg, xs: seq<Beat>)
    requires j.Ok() && ConsumedInv(j, xs) && |xs| <= j.N()
    ensures GroupbyProof.Fits(j.d.AccMax(), Rows(a, xs))
  {
    AccumulatorSuffices(j.d, []);
    forall r | r in Rows(a, xs) ensures r.val <= j.d.AccMax() {
      var k :| 0 <= k < |xs| && r == Rows(a, xs)[k];
      FinFits(j, k, a.column);
    }
  }

  lemma AggEdge(j: Job, s: Sched, i: In, t: Trace, t': Trace, agg': Agg)
    requires j.Ok() && ScanInv(j, s, t) && Inside(j, s, i)
    requires t'.xs == XsNext(s, i, t.xs) && |t'.xs| <= j.N() && ConsumedInv(j, t'.xs)
    requires t'.g == GroupbyProof.HistNext(s.agg.gb, GbInput(s, i), t.g)
    requires agg' == AggNext(j.d, j.cfg.agg, s.agg, false, ProjValid(s), ProjOut(i.cfg, s), i.gready)
    ensures AggInv(j, agg', t')
  {
    var a, x := j.cfg.agg, ProjOut(i.cfg, s);
    if a.groupby {
      assert t'.g.rows == Rows(a, t'.xs);
      RowsFit(j, a, t'.xs);
      GroupbyProof.EdgeKeepsInv(j.d.Gb(), s.agg.gb, GbInput(s, i), t.g);
    } else {
      AccumulatorSuffices(j.d, []);
      if Consumes(s, i) { FinFits(j, |t.xs|, a.column); }
      ClassicEdge(j.d, a.column, s.agg.classic, ProjValid(s), x, t.xs);
    }
  }

  /** One edge inside a query keeps the scan invariant, whatever the FSM does. */
  lemma ScanEdge(j: Job, s: Sched, i: In, t: Trace)
    requires j.Ok() && ScanInv(j, s, t) && Inside(j, s, i)
    ensures ScanInv(j, Scheduler.Next(j.d, s, i), TraceNext(s, i, t))
  {
    hide Scheduler.Next, ColumnReader.Next, AggNext, AggInv, Pipe;
    var s' := Scheduler.Next(j.d, s, i);
    NextSteps(j.d, s, i);
    FlowEdge(j, s, i, s', t.xs);
    StreamConserved(j, s', XsNext(s, i, t.xs));
    AggEdge(j, s, i, t, TraceNext(s, i, t), s'.agg);
  }

  // ------------------------------------------------------------------ completion

  /** Once the aggregation stage is done it has consumed the whole stream, and nothing is left
      in the reader, its FIFO, either skid register or any engine. */
  lemma AggDoneMeansDrained(j: Job, s: Sched, t: Trace)
    requires j.Ok() && ScanInv(j, s, t) && AggDone(j.cfg.agg, s.agg)
    ensures t.xs == j.Ideal() && Quiet(j.d, s) && s.rd.done
  {
    var a := j.cfg.agg;
    var n := |t.xs|;
    if a.groupby {
      assert RowOf(a, t.xs[n - 1]) == Rows(a, t.xs)[n - 1];
    }
    assert t.xs[n - 1].last;
    assert n == j.N();
  }

  // ------------------------------------------------------------------ a whole query

  /** What a completed query leaves behind. */
  ghost predicate DoneInv(j: Job, s: Sched, t: Trace) {
    var a := j.cfg.agg;
    && Quiet(j.d, s) && Data(s.rd.banks) == j.tab && t.xs == j.Ideal()
    && !s.overflow
    && (if a.groupby then
          && s.result == 0 && s.count == 0
          && t.g.beats == GroupbyProof.DumpOf(TableOf(j.d.Gb().B(), j.d.AccMax(), Rows(a, j.Ideal())))
          && t.g.work == GroupbyProof.RunCost(j.d.Gb().B(), j.d.AccMax(), Rows(a, j.Ideal()))
        else
          && s.result == Answer(j.d, a.op, PassVals(a.column, j.Ideal()))
          && s.count == |PassVals(a.column, j.Ideal())|)
  }

  ghost predicate RunInv(j: Job, s: Sched, t: Trace) {
    && s.fsm != Idle
    && (s.fsm == Scan ==> ScanInv(j, s, t))
    && (s.fsm == Done ==> DoneInv(j, s, t))
    && s.error == if t.nags > 0 then ErrStartBusy else ErrNone
  }

  /** The edge that samples start, between queries, with no load and no reset. */
  predicate Starts(j: Job, s: Sched, i: In) {
    && !i.rst && !i.load.wen && i.start && s.fsm != Scan
    && i.cfg == j.cfg && Data(s.rd.banks) == j.tab
  }

  lemma StartEdge(j: Job, s: Sched, i: In)
    requires j.Ok() && Quiet(j.d, s) && Starts(j, s, i)
    ensures RunInv(j, Scheduler.Next(j.d, s, i), NO_TRACE) && Scheduler.Next(j.d, s, i).fsm == Scan
  {
    BanksHold(s.rd.banks, i.load, s.rd.raddr);
    StartFlow(j, s, i);
    StartAgg(j, s, i);
  }

  lemma StartFlow(j: Job, s: Sched, i: In)
    requires j.Ok() && Quiet(j.d, s) && Starts(j, s, i)
    ensures FlowInv(j, Scheduler.Next(j.d, s, i), [])
  {
    hide AggNext;
    BanksHold(s.rd.banks, i.load, s.rd.raddr);
  }

  lemma StartAgg(j: Job, s: Sched, i: In)
    requires j.Ok() && Quiet(j.d, s) && Starts(j, s, i)
    ensures AggInv(j, Scheduler.Next(j.d, s, i).agg, NO_TRACE)
  {
    hide ColumnReader.Next;
    NextSteps(j.d, s, i);
    if j.cfg.agg.groupby {
      GroupbyProof.StartEstablishes(j.d.Gb(), s.agg.gb, GbInput(s, i));
      assert Rows(j.cfg.agg, []) == [];
    }
  }

  /** Between queries any edge that starts none keeps the core quiet, whatever is loaded or
      reconfigured. */
  lemma QuietEdge(d: Dims, s: Sched, i: In)
    requires Quiet(d, s) && s.fsm != Scan && !i.start && !i.rst
    ensures Quiet(d, Scheduler.Next(d, s, i)) && Scheduler.Next(d, s, i).fsm == s.fsm
    ensures Scheduler.Next(d, s, i).error == s.error || Scheduler.Next(d, s, i).error == ErrNone
    ensures !i.load.wen ==> Data(Scheduler.Next(d, s, i).rd.banks) == Data(s.rd.banks)
    ensures !ProjValid(s) && !GroupbyEngine.OutValid(s.agg.gb)
  {
    if !i.load.wen { BanksHold(s.rd.banks, i.load, s.rd.raddr); }
  }

  lemma RunEdge(j: Job, s: Sched, i: In, t: Trace)
    requires j.Ok() && RunInv(j, s, t) && Inside(j, s, i)
    ensures RunInv(j, Scheduler.Next(j.d, s, i), TraceNext(s, i, t))
  {
    if s.fsm == Done {
      QuietEdge(j.d, s, i);
    } else if AggDone(j.cfg.agg, s.agg) {
      CompletionEdge(j, s, i, t);
    } else {
      ScanEdge(j, s, i, t);
    }
  }

  lemma CompletionEdge(j: Job, s: Sched, i: In, t: Trace)
    requires j.Ok() && RunInv(j, s, t) && Inside(j, s, i) && s.fsm == Scan && AggDone(j.cfg.agg, s.agg)
    ensures RunInv(j, Scheduler.Next(j.d, s, i), TraceNext(s, i, t))
  {
    AggDoneMeansDrained(j, s, t);
    var a := j.cfg.agg;
    DrainedEdge(j, s, i, t);
    if !a.groupby {
      ClassicAnswers(j.d, a, s.agg, t.xs);
      NeverOverflows(j, a);
    }
  }

  /** The datapath of a drained core stands still. */
  lemma DrainedEdge(j: Job, s: Sched, i: In, t: Trace)
    requires j.Ok() && Quiet(j.d, s) && Data(s.rd.banks) == j.tab && Inside(j, s, i) && s.fsm == Scan
    ensures Quiet(j.d, Scheduler.Next(j.d, s, i)) && Data(Scheduler.Next(j.d, s, i).rd.banks) == j.tab
    ensures TraceNext(s, i, t).xs == t.xs && TraceNext(s, i, t).g == t.g
  {
    BanksHold(s.rd.banks, i.load, s.rd.raddr);
  }

  /** No scan of the table saturates SUM, at any width and table size. */
  lemma NeverOverflows(j: Job, a: AggCfg)
    requires j.Ok()
    ensures Sum(PassVals(a.column, j.Ideal())) <= j.d.AccMax()
  {
    PassValsFit(j, a.column, j.N());
    assert j.Ideal()[..j.N()] == j.Ideal();
    AccumulatorSuffices(j.d, PassVals(a.column, j.Ideal()));
  }

  lemma {:induction false} PassValsFit(j: Job, c: nat, k: nat)
    requires j.Ok() && k <= j.N()
    ensures var vs := PassVals(c, j.Ideal()[..k]);
      |vs| <= k && forall i | 0 <= i < |vs| :: vs[i] <= j.d.ColMax()
  {
    if k == 0 {
    } else {
      PassValsFit(j, c, k - 1);
      FinFits(j, k - 1, c);
      assert j.Ideal()[..k][..k - 1] == j.Ideal()[..k - 1];
    }
  }

  /** While a query scans no count exceeds the table: COUNT's and AVG's accumulators, and every
      bucket written. */
  lemma CountsBounded(j: Job, s: Sched, t: Trace)
    requires j.Ok() && ScanInv(j, s, t)
    ensures !j.cfg.agg.groupby ==>
      s.agg.classic.cnt.acc <= j.d.numRows && s.agg.classic.avg.count <= j.d.numRows
    ensures j.cfg.agg.groupby && s.agg.gb.ram.wen ==> s.agg.gb.ram.wdata.g.count <= j.d.numRows
  {
    StreamConserved(j, s, t.xs);
    if j.cfg.agg.groupby { GroupbyProof.BucketsBounded(j.d.Gb(), s.agg.gb, t.g); }
  }

  // ------------------------------------------------------------------ every run of a query

  function After(d: Dims, s: Sched, t: Trace, ins: seq<In>): (r: (Sched, Trace))
    requires Scheduler.Wf(d, s)
    ensures Scheduler.Wf(d, r.0)
  {
    if ins == [] then (s, t)
    else
      var (s1, t1) := After(d, s, t, ins[..|ins| - 1]);
      var i := ins[|ins| - 1];
      (Scheduler.Next(d, s1, i), TraceNext(s1, i, t1))
  }

  /** The environment's promise over a run: every edge is inside the query. */
  ghost predicate Behaves(j: Job, s: Sched, t: Trace, ins: seq<In>)
    requires Scheduler.Wf(j.d, s)
  {
    ins == [] ||
    (Behaves(j, s, t, ins[..|ins| - 1]) && Inside(j, After(j.d, s, t, ins[..|ins| - 1]).0, ins[|ins| - 1]))
  }

  lemma {:induction false} RunKeepsInv(j: Job, s: Sched, t: Trace, ins: seq<In>)
    requires j.Ok() && Scheduler.Wf(j.d, s) && RunInv(j, s, t) && Behaves(j, s, t, ins)
    ensures RunInv(j, After(j.d, s, t, ins).0, After(j.d, s, t, ins).1)
  {
    if ins == [] {
    } else {
      var (s1, t1) := After(j.d, s, t, ins[..|ins| - 1]);
      RunKeepsInv(j, s, t, ins[..|ins| - 1]);
      RunEdge(j, s1, ins[|ins| - 1], t1);
    }
  }
}
