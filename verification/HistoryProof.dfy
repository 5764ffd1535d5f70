/** A query's outputs do not depend on what the core did before it, although bucket RAM, FIFO
    RAM and several registers are never cleared. */
module HistoryProof {
  import opened Options
  import opened RefTable
  import opened DbPkg
  import opened Operators
  import opened Aggregation
  import opened AxisRegister
  import opened ColumnReader
  import opened Scheduler
  import opened PipelineProof
  import opened QueryProof
  import opened GroupbyEngine

  // ------------------------------------------------------------------ two group-by engines

  /** A dump pass over equal tables at the same point. */
  ghost predicate SameDump(p: Params, s: Gb, u: Gb)
    requires GroupbyEngine.Wf(p, s) && GroupbyEngine.Wf(p, u)
  {
    && !s.ram.wen && !u.ram.wen && s.ram.mem == u.ram.mem
    && s.stage == u.stage <= 2 && s.dump.idx == u.dump.idx
    && (s.stage != 0 ==> s.ram.raddr == u.ram.raddr == s.dump.idx)
    && (s.stage == 2 ==> s.ram.rd == u.ram.rd == s.ram.mem[s.dump.idx])
  }

  ghost predicate NoneValid(t: Table, n: nat)
    requires n <= |t|
  {
    forall i | 0 <= i < n :: !t[i].valid
  }

  /** Two running engines that differ only in registers no output will ever depend on. */
  ghost predicate LikeBusy(p: Params, s: Gb, u: Gb)
    requires GroupbyEngine.Wf(p, s) && GroupbyEngine.Wf(p, u)
  {
    && s.phase == u.phase && s.dump.hold == u.dump.hold && (s.dump.hold ==> s.phase == Present)
    && match s.phase
       case Clear => s.clearIdx == u.clearIdx && forall i | 0 <= i < s.clearIdx :: s.ram.Eff()[i] == u.ram.Eff()[i]
       case AggIdle => s.ram.Eff() == u.ram.Eff()
       case AggRd =>
         && s.cur == u.cur && s.stage == u.stage
         && !s.ram.wen && !u.ram.wen && s.ram.mem == u.ram.mem && s.ram.raddr == u.ram.raddr
         && (s.stage == 2 ==> s.ram.rd == u.ram.rd)
       case AggWrite => s.cur.last == u.cur.last && s.ram.Eff() == u.ram.Eff()
       case Scan =>
         && SameDump(p, s, u)
         && (s.dump.lastValid == u.dump.lastValid || NoneValid(s.ram.mem, s.dump.idx))
       case Present =>
         && SameDump(p, s, u)
         && (s.dump.lastValid == u.dump.lastValid || NoneValid(s.ram.mem, p.B()))
         && (s.dump.hold ==> OutBeat(s) == OutBeat(u))
  }

  ghost predicate LikeGb(p: Params, s: Gb, u: Gb) {
    && GroupbyEngine.Wf(p, s) && GroupbyEngine.Wf(p, u)
    && s.busy == u.busy && s.done == u.done
    && if s.busy then LikeBusy(p, s, u) else !s.dump.hold && !u.dump.hold
  }

  lemma LikeGbEdge(p: Params, s: Gb, u: Gb, i: GroupbyEngine.In)
    requires LikeGb(p, s, u)
    ensures LikeGb(p, GroupbyEngine.Next(p, s, i), GroupbyEngine.Next(p, u, i))
  {
    if i.start {
      LikeGbStart(p, s, u, i);
    } else if s.busy {
      match s.phase
      case Clear => LikeClearEdge(p, s, u, i);
      case AggIdle => LikeIdleEdge(p, s, u, i);
      case AggRd => LikeRdEdge(p, s, u, i);
      case AggWrite =>
      case Scan => LikeScanEdge(p, s, u, i);
      case Present => LikePresentEdge(p, s, u, i);
    }
  }

  /** A start edge makes any two engines alike. */
  lemma LikeGbStart(p: Params, s: Gb, u: Gb, i: GroupbyEngine.In)
    requires GroupbyEngine.Wf(p, s) && GroupbyEngine.Wf(p, u) && i.start
    ensures LikeGb(p, GroupbyEngine.Next(p, s, i), GroupbyEngine.Next(p, u, i))
  {}

  lemma LikeClearEdge(p: Params, s: Gb, u: Gb, i: GroupbyEngine.In)
    requires LikeGb(p, s, u) && s.busy && s.phase == Clear && !i.start
    ensures LikeGb(p, GroupbyEngine.Next(p, s, i), GroupbyEngine.Next(p, u, i))
  {
    var s', u' := GroupbyEngine.Next(p, s, i), GroupbyEngine.Next(p, u, i);
    assert s'.ram.Eff() == s.ram.Eff()[s.clearIdx := ZERO_BUCKET];
    assert u'.ram.Eff() == u.ram.Eff()[s.clearIdx := ZERO_BUCKET];
    if s.clearIdx == p.B() - 1 { assert s'.ram.Eff() == u'.ram.Eff(); }
  }

  lemma LikeIdleEdge(p: Params, s: Gb, u: Gb, i: GroupbyEngine.In)
    requires LikeGb(p, s, u) && s.busy && s.phase == AggIdle && !i.start
    ensures LikeGb(p, GroupbyEngine.Next(p, s, i), GroupbyEngine.Next(p, u, i))
  {}

  lemma LikeRdEdge(p: Params, s: Gb, u: Gb, i: GroupbyEngine.In)
    requires LikeGb(p, s, u) && s.busy && s.phase == AggRd && !i.start
    ensures LikeGb(p, GroupbyEngine.Next(p, s, i), GroupbyEngine.Next(p, u, i))
  {
    hide UpdatedBucket;
  }

  lemma LikeScanEdge(p: Params, s: Gb, u: Gb, i: GroupbyEngine.In)
    requires LikeGb(p, s, u) && s.busy && s.phase == GroupbyEngine.Scan && !i.start
    ensures LikeGb(p, GroupbyEngine.Next(p, s, i), GroupbyEngine.Next(p, u, i))
  {}

  lemma LikePresentEdge(p: Params, s: Gb, u: Gb, i: GroupbyEngine.In)
    requires LikeGb(p, s, u) && s.busy && s.phase == Present && !i.start
    ensures LikeGb(p, GroupbyEngine.Next(p, s, i), GroupbyEngine.Next(p, u, i))
  {}

  // ------------------------------------------------------------------ two schedulers

  ghost predicate LikeSkid(s: Skid<Beat>, u: Skid<Beat>) {
    s.valid == u.valid && (s.valid ==> s.reg == u.reg)
  }

  ghost predicate LikeAgg(d: Dims, groupby: bool, s: Agg, u: Agg) {
    if groupby then LikeGb(d.Gb(), s.gb, u.gb) && ClassicQuiet(s.classic) && ClassicQuiet(u.classic)
    else s.classic == u.classic && GbQuiet(s.gb) && GbQuiet(u.gb)
  }

  /** Two cores running or holding the same query. */
  ghost predicate Alike(d: Dims, groupby: bool, s: Sched, u: Sched) {
    && Scheduler.Wf(d, s) && Scheduler.Wf(d, u)
    && s.fsm == u.fsm && s.error == u.error
    && (s.fsm == Done ==> s.result == u.result && s.count == u.count && s.overflow == u.overflow)
    && s.rd == u.rd && LikeSkid(s.pred, u.pred) && LikeSkid(s.proj, u.proj)
    && LikeAgg(d, groupby, s.agg, u.agg)
  }

  /** What the core shows: status, the latched results once done, and the group stream. */
  datatype Outputs = Outputs(busy: bool, done: bool, error: Error,
                             latched: Option<(nat, nat, bool)>, group: Option<GroupBeat>)

  function OutputsOf(s: Sched): Outputs {
    Outputs(s.fsm == Scheduler.Scan, s.fsm == Done, s.error,
            if s.fsm == Done then Some((s.result, s.count, s.overflow)) else None,
            if GroupbyEngine.OutValid(s.agg.gb) then Some(OutBeat(s.agg.gb)) else None)
  }

  /** The result, count and overflow ports, which keep showing the last completed query's values
      while the next one scans. */
  function Latched(s: Sched): (nat, nat, bool) {
    (s.result, s.count, s.overflow)
  }

  lemma AlikeLooksAlike(d: Dims, groupby: bool, s: Sched, u: Sched)
    requires Alike(d, groupby, s, u)
    ensures OutputsOf(s) == OutputsOf(u)
  {}

  /** The wires of alike cores agree. */
  lemma AlikeWires(d: Dims, cfg: Config, s: Sched, u: Sched)
    requires Alike(d, cfg.agg.groupby, s, u)
    ensures PredIn(cfg, s) == PredIn(cfg, u) && PredValid(s) == PredValid(u)
    ensures ProjIn(cfg, s) == ProjIn(cfg, u) && ProjValid(s) == ProjValid(u)
    ensures ProjOut(cfg, s) == ProjOut(cfg, u)
    ensures AggReady(cfg.agg, s.agg) == AggReady(cfg.agg, u.agg)
    ensures AggDone(cfg.agg, s.agg) == AggDone(cfg.agg, u.agg)
    ensures s.fsm == Scheduler.Scan && AggDone(cfg.agg, s.agg) ==>
      && AggResult(cfg.agg, s.agg) == AggResult(cfg.agg, u.agg)
      && AggCount(cfg.agg, s.agg) == AggCount(cfg.agg, u.agg)
      && AggOverflow(cfg.agg, s.agg) == AggOverflow(cfg.agg, u.agg)
  {
    hide PredBeat, ProjBeat;
  }

  lemma AlikeAggEdge(d: Dims, a: AggCfg, s: Agg, u: Agg, valid: bool, x: Beat, gready: bool)
    requires AggWf(d, s) && AggWf(d, u) && LikeAgg(d, a.groupby, s, u)
    ensures LikeAgg(d, a.groupby, AggNext(d, a, s, false, valid, x, gready),
                    AggNext(d, a, u, false, valid, x, gready))
  {
    if a.groupby {
      hide LikeGb;
      LikeGbEdge(d.Gb(), s.gb, u.gb, GbIn(a, false, valid, x, gready));
    }
  }

  /** An edge that starts no query keeps alike cores alike. */
  lemma AlikeEdge(d: Dims, s: Sched, u: Sched, i: Scheduler.In)
    requires Alike(d, i.cfg.agg.groupby, s, u) && !i.rst && !QStart(s, i.start)
    ensures Alike(d, i.cfg.agg.groupby, Scheduler.Next(d, s, i), Scheduler.Next(d, u, i))
  {
    hide AggNext, ColumnReader.Next, PredIn, ProjIn, PredValid, ProjValid, ProjOut, AggReady, AggDone,
         AggResult, AggCount, AggOverflow, LikeAgg;
    AlikeWires(d, i.cfg, s, u);
    AlikeAggEdge(d, i.cfg.agg, s.agg, u.agg, ProjValid(s), ProjOut(i.cfg, s), i.gready);
  }

  /** Any two quiet cores over the same table are alike once started on the same query. */
  lemma AlikeStart(j: Job, s: Sched, u: Sched, i: Scheduler.In)
    requires j.Ok() && Quiet(j.d, s) && Quiet(j.d, u) && Starts(j, s, i) && Starts(j, u, i)
    ensures Alike(j.d, j.cfg.agg.groupby, Scheduler.Next(j.d, s, i), Scheduler.Next(j.d, u, i))
  {
    SameTableSameRead(s.rd.banks, u.rd.banks, i.load);
    AlikeStartAgg(j, s, u, i);
  }

  lemma SameTableSameRead(bs: seq<Mem>, bu: seq<Mem>, l: Load)
    requires Data(bs) == Data(bu)
    ensures BanksNext(bs, l, 0) == BanksNext(bu, l, 0)
  {
    forall c | 0 <= c < |bs| ensures BanksNext(bs, l, 0)[c] == BanksNext(bu, l, 0)[c] {
      assert Data(bs)[c] == Data(bu)[c];
    }
  }

  lemma AlikeStartAgg(j: Job, s: Sched, u: Sched, i: Scheduler.In)
    requires j.Ok() && Quiet(j.d, s) && Quiet(j.d, u) && Starts(j, s, i) && Starts(j, u, i)
    ensures LikeAgg(j.d, j.cfg.agg.groupby, Scheduler.Next(j.d, s, i).agg, Scheduler.Next(j.d, u, i).agg)
  {
    hide ColumnReader.Next;
    NextSteps(j.d, s, i);
    NextSteps(j.d, u, i);
    if j.cfg.agg.groupby {
      hide LikeGb;
      LikeGbStart(j.d.Gb(), s.agg.gb, u.agg.gb, GbIn(i.cfg.agg, true, false, NO_BEAT, i.gready));
      LikeGbStartAny(j.d.Gb(), s.agg.gb, GbInput(s, i), GbIn(i.cfg.agg, true, false, NO_BEAT, i.gready));
      LikeGbStartAny(j.d.Gb(), u.agg.gb, GbInput(u, i), GbIn(i.cfg.agg, true, false, NO_BEAT, i.gready));
    }
  }

  /** Nothing but start matters on a start edge. */
  lemma LikeGbStartAny(p: Params, s: Gb, i: GroupbyEngine.In, k: GroupbyEngine.In)
    requires GroupbyEngine.Wf(p, s) && i.start && k.start
    ensures GroupbyEngine.Next(p, s, i) == GroupbyEngine.Next(p, s, k)
  {}

  lemma {:induction false} AlikeRuns(j: Job, s: Sched, u: Sched, ins: seq<Scheduler.In>)
    requires Alike(j.d, j.cfg.agg.groupby, s, u) && Behaves(j, s, NO_TRACE, ins)
    ensures Alike(j.d, j.cfg.agg.groupby, After(j.d, s, NO_TRACE, ins).0, After(j.d, u, NO_TRACE, ins).0)
  {
    if ins == [] {
    } else {
      hide Scheduler.Next, LikeAgg;
      var n := |ins| - 1;
      AlikeRuns(j, s, u, ins[..n]);
      AlikeEdge(j.d, After(j.d, s, NO_TRACE, ins[..n]).0, After(j.d, u, NO_TRACE, ins[..n]).0, ins[n]);
    }
  }

  /** A query that scans on shows the latches it started with. */
  lemma {:induction false} LatchesHold(j: Job, s: Sched, ins: seq<Scheduler.In>)
    requires Scheduler.Wf(j.d, s) && Behaves(j, s, NO_TRACE, ins)
    requires After(j.d, s, NO_TRACE, ins).0.fsm == Scheduler.Scan
    ensures s.fsm == Scheduler.Scan && Latched(After(j.d, s, NO_TRACE, ins).0) == Latched(s)
  {
    if ins == [] {
    } else {
      var n := |ins| - 1;
      LatchEdge(j, After(j.d, s, NO_TRACE, ins[..n]).0, ins[n]);
      LatchesHold(j, s, ins[..n]);
    }
  }

  lemma LatchEdge(j: Job, s: Sched, i: Scheduler.In)
    requires Scheduler.Wf(j.d, s) && Inside(j, s, i) && Scheduler.Next(j.d, s, i).fsm == Scheduler.Scan
    ensures s.fsm == Scheduler.Scan && Latched(Scheduler.Next(j.d, s, i)) == Latched(s)
  {
    hide ColumnReader.Next, AggNext, AggDone;
  }

  /** The same query on two quiet cores shows the same outputs at every edge. All ports agree at an
      edge exactly when it is done, or the cores showed the same latched values before. */
  lemma SameQuerySamePorts(j: Job, s: Sched, u: Sched, i: Scheduler.In, ins: seq<Scheduler.In>)
    requires j.Ok() && Quiet(j.d, s) && Quiet(j.d, u) && Starts(j, s, i) && Starts(j, u, i)
    requires Behaves(j, Scheduler.Next(j.d, s, i), NO_TRACE, ins)
    ensures var s' := After(j.d, Scheduler.Next(j.d, s, i), NO_TRACE, ins).0;
      var u' := After(j.d, Scheduler.Next(j.d, u, i), NO_TRACE, ins).0;
      OutputsOf(s') == OutputsOf(u') && (Latched(s') == Latched(u') <==> s'.fsm == Done || Latched(s) == Latched(u))
  {
    hide Scheduler.Next, Alike, After, Behaves, Quiet, RunInv, Inside;
    QuietWf(j.d, s);
    QuietWf(j.d, u);
    var s1, u1 := Scheduler.Next(j.d, s, i), Scheduler.Next(j.d, u, i);
    StartLatches(j, s, i);
    StartLatches(j, u, i);
    StartEdge(j, s, i);
    AlikeStart(j, s, u, i);
    AlikeRuns(j, s1, u1, ins);
    AlikeRunBehaves(j, s1, u1, ins);
    AlikeLooksAlike(j.d, j.cfg.agg.groupby, After(j.d, s1, NO_TRACE, ins).0, After(j.d, u1, NO_TRACE, ins).0);
    RunKeepsInv(j, s1, NO_TRACE, ins);
    NeverIdle(j, After(j.d, s1, NO_TRACE, ins).0, After(j.d, s1, NO_TRACE, ins).1);
    if After(j.d, s1, NO_TRACE, ins).0.fsm == Scheduler.Scan {
      LatchesHold(j, s1, ins);
      LatchesHold(j, u1, ins);
    }
  }

  lemma NeverIdle(j: Job, s: Sched, t: Trace)
    requires RunInv(j, s, t)
    ensures s.fsm != Idle
  {}

  lemma StartLatches(j: Job, s: Sched, i: Scheduler.In)
    requires Quiet(j.d, s) && Starts(j, s, i)
    ensures Latched(Scheduler.Next(j.d, s, i)) == Latched(s) && Scheduler.Wf(j.d, s)
  {
    hide ColumnReader.Next, AggNext;
  }

  lemma QuietWf(d: Dims, s: Sched)
    requires Quiet(d, s)
    ensures Scheduler.Wf(d, s)
  {}

  /** Alike cores are inside a query on the same edges. */
  lemma {:induction false} AlikeRunBehaves(j: Job, s: Sched, u: Sched, ins: seq<Scheduler.In>)
    requires Alike(j.d, j.cfg.agg.groupby, s, u) && Behaves(j, s, NO_TRACE, ins)
    ensures Behaves(j, u, NO_TRACE, ins)
  {
    if ins == [] {
    } else {
      hide Scheduler.Next, LikeAgg;
      var n := |ins| - 1;
      AlikeRunBehaves(j, s, u, ins[..n]);
      AlikeRuns(j, s, u, ins[..n]);
    }
  }

  // ------------------------------------------------------------------ sessions

  /** A core in use: its state, and the query it was last started on. */
  datatype Session = Session(s: Sched, job: Job, t: Trace)

  function SessionNext(d: Dims, x: Session, i: Scheduler.In): (x': Session)
    requires Scheduler.Wf(d, x.s)
    ensures Scheduler.Wf(d, x'.s)
  {
    var s := Scheduler.Next(d, x.s, i);
    if i.rst then Session(s, x.job, NO_TRACE)
    else if QStart(x.s, i.start) then Session(s, Job(d, i.cfg, Data(x.s.rd.banks)), NO_TRACE)
    else Session(s, x.job, TraceNext(x.s, i, x.t))
  }

  /** The environment: operands fit a column; nothing is loaded or reconfigured from the edge
      that samples start until done. Reset, which an abort is, may come at any edge. */
  predicate Allowed(d: Dims, x: Session, i: Scheduler.In) {
    && (i.load.wen ==> forall c | 0 <= c < |i.load.data| :: i.load.data[c] <= d.ColMax())
    && (!i.rst && QStart(x.s, i.start) ==> !i.load.wen)
    && (!i.rst && x.s.fsm == Scheduler.Scan ==> !i.load.wen && i.cfg == x.job.cfg)
  }

  ghost predicate BanksFit(d: Dims, banks: seq<Mem>) {
    forall c, k | 0 <= c < |banks| && 0 <= k < |banks[c].data| :: banks[c].data[k] <= d.ColMax()
  }

  /** A core not scanning is quiet: no query, completed or aborted, leaves anything behind. The
      overflow code never shows. */
  ghost predicate SessionInv(d: Dims, x: Session) {
    && Scheduler.Wf(d, x.s) && BanksFit(d, x.s.rd.banks) && x.s.error != ErrAggOverflow
    && (x.s.fsm != Scheduler.Scan ==> Quiet(d, x.s))
    && (x.s.fsm == Scheduler.Scan ==> x.job.d == d && x.job.Ok() && RunInv(x.job, x.s, x.t))
  }

  lemma BanksStayFit(d: Dims, banks: seq<Mem>, l: Load, raddr: nat)
    requires BanksFit(d, banks)
    requires l.wen ==> forall c | 0 <= c < |l.data| :: l.data[c] <= d.ColMax()
    ensures BanksFit(d, BanksNext(banks, l, raddr))
  {}

  /** Reset, from any state at all, leaves a quiet core with its table. */
  lemma ResetQuiets(d: Dims, s: Sched, i: Scheduler.In)
    requires Scheduler.Wf(d, s) && i.rst
    ensures Quiet(d, Scheduler.Next(d, s, i)) && Scheduler.Next(d, s, i).fsm == Idle
    ensures Scheduler.Next(d, s, i).error == ErrNone
    ensures !i.load.wen ==> Data(Scheduler.Next(d, s, i).rd.banks) == Data(s.rd.banks)
  {
    if !i.load.wen { BanksHold(s.rd.banks, i.load, s.rd.raddr); }
  }

  /** Reset opens a session in any state whose table holds column data. */
  lemma ResetOpensSession(d: Dims, s: Sched, i: Scheduler.In, job: Job)
    requires Scheduler.Wf(d, s) && BanksFit(d, s.rd.banks) && i.rst
    requires i.load.wen ==> forall c | 0 <= c < |i.load.data| :: i.load.data[c] <= d.ColMax()
    ensures SessionInv(d, Session(Scheduler.Next(d, s, i), job, NO_TRACE))
  {
    ResetQuiets(d, s, i);
    BanksStayFit(d, s.rd.banks, i.load, s.rd.raddr);
  }

  lemma NextBanks(d: Dims, s: Sched, i: Scheduler.In)
    requires Scheduler.Wf(d, s)
    ensures Scheduler.Next(d, s, i).rd.banks == BanksNext(s.rd.banks, i.load, s.rd.raddr)
  {
    if !i.rst { NextSteps(d, s, i); }
  }

  lemma SessionEdge(d: Dims, x: Session, i: Scheduler.In)
    requires SessionInv(d, x) && Allowed(d, x, i)
    ensures SessionInv(d, SessionNext(d, x, i))
  {
    hide Scheduler.Next;
    BanksStayFit(d, x.s.rd.banks, i.load, x.s.rd.raddr);
    NextBanks(d, x.s, i);
    if i.rst {
      ResetQuiets(d, x.s, i);
    } else if QStart(x.s, i.start) {
      StartEdge(Job(d, i.cfg, Data(x.s.rd.banks)), x.s, i);
    } else if x.s.fsm == Scheduler.Scan {
      RunEdge(x.job, x.s, i, x.t);
    } else {
      QuietEdge(d, x.s, i);
    }
  }

  function SessionAfter(d: Dims, x: Session, ins: seq<Scheduler.In>): (x': Session)
    requires Scheduler.Wf(d, x.s)
    ensures Scheduler.Wf(d, x'.s)
  {
    if ins == [] then x else SessionNext(d, SessionAfter(d, x, ins[..|ins| - 1]), ins[|ins| - 1])
  }

  ghost predicate AllAllowed(d: Dims, x: Session, ins: seq<Scheduler.In>)
    requires Scheduler.Wf(d, x.s)
  {
    ins == [] ||
    (AllAllowed(d, x, ins[..|ins| - 1]) && Allowed(d, SessionAfter(d, x, ins[..|ins| - 1]), ins[|ins| - 1]))
  }

  lemma {:induction false} SessionKeepsInv(d: Dims, x: Session, ins: seq<Scheduler.In>)
    requires SessionInv(d, x) && AllAllowed(d, x, ins)
    ensures SessionInv(d, SessionAfter(d, x, ins))
  {
    if ins == [] {
    } else {
      hide SessionInv;
      SessionKeepsInv(d, x, ins[..|ins| - 1]);
      SessionEdge(d, SessionAfter(d, x, ins[..|ins| - 1]), ins[|ins| - 1]);
    }
  }

  /** After any sequence of loads, queries, aborts and stray start pulses, the next query shows
      at every edge what it shows on a core freshly reset out of any state u0 whatever over the
      same table. The result ports, which show the last latched values during a scan, agree
      exactly from done on, or throughout if zeros were latched before. */
  lemma HistoryIndependence(d: Dims, x: Session, past: seq<Scheduler.In>, u0: Sched, rst: Scheduler.In,
                            i: Scheduler.In, ins: seq<Scheduler.In>)
    requires SessionInv(d, x) && AllAllowed(d, x, past)
    requires Scheduler.Wf(d, u0) && rst.rst
    requires var s := SessionAfter(d, x, past).s;
      var u := Scheduler.Next(d, u0, rst);
      var j := Job(d, i.cfg, Data(s.rd.banks));
      Starts(j, s, i) && Data(u.rd.banks) == Data(s.rd.banks) && Behaves(j, Scheduler.Next(d, s, i), NO_TRACE, ins)
    ensures var s := SessionAfter(d, x, past).s;
      var s' := After(d, Scheduler.Next(d, s, i), NO_TRACE, ins).0;
      var u' := After(d, Scheduler.Next(d, Scheduler.Next(d, u0, rst), i), NO_TRACE, ins).0;
      && OutputsOf(s') == OutputsOf(u')
      && (Latched(s') == Latched(u') <==> s'.fsm == Done || Latched(s) == (0, 0, false))
  {
    hide Scheduler.Next, After, Behaves, OutputsOf, SessionAfter, AllAllowed;
    SessionKeepsInv(d, x, past);
    ResetQuiets(d, u0, rst);
    ResetLatches(d, u0, rst);
    var s := SessionAfter(d, x, past).s;
    SameQuerySamePorts(Job(d, i.cfg, Data(s.rd.banks)), s, Scheduler.Next(d, u0, rst), i, ins);
  }

  lemma ResetLatches(d: Dims, s: Sched, i: Scheduler.In)
    requires Scheduler.Wf(d, s) && i.rst
    ensures Latched(Scheduler.Next(d, s, i)) == (0, 0, false)
  {}
}
