/** The design in operation: reading results out over the bus, aborting a query over the bus, and
    the whole way from reset through loading to the answer. */
module Operation {
  import opened Bits
  import opened Aggregation
  import opened AxiLite
  import opened Scheduler
  import opened PipelineProof
  import opened QueryProof
  import opened HistoryProof
  import opened DbqaTop
  import opened Delivery
  import opened EndToEnd
  import opened TableLoad
  import opened Latency
  import Query
  import Reference
  import GroupbyProof

  // ------------------------------------------------------------------ abort

  const ABORT := Write(REG_CTRL, 2)

  /** Until the abort strobe has been sampled the core does what it does, its table untouched; from
      then on it is quiet. */
  ghost predicate AbortInv(r: RegFile, tab: seq<seq<nat>>, u: Use) {
    && r.Wf() && TopWf(u.x) && Delivered([ABORT], r, u.x.axil, u.bt)
    && Data(u.x.core.rd.banks) == tab
    && (|u.bt.writes| == 1 && !u.x.axil.abort ==> Quiet(DEFAULTS, u.x.core) && u.x.core.fsm != Scan)
  }

  lemma AbortEdge(r: RegFile, tab: seq<seq<nat>>, u: Use, i: TopIn)
    requires AbortInv(r, tab, u) && !i.rst && Drives([ABORT], u.bt, i.bus)
    ensures AbortInv(r, tab, UseNext(u, i))
  {
    hide Pow2, Clog2, Scheduler.Next, TraceNext, AxilNext, BusTraceNext, Quiet, Delivered, TopWf, ApplyAll;
    DeliveredEdge([ABORT], r, u.x.axil, u.bt, i.bus);
    AbortStrobes(r, u);
    var c := CoreIn(u.x, i);
    CoreWf(u.x);
    NextBanks(DEFAULTS, u.x.core, c);
    BanksHold(u.x.core.rd.banks, c.load, u.x.core.rd.raddr);
    if u.x.axil.abort {
      ResetQuiets(DEFAULTS, u.x.core, c);
    } else if |u.bt.writes| == 1 {
      QuietEdge(DEFAULTS, u.x.core, c);
    }
  }

  lemma CoreWf(x: Top)
    requires TopWf(x)
    ensures Scheduler.Wf(DEFAULTS, x.core)
  {}

  /** An abort write raises no other strobe. */
  lemma AbortStrobes(r: RegFile, u: Use)
    requires r.Wf() && Delivered([ABORT], r, u.x.axil, u.bt)
    ensures !u.x.axil.start && !u.x.axil.load && |u.bt.writes| <= 1
    ensures IsAbort(ABORT)
  {
    assert !Bit(2, 0) && Bit(2, 1);
  }

  lemma {:induction false} AbortKeepsInv(x: Top, tab: seq<seq<nat>>, ins: seq<TopIn>)
    requires TopWf(x) && Settled(x.axil) && Data(x.core.rd.banks) == tab
    requires Driven([ABORT], Opened(x), ins)
    ensures AbortInv(x.axil.regs, tab, UseAfter(Opened(x), ins))
  {
    hide Pow2, Clog2;
    if ins == [] {
      DeliveredStart([ABORT], x.axil);
    } else {
      hide AbortInv, UseNext, Drives, TopWf, Delivered;
      var n := |ins| - 1;
      AbortKeepsInv(x, tab, ins[..n]);
      AbortEdge(x.axil.regs, tab, UseAfter(Opened(x), ins[..n]), ins[n]);
    }
  }

  /** Writing the abort bit, whatever the core is doing, ends at rest over the same table with the
      same registers, once the write has been answered. */
  lemma AbortRests(x: Top, tab: seq<seq<nat>>, ins: seq<TopIn>)
    requires TopWf(x) && Settled(x.axil) && Data(x.core.rd.banks) == tab
    requires Driven([ABORT], Opened(x), ins) && UseAfter(Opened(x), ins).bt.responses == 1
    ensures var y := UseAfter(Opened(x), ins).x;
      AtRest(y) && Data(y.core.rd.banks) == tab && y.axil.regs == x.axil.regs
  {
    hide TopWf, UseAfter, Driven;
    AbortKeepsInv(x, tab, ins);
    AbortOver(x.axil.regs, tab, UseAfter(Opened(x), ins));
  }

  lemma AbortOver(r: RegFile, tab: seq<seq<nat>>, u: Use)
    requires AbortInv(r, tab, u) && u.bt.responses == 1
    ensures AtRest(u.x) && Data(u.x.core.rd.banks) == tab && u.x.axil.regs == r
  {
    hide Quiet;
    assert [ABORT][..1] == [ABORT];
    assert ApplyAll(r, [ABORT]) == r by { assert [ABORT][..0] == []; }
  }

  /** An abort written in the middle of a query leaves the design at rest over the query's table:
      the next query runs as from reset. */
  lemma AbortMidQuery(q: Query.Spec, x: Top, tab: seq<seq<nat>>, ins: seq<TopIn>, more: seq<TopIn>)
    requires AtRest(x) && Data(x.core.rd.banks) == tab
    requires Runnable(q) && JobOf(q, x.axil.regs, tab).Ok()
    requires Driven(Query.Compile(q).0, Opened(x), ins)
    requires UseAfter(Opened(x), ins).bt.responses == |Query.Compile(q).0|
    requires var y := UseAfter(Opened(x), ins).x;
      Driven([ABORT], Opened(y), more) && UseAfter(Opened(y), more).bt.responses == 1
    ensures var y := UseAfter(Opened(x), ins).x;
      var z := UseAfter(Opened(y), more).x;
      AtRest(z) && Data(z.core.rd.banks) == tab && z.axil.regs == y.axil.regs
  {
    hide Query.Compile, AtRest, TopWf, Driven, UseAfter, UseInv;
    UseKeepsInv(q, x, tab, ins);
    var u := UseAfter(Opened(x), ins);
    MidQuery(Query.Compile(q).0, x.axil.regs, JobOf(q, x.axil.regs, tab), u);
    AbortRests(u.x, tab, more);
  }

  /** With every write answered no strobe is up, and the table is the job's. */
  lemma MidQuery(ws: seq<Write>, r: RegFile, j: Job, u: Use)
    requires r.Wf() && UseInv(ws, r, j, u) && u.bt.responses == |ws|
    ensures Settled(u.x.axil) && Data(u.x.core.rd.banks) == j.tab
  {
    hide Pow2, Clog2, Quiet, AggInv;
  }

  // ------------------------------------------------------------------ done stays done

  lemma AnsweredRuns(ws: seq<Write>, r: RegFile, j: Job, u: Use)
    requires r.Wf() && UseInv(ws, r, j, u) && u.bt.responses == |ws|
    ensures Running(ws, r, j, u)
  {
    hide RunInv, Waiting;
  }

  lemma RunningDone(ws: seq<Write>, r: RegFile, j: Job, u: Use)
    requires r.Wf() && Running(ws, r, j, u) && j.d == DEFAULTS && u.x.core.fsm == Done
    ensures Quiet(DEFAULTS, u.x.core) && u.bt.responses + (if u.x.axil.bvalid then 1 else 0) == |ws|
  {
    hide Pow2, Clog2, Quiet, AggInv;
  }

  /** A finished query stays finished until something new is asked. */
  lemma {:induction false} DoneStays(q: Query.Spec, r: RegFile, tab: seq<seq<nat>>, u: Use, rest: seq<TopIn>)
    requires r.Wf() && Runnable(q) && JobOf(q, r, tab).Ok() && TopWf(u.x)
    requires Running(Query.Compile(q).0, r, JobOf(q, r, tab), u) && u.x.core.fsm == Done
    requires Driven(Query.Compile(q).0, u, rest)
    ensures Running(Query.Compile(q).0, r, JobOf(q, r, tab), UseAfter(u, rest)) && UseAfter(u, rest).x.core.fsm == Done
  {
    hide Pow2, Clog2, Query.Compile, Running, Scheduler.Next, UseNext, TraceNext, Drives, CoreIn, TopWf, Job.Ok,
         Quiet;
    if rest == [] {
    } else {
      var n, v := |rest| - 1, UseAfter(u, rest[..|rest| - 1]);
      DoneStays(q, r, tab, u, rest[..n]);
      RunningEdge(q, r, tab, v, rest[n]);
      JobIsShipped(q, r, tab);
      RunningDone(Query.Compile(q).0, r, JobOf(q, r, tab), v);
      QuietEdge(DEFAULTS, v.x.core, CoreIn(v.x, rest[n]));
    }
  }

  lemma JobIsShipped(q: Query.Spec, r: RegFile, tab: seq<seq<nat>>)
    requires r.Wf()
    ensures JobOf(q, r, tab).d == DEFAULTS
  {}

  // ------------------------------------------------------------------ results read over the bus

  /** Read k of a list is of this register. */
  predicate Of(got: seq<Read>, k: nat, word: nat) {
    k < |got| && WordOf(got[k].addr) == word
  }

  /** The answer of a finished classic query, in the core's registers. */
  lemma ClassicLatched(q: Query.Spec, x: Top, tab: seq<seq<nat>>, ins: seq<TopIn>)
    requires AtRest(x) && Data(x.core.rd.banks) == tab
    requires Runnable(q) && q.groupby.None? && JobOf(q, x.axil.regs, tab).Ok()
    requires Driven(Query.Compile(q).0, Opened(x), ins)
    requires UseAfter(Opened(x), ins).bt.responses == |Query.Compile(q).0|
    requires UseAfter(Opened(x), ins).x.core.fsm == Done
    ensures var c := UseAfter(Opened(x), ins).x.core;
      ClassicAnswered(q, RowMajor(DEFAULTS.numRows, tab), c.count, c.result) && !c.overflow
  {
    hide TopWf, Query.Compile, AtRest, UseAfter, Driven, JobOf, ClassicAnswered, ReadWord, ReadAccum, Bit;
    ClassicEndToEnd(q, x, tab, ins);
    ReadsLatched(UseAfter(Opened(x), ins).x);
  }

  /** Once a status read taken after the start write was answered shows the done bit, every read
      after it finds the query's answer in the core. */
  lemma PolledDone(q: Query.Spec, x: Top, tab: seq<seq<nat>>, ins: seq<TopIn>, p: nat, k: nat)
    requires AtRest(x) && Data(x.core.rd.banks) == tab
    requires Runnable(q) && JobOf(q, x.axil.regs, tab).Ok()
    requires Driven(Query.Compile(q).0, Opened(x), ins)
    requires var got := ReadsAfter(Opened(x), ins).got;
      && Of(got, p, REG_STATUS) && Bit(got[p].data, 1) && p <= k < |got| && got[p].edge <= |ins|
      && UseAfter(Opened(x), ins[..got[p].edge]).bt.responses == |Query.Compile(q).0|
    ensures var got := ReadsAfter(Opened(x), ins).got;
      && got[k].edge < |ins|
      && (var u := UseAfter(Opened(x), ins[..got[k].edge]);
          && Driven(Query.Compile(q).0, Opened(x), ins[..got[k].edge])
          && u.bt.responses == |Query.Compile(q).0| && u.x.core.fsm == Done
          && got[k].data == ReadMux(u.x.axil.regs, got[k].addr, u.x.core))
  {
    hide Pow2, Clog2, Query.Compile, TopWf, UseAfter, Driven, AtRest, Running, ReadMux, Bit, JobOf, UseInv, WordOf,
         ReadsAfter;
    var ws, r := Query.Compile(q).0, x.axil.regs;
    var got := ReadsAfter(Opened(x), ins).got;
    ReadEdges(ws, x, ins, p, k);
    var a, b := got[p].edge, got[k].edge;
    var u, rest := UseAfter(Opened(x), ins[..a]), ins[..b][a..];
    MuxWords(u.x.axil.regs, got[p].addr, u.x.core);
    UseKeepsInv(q, x, tab, ins[..a]);
    AnsweredRuns(ws, r, JobOf(q, r, tab), u);
    DoneStays(q, r, tab, u, rest);
    JobIsShipped(q, r, tab);
    RunningDone(ws, r, JobOf(q, r, tab), UseAfter(Opened(x), ins[..b]));
    ResponsesGrow(u, rest);
  }

  /** A master that polls after the start write was answered reads 1 while the query runs and 2 once
      it is done, and after a 2 only 2. */
  lemma PolledStatus(q: Query.Spec, x: Top, tab: seq<seq<nat>>, ins: seq<TopIn>, p: nat, k: nat)
    requires AtRest(x) && Data(x.core.rd.banks) == tab
    requires Runnable(q) && JobOf(q, x.axil.regs, tab).Ok()
    requires Driven(Query.Compile(q).0, Opened(x), ins)
    requires var got := ReadsAfter(Opened(x), ins).got;
      && Of(got, p, REG_STATUS) && Of(got, k, REG_STATUS) && p <= k && got[p].edge <= |ins|
      && UseAfter(Opened(x), ins[..got[p].edge]).bt.responses == |Query.Compile(q).0|
    ensures var got := ReadsAfter(Opened(x), ins).got;
      && got[p].data == (if UseAfter(Opened(x), ins[..got[p].edge]).x.core.fsm == Done then 2 else 1)
      && (got[p].data == 2 ==> got[k].data == 2)
  {
    hide Pow2, Clog2, Query.Compile, TopWf, UseAfter, Driven, AtRest, ReadMux, JobOf, WordOf, ReadsAfter;
    var got := ReadsAfter(Opened(x), ins).got;
    ReadEdges(Query.Compile(q).0, x, ins, p, k);
    StatusShown(q, x, tab, ins[..got[p].edge], got[p].addr);
    if got[p].data == 2 {
      assert Bit(2, 1);
      PolledDone(q, x, tab, ins, p, k);
      StatusShown(q, x, tab, ins[..got[k].edge], got[k].addr);
    }
  }

  /** Two reads of a run: the later is answered on a later edge, each with what its edge shows. */
  lemma ReadEdges(ws: seq<Write>, x: Top, ins: seq<TopIn>, p: nat, k: nat)
    requires AtRest(x) && Driven(ws, Opened(x), ins) && p <= k < |ReadsAfter(Opened(x), ins).got|
    ensures var got := ReadsAfter(Opened(x), ins).got;
      var a, b := got[p].edge, got[k].edge;
      && a <= b < |ins|
      && Answers(Opened(x), ins, got[p]) && Answers(Opened(x), ins, got[k])
      && Driven(ws, Opened(x), ins[..a]) && Driven(ws, Opened(x), ins[..b])
      && Driven(ws, UseAfter(Opened(x), ins[..a]), ins[..b][a..])
      && UseAfter(Opened(x), ins[..b]) == UseAfter(UseAfter(Opened(x), ins[..a]), ins[..b][a..])
  {
    hide TopWf, UseAfter, Driven, AtRest, ReadsAfter, Answers;
    RestHandshake(x);
    NoResets(ws, Opened(x), ins);
    ReadsAnswered(Opened(x), ins);
    var a, b := ReadsAfter(Opened(x), ins).got[p].edge, ReadsAfter(Opened(x), ins).got[k].edge;
    assert a <= b;
    UseSplits(ws, Opened(x), ins, a);
    UseSplits(ws, Opened(x), ins, b);
    UseSplits(ws, Opened(x), ins[..b], a);
    assert ins[..b][..a] == ins[..a];
  }

  lemma RestHandshake(x: Top)
    requires AtRest(x)
    ensures Handshake(x.axil) && TopWf(x)
  {}

  lemma {:induction false} NoResets(ws: seq<Write>, u: Use, ins: seq<TopIn>)
    requires TopWf(u.x) && Driven(ws, u, ins)
    ensures forall k | 0 <= k < |ins| :: !ins[k].rst
  {
    hide TopWf, UseAfter, Drives;
    if ins == [] {
    } else {
      NoResets(ws, u, ins[..|ins| - 1]);
    }
  }

  /** Collecting a classic result over the bus: after a status read that shows done, the five
      result reads, in any order and at any pace among any others, join to the query's answer. */
  lemma ClassicCollected(q: Query.Spec, x: Top, tab: seq<seq<nat>>, ins: seq<TopIn>,
                         p: nat, cl: nat, ch: nat, rl: nat, rh: nat, ov: nat)
    requires AtRest(x) && Data(x.core.rd.banks) == tab
    requires Runnable(q) && q.groupby.None? && JobOf(q, x.axil.regs, tab).Ok()
    requires Driven(Query.Compile(q).0, Opened(x), ins)
    requires var got := ReadsAfter(Opened(x), ins).got;
      && Of(got, p, REG_STATUS) && Bit(got[p].data, 1) && got[p].edge <= |ins|
      && UseAfter(Opened(x), ins[..got[p].edge]).bt.responses == |Query.Compile(q).0|
      && p < cl && p < ch && p < rl && p < rh && p < ov
      && Of(got, cl, REG_COUNT) && Of(got, ch, REG_COUNT_HI)
      && Of(got, rl, REG_RESULT) && Of(got, rh, REG_RESULT_HI) && Of(got, ov, REG_OVERFLOW)
    ensures var got := ReadsAfter(Opened(x), ins).got;
      && ClassicAnswered(q, RowMajor(DEFAULTS.numRows, tab), ReadAccum(got[cl].data, got[ch].data),
                         ReadAccum(got[rl].data, got[rh].data))
      && got[ov].data == 0
  {
    hide Query.Compile, TopWf, AtRest, UseAfter, Driven, ReadsAfter, JobOf, ClassicAnswered, ReadAccum, Bit, ReadMux,
         WordOf, RowMajor;
    hide ClassicCount, ClassicResult;
    Collect(q, x, tab, ins, p, cl);
    Collect(q, x, tab, ins, p, ch);
    Collect(q, x, tab, ins, p, rl);
    Collect(q, x, tab, ins, p, rh);
    Collect(q, x, tab, ins, p, ov);
    JoinWords(ClassicCount(q, RowMajor(DEFAULTS.numRows, tab)));
    JoinWords(ClassicResult(q, RowMajor(DEFAULTS.numRows, tab)));
  }

  /** What one read after the poll returns. */
  lemma Collect(q: Query.Spec, x: Top, tab: seq<seq<nat>>, ins: seq<TopIn>, p: nat, k: nat)
    requires AtRest(x) && Data(x.core.rd.banks) == tab
    requires Runnable(q) && q.groupby.None? && JobOf(q, x.axil.regs, tab).Ok()
    requires Driven(Query.Compile(q).0, Opened(x), ins)
    requires var got := ReadsAfter(Opened(x), ins).got;
      && Of(got, p, REG_STATUS) && Bit(got[p].data, 1) && p <= k < |got| && got[p].edge <= |ins|
      && UseAfter(Opened(x), ins[..got[p].edge]).bt.responses == |Query.Compile(q).0|
    ensures var got := ReadsAfter(Opened(x), ins).got;
      var table := RowMajor(DEFAULTS.numRows, tab);
      var count, result := ClassicCount(q, table), ClassicResult(q, table);
      && ClassicAnswered(q, table, count, result)
      && (Of(got, k, REG_COUNT) ==> got[k].data == count % WORD)
      && (Of(got, k, REG_COUNT_HI) ==> got[k].data == count / WORD)
      && (Of(got, k, REG_RESULT) ==> got[k].data == result % WORD)
      && (Of(got, k, REG_RESULT_HI) ==> got[k].data == result / WORD)
      && (Of(got, k, REG_OVERFLOW) ==> got[k].data == 0)
  {
    hide Query.Compile, TopWf, AtRest, UseAfter, Driven, ReadsAfter, JobOf, QueryVals, Answer, Query.Projected, Bit,
         ReadMux, WordOf, Reference.Masked, Reference.Undisturbed, RowMajor, ClassicCount, ClassicResult;
    PolledDone(q, x, tab, ins, p, k);
    var got := ReadsAfter(Opened(x), ins).got;
    var u := UseAfter(Opened(x), ins[..got[k].edge]);
    ClassicLatched(q, x, tab, ins[..got[k].edge]);
    MuxWords(u.x.axil.regs, got[k].addr, u.x.core);
  }

  // ------------------------------------------------------------------ from reset to the answer

  /** A list of rows is column data for the shipped design. */
  predicate RowsAreData(rows: seq<seq<nat>>) {
    && |rows| <= DEFAULTS.numRows
    && (forall k | 0 <= k < |rows| :: |rows[k]| == NUM_COLS)
    && forall k, c | 0 <= k < |rows| && 0 <= c < |rows[k]| :: rows[k][c] < WORD
  }

  /** Every column of a table has the design's depth and holds column data. */
  predicate TableIsData(tab: seq<seq<nat>>) {
    && |tab| == NUM_COLS
    && (forall c | 0 <= c < |tab| :: |tab[c]| == DEFAULTS.numRows)
    && forall c, k | 0 <= c < |tab| && 0 <= k < |tab[c]| :: tab[c][k] < WORD
  }

  lemma {:induction false} StoredIsData(tab: seq<seq<nat>>, rows: seq<seq<nat>>)
    requires TableIsData(tab) && RowsAreData(rows)
    ensures TableIsData(StoredAll(tab, rows))
  {
    if rows == [] {
    } else {
      var n := |rows| - 1;
      StoredIsData(tab, rows[..n]);
      StoredStep(StoredAll(tab, rows[..n]), n, rows[n]);
    }
  }

  lemma StoredStep(tab: seq<seq<nat>>, a: nat, row: seq<nat>)
    requires TableIsData(tab) && a < DEFAULTS.numRows && |row| == NUM_COLS
    requires forall c | 0 <= c < |row| :: row[c] < WORD
    ensures TableIsData(Stored(tab, a, row))
  {
    var t := Stored(tab, a, row);
    forall c, k | 0 <= c < |t| && 0 <= k < |t[c]| ensures t[c][k] < WORD {
      if k == a { assert t[c][k] == row[c]; } else { assert t[c][k] == tab[c][k]; }
    }
  }

  /** Banks of column data make any runnable query's job well formed. */
  lemma DataJobOk(q: Query.Spec, r: RegFile, tab: seq<seq<nat>>)
    requires r.Wf() && TableIsData(tab)
    ensures JobOf(q, r, tab).Ok()
  {
    hide Query.Compile, Pow2, Clog2;
    ShippedWidths();
  }

  /** Over at most the rows loaded, the table in the banks reads as the rows loaded. */
  lemma LoadedReads(tab: seq<seq<nat>>, rows: seq<seq<nat>>, k: nat)
    requires TableIsData(tab) && RowsAreData(rows) && k < |rows|
    ensures Reference.RowAt(NUM_COLS, RowMajor(DEFAULTS.numRows, StoredAll(tab, rows)), k)
         == Reference.RowAt(NUM_COLS, rows, k)
  {
    TableLoaded(tab, rows, k);
  }

  lemma {:induction false} SameVals(q: Query.Spec, col: nat, t: seq<seq<nat>>, u: seq<seq<nat>>, n: nat)
    requires forall k | 0 <= k < n :: Reference.RowAt(NUM_COLS, t, k) == Reference.RowAt(NUM_COLS, u, k)
    ensures QueryVals(q, col, t, n) == QueryVals(q, col, u, n)
  {
    if n == 0 {
    } else {
      SameVals(q, col, t, u, n - 1);
    }
  }

  lemma SameRows(q: Query.Spec, t: seq<seq<nat>>, u: seq<seq<nat>>, n: nat)
    requires q.agg.Some? && q.groupby.Some?
    requires forall k | 0 <= k < n :: Reference.RowAt(NUM_COLS, t, k) == Reference.RowAt(NUM_COLS, u, k)
    ensures QueryRows(q, t, n) == QueryRows(q, u, n)
  {
    hide Query.ClausesHold;
  }

  /** The design has been reset on edge i and the rows loaded over the bus. */
  ghost predicate Loaded(x: Top, i: TopIn, rows: seq<seq<nat>>, runs: seq<seq<TopIn>>)
    ensures Loaded(x, i, rows, runs) ==> TopWf(x)
  {
    && TopWf(x) && i.rst && RowsAreData(rows) && |runs| == |rows|
    && var y := TopNext(x, i);
    TableIsData(Data(y.core.rd.banks)) && LoadsAll(y, rows, runs)
  }

  function LoadedFrom(x: Top, i: TopIn, runs: seq<seq<TopIn>>): (y: Top)
    requires TopWf(x)
    ensures TopWf(y)
  {
    LoadedTop(TopNext(x, i), runs)
  }

  /** A loaded design is at rest, runs any runnable query, and scans the rows loaded. */
  lemma LoadedReady(x: Top, i: TopIn, rows: seq<seq<nat>>, runs: seq<seq<TopIn>>, q: Query.Spec)
    requires Loaded(x, i, rows, runs) && Runnable(q) && RowsScanned(q) <= |rows|
    ensures var y := LoadedFrom(x, i, runs);
      var tab := Data(y.core.rd.banks);
      && AtRest(y) && JobOf(q, y.axil.regs, tab).Ok()
      && QueryVals(q, q.agg.value.1, RowMajor(DEFAULTS.numRows, tab), RowsScanned(q))
         == QueryVals(q, q.agg.value.1, rows, RowsScanned(q))
      && (q.groupby.Some? ==>
            QueryRows(q, RowMajor(DEFAULTS.numRows, tab), RowsScanned(q)) == QueryRows(q, rows, RowsScanned(q)))
  {
    hide Query.Compile, TopWf, AtRest, LoadsAll, StoredAll, TableIsData, RowMajor, Reference.RowAt, TopNext,
         QueryVals, QueryRows;
    var t0, n := Data(TopNext(x, i).core.rd.banks), RowsScanned(q);
    ResetRests(x, i);
    TableOverBus(TopNext(x, i), t0, rows, runs);
    StoredIsData(t0, rows);
    var tab := StoredAll(t0, rows);
    DataJobOk(q, LoadedFrom(x, i, runs).axil.regs, tab);
    forall k | 0 <= k < n
      ensures Reference.RowAt(NUM_COLS, RowMajor(DEFAULTS.numRows, tab), k) == Reference.RowAt(NUM_COLS, rows, k)
    {
      LoadedReads(t0, rows, k);
    }
    SameVals(q, q.agg.value.1, RowMajor(DEFAULTS.numRows, tab), rows, n);
    if q.groupby.Some? { SameRows(q, RowMajor(DEFAULTS.numRows, tab), rows, n); }
  }

  /** From reset in any state, through a table loaded row by row, to the answer of a classic query:
      it is the answer over the rows loaded. */
  lemma ResetLoadClassic(x: Top, i: TopIn, rows: seq<seq<nat>>, runs: seq<seq<TopIn>>, q: Query.Spec, ins: seq<TopIn>)
    requires Loaded(x, i, rows, runs) && Runnable(q) && q.groupby.None? && RowsScanned(q) <= |rows|
    requires Driven(Query.Compile(q).0, Opened(LoadedFrom(x, i, runs)), ins)
    requires UseAfter(Opened(LoadedFrom(x, i, runs)), ins).bt.responses == |Query.Compile(q).0|
    ensures var z := UseAfter(Opened(LoadedFrom(x, i, runs)), ins).x;
      Bit(ReadWord(z, REG_STATUS), 1) ==>
        ClassicAnswered(q, rows, ReadAccum(ReadWord(z, REG_COUNT), ReadWord(z, REG_COUNT_HI)),
                        ReadAccum(ReadWord(z, REG_RESULT), ReadWord(z, REG_RESULT_HI)))
  {
    hide Query.Compile, TopWf, AtRest, Loaded, LoadedFrom, UseAfter, Driven, JobOf, QueryVals, QueryRows, Answer,
         Bit, ReadWord, ReadAccum, Query.Projected, RowMajor, Reference.Undisturbed, Reference.Masked;
    LoadedReady(x, i, rows, runs, q);
    var y := LoadedFrom(x, i, runs);
    ClassicEndToEnd(q, y, Data(y.core.rd.banks), ins);
  }

  /** And of a GROUP BY query. */
  lemma ResetLoadGroupby(x: Top, i: TopIn, rows: seq<seq<nat>>, runs: seq<seq<TopIn>>, q: Query.Spec, ins: seq<TopIn>)
    requires Loaded(x, i, rows, runs) && Runnable(q) && q.groupby.Some? && RowsScanned(q) <= |rows|
    requires Driven(Query.Compile(q).0, Opened(LoadedFrom(x, i, runs)), ins)
    requires UseAfter(Opened(LoadedFrom(x, i, runs)), ins).bt.responses == |Query.Compile(q).0|
    ensures var z := UseAfter(Opened(LoadedFrom(x, i, runs)), ins);
      Bit(ReadWord(z.x, REG_STATUS), 1) ==> GroupbyAnswered(q, rows, z.t.g.beats)
  {
    hide Pow2, Clog2, Query.Compile, TopWf, AtRest, Loaded, LoadedFrom, UseAfter, Driven, JobOf, QueryVals,
         QueryRows, Bit, ReadWord, Query.Projected, RowMajor, GroupbyProof.GroupsOf, Reference.IsDictionary,
         Reference.RefMap, Reference.Harmless, Reference.Distinct, Reference.SeenRows;
    LoadedReady(x, i, rows, runs, q);
    var y := LoadedFrom(x, i, runs);
    GroupbyEndToEnd(q, y, Data(y.core.rd.banks), ins);
  }

  // ------------------------------------------------------------------ a responsive master throughout

  /** A responsive master loads a row in twelve edges. */
  lemma EagerRow(a: nat, row: seq<nat>, x: Top)
    requires AtRest(x) && |row| == NUM_COLS
    ensures var run := EagerRun(LoadWrites(a, row), Opened(x), 12);
      Driven(LoadWrites(a, row), Opened(x), run) && UseAfter(Opened(x), run).bt.responses == NUM_COLS + 2
  {
    hide TopWf, Quiet, LoadWrites, UseAfter, Driven, EagerRun, Delivered, Pow2, Clog2;
    LoadShape(a, row);
    EagerDriven(LoadWrites(a, row), Opened(x), 12);
    EagerPace(LoadWrites(a, row), x, 12);
  }

  function EagerRowRun(y: Top, a: nat, row: seq<nat>): (run: seq<TopIn>)
    requires TopWf(y)
    ensures |run| == 12
  {
    EagerRun(LoadWrites(a, row), Opened(y), 12)
  }

  /** Its runs for the rows of a table. */
  function EagerLoads(x: Top, rows: seq<seq<nat>>): (runs: seq<seq<TopIn>>)
    requires TopWf(x)
    ensures |runs| == |rows|
  {
    if rows == [] then []
    else
      var n := |rows| - 1;
      var runs := EagerLoads(x, rows[..n]);
      runs + [EagerRowRun(LoadedTop(x, runs), n, rows[n])]
  }

  /** From rest, a responsive master loads any table of column data, twelve edges a row. */
  lemma {:induction false} ResponsiveLoad(x: Top, rows: seq<seq<nat>>)
    requires AtRest(x) && |rows| <= DEFAULTS.numRows && forall k | 0 <= k < |rows| :: |rows[k]| == NUM_COLS
    ensures LoadsAll(x, rows, EagerLoads(x, rows))
    ensures forall k | 0 <= k < |rows| :: |EagerLoads(x, rows)[k]| == 12
  {
    hide TopWf, AtRest, LoadWrites, UseAfter, Driven, EagerRun, LoadedTop, Pow2, Clog2;
    if rows == [] {
    } else {
      var n := |rows| - 1;
      var runs := EagerLoads(x, rows[..n]);
      ResponsiveLoad(x, rows[..n]);
      TableOverBus(x, Data(x.core.rd.banks), rows[..n], runs);
      EagerRow(n, rows[n], LoadedTop(x, runs));
      assert EagerLoads(x, rows)[..n] == runs;
    }
  }

  /** Reset met in any state, a table loaded by a responsive master, and a classic query written by
      it: the done bit shows from exactly 2n + 17 edges after the query's first write, with the
      answer over the rows loaded. */
  lemma ResponsiveFromReset(x: Top, i: TopIn, rows: seq<seq<nat>>, q: Query.Spec, k: nat)
    requires TopWf(x) && i.rst && RowsAreData(rows) && TableIsData(Data(TopNext(x, i).core.rd.banks))
    requires Runnable(q) && q.groupby.None? && RowsScanned(q) <= |rows| && k >= 16
    ensures var y := LoadedFrom(x, i, EagerLoads(TopNext(x, i), rows));
      var z := UseAfter(Opened(y), EagerRun(Query.Compile(q).0, Opened(y), k)).x;
      && (Bit(ReadWord(z, REG_STATUS), 1) <==> k >= 2 * RowsScanned(q) + 17)
      && (k >= 2 * RowsScanned(q) + 17 ==>
            ClassicAnswered(q, rows, ReadAccum(ReadWord(z, REG_COUNT), ReadWord(z, REG_COUNT_HI)),
                            ReadAccum(ReadWord(z, REG_RESULT), ReadWord(z, REG_RESULT_HI))))
  {
    hide Query.Compile, TopWf, AtRest, LoadsAll, LoadedFrom, EagerLoads, EagerRun, UseAfter, JobOf, QueryVals,
         QueryRows, Answer, Bit, ReadWord, ReadAccum, Query.Projected, RowMajor, Reference.Undisturbed,
         Reference.Masked, RowsAreData, TableIsData, TopNext, Pow2, Clog2;
    var runs := EagerLoads(TopNext(x, i), rows);
    ResetRests(x, i);
    DataRows(rows);
    ResponsiveLoad(TopNext(x, i), rows);
    LoadedReady(x, i, rows, runs, q);
    var y := LoadedFrom(x, i, runs);
    ResponsiveClassic(q, y, Data(y.core.rd.banks), k);
  }

  lemma DataRows(rows: seq<seq<nat>>)
    requires RowsAreData(rows)
    ensures |rows| <= DEFAULTS.numRows && forall k | 0 <= k < |rows| :: |rows[k]| == NUM_COLS
  {}
}
