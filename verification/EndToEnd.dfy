/** From a Python query to the numbers read back: compilation, register writes under any bus
    timing, execution, and the answer. */
module EndToEnd {
  import opened Bits
  import opened RefTable
  import opened DbPkg
  import opened Operators
  import opened Aggregation
  import opened AxiLite
  import opened Scheduler
  import opened PipelineProof
  import opened QueryProof
  import opened DbqaTop
  import opened Delivery
  import opened HistoryProof
  import Query
  import Reference
  import GroupbyEngine
  import GroupbyProof

  // ------------------------------------------------------------------ what a query asks for

  /** A column's values over the rows among the first n on which every clause holds. */
  function QueryVals(q: Query.Spec, col: nat, table: seq<seq<nat>>, n: nat): seq<nat> {
    if n == 0 then []
    else
      var row := Reference.RowAt(NUM_COLS, table, n - 1);
      var vs := QueryVals(q, col, table, n - 1);
      if Query.ClausesHold(q, row) then vs + [Col(row, col)] else vs
  }

  /** Key and value of each of the first n rows, passing where every clause holds. */
  function QueryRows(q: Query.Spec, table: seq<seq<nat>>, n: nat): (rs: seq<Row>)
    requires q.agg.Some? && q.groupby.Some?
    ensures |rs| == n
  {
    seq(n, k requires 0 <= k < n =>
      var row := Reference.RowAt(NUM_COLS, table, k);
      Row(Query.ClausesHold(q, row), Col(row, q.groupby.value), Col(row, q.agg.value.1), k + 1 == n))
  }

  /** The same rows as they reach the engine: a column not selected reads as zero. */
  function GroupedRows(q: Query.Spec, table: seq<seq<nat>>, n: nat): seq<Row>
    requires q.agg.Some? && q.groupby.Some?
  {
    Reference.SeenRows(Query.Projected(q, q.groupby.value), Query.Projected(q, q.agg.value.1), QueryRows(q, table, n))
  }

  /** The query the hardware will run after the writes of q over registers r. */
  function JobOf(q: Query.Spec, r: RegFile, tab: seq<seq<nat>>): Job
    requires r.Wf()
  {
    Job(DEFAULTS, ApplyAll(r, Query.Compile(q).0).Config(), tab)
  }

  predicate Runnable(q: Query.Spec) {
    Query.WellFormed(q) && Query.InTable(q) && Query.SelectKnown(q)
  }

  lemma {:induction false} SelectedIsQueryVals(q: Query.Spec, preds: seq<Pred>, col: nat, table: seq<seq<nat>>, n: nat)
    requires forall row :: Passes(preds, row) <==> Query.ClausesHold(q, row)
    ensures Reference.Selected(NUM_COLS, preds, col, table, n) == QueryVals(q, col, table, n)
  {
    if n == 0 {
    } else {
      SelectedIsQueryVals(q, preds, col, table, n - 1);
    }
  }

  // ------------------------------------------------------------------ driving the bus

  ghost predicate Waiting(j: Job, core: Sched) {
    Quiet(DEFAULTS, core) && core.fsm != Scan && Data(core.rd.banks) == j.tab
  }

  /** The bus side: the writes arrive in order, and the start strobe only with the last. */
  ghost predicate BusInv(ws: seq<Write>, r: RegFile, a: Axil, bt: BusTrace)
    requires r.Wf()
  {
    Delivered(ws, r, a, bt) && !a.abort && !a.load && (a.start ==> |bt.writes| == |ws|)
  }

  /** While writes remain the core waits; the start strobe follows the last capture by one edge,
      before its response can be taken; then the query runs. */
  ghost predicate UseInv(ws: seq<Write>, r: RegFile, j: Job, u: Use)
    requires r.Wf()
  {
    var n := |u.bt.writes|;
    && BusInv(ws, r, u.x.axil, u.bt) && Scheduler.Wf(DEFAULTS, u.x.core)
    && (if n < |ws| || u.x.axil.start then Waiting(j, u.x.core) else RunInv(j, u.x.core, u.t))
  }

  /** A compiled query's writes: configuration, then the start bit. */
  lemma CompiledShape(q: Query.Spec)
    requires Runnable(q)
    ensures var ws := Query.Compile(q).0;
      && |ws| == 8 && ws[7] == Write(REG_CTRL, 1)
      && (forall k | 0 <= k < 7 :: ws[k].word != REG_CTRL && ws[k].word != REG_LOAD_ROW)
      && forall k | 0 <= k < 8 :: ws[k].word < 0x40
  {
    Query.CompileErrs(q);
    assert Query.Compile(q).0[..4][0].word == 8;
    hide Query.Compile;
    forall k | 0 <= k < 4 ensures Query.Compile(q).0[k].word == REG_PRED_BASE + k {
      assert Query.Compile(q).0[..4][k] == Query.Compile(q).0[k];
    }
  }

  lemma UseEdge(q: Query.Spec, r: RegFile, tab: seq<seq<nat>>, u: Use, i: TopIn)
    requires r.Wf() && Runnable(q) && JobOf(q, r, tab).Ok()
    requires UseInv(Query.Compile(q).0, r, JobOf(q, r, tab), u)
    requires !i.rst && Drives(Query.Compile(q).0, u.bt, i.bus)
    ensures UseInv(Query.Compile(q).0, r, JobOf(q, r, tab), UseNext(u, i))
  {
    hide Query.Compile, Scheduler.Next, Waiting, RunInv, TraceNext, AxilNext, BusTraceNext, Handshake;
    var ws := Query.Compile(q).0;
    CompiledShape(q);
    BusEdge(ws, r, u.x.axil, u.bt, i.bus);
    CoreEdge(q, r, tab, u, i);
  }

  /** The bus side of an edge: the strobe rises exactly with the last capture. */
  lemma BusEdge(ws: seq<Write>, r: RegFile, a: Axil, bt: BusTrace, b: Bus)
    requires r.Wf() && BusInv(ws, r, a, bt) && Drives(ws, bt, b)
    requires |ws| == 8 && ws[7] == Write(REG_CTRL, 1)
    requires forall k | 0 <= k < 7 :: ws[k].word != REG_CTRL && ws[k].word != REG_LOAD_ROW
    ensures BusInv(ws, r, AxilNext(a, b), BusTraceNext(a, b, bt))
    ensures AxilNext(a, b).start <==> |BusTraceNext(a, b, bt).writes| == |ws| && |bt.writes| < |ws|
    ensures |BusTraceNext(a, b, bt).writes| >= |bt.writes|
  {
    hide Delivered, AxilNext, BusTraceNext;
    DeliveredEdge(ws, r, a, bt, b);
    DeliveredSize(ws, r, a, bt);
    assert Bit(1, 0) && !Bit(1, 1);
  }

  /** The core side of an edge. */
  lemma CoreEdge(q: Query.Spec, r: RegFile, tab: seq<seq<nat>>, u: Use, i: TopIn)
    requires r.Wf() && Runnable(q) && JobOf(q, r, tab).Ok()
    requires UseInv(Query.Compile(q).0, r, JobOf(q, r, tab), u) && !i.rst
    ensures var j, u' := JobOf(q, r, tab), UseNext(u, i);
      if |u.bt.writes| < |Query.Compile(q).0| then Waiting(j, u'.x.core) else RunInv(j, u'.x.core, u'.t)
  {
    hide Query.Compile, Scheduler.Next, Quiet, RunInv, TraceNext, AxilNext, BusTraceNext, TopWf, Job.Ok, ApplyWrite,
         Pow2, Clog2;
    var ws, j := Query.Compile(q).0, JobOf(q, r, tab);
    var n, c := |u.bt.writes|, CoreIn(u.x, i);
    assert ws[..|ws|] == ws;
    if u.x.axil.start {
      StartEdge(j, u.x.core, c);
    } else if n < |ws| {
      QuietEdge(DEFAULTS, u.x.core, c);
    } else {
      RunEdge(j, u.x.core, c, u.t);
    }
  }

  /** A top level at rest: no handshake open, no strobe, the core between queries. */
  ghost predicate AtRest(x: Top)
    ensures AtRest(x) ==> TopWf(x)
  {
    Settled(x.axil) && Quiet(DEFAULTS, x.core) && x.core.fsm != Scan
  }

  /** Reset, met in any state, puts the top level at rest. */
  lemma ResetRests(x: Top, i: TopIn)
    requires TopWf(x) && i.rst
    ensures AtRest(TopNext(x, i)) && TopNext(x, i).core.fsm == Idle
  {
    hide Pow2, Clog2, Scheduler.Next;
    ResetQuiets(DEFAULTS, x.core, CoreIn(x, i));
  }

  /** And every word then reads zero. */
  lemma ResetReadsZero(x: Top, i: TopIn, addr: nat)
    requires TopWf(x) && i.rst
    ensures var y := TopNext(x, i); ReadMux(y.axil.regs, addr, y.core) == 0
  {
    hide Pow2, Clog2, ReadMux, WordOf;
    var y := TopNext(x, i);
    MuxWords(y.axil.regs, addr, y.core);
    if Writable(WordOf(addr)) { ZeroReads(addr, y.core); }
    var v := ReadMux(y.axil.regs, addr, y.core);
    assert Bit(v, 0) == (v % 2 == 1) && Bit(v, 1) == (v / 2 % 2 == 1);
  }

  /** A query that is done, its start write answered, leaves the top level at rest again over
      the same table: queries compose. */
  lemma DoneRests(q: Query.Spec, x: Top, tab: seq<seq<nat>>, ins: seq<TopIn>)
    requires AtRest(x) && Data(x.core.rd.banks) == tab
    requires Runnable(q) && JobOf(q, x.axil.regs, tab).Ok()
    requires Driven(Query.Compile(q).0, Opened(x), ins)
    requires UseAfter(Opened(x), ins).bt.responses == |Query.Compile(q).0|
    requires UseAfter(Opened(x), ins).x.core.fsm == Done
    ensures AtRest(UseAfter(Opened(x), ins).x) && Data(UseAfter(Opened(x), ins).x.core.rd.banks) == tab
  {
    hide Pow2, Clog2, Query.Compile, Scheduler.Next;
    UseKeepsInv(q, x, tab, ins);
    DoneRest(Query.Compile(q).0, x.axil.regs, JobOf(q, x.axil.regs, tab), UseAfter(Opened(x), ins));
  }

  lemma DoneRest(ws: seq<Write>, r: RegFile, j: Job, u: Use)
    requires r.Wf() && UseInv(ws, r, j, u) && u.bt.responses == |ws| && u.x.core.fsm == Done && j.d == DEFAULTS
    ensures AtRest(u.x) && Data(u.x.core.rd.banks) == j.tab
  {
    hide Pow2, Clog2, Quiet;
  }

  lemma {:induction false} UseKeepsInv(q: Query.Spec, x: Top, tab: seq<seq<nat>>, ins: seq<TopIn>)
    requires AtRest(x) && Data(x.core.rd.banks) == tab
    requires Runnable(q) && JobOf(q, x.axil.regs, tab).Ok()
    requires Driven(Query.Compile(q).0, Opened(x), ins)
    ensures UseInv(Query.Compile(q).0, x.axil.regs, JobOf(q, x.axil.regs, tab), UseAfter(Opened(x), ins))
  {
    hide Pow2, Clog2, Query.Compile, UseInv;
    if ins == [] {
      CompiledShape(q);
      RestInv(Query.Compile(q).0, x, JobOf(q, x.axil.regs, tab));
    } else {
      var n := |ins| - 1;
      UseKeepsInv(q, x, tab, ins[..n]);
      UseEdge(q, x.axil.regs, tab, UseAfter(Opened(x), ins[..n]), ins[n]);
    }
  }

  lemma RestInv(ws: seq<Write>, x: Top, j: Job)
    requires AtRest(x) && Data(x.core.rd.banks) == j.tab && ws != []
    ensures UseInv(ws, x.axil.regs, j, Opened(x))
  {
    hide Pow2, Clog2;
  }

  // ------------------------------------------------------------------ the answer

  /** The two words of an accumulator, joined as the control plane joins them. */
  function ReadAccum(low: nat, high: nat): nat {
    Or(Shl(high, 32), low)
  }

  function ReadWord(x: Top, word: nat): nat
    requires x.axil.regs.Wf()
  {
    ReadMux(x.axil.regs, 4 * word, x.core)
  }

  /** Reading the result registers gives the latched values back whole. */
  lemma ReadsLatched(x: Top)
    requires x.axil.regs.Wf()
    ensures ReadAccum(ReadWord(x, REG_RESULT), ReadWord(x, REG_RESULT_HI)) == x.core.result
    ensures ReadAccum(ReadWord(x, REG_COUNT), ReadWord(x, REG_COUNT_HI)) == x.core.count
    ensures ReadWord(x, REG_OVERFLOW) == if x.core.overflow then 1 else 0
    ensures Bit(ReadWord(x, REG_STATUS), 1) <==> x.core.fsm == Done
  {
    hide ReadAccum, Bit;
    JoinWords(x.core.result);
    JoinWords(x.core.count);
    StatusDone(x);
  }

  lemma JoinWords(v: nat)
    ensures ReadAccum(v % WORD, v / WORD) == v
  {
    hide Or;
    ShippedWidths();
    OrDisjoint(32, v / WORD, v % WORD);
    assert Shl(v / WORD, 32) == v / WORD * WORD by { hide Pow2; }
  }

  lemma StatusDone(x: Top)
    requires x.axil.regs.Wf()
    ensures Bit(ReadWord(x, REG_STATUS), 1) <==> x.core.fsm == Done
  {
    MuxWords(x.axil.regs, 4 * REG_STATUS, x.core);
  }

  /** Once the start write has been answered, the query is running or done, never a leftover of
      the last one, and it is the query compiled. */
  lemma QueryUnderWay(q: Query.Spec, x: Top, tab: seq<seq<nat>>, ins: seq<TopIn>)
    requires AtRest(x) && Data(x.core.rd.banks) == tab
    requires Runnable(q) && JobOf(q, x.axil.regs, tab).Ok()
    requires Driven(Query.Compile(q).0, Opened(x), ins)
    requires UseAfter(Opened(x), ins).bt.responses == |Query.Compile(q).0|
    ensures var u, j := UseAfter(Opened(x), ins), JobOf(q, x.axil.regs, tab);
      RunInv(j, u.x.core, u.t) && u.x.core.fsm != Idle && Query.Selects(q, j.cfg)
      && (Query.Denotes(q, j.cfg) <==> Query.LimitHonoured(q.numRows))
  {
    hide Pow2, Clog2, Query.Compile, RunInv, Scheduler.Next;
    UseKeepsInv(q, x, tab, ins);
    Started(Query.Compile(q).0, x.axil.regs, JobOf(q, x.axil.regs, tab), UseAfter(Opened(x), ins));
    Query.CompileSelects(x.axil.regs, q);
    Query.CompileDenotes(x.axil.regs, q);
  }

  /** The status word of a run begun by a start: busy while it scans, then done, and an error code
      of 1 exactly when a start pulse has met the running query. */
  lemma StatusOfRun(j: Job, r: RegFile, s: Sched, t: Trace, addr: nat)
    requires r.Wf() && RunInv(j, s, t) && WordOf(addr) == REG_STATUS
    ensures ReadMux(r, addr, s) == (if t.nags > 0 then 4 else 0) + if s.fsm == Done then 2 else 1
  {
    hide ScanInv, DoneInv, ReadMux, WordOf;
    MuxWords(r, addr, s);
    var v := ReadMux(r, addr, s);
    assert Bit(v, 0) == (v % 2 == 1) && Bit(v, 1) == (v / 2 % 2 == 1);
  }

  /** The status word after the edge that completes a query, from any state of the core: done, with
      code 2 for a SUM that overflowed, else code 1 for a start pulse on that edge, else as it was. */
  lemma StatusAtDone(r: RegFile, s: Sched, i: Scheduler.In, addr: nat)
    requires r.Wf() && Scheduler.Wf(DEFAULTS, s) && s.fsm == Scan && !i.rst && WordOf(addr) == REG_STATUS
    requires Scheduler.Next(DEFAULTS, s, i).fsm == Done
    ensures var v := ReadMux(r, addr, Scheduler.Next(DEFAULTS, s, i));
      && v % 4 == 2
      && v / 4 == if Scheduler.Next(DEFAULTS, s, i).overflow then 2 else if i.start then 1 else ErrorCode(s.error)
  {
    hide Pow2, Clog2, ReadMux, WordOf, AggNext;
    var y := Scheduler.Next(DEFAULTS, s, i);
    MuxWords(r, addr, y);
    var v := ReadMux(r, addr, y);
    assert Bit(v, 0) == (v % 2 == 1) && Bit(v, 1) == (v / 2 % 2 == 1);
  }

  /** In a query driven over the bus no start pulse meets the run it began. */
  lemma {:induction false} NeverRestarted(x: Top, ins: seq<TopIn>)
    requires TopWf(x)
    ensures UseAfter(Opened(x), ins).t.nags == 0
  {
    hide Scheduler.Next, AxilNext, TopNext, TopWf;
    if ins == [] {
    } else {
      NeverRestarted(x, ins[..|ins| - 1]);
    }
  }

  /** Once the start write has been answered the status reads 1 until the query is done, then 2. */
  lemma StatusShown(q: Query.Spec, x: Top, tab: seq<seq<nat>>, ins: seq<TopIn>, addr: nat)
    requires AtRest(x) && Data(x.core.rd.banks) == tab
    requires Runnable(q) && JobOf(q, x.axil.regs, tab).Ok()
    requires Driven(Query.Compile(q).0, Opened(x), ins)
    requires UseAfter(Opened(x), ins).bt.responses == |Query.Compile(q).0|
    requires WordOf(addr) == REG_STATUS
    ensures var y := UseAfter(Opened(x), ins).x;
      ReadMux(y.axil.regs, addr, y.core) == if y.core.fsm == Done then 2 else 1
  {
    hide Pow2, Clog2, Query.Compile, RunInv, Scheduler.Next, ReadMux, UseAfter, Driven, AtRest, JobOf,
         Query.Selects, Query.Denotes;
    QueryUnderWay(q, x, tab, ins);
    var u := UseAfter(Opened(x), ins);
    NeverRestarted(x, ins);
    StatusOfRun(JobOf(q, x.axil.regs, tab), u.x.axil.regs, u.x.core, u.t, addr);
  }

  /** When every response has been taken the strobe is over and the query under way. */
  lemma Started(ws: seq<Write>, r: RegFile, j: Job, u: Use)
    requires r.Wf() && UseInv(ws, r, j, u) && u.bt.responses == |ws|
    ensures RunInv(j, u.x.core, u.t) && u.x.core.fsm != Idle
  {
    hide Pow2, Clog2;
  }

  /** The rows a compiled query scans: those asked for exactly when the limit can be carried. */
  function RowsScanned(q: Query.Spec): (n: nat)
    ensures n == RowsAsked(DEFAULTS.numRows, q.numRows) <==> Query.LimitHonoured(q.numRows)
  {
    Query.LimitHonouredIff(q.numRows);
    ScanRows(DEFAULTS.numRows, Query.PackQuery(q.numRows))
  }

  /** What the job behind a query is, in the query's own terms. */
  lemma JobMeans(q: Query.Spec, r: RegFile, tab: seq<seq<nat>>)
    requires r.Wf() && Runnable(q)
    ensures var j, table := JobOf(q, r, tab), RowMajor(DEFAULTS.numRows, tab);
      && j.d == DEFAULTS && j.tab == tab && j.N() == RowsScanned(q)
      && Query.AggSelects(q, j.cfg.agg)
      && Bit(j.cfg.mask, q.agg.value.1) == Query.Projected(q, q.agg.value.1)
      && Reference.JobVals(j, j.N()) == QueryVals(q, q.agg.value.1, table, RowsScanned(q))
      && (q.groupby.Some? ==>
            && Bit(j.cfg.mask, q.groupby.value) == Query.Projected(q, q.groupby.value)
            && Reference.JobRows(j) == QueryRows(q, table, RowsScanned(q)))
  {
    hide Query.Compile, Passes, Bit;
    Query.CompiledRegisters(r, q);
    Query.CompileSelects(r, q);
    var j := JobOf(q, r, tab);
    SelectedIsQueryVals(q, j.cfg.preds, q.agg.value.1, RowMajor(DEFAULTS.numRows, tab), j.N());
    if q.groupby.Some? { RowsAreQueryRows(q, j); }
  }

  /** The answer shown is that of the selected values themselves exactly when they are undisturbed
      by the SELECT list. */
  lemma AnswerIff(q: Query.Spec, r: RegFile, tab: seq<seq<nat>>)
    requires r.Wf() && Runnable(q) && JobOf(q, r, tab).Ok()
    ensures var vs := QueryVals(q, q.agg.value.1, RowMajor(DEFAULTS.numRows, tab), RowsScanned(q));
      var on := Query.Projected(q, q.agg.value.1);
      Answer(DEFAULTS, q.agg.value.0, Reference.Masked(on, vs)) == Answer(DEFAULTS, q.agg.value.0, vs)
      <==> Reference.Undisturbed(q.agg.value.0, on, vs)
  {
    hide Query.Compile, Answer, QueryVals, Query.Projected, Reference.Undisturbed, Reference.Masked, Reference.JobVals,
         JobOf, Job.Ok, RowMajor, Bit;
    JobMeans(q, r, tab);
    var j := JobOf(q, r, tab);
    Reference.JobValsFit(j, j.N());
    assert DEFAULTS.Ok();
    Reference.MaskedAnswerIff(DEFAULTS, q.agg.value.0, Query.Projected(q, q.agg.value.1), Reference.JobVals(j, j.N()));
  }

  lemma RowsAreQueryRows(q: Query.Spec, j: Job)
    requires Query.InTable(q) && q.groupby.Some? && Query.Selects(q, j.cfg) && j.d == DEFAULTS
    ensures Reference.JobRows(j) == QueryRows(q, RowMajor(DEFAULTS.numRows, j.tab), j.N())
  {
    hide Passes;
    forall k | 0 <= k < j.N()
      ensures Reference.JobRows(j)[k] == QueryRows(q, RowMajor(DEFAULTS.numRows, j.tab), j.N())[k]
    {
      var row := Reference.RowAt(NUM_COLS, RowMajor(DEFAULTS.numRows, j.tab), k);
      assert Passes(j.cfg.preds, row) <==> Query.ClausesHold(q, row);
    }
  }

  /** The rows a classic query selects among those it scans of a table given as rows. */
  function ClassicCount(q: Query.Spec, table: seq<seq<nat>>): nat
    requires q.agg.Some?
  {
    |QueryVals(q, q.agg.value.1, table, RowsScanned(q))|
  }

  /** The aggregate of their values, or of as many zeros when the column is not in the SELECT
      list. */
  function ClassicResult(q: Query.Spec, table: seq<seq<nat>>): nat
    requires q.agg.Some?
  {
    var vs := QueryVals(q, q.agg.value.1, table, RowsScanned(q));
    Answer(DEFAULTS, q.agg.value.0, Reference.Masked(Query.Projected(q, q.agg.value.1), vs))
  }

  /** The answer of a classic query: the count, and a result that is the aggregate of the selected
      rows themselves exactly when they are undisturbed by the SELECT list. */
  predicate ClassicAnswered(q: Query.Spec, table: seq<seq<nat>>, count: nat, result: nat)
    requires q.agg.Some?
  {
    var vs := QueryVals(q, q.agg.value.1, table, RowsScanned(q));
    && count == ClassicCount(q, table) && result == ClassicResult(q, table)
    && (result == Answer(DEFAULTS, q.agg.value.0, vs)
        <==> Reference.Undisturbed(q.agg.value.0, Query.Projected(q, q.agg.value.1), vs))
  }

  /** The stream of a GROUP BY query over a table given as rows: one beat per key among the first
      256 distinct keys of the rows it selects, with the aggregates of all selected rows of that
      key, unselected columns reading as zero. That is the reference dictionary exactly when no
      row that passes has a nonzero key or value in an unselected column and there are at most 256
      distinct keys; and it is empty exactly when no row passes. */
  ghost predicate GroupbyAnswered(q: Query.Spec, table: seq<seq<nat>>, beats: seq<GroupbyEngine.GroupBeat>)
    requires q.agg.Some? && q.groupby.Some?
  {
    var b, m := DEFAULTS.Gb().B(), DEFAULTS.AccMax();
    var rows := QueryRows(q, table, RowsScanned(q));
    && GroupbyProof.GroupsOf(b, m, GroupedRows(q, table, RowsScanned(q)), beats)
    && (Reference.IsDictionary(beats, Reference.RefMap(m, rows)) <==>
          && Reference.Harmless(Query.Projected(q, q.groupby.value), Query.Projected(q, q.agg.value.1), rows)
          && |Reference.Distinct(rows)| <= b)
    && (beats == [] <==> forall k | 0 <= k < |rows| :: !rows[k].pass)
  }

  /** A classic query with no SELECT list of its own is answered from the true values. */
  lemma WholeRowClassic(q: Query.Spec, table: seq<seq<nat>>, count: nat, result: nat)
    requires Query.InTable(q) && q.select == Query.AllColumns(q.schema)
    requires exists p | p in q.schema :: p.1 == q.agg.value.1
    requires ClassicAnswered(q, table, count, result)
    ensures var vs := QueryVals(q, q.agg.value.1, table, RowsScanned(q));
      count == |vs| && result == Answer(DEFAULTS, q.agg.value.0, vs)
  {
    hide QueryVals, Answer, Reference.Masked, Query.Projected, RowsScanned;
    Query.AllProjected(q);
  }

  /** A GROUP BY query with no SELECT list of its own emits the reference dictionary whenever its
      rows hold at most 256 distinct keys. */
  lemma WholeRowGroupby(q: Query.Spec, table: seq<seq<nat>>, beats: seq<GroupbyEngine.GroupBeat>)
    requires Query.InTable(q) && q.groupby.Some? && q.select == Query.AllColumns(q.schema)
    requires exists p | p in q.schema :: p.1 == q.agg.value.1
    requires exists p | p in q.schema :: p.1 == q.groupby.value
    requires GroupbyAnswered(q, table, beats)
    ensures var rows := QueryRows(q, table, RowsScanned(q));
      Reference.IsDictionary(beats, Reference.RefMap(DEFAULTS.AccMax(), rows))
      <==> |Reference.Distinct(rows)| <= DEFAULTS.Gb().B()
  {
    hide Pow2, Clog2, QueryRows, Reference.IsDictionary, Reference.RefMap, Reference.Distinct, GroupbyProof.GroupsOf,
         Query.Projected, RowsScanned, Reference.SeenRows;
    Query.AllProjected(q);
  }

  /** What a finished job of a classic query has latched. */
  lemma ClassicJob(q: Query.Spec, r: RegFile, tab: seq<seq<nat>>, s: Sched, t: Trace)
    requires r.Wf() && Runnable(q) && q.groupby.None? && JobOf(q, r, tab).Ok()
    requires RunInv(JobOf(q, r, tab), s, t) && s.fsm == Done
    ensures ClassicAnswered(q, RowMajor(DEFAULTS.numRows, tab), s.count, s.result) && !s.overflow
  {
    hide Query.Compile, RunInv, Job.Ok, Answer, JobOf, QueryVals, Query.Projected, Bit, Reference.JobVals,
         Reference.Masked, Reference.Undisturbed, RowMajor, Pow2, Clog2;
    JobMeans(q, r, tab);
    AnswerIff(q, r, tab);
    Reference.ClassicMeetsReference(JobOf(q, r, tab), s, t);
  }

  /** What a finished job of a GROUP BY query has emitted. */
  lemma GroupbyJob(q: Query.Spec, r: RegFile, tab: seq<seq<nat>>, s: Sched, t: Trace)
    requires r.Wf() && Runnable(q) && q.groupby.Some? && JobOf(q, r, tab).Ok()
    requires RunInv(JobOf(q, r, tab), s, t) && s.fsm == Done
    ensures GroupbyAnswered(q, RowMajor(DEFAULTS.numRows, tab), t.g.beats)
  {
    hide Pow2, Clog2, Query.Compile, RunInv, Job.Ok, JobOf, QueryRows, Query.Projected, Bit, GroupbyProof.GroupsOf,
         RowMajor, Reference.IsDictionary, Reference.RefMap, Reference.Harmless, Reference.Distinct, Reference.SeenRows,
         Reference.JobRows;
    JobMeans(q, r, tab);
    Reference.GroupbyMeetsReference(JobOf(q, r, tab), s, t);
    Reference.SilentQueryIff(JobOf(q, r, tab), s, t);
  }

  /** It leaves no classic answer behind. */
  lemma GroupbyLatches(q: Query.Spec, r: RegFile, tab: seq<seq<nat>>, s: Sched, t: Trace)
    requires r.Wf() && Runnable(q) && q.groupby.Some?
    requires RunInv(JobOf(q, r, tab), s, t) && s.fsm == Done
    ensures s.result == 0 && s.count == 0 && !s.overflow
  {
    hide Pow2, Clog2, Query.Compile, JobOf, QueryRows, QueryVals, Query.Projected, Bit, Reference.JobRows,
         Reference.JobVals, Quiet;
    JobMeans(q, r, tab);
  }

  /** A classic query, from Python to the words shown: once the done bit shows set, they are its
      answer over the rows it scans, which are those it asks for exactly when its limit can be
      carried; whatever the registers held and however the bus and the stages were paced. */
  lemma ClassicEndToEnd(q: Query.Spec, x: Top, tab: seq<seq<nat>>, ins: seq<TopIn>)
    requires AtRest(x) && Data(x.core.rd.banks) == tab
    requires Runnable(q) && q.groupby.None? && JobOf(q, x.axil.regs, tab).Ok()
    requires Driven(Query.Compile(q).0, Opened(x), ins)
    requires UseAfter(Opened(x), ins).bt.responses == |Query.Compile(q).0|
    ensures RowsScanned(q) == RowsAsked(DEFAULTS.numRows, q.numRows) <==> Query.LimitHonoured(q.numRows)
    ensures var y := UseAfter(Opened(x), ins).x;
      Bit(ReadWord(y, REG_STATUS), 1) ==>
        && ClassicAnswered(q, RowMajor(DEFAULTS.numRows, tab),
                           ReadAccum(ReadWord(y, REG_COUNT), ReadWord(y, REG_COUNT_HI)),
                           ReadAccum(ReadWord(y, REG_RESULT), ReadWord(y, REG_RESULT_HI)))
        && ReadWord(y, REG_OVERFLOW) == 0
  {
    hide TopWf, Query.Compile, RunInv, ReadWord, ReadAccum, Job.Ok, UseAfter, Driven, JobOf, Bit, AtRest,
         ClassicAnswered, Query.Selects, Query.Denotes, RowMajor;
    var u := UseAfter(Opened(x), ins);
    QueryUnderWay(q, x, tab, ins);
    ReadsLatched(u.x);
    if u.x.core.fsm == Done { ClassicJob(q, x.axil.regs, tab, u.x.core, u.t); }
  }

  /** A GROUP BY query: once the done bit shows set, the stream has carried its answer over the
      rows it scans, and the result registers read zero; the rows are those it asks for exactly
      when its limit can be carried. */
  lemma GroupbyEndToEnd(q: Query.Spec, x: Top, tab: seq<seq<nat>>, ins: seq<TopIn>)
    requires AtRest(x) && Data(x.core.rd.banks) == tab
    requires Runnable(q) && q.groupby.Some? && JobOf(q, x.axil.regs, tab).Ok()
    requires Driven(Query.Compile(q).0, Opened(x), ins)
    requires UseAfter(Opened(x), ins).bt.responses == |Query.Compile(q).0|
    ensures RowsScanned(q) == RowsAsked(DEFAULTS.numRows, q.numRows) <==> Query.LimitHonoured(q.numRows)
    ensures var u := UseAfter(Opened(x), ins);
      Bit(ReadWord(u.x, REG_STATUS), 1) ==>
        && GroupbyAnswered(q, RowMajor(DEFAULTS.numRows, tab), u.t.g.beats)
        && ReadAccum(ReadWord(u.x, REG_COUNT), ReadWord(u.x, REG_COUNT_HI)) == 0
        && ReadAccum(ReadWord(u.x, REG_RESULT), ReadWord(u.x, REG_RESULT_HI)) == 0
        && ReadWord(u.x, REG_OVERFLOW) == 0
  {
    hide TopWf, Query.Compile, RunInv, ReadWord, ReadAccum, Job.Ok, UseAfter, Driven, JobOf, Bit, AtRest,
         GroupbyAnswered, Query.Selects, Query.Denotes, RowMajor;
    var u := UseAfter(Opened(x), ins);
    QueryUnderWay(q, x, tab, ins);
    ReadsLatched(u.x);
    if u.x.core.fsm == Done {
      GroupbyJob(q, x.axil.regs, tab, u.x.core, u.t);
      GroupbyLatches(q, x.axil.regs, tab, u.x.core, u.t);
    }
  }
}
