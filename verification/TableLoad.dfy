/** Loading the table through the registers: each row's writes, under any bus timing, replace
    that row of the banks and nothing else. */
module TableLoad {
  import opened Bits
  import opened DbPkg
  import opened Aggregation
  import opened ColumnReader
  import opened AxiLite
  import opened Scheduler
  import opened PipelineProof
  import opened QueryProof
  import opened DbqaTop
  import opened Delivery
  import opened EndToEnd

  // ------------------------------------------------------------------ the writes

  /** The first n data words of a row. */
  function DataWrites(row: seq<nat>, n: nat): (ws: seq<Write>)
    requires n <= |row|
    ensures |ws| == n
    ensures forall k | 0 <= k < n :: ws[k] == Write(REG_LOAD_DATA0 + k, row[k])
  {
    seq(n, k requires 0 <= k < n => Write(REG_LOAD_DATA0 + k, row[k]))
  }

  /** Address, data words, commit. */
  function LoadWrites(a: nat, row: seq<nat>): (ws: seq<Write>)
    ensures |ws| == |row| + 2
  {
    [Write(REG_LOAD_ADDR, a)] + DataWrites(row, |row|) + [Write(REG_LOAD_ROW, 0)]
  }

  /** The row registers after a row's writes, whatever they held. */
  lemma RowRegisters(r: RegFile, a: nat, row: seq<nat>)
    requires r.Wf() && |row| == NUM_COLS && a < DEFAULTS.numRows
    ensures ApplyAll(r, LoadWrites(a, row)) == r.(loadAddr := a, loadData := row)
  {
    var ws := [Write(REG_LOAD_ADDR, a)];
    ApplyAllSnoc(r, [], Write(REG_LOAD_ADDR, a));
    assert ([] + ws) == ws;
    DataApplied(r, a, row, NUM_COLS);
    ApplyAllSnoc(r, ws + DataWrites(row, NUM_COLS), Write(REG_LOAD_ROW, 0));
  }

  lemma {:induction false} DataApplied(r: RegFile, a: nat, row: seq<nat>, n: nat)
    requires r.Wf() && |row| == NUM_COLS && a < DEFAULTS.numRows && n <= NUM_COLS
    ensures ApplyAll(r, [Write(REG_LOAD_ADDR, a)] + DataWrites(row, n))
         == r.(loadAddr := a, loadData := row[..n] + r.loadData[n..])
  {
    if n == 0 {
      assert [Write(REG_LOAD_ADDR, a)] + DataWrites(row, 0) == [] + [Write(REG_LOAD_ADDR, a)];
      assert row[..0] + r.loadData[0..] == r.loadData;
      ApplyAllSnoc(r, [], Write(REG_LOAD_ADDR, a));
    } else {
      DataApplied(r, a, row, n - 1);
      DataStep(r, a, row, n - 1);
    }
  }

  lemma DataStep(r: RegFile, a: nat, row: seq<nat>, n: nat)
    requires r.Wf() && |row| == NUM_COLS && n < NUM_COLS
    requires ApplyAll(r, [Write(REG_LOAD_ADDR, a)] + DataWrites(row, n))
          == r.(loadAddr := a, loadData := row[..n] + r.loadData[n..])
    ensures ApplyAll(r, [Write(REG_LOAD_ADDR, a)] + DataWrites(row, n + 1))
         == r.(loadAddr := a, loadData := row[..n + 1] + r.loadData[n + 1..])
  {
    hide ApplyAll, ApplyWrite, DataWrites;
    var ws, w := [Write(REG_LOAD_ADDR, a)] + DataWrites(row, n), Write(REG_LOAD_DATA0 + n, row[n]);
    DataSnoc(row, n, [Write(REG_LOAD_ADDR, a)]);
    ApplyAllSnoc(r, ws, w);
    WordApplied(ApplyAll(r, ws), n, row[n]);
    FillStep(row, r.loadData, n);
  }

  lemma DataSnoc(row: seq<nat>, n: nat, ws: seq<Write>)
    requires n < |row|
    ensures ws + DataWrites(row, n + 1) == (ws + DataWrites(row, n)) + [Write(REG_LOAD_DATA0 + n, row[n])]
  {}

  lemma FillStep<T>(a: seq<T>, b: seq<T>, n: nat)
    requires n < |a| == |b|
    ensures (a[..n] + b[n..])[n := a[n]] == a[..n + 1] + b[n + 1..]
  {}

  lemma WordApplied(r: RegFile, c: nat, v: nat)
    requires r.Wf() && c < NUM_COLS
    ensures ApplyWrite(r, Write(REG_LOAD_DATA0 + c, v)) == r.(loadData := r.loadData[c := v])
  {}

  // ------------------------------------------------------------------ the table

  /** Row a of a table replaced. */
  function Stored(tab: seq<seq<nat>>, a: nat, row: seq<nat>): (t: seq<seq<nat>>)
    ensures |t| == |tab|
  {
    seq(|tab|, c requires 0 <= c < |tab| =>
      if a < |tab[c]| then tab[c][a := Col(row, c)] else tab[c])
  }

  lemma StoredRow(tab: seq<seq<nat>>, a: nat, row: seq<nat>, k: nat)
    requires |row| == |tab| && forall c | 0 <= c < |tab| :: a < |tab[c]|
    ensures TableRow(Stored(tab, a, row), k) == if k == a then row else TableRow(tab, k)
  {}

  lemma BanksStore(banks: seq<Mem>, l: Load, raddr: nat)
    requires l.wen
    ensures Data(BanksNext(banks, l, raddr)) == Stored(Data(banks), l.addr, l.data)
  {}

  // ------------------------------------------------------------------ one row over the bus

  /** The bus side while a row is loaded: the commit strobe comes only with the last write. */
  ghost predicate RowBus(ws: seq<Write>, r: RegFile, a: Axil, bt: BusTrace)
    requires r.Wf()
  {
    Delivered(ws, r, a, bt) && !a.abort && !a.start && (a.load ==> |bt.writes| == |ws|)
  }

  lemma RowBusEdge(addr: nat, row: seq<nat>, r: RegFile, a: Axil, bt: BusTrace, b: Bus)
    requires r.Wf() && |row| == NUM_COLS
    requires RowBus(LoadWrites(addr, row), r, a, bt) && Drives(LoadWrites(addr, row), bt, b)
    ensures RowBus(LoadWrites(addr, row), r, AxilNext(a, b), BusTraceNext(a, b, bt))
    ensures AxilNext(a, b).load
       <==> |BusTraceNext(a, b, bt).writes| == NUM_COLS + 2 && |bt.writes| < NUM_COLS + 2
    ensures |BusTraceNext(a, b, bt).writes| >= |bt.writes|
  {
    hide Delivered, AxilNext, BusTraceNext, LoadWrites;
    LoadShape(addr, row);
    DeliveredEdge(LoadWrites(addr, row), r, a, bt, b);
    DeliveredSize(LoadWrites(addr, row), r, a, bt);
  }

  /** No control write, and one commit, the last. */
  lemma LoadShape(addr: nat, row: seq<nat>)
    requires |row| == NUM_COLS
    ensures var ws := LoadWrites(addr, row);
      && |ws| == NUM_COLS + 2
      && forall k | 0 <= k < |ws| ::
           ws[k].word != REG_CTRL && ws[k].word < 0x40 && (IsCommit(ws[k]) <==> k == |ws| - 1)
  {
    var ws := LoadWrites(addr, row);
    forall k | 0 <= k < |ws|
      ensures ws[k].word != REG_CTRL && ws[k].word < 0x40 && (IsCommit(ws[k]) <==> k == |ws| - 1)
    {
      if 0 < k <= NUM_COLS { assert ws[k] == DataWrites(row, NUM_COLS)[k - 1]; }
    }
  }

  /** The core side: quiet, its table unchanged until the commit strobe has been sampled. */
  ghost predicate RowCore(tab: seq<seq<nat>>, stored: bool, a: nat, row: seq<nat>, core: Sched) {
    && Quiet(DEFAULTS, core) && core.fsm != Scan
    && Data(core.rd.banks) == if stored then Stored(tab, a, row) else tab
  }

  predicate IsStored(u: Use) {
    |u.bt.writes| == NUM_COLS + 2 && !u.x.axil.load
  }

  lemma RowCoreEdge(tab: seq<seq<nat>>, a: nat, row: seq<nat>, r: RegFile, u: Use, i: TopIn)
    requires r.Wf() && |row| == NUM_COLS && a < DEFAULTS.numRows && !i.rst && TopWf(u.x)
    requires RowBus(LoadWrites(a, row), r, u.x.axil, u.bt) && RowCore(tab, IsStored(u), a, row, u.x.core)
    ensures RowCore(tab, IsStored(u) || u.x.axil.load, a, row, TopNext(u.x, i).core)
  {
    hide Scheduler.Next, Quiet, AxilNext, LoadWrites;
    var c := CoreIn(u.x, i);
    QuietEdge(DEFAULTS, u.x.core, c);
    if u.x.axil.load {
      assert LoadWrites(a, row)[..NUM_COLS + 2] == LoadWrites(a, row);
      RowRegisters(r, a, row);
      CommitEdge(u.x.core, c);
    }
  }

  /** The edge that samples the commit strobe. */
  lemma CommitEdge(core: Sched, c: Scheduler.In)
    requires Scheduler.Wf(DEFAULTS, core) && c.load.wen && !c.rst
    ensures Data(Scheduler.Next(DEFAULTS, core, c).rd.banks) == Stored(Data(core.rd.banks), c.load.addr, c.load.data)
  {
    hide AggNext;
    NextSteps(DEFAULTS, core, c);
    BanksStore(core.rd.banks, c.load, core.rd.raddr);
  }

  /** Between rests: once the commit write has been answered, the row is in the table, every
      other row is as it was, and the top level is at rest. */
  lemma RowLoaded(a: nat, row: seq<nat>, x: Top, tab: seq<seq<nat>>, ins: seq<TopIn>)
    requires |row| == NUM_COLS && a < DEFAULTS.numRows
    requires AtRest(x) && Data(x.core.rd.banks) == tab
    requires Driven(LoadWrites(a, row), Opened(x), ins)
    requires UseAfter(Opened(x), ins).bt.responses == NUM_COLS + 2
    ensures AtRest(UseAfter(Opened(x), ins).x)
    ensures Data(UseAfter(Opened(x), ins).x.core.rd.banks) == Stored(tab, a, row)
  {
    hide LoadWrites, Stored, Quiet;
    RowKeepsInv(a, row, x, tab, ins);
  }

  lemma {:induction false} RowKeepsInv(a: nat, row: seq<nat>, x: Top, tab: seq<seq<nat>>, ins: seq<TopIn>)
    requires |row| == NUM_COLS && a < DEFAULTS.numRows
    requires AtRest(x) && Data(x.core.rd.banks) == tab
    requires Driven(LoadWrites(a, row), Opened(x), ins)
    ensures var u := UseAfter(Opened(x), ins);
      RowBus(LoadWrites(a, row), x.axil.regs, u.x.axil, u.bt) && RowCore(tab, IsStored(u), a, row, u.x.core)
  {
    hide LoadWrites, RowBus, RowCore, UseNext, Drives;
    if ins == [] {
      RowStart(a, row, x, tab);
    } else {
      var n := |ins| - 1;
      RowKeepsInv(a, row, x, tab, ins[..n]);
      RowEdge(a, row, x.axil.regs, tab, UseAfter(Opened(x), ins[..n]), ins[n]);
    }
  }

  lemma RowEdge(a: nat, row: seq<nat>, r: RegFile, tab: seq<seq<nat>>, u: Use, i: TopIn)
    requires r.Wf() && |row| == NUM_COLS && a < DEFAULTS.numRows && !i.rst && TopWf(u.x)
    requires RowBus(LoadWrites(a, row), r, u.x.axil, u.bt) && RowCore(tab, IsStored(u), a, row, u.x.core)
    requires Drives(LoadWrites(a, row), u.bt, i.bus)
    ensures var u' := UseNext(u, i);
      RowBus(LoadWrites(a, row), r, u'.x.axil, u'.bt) && RowCore(tab, IsStored(u'), a, row, u'.x.core)
  {
    hide LoadWrites, AxilNext, RowCore, Scheduler.Next, Handshake, BusTraceNext, TraceNext, ApplyAll;
    RowBusEdge(a, row, r, u.x.axil, u.bt, i.bus);
    RowCoreEdge(tab, a, row, r, u, i);
  }

  lemma RowStart(a: nat, row: seq<nat>, x: Top, tab: seq<seq<nat>>)
    requires |row| == NUM_COLS && AtRest(x) && Data(x.core.rd.banks) == tab
    ensures RowBus(LoadWrites(a, row), x.axil.regs, x.axil, BusTrace([], 0))
    ensures RowCore(tab, IsStored(Opened(x)), a, row, x.core)
  {}

  // ------------------------------------------------------------------ a whole table

  /** Rows stored one after the other from row 0. */
  function StoredAll(tab: seq<seq<nat>>, rows: seq<seq<nat>>): (t: seq<seq<nat>>)
    ensures |t| == |tab|
  {
    if rows == [] then tab else Stored(StoredAll(tab, rows[..|rows| - 1]), |rows| - 1, rows[|rows| - 1])
  }

  /** The table then holds those rows, and below them what it held. */
  lemma {:induction false} TableLoaded(tab: seq<seq<nat>>, rows: seq<seq<nat>>, k: nat)
    requires |tab| == NUM_COLS && |rows| <= DEFAULTS.numRows
    requires forall c | 0 <= c < |tab| :: |tab[c]| == DEFAULTS.numRows
    requires forall i | 0 <= i < |rows| :: |rows[i]| == NUM_COLS
    ensures forall c | 0 <= c < |tab| :: |StoredAll(tab, rows)[c]| == DEFAULTS.numRows
    ensures TableRow(StoredAll(tab, rows), k) == if k < |rows| then rows[k] else TableRow(tab, k)
  {
    if rows == [] {
    } else {
      var n := |rows| - 1;
      TableLoaded(tab, rows[..n], k);
      StoredRow(StoredAll(tab, rows[..n]), n, rows[n], k);
    }
  }

  /** The top level after one run per row, each opened where the last one ended. */
  function LoadedTop(x: Top, runs: seq<seq<TopIn>>): (y: Top)
    requires TopWf(x)
    ensures TopWf(y)
  {
    if runs == [] then x
    else UseAfter(Opened(LoadedTop(x, runs[..|runs| - 1])), runs[|runs| - 1]).x
  }

  /** Each run delivers its row's writes, the commit answered, at any pace. */
  ghost predicate LoadsAll(x: Top, rows: seq<seq<nat>>, runs: seq<seq<TopIn>>)
    requires TopWf(x) && |rows| == |runs|
  {
    rows == [] ||
    (var n := |rows| - 1;
     var y := LoadedTop(x, runs[..n]);
     && LoadsAll(x, rows[..n], runs[..n])
     && Driven(LoadWrites(n, rows[n]), Opened(y), runs[n])
     && UseAfter(Opened(y), runs[n]).bt.responses == NUM_COLS + 2)
  }

  /** A table written row by row over the bus is in the banks, what lay below it is unchanged, and
      the top level is at rest. */
  lemma {:induction false} TableOverBus(x: Top, tab: seq<seq<nat>>, rows: seq<seq<nat>>, runs: seq<seq<TopIn>>)
    requires AtRest(x) && Data(x.core.rd.banks) == tab
    requires |rows| == |runs| <= DEFAULTS.numRows && forall i | 0 <= i < |rows| :: |rows[i]| == NUM_COLS
    requires LoadsAll(x, rows, runs)
    ensures AtRest(LoadedTop(x, runs)) && Data(LoadedTop(x, runs).core.rd.banks) == StoredAll(tab, rows)
  {
    hide TopWf, AtRest, UseAfter, Driven, LoadWrites, Stored, Opened;
    if rows == [] {
    } else {
      var n := |rows| - 1;
      TableOverBus(x, tab, rows[..n], runs[..n]);
      RowLoaded(n, rows[n], LoadedTop(x, runs[..n]), StoredAll(tab, rows[..n]), runs[n]);
    }
  }

  // ------------------------------------------------------------------ the table over any run

  /** What captured writes make of a table: each commit stores the row the load registers hold. */
  function TableFrom(r: RegFile, tab: seq<seq<nat>>, ws: seq<Write>): seq<seq<nat>>
    requires r.Wf()
  {
    if ws == [] then tab
    else
      var n := |ws| - 1;
      var t, q := TableFrom(r, tab, ws[..n]), ApplyAll(r, ws[..n]);
      if ws[n].word == REG_LOAD_ROW then Stored(t, q.loadAddr, q.loadData) else t
  }

  /** Over any run without reset, with queries starting, running and aborted at will: the table is
      what the captured writes make of it, and nothing else ever changes it. A commit captured on
      the last edge is stored on the next. */
  lemma {:induction false} TableFollowsWrites(x: Top, ins: seq<TopIn>)
    requires TopWf(x) && Handshake(x.axil) && !x.axil.load && forall k | 0 <= k < |ins| :: !ins[k].rst
    ensures TableInv(x.axil.regs, Data(x.core.rd.banks), UseAfter(Opened(x), ins))
  {
    hide TopWf, UseNext, TableInv;
    if ins == [] {
      TableStart(x);
    } else {
      var n := |ins| - 1;
      TableFollowsWrites(x, ins[..n]);
      TableStep(x.axil.regs, Data(x.core.rd.banks), UseAfter(Opened(x), ins[..n]), ins[n]);
    }
  }

  ghost predicate TableInv(r: RegFile, tab: seq<seq<nat>>, u: Use)
    requires r.Wf()
  {
    var ws, load := u.bt.writes, u.x.axil.load;
    && Handshake(u.x.axil) && u.x.axil.regs == ApplyAll(r, ws)
    && (load ==> !u.x.axil.awready && ws != [] && ws[|ws| - 1].word == REG_LOAD_ROW)
    && Data(u.x.core.rd.banks) == TableFrom(r, tab, if load then ws[..|ws| - 1] else ws)
  }

  lemma TableStart(x: Top)
    requires TopWf(x) && Handshake(x.axil) && !x.axil.load
    ensures TableInv(x.axil.regs, Data(x.core.rd.banks), Opened(x))
  {}

  /** One edge from any state, in reset or not: the table changes only by a commit. */
  lemma TableEdge(x: Top, i: TopIn)
    requires TopWf(x)
    ensures var tab, r := Data(x.core.rd.banks), x.axil.regs;
      Data(TopNext(x, i).core.rd.banks) == if x.axil.load then Stored(tab, r.loadAddr, r.loadData) else tab
  {
    hide Pow2, Clog2, AggNext, AggReset, AxilNext, Data, BanksNext, Stored;
    var l, s := CoreIn(x, i).load, x.core;
    CoreBanks(s, CoreIn(x, i));
    if l.wen { BanksStore(s.rd.banks, l, s.rd.raddr); } else { BanksHold(s.rd.banks, l, s.rd.raddr); }
  }

  lemma CoreBanks(s: Sched, c: Scheduler.In)
    requires Scheduler.Wf(DEFAULTS, s)
    ensures Scheduler.Next(DEFAULTS, s, c).rd.banks == BanksNext(s.rd.banks, c.load, s.rd.raddr)
  {
    hide Pow2, Clog2, AggNext, AggReset, BanksNext;
  }

  lemma TableStep(r: RegFile, tab: seq<seq<nat>>, u: Use, i: TopIn)
    requires r.Wf() && TopWf(u.x) && !i.rst && TableInv(r, tab, u)
    ensures TableInv(r, tab, UseNext(u, i))
  {
    hide TopWf, Scheduler.Next, Stored, Data, ApplyWrite, CoreIn, TraceNext, WordOf, Bit;
    TableEdge(u.x, i);
    var ws := u.bt.writes;
    if Captures(u.x.axil, i.bus) {
      ApplyAllSnoc(r, ws, WriteOf(i.bus));
      assert (ws + [WriteOf(i.bus)])[..|ws|] == ws;
    }
    if u.x.axil.load { CommitKeepsRegisters(r, ws); }
  }

  lemma CommitKeepsRegisters(r: RegFile, ws: seq<Write>)
    requires r.Wf() && ws != [] && ws[|ws| - 1].word == REG_LOAD_ROW
    ensures ApplyAll(r, ws) == ApplyAll(r, ws[..|ws| - 1])
  {}
}
