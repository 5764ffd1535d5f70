/** A running query's pipeline carries exactly the ideal stream of its table. */
module PipelineProof {
  import opened DbPkg
  import opened Operators
  import opened Aggregation
  import opened AxisFifo
  import opened AxisRegister
  import opened ColumnReader
  import opened Scheduler
  import GroupbyProof
  import GroupbyEngine

  // ------------------------------------------------------------------ the ideal stream

  /** The table: the data of each column bank. */
  function Data(banks: seq<Mem>): (tab: seq<seq<nat>>)
    ensures |tab| == |banks|
  {
    seq(|banks|, c requires 0 <= c < |banks| => banks[c].data)
  }

  /** Row k of a table. */
  function TableRow(tab: seq<seq<nat>>, k: nat): (r: seq<nat>)
    ensures |r| == |tab|
  {
    seq(|tab|, c requires 0 <= c < |tab| => Col(tab[c], k))
  }

  /** A table row by row. */
  function RowMajor(n: nat, tab: seq<seq<nat>>): (rows: seq<seq<nat>>)
    ensures |rows| == n
  {
    seq(n, k requires 0 <= k < n => TableRow(tab, k))
  }

  /** A query over a table: what the configuration registers and the banks fix at start. */
  datatype Job = Job(d: Dims, cfg: Config, tab: seq<seq<nat>>) {
    function N(): nat { ScanRows(d.numRows, cfg.numRows) }

    /** Beat k as the reader pushes it, after the predicate stage, after the projection. */
    function Raw(k: nat): Beat { Beat(true, TableRow(tab, k), k + 1 == N()) }
    function Mid(k: nat): Beat { PredBeat(cfg, Raw(k)) }
    function Fin(k: nat): Beat { ProjBeat(cfg, Mid(k)) }

    function Raws(): nat -> Beat { (k: nat) => Raw(k) }
    function Mids(): nat -> Beat { (k: nat) => Mid(k) }
    function Fins(): nat -> Beat { (k: nat) => Fin(k) }

    /** The stream the aggregation stage must see. */
    function Ideal(): (xs: seq<Beat>)
      ensures |xs| == N()
    {
      seq(N(), k requires 0 <= k < N() => Fin(k))
    }

    predicate Ok() {
      && d.Ok()
      && |tab| == d.numCols
      && (forall c | 0 <= c < |tab| :: |tab[c]| == d.numRows)
      && (forall c, k | 0 <= c < |tab| && 0 <= k < d.numRows :: tab[c][k] <= d.ColMax())
    }
  }

  // ------------------------------------------------------------------ where the rows are

  /** Since the start edge: what has crossed into and out of the aggregation stage, the number
      of edges, and how many start pulses met a running query. */
  datatype Trace = Trace(xs: seq<Beat>, g: GroupbyProof.Hist, edges: nat, nags: nat)

  const NO_TRACE := Trace([], GroupbyProof.NO_HIST, 0, 0)

  function GbInput(s: Sched, i: In): GroupbyEngine.In {
    GbIn(i.cfg.agg, QStart(s, i.start), ProjValid(s), ProjOut(i.cfg, s), i.gready)
  }

  function TraceNext(s: Sched, i: In, t: Trace): Trace {
    Trace(XsNext(s, i, t.xs),
          GroupbyProof.HistNext(s.agg.gb, GbInput(s, i), t.g), t.edges + 1,
          if s.fsm == Scan && i.start then t.nags + 1 else t.nags)
  }

  /** Rows below a have been consumed; then come the rows in the projection skid, in the
      predicate skid, and in the reader's FIFO. These are the first rows not yet past each. */
  function AtPred(s: Sched, a: nat): nat { a + Held(s.proj) }
  function AtFifo(s: Sched, a: nat): nat { AtPred(s, a) + Held(s.pred) }
  function AtReader(s: Sched, a: nat): nat { AtFifo(s, a) + |s.rd.fifo| }

  ghost predicate StagesInv(j: Job, s: Sched, a: nat) {
    Pipe(j.Raws(), j.Mids(), j.Fins(), s.rd.fifo, s.pred, s.proj, a)
  }

  ghost predicate ConsumedInv(j: Job, xs: seq<Beat>) {
    forall k | 0 <= k < |xs| :: xs[k] == j.Fin(k)
  }

  /** The reader FSM is about to push row e, or has pushed the last one. */
  ghost predicate ReaderInv(j: Job, r: Reader, e: nat) {
    && ColumnReader.Wf(j.d, r)
    && Data(r.banks) == j.tab
    && (if r.busy then
          && e < j.N() && !r.done && r.raddr == e
          && (if r.pending then r.ret == e && RowOut(r.banks) == TableRow(j.tab, e)
              else r.ret + 1 == e)
        else e == j.N() && r.done && r.raddr == 0 && !r.pending)
  }

  ghost predicate FlowInv(j: Job, s: Sched, xs: seq<Beat>) {
    && ConsumedInv(j, xs) && StagesInv(j, s, |xs|)
    && ReaderInv(j, s.rd, AtReader(s, |xs|))
  }

  /** An edge inside a query: configuration stable, no load, no reset, no new query. */
  predicate Inside(j: Job, s: Sched, i: In) {
    !i.rst && !i.load.wen && i.cfg == j.cfg && !QStart(s, i.start)
  }

  lemma BanksHold(banks: seq<Mem>, l: Load, raddr: nat)
    requires !l.wen
    ensures Data(BanksNext(banks, l, raddr)) == Data(banks)
    ensures RowOut(BanksNext(banks, l, raddr)) == TableRow(Data(banks), raddr)
  {}

  lemma ReaderEdge(j: Job, r: Reader, l: Load, ready: bool, e: nat, r': Reader, e': nat)
    requires j.Ok() && ReaderInv(j, r, e) && !l.wen
    requires r' == ColumnReader.Next(j.d, r, l, false, j.cfg.numRows, ready)
    requires e' == e + if PushValid(r) && PushReady(j.d, r) then 1 else 0
    ensures ReaderInv(j, r', e')
  {
    BanksHold(r.banks, l, r.raddr);
    LastRowIsScanRows(j.d, j.cfg.numRows);
    RowsFitAddress(j.d);
  }

  lemma ReaderPushes(j: Job, r: Reader, e: nat)
    requires j.Ok() && ReaderInv(j, r, e) && PushValid(r)
    ensures PushBeat(j.d, r, j.cfg.numRows) == j.Raw(e)
  {
    LastRowIsScanRows(j.d, j.cfg.numRows);
  }

  function Took(s: Sched, i: In): nat {
    if Consumes(s, i) then 1 else 0
  }

  /** The FIFO and the two skid registers after an edge, field by field; x is the pushed beat. */
  predicate Steps(depth: nat, s: Sched, i: In, x: Beat, s': Sched) {
    && s'.rd.fifo == QueueNext(depth, s.rd.fifo, PushValid(s.rd), x, InReady(s.pred))
    && s'.pred == AxisRegister.Next(s.pred, RdValid(s), PredIn(i.cfg, s), InReady(s.proj))
    && s'.proj == AxisRegister.Next(s.proj, PredValid(s), ProjIn(i.cfg, s), AggReady(i.cfg.agg, s.agg))
  }

  lemma NextSteps(d: Dims, s: Sched, i: In)
    requires Scheduler.Wf(d, s) && !i.rst
    ensures Steps(d.fifoDepth, s, i, PushBeat(d, s.rd, i.cfg.numRows), Scheduler.Next(d, s, i))
    ensures Scheduler.Next(d, s, i).rd
         == ColumnReader.Next(d, s.rd, i.load, QStart(s, i.start), i.cfg.numRows, InReady(s.pred))
    ensures Scheduler.Next(d, s, i).agg
         == AggNext(d, i.cfg.agg, s.agg, QStart(s, i.start), ProjValid(s), ProjOut(i.cfg, s), i.gready)
  {}

  /** FIFO, skid, skid: three places in a row carry one stream, seen through two maps. */
  ghost predicate Pipe(raws: nat -> Beat, mids: nat -> Beat, fins: nat -> Beat,
                       fifo: seq<Beat>, pred: Skid<Beat>, proj: Skid<Beat>, a: nat) {
    && Carries(proj, fins, a)
    && Carries(pred, mids, a + Held(proj))
    && QueueCarries(fifo, raws, a + Held(proj) + Held(pred))
  }

  lemma PipeEdge(raws: nat -> Beat, mids: nat -> Beat, fins: nat -> Beat, depth: nat,
                 fifo: seq<Beat>, pred: Skid<Beat>, proj: Skid<Beat>, a: nat,
                 push: bool, x: Beat, predIn: Beat, projIn: Beat, ready: bool,
                 fifo': seq<Beat>, pred': Skid<Beat>, proj': Skid<Beat>, a': nat)
    requires Pipe(raws, mids, fins, fifo, pred, proj, a)
    requires push ==> x == raws(a + Held(proj) + Held(pred) + |fifo|)
    requires fifo != [] ==> predIn == mids(a + Held(proj) + Held(pred))
    requires OutValid(pred, fifo != []) ==> projIn == fins(a + Held(proj))
    requires fifo' == QueueNext(depth, fifo, push, x, InReady(pred))
    requires pred' == AxisRegister.Next(pred, fifo != [], predIn, InReady(proj))
    requires proj' == AxisRegister.Next(proj, OutValid(pred, fifo != []), projIn, ready)
    requires a' == a + if OutValid(proj, OutValid(pred, fifo != [])) && ready then 1 else 0
    ensures OutValid(proj, OutValid(pred, fifo != [])) ==> OutData(proj, projIn) == fins(a)
    ensures Pipe(raws, mids, fins, fifo', pred', proj', a')
    ensures a' + Held(proj') + Held(pred') + |fifo'|
         == a + Held(proj) + Held(pred) + |fifo| + if push && |fifo| < depth then 1 else 0
  {
    SkidCarries(pred, mids, a + Held(proj), fifo != [], predIn, InReady(proj));
    SkidCarries(proj, fins, a, OutValid(pred, fifo != []), projIn, ready);
    QueueDelivers(depth, fifo, raws, a + Held(proj) + Held(pred), push, x, InReady(pred));
  }

  lemma StagesEdge(j: Job, s: Sched, i: In, x: Beat, s': Sched, a: nat)
    requires StagesInv(j, s, a) && i.cfg == j.cfg && Steps(j.d.fifoDepth, s, i, x, s')
    requires PushValid(s.rd) ==> x == j.Raw(AtReader(s, a))
    ensures ProjValid(s) ==> ProjOut(i.cfg, s) == j.Fin(a)
    ensures StagesInv(j, s', a + Took(s, i))
    ensures AtReader(s', a + Took(s, i))
         == AtReader(s, a) + if PushValid(s.rd) && PushReady(j.d, s.rd) then 1 else 0
  {
    hide PredBeat, ProjBeat, QueueNext, AxisRegister.Next, Pipe;
    HeadStream(j, s, i, a);
    PipeEdge(j.Raws(), j.Mids(), j.Fins(), j.d.fifoDepth, s.rd.fifo, s.pred, s.proj, a,
             PushValid(s.rd), x, PredIn(i.cfg, s), ProjIn(i.cfg, s), AggReady(i.cfg.agg, s.agg),
             s'.rd.fifo, s'.pred, s'.proj, a + Took(s, i));
  }

  lemma HeadStream(j: Job, s: Sched, i: In, a: nat)
    requires StagesInv(j, s, a) && i.cfg == j.cfg
    ensures RdValid(s) ==> PredIn(i.cfg, s) == j.Mid(AtFifo(s, a))
    ensures PredValid(s) ==> ProjIn(i.cfg, s) == j.Fin(AtPred(s, a))
  {}

  /** The beats consumed, with this edge's one. */
  function XsNext(s: Sched, i: In, xs: seq<Beat>): seq<Beat> {
    if Consumes(s, i) then xs + [ProjOut(i.cfg, s)] else xs
  }

  lemma FlowEdge(j: Job, s: Sched, i: In, s': Sched, xs: seq<Beat>)
    requires j.Ok() && Scheduler.Wf(j.d, s) && FlowInv(j, s, xs) && Inside(j, s, i)
    requires Steps(j.d.fifoDepth, s, i, PushBeat(j.d, s.rd, j.cfg.numRows), s')
    requires s'.rd == ColumnReader.Next(j.d, s.rd, i.load, false, j.cfg.numRows, InReady(s.pred))
    ensures FlowInv(j, s', XsNext(s, i, xs))
    ensures ProjValid(s) ==> ProjOut(i.cfg, s) == j.Fin(|xs|)
  {
    hide Pipe, ColumnReader.Next, AxisRegister.Next, QueueNext;
    var a, a' := |xs|, |xs| + Took(s, i);
    var e, e' := AtReader(s, a), AtReader(s', a');
    if PushValid(s.rd) { ReaderPushes(j, s.rd, e); }
    StagesEdge(j, s, i, PushBeat(j.d, s.rd, j.cfg.numRows), s', a);
    ReaderEdge(j, s.rd, i.load, InReady(s.pred), e, s'.rd, e');
    assert |XsNext(s, i, xs)| == a';
  }

  /** No row is lost, duplicated or reordered: at every edge of a query, what has been consumed,
      what the two skid registers and the FIFO hold (carried through the stages ahead of them),
      and the rows still to be pushed, are together the ideal stream. */
  lemma StreamConserved(j: Job, s: Sched, xs: seq<Beat>)
    requires j.Ok() && FlowInv(j, s, xs)
    ensures AtReader(s, |xs|) <= j.N()
    ensures xs + Contents(s.proj) + Through(j.cfg, false, Contents(s.pred)) + Through(j.cfg, true, s.rd.fifo)
            + j.Ideal()[AtReader(s, |xs|)..] == j.Ideal()
  {
    StagesAreSlices(j, s, xs);
    FiveSlices(j.Ideal(), |xs|, AtPred(s, |xs|), AtFifo(s, |xs|), AtReader(s, |xs|));
  }

  lemma StagesAreSlices(j: Job, s: Sched, xs: seq<Beat>)
    requires j.Ok() && FlowInv(j, s, xs)
    ensures var ideal, b, c, e := j.Ideal(), AtPred(s, |xs|), AtFifo(s, |xs|), AtReader(s, |xs|);
      && e <= j.N() && xs == ideal[..|xs|] && Contents(s.proj) == ideal[|xs|..b]
      && Through(j.cfg, false, Contents(s.pred)) == ideal[b..c]
      && Through(j.cfg, true, s.rd.fifo) == ideal[c..e]
  {
    hide PredBeat, ProjBeat;
  }

  lemma FiveSlices<T>(s: seq<T>, a: nat, b: nat, c: nat, e: nat)
    requires a <= b <= c <= e <= |s|
    ensures s[..a] + s[a..b] + s[b..c] + s[c..e] + s[e..] == s
  {}

  /** Beats as they will leave the projection stage, through the predicate stage first or not. */
  function Through(cfg: Config, pred: bool, xs: seq<Beat>): (ys: seq<Beat>)
    ensures |ys| == |xs|
  {
    seq(|xs|, k requires 0 <= k < |xs| => ProjBeat(cfg, if pred then PredBeat(cfg, xs[k]) else xs[k]))
  }
}
