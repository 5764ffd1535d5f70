/** scheduler: the query pipeline and its control FSM, one clock edge at a time. */
module Scheduler {
  import opened DbPkg
  import opened Operators
  import opened Aggregation
  import opened AxisRegister
  import opened ColumnReader

  datatype Fsm = Idle | Scan | Done

  datatype Sched = Sched(fsm: Fsm, result: nat, count: nat, overflow: bool, error: Error,
                         rd: Reader, pred: Skid<Beat>, proj: Skid<Beat>, agg: Agg)

  datatype In = In(rst: bool, load: Load, cfg: Config, start: bool, gready: bool)

  const NO_BEAT := Beat(false, [], false)

  predicate Wf(d: Dims, s: Sched) {
    ColumnReader.Wf(d, s.rd) && AggWf(d, s.agg)
  }

  // ------------------------------------------------------------------ combinational wires

  predicate RdValid(s: Sched) {
    s.rd.fifo != []
  }

  /** The beat the predicate stage computes from the FIFO head. */
  function PredIn(cfg: Config, s: Sched): Beat {
    if s.rd.fifo == [] then NO_BEAT else PredBeat(cfg, s.rd.fifo[0])
  }

  predicate PredValid(s: Sched) {
    OutValid(s.pred, RdValid(s))
  }

  function ProjIn(cfg: Config, s: Sched): Beat {
    ProjBeat(cfg, OutData(s.pred, PredIn(cfg, s)))
  }

  predicate ProjValid(s: Sched) {
    OutValid(s.proj, PredValid(s))
  }

  function ProjOut(cfg: Config, s: Sched): Beat {
    OutData(s.proj, ProjIn(cfg, s))
  }

  predicate QStart(s: Sched, start: bool) {
    start && s.fsm != Scan
  }

  /** A beat crosses into the aggregation stage on this edge. */
  predicate Consumes(s: Sched, i: In) {
    ProjValid(s) && AggReady(i.cfg.agg, s.agg)
  }

  // ------------------------------------------------------------------ one edge

  function Reset(d: Dims, s: Sched, i: In): (s': Sched)
    requires Wf(d, s)
    ensures Wf(d, s')
  {
    Sched(Idle, 0, 0, false, ErrNone, ColumnReader.Reset(d, s.rd, i.load),
          Skid(false, NO_BEAT), Skid(false, NO_BEAT), AggReset(d, s.agg))
  }

  function Next(d: Dims, s: Sched, i: In): (s': Sched)
    requires Wf(d, s)
    ensures Wf(d, s')
  {
    if i.rst then Reset(d, s, i) else Control(d, Datapath(d, s, i), s, i)
  }

  function Datapath(d: Dims, s: Sched, i: In): (s': Sched)
    requires Wf(d, s)
    ensures Wf(d, s')
  {
    var q := QStart(s, i.start);
    s.(rd := ColumnReader.Next(d, s.rd, i.load, q, i.cfg.numRows, InReady(s.pred)),
       pred := AxisRegister.Next(s.pred, RdValid(s), PredIn(i.cfg, s), InReady(s.proj)),
       proj := AxisRegister.Next(s.proj, PredValid(s), ProjIn(i.cfg, s), AggReady(i.cfg.agg, s.agg)),
       agg := AggNext(d, i.cfg.agg, s.agg, q, ProjValid(s), ProjOut(i.cfg, s), i.gready))
  }

  /** The control FSM's registers over the stages' next state n; s is the old state. */
  function Control(d: Dims, n: Sched, s: Sched, i: In): Sched {
    match s.fsm
    case Idle => n.(error := ErrNone, fsm := if i.start then Scan else Idle)
    case Scan =>
      var e := if i.start then ErrStartBusy else s.error;
      if AggDone(i.cfg.agg, s.agg) && s.rd.done then
        n.(fsm := Done, result := AggResult(i.cfg.agg, s.agg), count := AggCount(i.cfg.agg, s.agg),
           overflow := AggOverflow(i.cfg.agg, s.agg),
           error := if AggOverflow(i.cfg.agg, s.agg) then ErrAggOverflow else e)
      else n.(error := e)
    case Done => if i.start then n.(error := ErrNone, fsm := Scan) else n
  }
}
