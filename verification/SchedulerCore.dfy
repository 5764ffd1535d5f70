/** scheduler as an object: the stages wired together, every register updated on one edge. */
module SchedulerCore {
  import opened RefTable
  import opened DbPkg
  import opened Operators
  import opened Aggregation
  import opened ColumnReader
  import S = Scheduler

  /** The stages and the control registers. */
  class Core {
    const d: Dims
    const rd: TableReader
    const pred: PredicateEngine
    const proj: ProjectionEngine
    const agg: AggregationTop
    var fsm: S.Fsm
    var result: nat
    var count: nat
    var overflow: bool
    var error: Error

    ghost const Repr: set<object>

    /** No two stages share storage. */
    ghost predicate Owns() {
      && Repr == {this, pred.reg, proj.reg} + rd.Repr + agg.Repr
      && rd.Repr !! agg.Repr && {this, pred.reg, proj.reg} !! rd.Repr + agg.Repr && pred.reg != proj.reg
      && rd.Owns() && agg.Owns()
    }

    ghost function State(): S.Sched
      requires Owns()
      reads Repr
    {
      S.Sched(fsm, result, count, overflow, error, rd.State(), pred.reg.State(), proj.reg.State(), agg.State())
    }

    ghost predicate Valid()
      reads Repr
      ensures Valid() ==> Owns() && S.Wf(d, State())
    {
      Owns() && rd.d == agg.d == d && rd.Valid() && agg.Valid()
    }

    constructor (rd: TableReader, pred: PredicateEngine, proj: ProjectionEngine, agg: AggregationTop)
      requires rd.Valid() && agg.Valid() && rd.d == agg.d && pred.reg != proj.reg
      requires rd.Repr !! agg.Repr && {pred.reg, proj.reg} !! rd.Repr + agg.Repr
      ensures Valid() && Repr == {this, pred.reg, proj.reg} + rd.Repr + agg.Repr && d == rd.d
      ensures fsm == S.Idle && State().rd == rd.State() && State().agg == agg.State()
    {
      hide TableReader.Owns, TableReader.State, TableReader.Valid, AggregationTop.Owns, AggregationTop.State,
           AggregationTop.Valid, ColumnReader.Wf, AggWf;
      d := rd.d;
      this.rd, this.pred, this.proj, this.agg := rd, pred, proj, agg;
      Repr := {this, pred.reg, proj.reg} + rd.Repr + agg.Repr;
      fsm, result, count, overflow, error := S.Idle, 0, 0, false, ErrNone;
    }

    method ResetTick(i: S.In)
      requires Valid()
      modifies Repr
      ensures Valid() && State() == S.Reset(d, old(State()), i)
    {
      hide TableReader.Owns, TableReader.State, TableReader.Valid, AggregationTop.Owns, AggregationTop.State,
           AggregationTop.Valid, ColumnReader.Reset, ColumnReader.Wf, AggReset, AggWf;
      rd.ResetTick(i.load);
      pred.reg.Reset(S.NO_BEAT);
      proj.reg.Reset(S.NO_BEAT);
      agg.ResetTick();
      Latch(S.Idle, 0, 0, false, ErrNone);
    }

    /** The control registers take new values. */
    method Latch(f: S.Fsm, r: nat, c: nat, o: bool, e: Error)
      modifies this
      ensures fsm == f && result == r && count == c && overflow == o && error == e
    {
      fsm, result, count, overflow, error := f, r, c, o, e;
    }

    /** The combinational path from the FIFO head through both skid stages, with its valids. */
    method Wires(cfg: Config) returns (a: Beat, b: Beat, c: Beat, v0: bool, v1: bool, v2: bool)
      requires Valid()
      ensures a == S.PredIn(cfg, State()) && b == S.ProjIn(cfg, State()) && c == S.ProjOut(cfg, State())
      ensures v0 == S.RdValid(State()) && v1 == S.PredValid(State()) && v2 == S.ProjValid(State())
    {
      hide AggregationTop.Owns, AggregationTop.State, AggregationTop.Valid, ColumnReader.Wf, AggWf, PredBeat, ProjBeat;
      v0 := rd.fifo.count != 0;
      a := S.NO_BEAT;
      if v0 { a := pred.Evaluate(cfg, rd.fifo.dout); }
      v1 := pred.reg.valid || v0;
      b := proj.Mask(cfg, pred.reg.Out(a));
      v2 := proj.reg.valid || v1;
      c := proj.reg.Out(b);
    }

    /** One clock edge of the four stages, every input taken from the old state. */
    method StagesTick(i: S.In)
      requires Valid() && !i.rst
      modifies Repr - {this}
      ensures Valid() && State() == S.Datapath(d, old(State()), i)
    {
      hide TableReader.Owns, TableReader.State, TableReader.Valid, AggregationTop.Owns, AggregationTop.State,
           AggregationTop.Valid, ColumnReader.Reset, ColumnReader.Next, ColumnReader.Wf, AggReset, AggNext, AggWf;
      hide S.PredIn, S.ProjIn, S.ProjOut, S.RdValid, S.PredValid, S.ProjValid, AggReady;
      var a, b, c, v0, v1, v2 := Wires(i.cfg);
      var q := i.start && fsm != S.Scan;
      var r0, r1, r2 := !pred.reg.valid, !proj.reg.valid, agg.Ready(i.cfg.agg);
      rd.Tick(i.load, q, i.cfg.numRows, r0);
      pred.reg.Tick(v0, a, r1);
      proj.reg.Tick(v1, b, r2);
      agg.Tick(i.cfg.agg, q, v2, c, i.gready);
    }

    /** One clock edge. */
    method Tick(i: S.In)
      requires Valid()
      modifies Repr
      ensures Valid() && State() == S.Next(d, old(State()), i)
    {
      hide TableReader.Owns, TableReader.State, TableReader.Valid, AggregationTop.Owns, AggregationTop.State,
           AggregationTop.Valid, ColumnReader.Reset, ColumnReader.Next, ColumnReader.Wf, AggReset, AggNext, AggWf;
      hide S.Datapath, S.Reset, AggDone, AggResult, AggCount, AggOverflow;
      if i.rst {
        ResetTick(i);
      } else {
        var done, res, cnt, of := agg.Outputs(i.cfg.agg);
        var drained := rd.done;
        StagesTick(i);
        match fsm
        case Idle => Latch(if i.start then S.Scan else S.Idle, result, count, overflow, ErrNone);
        case Scan =>
          var e := if i.start then ErrStartBusy else error;
          if done && drained {
            Latch(S.Done, res, cnt, of, if of then ErrAggOverflow else e);
          } else {
            Latch(S.Scan, result, count, overflow, e);
          }
        case Done => if i.start { Latch(S.Scan, result, count, overflow, ErrNone); }
      }
    }
  }

  /** The two stages with state of their own. */
  method NewStages(d: Dims, buckets: Table) returns (rd: TableReader, agg: AggregationTop)
    requires d.Ok() && |buckets| == d.Gb().B()
    ensures rd.Valid() && agg.Valid() && rd.d == agg.d == d
    ensures fresh(rd.Repr) && fresh(agg.Repr) && rd.Repr !! agg.Repr
  {
    hide TableReader.Owns, TableReader.State, TableReader.Valid, AggregationTop.Owns, AggregationTop.State,
         AggregationTop.Valid, ColumnReader.Wf, AggWf, ClassicReset;
    rd := new TableReader(d);
    agg := new AggregationTop(d, buckets);
  }

  /** A core over an empty table, whose bucket RAM holds anything. */
  method NewCore(d: Dims, buckets: Table) returns (core: Core)
    requires d.Ok() && |buckets| == d.Gb().B()
    ensures core.Valid() && fresh(core.Repr) && core.d == d
  {
    hide TableReader.Owns, TableReader.State, TableReader.Valid, AggregationTop.Owns, AggregationTop.State,
         AggregationTop.Valid, ColumnReader.Wf, AggWf, Core.State, Core.Owns, Core.Valid;
    var rd, agg := NewStages(d, buckets);
    var pred := new PredicateEngine(S.NO_BEAT);
    var proj := new ProjectionEngine(S.NO_BEAT);
    core := new Core(rd, pred, proj, agg);
  }
}
