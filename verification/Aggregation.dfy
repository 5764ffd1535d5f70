/** The five classic engines, their lockstep, and aggregation_top's routing and result mux. */
module Aggregation {
  import opened Values
  import opened Bits
  import opened RefTable
  import opened DbPkg
  import GroupbyEngine

  // ------------------------------------------------------------------ registers and edges

  /** count_engine, min_engine and max_engine hold the same registers. */
  datatype Acc = Acc(acc: nat, result: nat, busy: bool, done: bool)

  datatype SumRegs = SumRegs(acc: nat, result: nat, overflow: bool, busy: bool, done: bool)

  datatype AvgRegs = AvgRegs(count: nat, sum: nat, countResult: nat, sumResult: nat,
                             overflow: bool, busy: bool, done: bool)

  /** Load of an accumulator on a consumed beat; the last one latches the result. */
  function AccLoad(s: Acc, next: nat, last: bool): Acc {
    if last then Acc(next, next, false, true) else s.(acc := next)
  }

  function CountNext(m: nat, s: Acc, start: bool, valid: bool, x: Beat): Acc {
    if start then Acc(0, 0, true, false)
    else if s.busy && valid then
      AccLoad(s, if x.pass then GroupbyEngine.CountInc(m, s.acc) else s.acc, x.last)
    else s
  }

  function MinNext(colMax: nat, col: nat, s: Acc, start: bool, valid: bool, x: Beat): Acc {
    if start then Acc(colMax, 0, true, false)
    else if s.busy && valid then
      var v := Col(x.cols, col);
      AccLoad(s, if x.pass && v < s.acc then v else s.acc, x.last)
    else s
  }

  function MaxNext(col: nat, s: Acc, start: bool, valid: bool, x: Beat): Acc {
    if start then Acc(0, 0, true, false)
    else if s.busy && valid then
      var v := Col(x.cols, col);
      AccLoad(s, if x.pass && v > s.acc then v else s.acc, x.last)
    else s
  }

  function SumNext(m: nat, col: nat, s: SumRegs, start: bool, valid: bool, x: Beat): SumRegs {
    if start then SumRegs(0, 0, false, true, false)
    else if s.busy && valid then
      var v := Col(x.cols, col);
      var next := if x.pass then GroupbyEngine.SatAdd(m, s.acc, v) else s.acc;
      var of := s.overflow || (x.pass && GroupbyEngine.SumExt(m, s.acc, v) > m);
      if x.last then SumRegs(next, next, of, false, true) else s.(acc := next, overflow := of)
    else s
  }

  function AvgNext(m: nat, col: nat, s: AvgRegs, start: bool, valid: bool, x: Beat): AvgRegs {
    if start then AvgRegs(0, 0, 0, 0, false, true, false)
    else if s.busy && valid then
      var v := Col(x.cols, col);
      var count := if x.pass then GroupbyEngine.CountInc(m, s.count) else s.count;
      var sum := if x.pass then GroupbyEngine.SatAdd(m, s.sum, v) else s.sum;
      var of := s.overflow || (x.pass && GroupbyEngine.SumExt(m, s.sum, v) > m);
      if x.last then AvgRegs(count, sum, count, sum, of, false, true)
      else s.(count := count, sum := sum, overflow := of)
    else s
  }

  datatype Classic = Classic(cnt: Acc, sum: SumRegs, min: Acc, max: Acc, avg: AvgRegs)

  function ClassicReset(d: Dims): Classic {
    Classic(Acc(0, 0, false, false), SumRegs(0, 0, false, false, false),
            Acc(d.ColMax(), 0, false, false), Acc(0, 0, false, false),
            AvgRegs(0, 0, 0, 0, false, false, false))
  }

  function ClassicNext(d: Dims, col: nat, s: Classic, start: bool, valid: bool, x: Beat): Classic {
    Classic(CountNext(d.AccMax(), s.cnt, start, valid, x),
            SumNext(d.AccMax(), col, s.sum, start, valid, x),
            MinNext(d.ColMax(), col, s.min, start, valid, x),
            MaxNext(col, s.max, start, valid, x),
            AvgNext(d.AccMax(), col, s.avg, start, valid, x))
  }

  // ------------------------------------------------------------------ aggregation_top

  datatype Agg = Agg(classic: Classic, gb: GroupbyEngine.Gb)

  predicate AggWf(d: Dims, s: Agg) {
    GroupbyEngine.Wf(d.Gb(), s.gb)
  }

  /** What the group-by engine reads of a beat. */
  function RowOf(a: AggCfg, x: Beat): Row {
    Row(x.pass, Col(x.cols, a.gbyKey), Col(x.cols, a.column), x.last)
  }

  function AggReady(a: AggCfg, s: Agg): bool {
    if a.groupby then GroupbyEngine.Ready(s.gb) else s.classic.cnt.busy
  }

  function AggDone(a: AggCfg, s: Agg): bool {
    if a.groupby then s.gb.done else s.classic.cnt.done
  }

  function AggResult(a: AggCfg, s: Agg): nat {
    if a.groupby then 0
    else if a.op == OP_COUNT then s.classic.cnt.result
    else if a.op == OP_SUM then s.classic.sum.result
    else if a.op == OP_MIN then s.classic.min.result
    else if a.op == OP_MAX then s.classic.max.result
    else if a.op == OP_AVG then s.classic.avg.sumResult
    else 0
  }

  function AggCount(a: AggCfg, s: Agg): nat {
    if a.groupby then 0 else s.classic.cnt.result
  }

  function AggOverflow(a: AggCfg, s: Agg): bool {
    !a.groupby && s.classic.sum.overflow
  }

  function AggReset(d: Dims, s: Agg): (s': Agg)
    requires AggWf(d, s)
    ensures AggWf(d, s')
  {
    Agg(ClassicReset(d), GroupbyEngine.Reset(d.Gb(), s.gb))
  }

  function GbIn(a: AggCfg, start: bool, valid: bool, x: Beat, gready: bool): GroupbyEngine.In {
    GroupbyEngine.In(start && a.groupby, valid && a.groupby, RowOf(a, x), gready)
  }

  function AggNext(d: Dims, a: AggCfg, s: Agg, start: bool, valid: bool, x: Beat, gready: bool): (s': Agg)
    requires AggWf(d, s)
    ensures AggWf(d, s')
  {
    Agg(ClassicNext(d, a.column, s.classic, start && !a.groupby, valid && !a.groupby, x),
        GroupbyEngine.Next(d.Gb(), s.gb, GbIn(a, start, valid, x, gready)))
  }

  // ------------------------------------------------------------------ lockstep

  /** The engines agree on busy and done, and AVG carries SUM's sum and COUNT's count. */
  predicate Lockstep(s: Classic) {
    && s.sum.busy == s.min.busy == s.max.busy == s.avg.busy == s.cnt.busy
    && s.sum.done == s.min.done == s.max.done == s.avg.done == s.cnt.done
    && s.avg.sum == s.sum.acc && s.avg.sumResult == s.sum.result && s.avg.overflow == s.sum.overflow
    && s.avg.count == s.cnt.acc && s.avg.countResult == s.cnt.result
  }

  datatype ClassicIn = ClassicIn(rst: bool, col: nat, start: bool, valid: bool, x: Beat)

  function ClassicRun(d: Dims, ins: seq<ClassicIn>): Classic {
    if ins == [] then ClassicReset(d)
    else
      var i := ins[|ins| - 1];
      if i.rst then ClassicReset(d)
      else ClassicNext(d, i.col, ClassicRun(d, ins[..|ins| - 1]), i.start, i.valid, i.x)
  }

  /** On every run from reset, under any inputs, the five engines stay in lockstep: each
      consumes a beat exactly when COUNT does. */
  lemma {:induction false} LockstepAlways(d: Dims, ins: seq<ClassicIn>)
    ensures Lockstep(ClassicRun(d, ins))
  {
    if ins == [] {
    } else {
      LockstepAlways(d, ins[..|ins| - 1]);
    }
  }

  // ------------------------------------------------------------------ what they compute

  /** A column's values over the passing beats, in order. */
  function PassVals(col: nat, xs: seq<Beat>): (vs: seq<nat>)
    ensures |vs| <= |xs|
  {
    if xs == [] then []
    else
      var x := xs[|xs| - 1];
      PassVals(col, xs[..|xs| - 1]) + if x.pass then [Col(x.cols, col)] else []
  }

  /** The values' minimum, or the sentinel when there are none. */
  function MinOr(none: nat, vs: seq<nat>): nat {
    if vs == [] then none else Least(vs)
  }

  function MaxOr(none: nat, vs: seq<nat>): nat {
    if vs == [] then none else Greatest(vs)
  }

  /** The answer of one opcode over the passing values of a column. */
  function Answer(d: Dims, op: nat, vs: seq<nat>): nat {
    if op == OP_COUNT then |vs|
    else if op == OP_SUM || op == OP_AVG then Min(Sum(vs), d.AccMax())
    else if op == OP_MIN then MinOr(d.ColMax(), vs)
    else if op == OP_MAX then MaxOr(0, vs)
    else 0
  }

  predicate OpenBeats(xs: seq<Beat>) {
    forall i | 0 <= i < |xs| :: !xs[i].last
  }

  predicate EndedBeats(xs: seq<Beat>) {
    xs != [] && xs[|xs| - 1].last && OpenBeats(xs[..|xs| - 1])
  }

  /** The accumulators after consuming xs since the start edge. */
  predicate Accumulated(d: Dims, s: Classic, vs: seq<nat>) {
    && s.cnt.acc == |vs|
    && s.sum.acc == Min(Sum(vs), d.AccMax())
    && s.sum.overflow == (Sum(vs) > d.AccMax())
    && s.min.acc == MinOr(d.ColMax(), vs)
    && s.max.acc == MaxOr(0, vs)
  }

  predicate ClassicInv(d: Dims, col: nat, s: Classic, xs: seq<Beat>) {
    && Lockstep(s)
    && Accumulated(d, s, PassVals(col, xs))
    && s.cnt.busy == !s.cnt.done
    && (s.cnt.busy ==> OpenBeats(xs))
    && (s.cnt.done ==>
          && EndedBeats(xs)
          && s.cnt.result == s.cnt.acc && s.sum.result == s.sum.acc
          && s.min.result == s.min.acc && s.max.result == s.max.acc)
  }

  lemma ClassicStart(d: Dims, col: nat, s: Classic, valid: bool, x: Beat)
    requires d.Ok()
    ensures ClassicInv(d, col, ClassicNext(d, col, s, true, valid, x), [])
  {}

  /** One edge after the start edge; a beat counts when COUNT is ready for it. */
  lemma ClassicEdge(d: Dims, col: nat, s: Classic, valid: bool, x: Beat, xs: seq<Beat>)
    requires d.Ok() && ClassicInv(d, col, s, xs)
    requires s.cnt.busy && valid ==> |xs| < d.AccMax() && Col(x.cols, col) <= d.ColMax() <= d.AccMax()
    ensures ClassicInv(d, col, ClassicNext(d, col, s, false, valid, x),
                       if s.cnt.busy && valid then xs + [x] else xs)
  {
    if s.cnt.busy && valid {
      var v := Col(x.cols, col);
      var vs := PassVals(col, xs);
      assert (xs + [x])[..|xs|] == xs;
      if x.pass {
        GroupbyEngine.CountFits(d.AccMax(), |vs|);
        GroupbyEngine.SumExtFits(d.AccMax(), s.sum.acc, v);
        ValuesSnoc(d.ColMax(), vs, v);
      } else {
        assert vs + [] == vs;
      }
    }
  }

  lemma ValuesSnoc(colMax: nat, vs: seq<nat>, v: nat)
    requires v <= colMax
    ensures Sum(vs + [v]) == Sum(vs) + v
    ensures MinOr(colMax, vs + [v]) == Min(MinOr(colMax, vs), v)
    ensures MaxOr(0, vs + [v]) == Max(MaxOr(0, vs), v)
  {
    assert (vs + [v])[..|vs|] == vs;
  }

  /** A finished scan presents the selected opcode's answer, the passing-row count, and
      overflow exactly when the true sum does not fit. */
  lemma ClassicAnswers(d: Dims, a: AggCfg, s: Agg, xs: seq<Beat>)
    requires !a.groupby && ClassicInv(d, a.column, s.classic, xs) && AggDone(a, s)
    ensures AggResult(a, s) == Answer(d, a.op, PassVals(a.column, xs))
    ensures AggCount(a, s) == |PassVals(a.column, xs)|
    ensures AggOverflow(a, s) <==> Sum(PassVals(a.column, xs)) > d.AccMax()
  {}

  // ------------------------------------------------------------------ the engines

  class CountEngine {
    const accMax: nat
    var acc: nat
    var result: nat
    var busy: bool
    var done: bool

    ghost function State(): Acc
      reads this
    {
      Acc(acc, result, busy, done)
    }

    constructor (accMax: nat)
      ensures this.accMax == accMax && State() == Acc(0, 0, false, false)
    {
      this.accMax := accMax;
      acc, result, busy, done := 0, 0, false, false;
    }

    method Reset()
      modifies this
      ensures State() == Acc(0, 0, false, false)
    {
      acc, result, busy, done := 0, 0, false, false;
    }

    method Tick(start: bool, valid: bool, x: Beat)
      modifies this
      ensures State() == CountNext(accMax, old(State()), start, valid, x)
    {
      if start {
        acc, result, busy, done := 0, 0, true, false;
      } else if busy && valid {
        if x.pass { acc := GroupbyEngine.CountInc(accMax, acc); }
        if x.last { result, busy, done := acc, false, true; }
      }
    }
  }

  class MinEngine {
    const colMax: nat
    var acc: nat
    var result: nat
    var busy: bool
    var done: bool

    ghost function State(): Acc
      reads this
    {
      Acc(acc, result, busy, done)
    }

    constructor (colMax: nat)
      ensures this.colMax == colMax && State() == Acc(colMax, 0, false, false)
    {
      this.colMax := colMax;
      acc, result, busy, done := colMax, 0, false, false;
    }

    method Reset()
      modifies this
      ensures State() == Acc(colMax, 0, false, false)
    {
      acc, result, busy, done := colMax, 0, false, false;
    }

    method Tick(col: nat, start: bool, valid: bool, x: Beat)
      modifies this
      ensures State() == MinNext(colMax, col, old(State()), start, valid, x)
    {
      if start {
        acc, result, busy, done := colMax, 0, true, false;
      } else if busy && valid {
        var v := Col(x.cols, col);
        if x.pass && v < acc { acc := v; }
        if x.last { result, busy, done := acc, false, true; }
      }
    }
  }

  class MaxEngine {
    var acc: nat
    var result: nat
    var busy: bool
    var done: bool

    ghost function State(): Acc
      reads this
    {
      Acc(acc, result, busy, done)
    }

    constructor ()
      ensures State() == Acc(0, 0, false, false)
    {
      acc, result, busy, done := 0, 0, false, false;
    }

    method Reset()
      modifies this
      ensures State() == Acc(0, 0, false, false)
    {
      acc, result, busy, done := 0, 0, false, false;
    }

    method Tick(col: nat, start: bool, valid: bool, x: Beat)
      modifies this
      ensures State() == MaxNext(col, old(State()), start, valid, x)
    {
      if start {
        acc, result, busy, done := 0, 0, true, false;
      } else if busy && valid {
        var v := Col(x.cols, col);
        if x.pass && v > acc { acc := v; }
        if x.last { result, busy, done := acc, false, true; }
      }
    }
  }

  class SumEngine {
    const accMax: nat
    var acc: nat
    var result: nat
    var overflow: bool
    var busy: bool
    var done: bool

    ghost function State(): SumRegs
      reads this
    {
      SumRegs(acc, result, overflow, busy, done)
    }

    constructor (accMax: nat)
      ensures this.accMax == accMax && State() == SumRegs(0, 0, false, false, false)
    {
      this.accMax := accMax;
      acc, result, overflow, busy, done := 0, 0, false, false, false;
    }

    method Reset()
      modifies this
      ensures State() == SumRegs(0, 0, false, false, false)
    {
      acc, result, overflow, busy, done := 0, 0, false, false, false;
    }

    /** The sum saturates at all ones when the extended sum carries out. */
    method Tick(col: nat, start: bool, valid: bool, x: Beat)
      modifies this
      ensures State() == SumNext(accMax, col, old(State()), start, valid, x)
    {
      if start {
        acc, result, overflow, busy, done := 0, 0, false, true, false;
      } else if busy && valid {
        if x.pass {
          var ext := GroupbyEngine.SumExt(accMax, acc, Col(x.cols, col));
          if ext > accMax {
            acc, overflow := accMax, true;
          } else {
            acc := ext;
          }
        }
        if x.last { result, busy, done := acc, false, true; }
      }
    }
  }

  class AvgEngine {
    const accMax: nat
    var count: nat
    var sum: nat
    var countResult: nat
    var sumResult: nat
    var overflow: bool
    var busy: bool
    var done: bool

    ghost function State(): AvgRegs
      reads this
    {
      AvgRegs(count, sum, countResult, sumResult, overflow, busy, done)
    }

    constructor (accMax: nat)
      ensures this.accMax == accMax && State() == AvgRegs(0, 0, 0, 0, false, false, false)
    {
      this.accMax := accMax;
      count, sum, countResult, sumResult, overflow, busy, done := 0, 0, 0, 0, false, false, false;
    }

    method Reset()
      modifies this
      ensures State() == AvgRegs(0, 0, 0, 0, false, false, false)
    {
      count, sum, countResult, sumResult, overflow, busy, done := 0, 0, 0, 0, false, false, false;
    }

    method Tick(col: nat, start: bool, valid: bool, x: Beat)
      modifies this
      ensures State() == AvgNext(accMax, col, old(State()), start, valid, x)
    {
      if start {
        count, sum, countResult, sumResult, overflow, busy, done := 0, 0, 0, 0, false, true, false;
      } else if busy && valid {
        if x.pass {
          var ext := GroupbyEngine.SumExt(accMax, sum, Col(x.cols, col));
          count := GroupbyEngine.CountInc(accMax, count);
          if ext > accMax {
            sum, overflow := accMax, true;
          } else {
            sum := ext;
          }
        }
        if x.last { countResult, sumResult, busy, done := count, sum, false, true; }
      }
    }
  }

  /** aggregation_top: every engine sees the stream; the configuration routes it. */
  class AggregationTop {
    const d: Dims
    const cnt: CountEngine
    const sum: SumEngine
    const min: MinEngine
    const max: MaxEngine
    const avg: AvgEngine
    const gb: GroupbyEngine.Engine

    ghost const Repr: set<object>

    /** Everything the engines' registers live in. */
    ghost predicate Owns() {
      Repr == {cnt, sum, min, max, avg, gb, gb.ram, gb.ram.mem}
    }

    ghost function Engines(): Classic
      reads cnt, sum, min, max, avg
    {
      Classic(cnt.State(), sum.State(), min.State(), max.State(), avg.State())
    }

    ghost function State(): Agg
      requires Owns()
      reads Repr
    {
      Agg(Engines(), gb.State())
    }

    ghost predicate Valid()
      reads Repr
      ensures Valid() ==> Owns() && AggWf(d, State())
    {
      && Owns()
      && cnt.accMax == sum.accMax == avg.accMax == d.AccMax() && min.colMax == d.ColMax()
      && gb.p == d.Gb() && gb.Valid()
    }

    constructor (d: Dims, buckets: Table)
      requires d.Ok() && |buckets| == d.Gb().B()
      ensures this.d == d && Valid() && fresh(Repr)
      ensures Engines() == ClassicReset(d) && gb.State().ram.mem == buckets && !gb.busy
    {
      hide Pow2, GroupbyEngine.Wf;
      this.d := d;
      var c := new CountEngine(d.AccMax());
      var s := new SumEngine(d.AccMax());
      var lo := new MinEngine(d.ColMax());
      var hi := new MaxEngine();
      var a := new AvgEngine(d.AccMax());
      var g := new GroupbyEngine.Engine(d.Gb(), buckets);
      cnt, sum, avg, min, max, gb := c, s, a, lo, hi, g;
      Repr := {c, s, lo, hi, a, g, g.ram, g.ram.mem};
    }

    function Ready(a: AggCfg): (r: bool)
      requires Owns()
      reads Repr
      ensures r == AggReady(a, State())
    {
      if a.groupby then gb.busy && gb.phase == GroupbyEngine.AggIdle else cnt.busy
    }

    /** The output mux. */
    method Outputs(a: AggCfg) returns (done: bool, result: nat, count: nat, overflow: bool)
      requires Owns()
      ensures done == AggDone(a, State()) && result == AggResult(a, State())
      ensures count == AggCount(a, State()) && overflow == AggOverflow(a, State())
    {
      done, result, count, overflow := gb.done, 0, 0, false;
      if !a.groupby {
        done, count, overflow := cnt.done, cnt.result, sum.overflow;
        if a.op == OP_COUNT {
          result := cnt.result;
        } else if a.op == OP_SUM {
          result := sum.result;
        } else if a.op == OP_MIN {
          result := min.result;
        } else if a.op == OP_MAX {
          result := max.result;
        } else if a.op == OP_AVG {
          result := avg.sumResult;
        }
      }
    }

    method ResetTick()
      requires Valid()
      modifies Repr
      ensures Valid() && State() == AggReset(d, old(State()))
    {
      hide GroupbyEngine.Reset;
      cnt.Reset();
      sum.Reset();
      min.Reset();
      max.Reset();
      avg.Reset();
      gb.ResetTick();
    }

    method EnginesTick(col: nat, start: bool, valid: bool, x: Beat)
      requires Valid()
      modifies cnt, sum, min, max, avg
      ensures Engines() == ClassicNext(d, col, old(Engines()), start, valid, x)
    {
      hide CountNext, SumNext, MinNext, MaxNext, AvgNext;
      cnt.Tick(start, valid, x);
      sum.Tick(col, start, valid, x);
      min.Tick(col, start, valid, x);
      max.Tick(col, start, valid, x);
      avg.Tick(col, start, valid, x);
    }

    method Tick(a: AggCfg, start: bool, valid: bool, x: Beat, gready: bool)
      requires Valid()
      modifies Repr
      ensures Valid() && State() == AggNext(d, a, old(State()), start, valid, x, gready)
    {
      hide ClassicNext, GroupbyEngine.Next;
      EnginesTick(a.column, start && !a.groupby, valid && !a.groupby, x);
      gb.Tick(start && a.groupby, valid && a.groupby, RowOf(a, x), gready);
    }
  }
}
