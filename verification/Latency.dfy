/** How long a query takes at the top level, and that a responsive master brings it to its end. */
module Latency {
  import opened Bits
  import opened AxiLite
  import opened Scheduler
  import opened PipelineProof
  import opened QueryProof
  import opened DbqaTop
  import opened Delivery
  import opened EndToEnd
  import TimingProof
  import Query
  import Reference
  import GroupbyProof

  // ------------------------------------------------------------------ from the strobe on

  /** What the core sees over a sequence of top-level edges. */
  function CoreIns(u: Use, ins: seq<TopIn>): (cs: seq<Scheduler.In>)
    requires TopWf(u.x)
    ensures |cs| == |ins|
  {
    if ins == [] then []
    else
      var n := |ins| - 1;
      CoreIns(u, ins[..n]) + [CoreIn(UseAfter(u, ins[..n]).x, ins[n])]
  }

  /** The top level has raised the start strobe of a compiled query; i is the edge that samples it. */
  ghost predicate Strobed(q: Query.Spec, r: RegFile, tab: seq<seq<nat>>, u: Use, i: TopIn) {
    && TopWf(u.x) && r.Wf() && Runnable(q) && JobOf(q, r, tab).Ok()
    && UseInv(Query.Compile(q).0, r, JobOf(q, r, tab), u) && u.x.axil.start
    && !i.rst && Drives(Query.Compile(q).0, u.bt, i.bus)
  }

  lemma StrobeStarts(q: Query.Spec, r: RegFile, tab: seq<seq<nat>>, u: Use, i: TopIn)
    requires Strobed(q, r, tab, u, i)
    ensures var j, c := JobOf(q, r, tab), CoreIn(u.x, i);
      && j.d == DEFAULTS && Quiet(DEFAULTS, u.x.core) && Starts(j, u.x.core, c)
      && UseNext(u, i).x.core == Scheduler.Next(DEFAULTS, u.x.core, c) && UseNext(u, i).t == NO_TRACE
      && UseInv(Query.Compile(q).0, r, j, UseNext(u, i)) && |UseNext(u, i).bt.writes| == |Query.Compile(q).0|
      && !UseNext(u, i).x.axil.start
  {
    hide Pow2, Clog2, Query.Compile, Scheduler.Next, Quiet, RunInv, ApplyWrite;
    var ws := Query.Compile(q).0;
    assert ws[..|ws|] == ws;
    UseEdge(q, r, tab, u, i);
  }

  /** All writes made and the strobe over: the query runs undisturbed. */
  ghost predicate Running(ws: seq<Write>, r: RegFile, j: Job, u: Use)
    requires r.Wf()
  {
    UseInv(ws, r, j, u) && |u.bt.writes| == |ws| && !u.x.axil.start
  }

  lemma RunningEdge(q: Query.Spec, r: RegFile, tab: seq<seq<nat>>, u: Use, i: TopIn)
    requires TopWf(u.x) && r.Wf() && Runnable(q) && JobOf(q, r, tab).Ok()
    requires Running(Query.Compile(q).0, r, JobOf(q, r, tab), u)
    requires !i.rst && Drives(Query.Compile(q).0, u.bt, i.bus)
    ensures Running(Query.Compile(q).0, r, JobOf(q, r, tab), UseNext(u, i))
    ensures Inside(JobOf(q, r, tab), u.x.core, CoreIn(u.x, i))
    ensures UseNext(u, i).x.core == Scheduler.Next(DEFAULTS, u.x.core, CoreIn(u.x, i))
    ensures UseNext(u, i).t == TraceNext(u.x.core, CoreIn(u.x, i), u.t)
  {
    hide Pow2, Clog2, Query.Compile, Scheduler.Next, RunInv, TraceNext, ApplyWrite;
    var ws := Query.Compile(q).0;
    assert ws[..|ws|] == ws;
    CompiledShape(q);
    UseEdge(q, r, tab, u, i);
  }

  /** From the sampled strobe on, the top level is a run of the core inside the query. */
  lemma {:induction false} RunMaps(q: Query.Spec, r: RegFile, tab: seq<seq<nat>>, u: Use, i: TopIn, rest: seq<TopIn>)
    requires Strobed(q, r, tab, u, i) && Driven(Query.Compile(q).0, UseNext(u, i), rest)
    ensures var j, v := JobOf(q, r, tab), UseNext(u, i);
      var cs := CoreIns(v, rest);
      && Running(Query.Compile(q).0, r, j, UseAfter(v, rest))
      && Behaves(j, v.x.core, NO_TRACE, cs)
      && After(DEFAULTS, v.x.core, NO_TRACE, cs) == (UseAfter(v, rest).x.core, UseAfter(v, rest).t)
  {
    hide Pow2, Clog2, Query.Compile, Strobed, Running, Scheduler.Next, UseNext, TraceNext, Inside, Drives, CoreIn;
    if rest == [] {
      RunMapsStart(q, r, tab, u, i);
    } else {
      StrobedOk(q, r, tab, u, i);
      var n, v := |rest| - 1, UseNext(u, i);
      RunMaps(q, r, tab, u, i, rest[..n]);
      RunningEdge(q, r, tab, UseAfter(v, rest[..n]), rest[n]);
      var cs := CoreIns(v, rest);
      assert cs[..n] == CoreIns(v, rest[..n]);
    }
  }

  lemma StrobedOk(q: Query.Spec, r: RegFile, tab: seq<seq<nat>>, u: Use, i: TopIn)
    requires Strobed(q, r, tab, u, i)
    ensures TopWf(u.x) && r.Wf() && Runnable(q) && JobOf(q, r, tab).Ok() && JobOf(q, r, tab).d == DEFAULTS
  {}

  lemma RunMapsStart(q: Query.Spec, r: RegFile, tab: seq<seq<nat>>, u: Use, i: TopIn)
    requires Strobed(q, r, tab, u, i)
    ensures r.Wf() && Running(Query.Compile(q).0, r, JobOf(q, r, tab), UseNext(u, i)) && UseNext(u, i).t == NO_TRACE
  {
    hide Query.Compile, UseInv;
    StrobeStarts(q, r, tab, u, i);
  }

  /** The core's run behind the top level's, from the edge that samples the strobe. */
  lemma CoreRuns(q: Query.Spec, r: RegFile, tab: seq<seq<nat>>, u: Use, i: TopIn, rest: seq<TopIn>)
    requires Strobed(q, r, tab, u, i) && Driven(Query.Compile(q).0, UseNext(u, i), rest)
    ensures var j, v, c := JobOf(q, r, tab), UseNext(u, i), CoreIn(u.x, i);
      var cs := CoreIns(v, rest);
      && j.d == DEFAULTS && j.Ok() && Quiet(j.d, u.x.core) && Starts(j, u.x.core, c)
      && Behaves(j, Scheduler.Next(j.d, u.x.core, c), NO_TRACE, cs)
      && After(j.d, Scheduler.Next(j.d, u.x.core, c), NO_TRACE, cs) == (UseAfter(v, rest).x.core, UseAfter(v, rest).t)
  {
    hide Query.Compile, Scheduler.Next, Quiet, UseInv, After, Behaves, Starts, Inside, CoreIn, UseAfter, Drives;
    StrobedOk(q, r, tab, u, i);
    StrobeStarts(q, r, tab, u, i);
    RunMaps(q, r, tab, u, i, rest);
  }

  /** A classic query's done bit reads as set from exactly 2n + 1 edges after the one that
      samples the strobe, whatever the bus does meanwhile. */
  lemma ClassicLatency(q: Query.Spec, r: RegFile, tab: seq<seq<nat>>, u: Use, i: TopIn, rest: seq<TopIn>)
    requires Strobed(q, r, tab, u, i) && Driven(Query.Compile(q).0, UseNext(u, i), rest) && q.groupby.None?
    ensures Bit(ReadWord(UseAfter(UseNext(u, i), rest).x, REG_STATUS), 1) <==> |rest| >= 2 * RowsScanned(q) + 1
  {
    hide Query.Compile, Scheduler.Next, UseNext, ReadWord, Strobed, Quiet, Bit, After, Behaves, Starts, CoreIn,
         UseAfter, Driven, JobOf, RunInv;
    StrobedOk(q, r, tab, u, i);
    JobMeans(q, r, tab);
    CoreRuns(q, r, tab, u, i, rest);
    TimingProof.ClassicDuration(JobOf(q, r, tab), u.x.core, CoreIn(u.x, i), CoreIns(UseNext(u, i), rest));
    StatusDone(UseAfter(UseNext(u, i), rest).x);
  }

  /** A GROUP BY query's done bit reads as set from exactly the engine's work for the selected
      rows, plus the edges spent waiting for a row, at most two a row, plus output stalls, plus
      one. */
  lemma GroupbyLatency(q: Query.Spec, r: RegFile, tab: seq<seq<nat>>, u: Use, i: TopIn, rest: seq<TopIn>)
    requires Strobed(q, r, tab, u, i) && Driven(Query.Compile(q).0, UseNext(u, i), rest) && q.groupby.Some?
    ensures var b, m := DEFAULTS.Gb().B(), DEFAULTS.AccMax();
      var work := GroupbyProof.RunCost(b, m, GroupedRows(q, RowMajor(DEFAULTS.numRows, tab), RowsScanned(q)));
      var (w, l) := TimingProof.Lost(DEFAULTS, Scheduler.Next(DEFAULTS, u.x.core, CoreIn(u.x, i)), NO_TRACE,
                                     CoreIns(UseNext(u, i), rest));
      && w <= 2 * RowsScanned(q)
      && (Bit(ReadWord(UseAfter(UseNext(u, i), rest).x, REG_STATUS), 1) <==> |rest| >= work + w + l + 1)
  {
    hide Pow2, Clog2, Query.Compile, Scheduler.Next, UseNext, ReadWord, Strobed, Quiet, Bit, After, Behaves, Starts,
         CoreIn, UseAfter, Driven, JobOf, RunInv, TimingProof.Lost, GroupbyProof.RunCost;
    hide QueryRows, Query.Projected, Reference.JobRows, Reference.SeenRows, QueryVals, Reference.JobVals;
    StrobedOk(q, r, tab, u, i);
    var j := JobOf(q, r, tab);
    JobMeans(q, r, tab);
    Reference.StreamGroups(j);
    CoreRuns(q, r, tab, u, i, rest);
    TimingProof.GroupbyDoneIff(j, u.x.core, CoreIn(u.x, i), CoreIns(UseNext(u, i), rest));
    StatusDone(UseAfter(UseNext(u, i), rest).x);
  }

  // ------------------------------------------------------------------ a responsive master

  /** The next write at once, every response taken at once, every group taken at once. */
  function EagerIn(ws: seq<Write>, bt: BusTrace): TopIn {
    var n := |bt.writes|;
    var w := if n < |ws| then ws[n] else Write(0, 0);
    TopIn(false, Bus(n < |ws|, 4 * w.word, n < |ws|, w.data, true, false, 0, false), true)
  }

  function EagerRun(ws: seq<Write>, u: Use, k: nat): (ins: seq<TopIn>)
    requires TopWf(u.x)
    ensures |ins| == k
  {
    if k == 0 then []
    else
      var ins := EagerRun(ws, u, k - 1);
      ins + [EagerIn(ws, UseAfter(u, ins).bt)]
  }

  lemma EagerDrives(ws: seq<Write>, bt: BusTrace)
    requires forall k | 0 <= k < |ws| :: ws[k].word < 0x40
    ensures Drives(ws, bt, EagerIn(ws, bt).bus)
    ensures |bt.writes| < |ws| ==> WriteOf(EagerIn(ws, bt).bus) == ws[|bt.writes|]
  {}

  lemma {:induction false} EagerDriven(ws: seq<Write>, u: Use, k: nat)
    requires TopWf(u.x) && forall k | 0 <= k < |ws| :: ws[k].word < 0x40
    ensures Driven(ws, u, EagerRun(ws, u, k))
  {
    hide Pow2, Clog2;
    if k == 0 {
    } else {
      hide Drives, EagerIn, UseAfter;
      EagerDriven(ws, u, k - 1);
      var ins := EagerRun(ws, u, k - 1);
      assert EagerRun(ws, u, k)[..k - 1] == ins;
      EagerDrives(ws, UseAfter(u, ins).bt);
      assert !EagerIn(ws, UseAfter(u, ins).bt).rst by { EagerNoReset(ws, UseAfter(u, ins).bt); }
    }
  }

  lemma EagerNoReset(ws: seq<Write>, bt: BusTrace)
    ensures !EagerIn(ws, bt).rst
  {}

  /** After k edges of a responsive master. */
  predicate Paced(u: Use, k: nat) {
    && |u.bt.writes| == (k + 1) / 2 && u.bt.responses == k / 2
    && u.x.axil.bvalid == (k % 2 == 1)
  }

  /** A responsive master is answered once per two edges, whatever it writes. */
  lemma {:induction false} EagerPace(ws: seq<Write>, x: Top, k: nat)
    requires TopWf(x) && Settled(x.axil) && k <= 2 * |ws| && forall i | 0 <= i < |ws| :: ws[i].word < 0x40
    ensures var u := UseAfter(Opened(x), EagerRun(ws, Opened(x), k));
      Delivered(ws, x.axil.regs, u.x.axil, u.bt) && Paced(u, k)
  {
    hide TopWf, Drives, EagerIn, UseNext, Delivered, Pow2, Clog2;
    if k == 0 {
      DeliveredStart(ws, x.axil);
    } else {
      EagerPace(ws, x, k - 1);
      var ins := EagerRun(ws, Opened(x), k - 1);
      assert EagerRun(ws, Opened(x), k)[..k - 1] == ins;
      PacedEdge(ws, x.axil.regs, UseAfter(Opened(x), ins), k - 1);
    }
  }

  lemma PacedEdge(ws: seq<Write>, r: RegFile, u: Use, k: nat)
    requires TopWf(u.x) && r.Wf() && Delivered(ws, r, u.x.axil, u.bt) && Paced(u, k) && k < 2 * |ws|
    requires forall i | 0 <= i < |ws| :: ws[i].word < 0x40
    ensures var u' := UseNext(u, EagerIn(ws, u.bt));
      Delivered(ws, r, u'.x.axil, u'.bt) && Paced(u', k + 1)
  {
    hide TopWf, Scheduler.Next, TraceNext, ApplyWrite, Pow2, Clog2;
    EagerDrives(ws, u.bt);
    DeliveredEdge(ws, r, u.x.axil, u.bt, EagerIn(ws, u.bt).bus);
  }

  /** A responsive master's compiled query: the start strobe is up after the fifteenth edge. */
  lemma EagerSteps(q: Query.Spec, x: Top, tab: seq<seq<nat>>, k: nat)
    requires AtRest(x) && Data(x.core.rd.banks) == tab && k <= 16
    requires Runnable(q) && JobOf(q, x.axil.regs, tab).Ok()
    ensures var ws := Query.Compile(q).0;
      var u := UseAfter(Opened(x), EagerRun(ws, Opened(x), k));
      && UseInv(ws, x.axil.regs, JobOf(q, x.axil.regs, tab), u)
      && Paced(u, k) && (k == 15 ==> u.x.axil.start)
  {
    hide Query.Compile, UseInv, Drives, EagerIn, JobOf, UseNext, TopWf, Delivered, Quiet, Pow2, Clog2;
    var ws := Query.Compile(q).0;
    CompiledShape(q);
    EagerDriven(ws, Opened(x), k);
    UseKeepsInv(q, x, tab, EagerRun(ws, Opened(x), k));
    EagerPace(ws, x, k);
    if k == 15 {
      EagerPace(ws, x, 14);
      var ins := EagerRun(ws, Opened(x), 14);
      assert EagerRun(ws, Opened(x), 15)[..14] == ins;
      StrobeUp(ws, x.axil.regs, UseAfter(Opened(x), ins));
    }
  }

  lemma StrobeUp(ws: seq<Write>, r: RegFile, u: Use)
    requires TopWf(u.x) && r.Wf() && Delivered(ws, r, u.x.axil, u.bt) && Paced(u, 14)
    requires |ws| == 8 && ws[7] == Write(REG_CTRL, 1) && forall i | 0 <= i < |ws| :: ws[i].word < 0x40
    ensures UseNext(u, EagerIn(ws, u.bt)).x.axil.start
  {
    hide TopWf, Scheduler.Next, TraceNext, ApplyWrite, Pow2, Clog2;
    EagerDrives(ws, u.bt);
    DeliveredEdge(ws, r, u.x.axil, u.bt, EagerIn(ws, u.bt).bus);
    assert IsStart(ws[7]);
  }

  lemma {:induction false} EagerPrefix(ws: seq<Write>, u: Use, k: nat, n: nat)
    requires TopWf(u.x) && n <= k
    ensures EagerRun(ws, u, k)[..n] == EagerRun(ws, u, n)
  {
    hide TopWf, UseAfter, EagerIn;
    if n == k {
    } else {
      EagerPrefix(ws, u, k - 1, n);
      assert EagerRun(ws, u, k)[..k - 1] == EagerRun(ws, u, k - 1);
    }
  }

  /** The responsive master's run: the strobe is up after 15 edges and sampled by the next. */
  lemma EagerStrobes(q: Query.Spec, x: Top, tab: seq<seq<nat>>, k: nat)
    requires AtRest(x) && Data(x.core.rd.banks) == tab && k >= 16
    requires Runnable(q) && JobOf(q, x.axil.regs, tab).Ok()
    ensures var ws := Query.Compile(q).0;
      var run := EagerRun(ws, Opened(x), k);
      var u := UseAfter(Opened(x), run[..15]);
      && Driven(ws, Opened(x), run)
      && Strobed(q, x.axil.regs, tab, u, run[15]) && Driven(ws, UseNext(u, run[15]), run[16..])
      && UseAfter(UseNext(u, run[15]), run[16..]) == UseAfter(Opened(x), run)
      && UseNext(u, run[15]).bt.responses == |ws|
  {
    hide Pow2, Clog2, Query.Compile, UseInv, Drives, EagerIn, JobOf, AtRest, UseNext;
    RestWf(x);
    var ws := Query.Compile(q).0;
    var run := EagerRun(ws, Opened(x), k);
    var u := UseAfter(Opened(x), run[..15]);
    CompiledShape(q);
    EagerPrefix(ws, Opened(x), k, 15);
    EagerPrefix(ws, Opened(x), k, 16);
    EagerSteps(q, x, tab, 15);
    EagerSteps(q, x, tab, 16);
    EagerDriven(ws, Opened(x), k);
    UseSplits(ws, Opened(x), run, 16);
    assert run[..16][..15] == run[..15] && run[..16][15] == run[15];
    EagerDrives(ws, u.bt);
    EagerNoReset(ws, u.bt);
  }

  lemma RestWf(x: Top)
    requires AtRest(x)
    ensures TopWf(x)
  {}

  // ------------------------------------------------------------------ the two guarantees

  lemma EagerAnswered(q: Query.Spec, x: Top, tab: seq<seq<nat>>, k: nat)
    requires AtRest(x) && Data(x.core.rd.banks) == tab && k >= 16
    requires Runnable(q) && JobOf(q, x.axil.regs, tab).Ok()
    ensures TopWf(x) && var ws := Query.Compile(q).0;
      var run := EagerRun(ws, Opened(x), k);
      Driven(ws, Opened(x), run) && UseAfter(Opened(x), run).bt.responses == |ws|
  {
    hide Pow2, Clog2, Query.Compile, EagerIn, Drives, UseNext, Scheduler.Next, RunInv, Waiting, Strobed;
    RestWf(x);
    var ws := Query.Compile(q).0;
    var run := EagerRun(ws, Opened(x), k);
    EagerStrobes(q, x, tab, k);
    StrobedOk(q, x.axil.regs, tab, UseAfter(Opened(x), run[..15]), run[15]);
    ResponsesGrow(UseNext(UseAfter(Opened(x), run[..15]), run[15]), run[16..]);
    UseKeepsInv(q, x, tab, run);
  }

  /** Under a responsive master a classic query over n rows completes: its done bit reads as set
      from exactly 2n + 17 edges after the first write is presented, and shows its answer. */
  lemma ResponsiveClassic(q: Query.Spec, x: Top, tab: seq<seq<nat>>, k: nat)
    requires AtRest(x) && Data(x.core.rd.banks) == tab && k >= 16
    requires Runnable(q) && q.groupby.None? && JobOf(q, x.axil.regs, tab).Ok()
    ensures TopWf(x) && var y := UseAfter(Opened(x), EagerRun(Query.Compile(q).0, Opened(x), k)).x;
      && (Bit(ReadWord(y, REG_STATUS), 1) <==> k >= 2 * RowsScanned(q) + 17)
      && (k >= 2 * RowsScanned(q) + 17 ==>
            ClassicAnswered(q, RowMajor(DEFAULTS.numRows, tab),
                            ReadAccum(ReadWord(y, REG_COUNT), ReadWord(y, REG_COUNT_HI)),
                            ReadAccum(ReadWord(y, REG_RESULT), ReadWord(y, REG_RESULT_HI))))
  {
    hide Pow2, Clog2, Query.Compile, EagerIn, EagerRun, Drives, Driven, UseNext, UseAfter, Scheduler.Next, Strobed,
         ReadWord, ReadAccum, Bit, AtRest, JobOf, ClassicAnswered;
    RestWf(x);
    var run := EagerRun(Query.Compile(q).0, Opened(x), k);
    EagerStrobes(q, x, tab, k);
    EagerAnswered(q, x, tab, k);
    ClassicLatency(q, x.axil.regs, tab, UseAfter(Opened(x), run[..15]), run[15], run[16..]);
    ClassicEndToEnd(q, x, tab, run);
  }

  /** Nothing stalls when every group is taken at once. */
  lemma {:induction false} NoStalls(s: Sched, t: Trace, cs: seq<Scheduler.In>)
    requires Scheduler.Wf(DEFAULTS, s) && forall k | 0 <= k < |cs| :: cs[k].gready
    ensures TimingProof.Lost(DEFAULTS, s, t, cs).1 == 0
  {
    hide Pow2, Clog2;
    if cs == [] {
    } else {
      hide After, TimingProof.Waiting;
      NoStalls(s, t, cs[..|cs| - 1]);
    }
  }

  lemma {:induction false} CoreInsReady(u: Use, ins: seq<TopIn>)
    requires TopWf(u.x) && forall k | 0 <= k < |ins| :: ins[k].gready
    ensures forall k | 0 <= k < |ins| :: CoreIns(u, ins)[k].gready
  {
    hide Pow2, Clog2, UseAfter, TopWf;
    if ins == [] {
    } else {
      CoreInsReady(u, ins[..|ins| - 1]);
    }
  }

  lemma {:induction false} EagerReady(ws: seq<Write>, u: Use, k: nat)
    requires TopWf(u.x)
    ensures forall i | 0 <= i < k :: EagerRun(ws, u, k)[i].gready
  {
    hide UseAfter, TopWf;
    if k == 0 {
    } else {
      EagerReady(ws, u, k - 1);
    }
  }

  /** Under a responsive master a GROUP BY query completes too, within the engine's work for
      its rows, two edges a row and 17 more. */
  lemma ResponsiveGroupby(q: Query.Spec, x: Top, tab: seq<seq<nat>>, k: nat)
    requires AtRest(x) && Data(x.core.rd.banks) == tab
    requires Runnable(q) && q.groupby.Some? && JobOf(q, x.axil.regs, tab).Ok()
    requires k >= 2 * RowsScanned(q) + 17
      + GroupbyProof.RunCost(DEFAULTS.Gb().B(), DEFAULTS.AccMax(),
                             GroupedRows(q, RowMajor(DEFAULTS.numRows, tab), RowsScanned(q)))
    ensures TopWf(x) && var u := UseAfter(Opened(x), EagerRun(Query.Compile(q).0, Opened(x), k));
      && Bit(ReadWord(u.x, REG_STATUS), 1)
      && GroupbyAnswered(q, RowMajor(DEFAULTS.numRows, tab), u.t.g.beats)
  {
    hide Pow2, Clog2, Query.Compile, EagerIn, EagerRun, Drives, Driven, UseNext, UseAfter, Scheduler.Next, Strobed,
         ReadWord, ReadAccum, Bit, AtRest, JobOf, GroupbyProof.RunCost, GroupbyAnswered, TimingProof.Lost, QueryRows,
         CoreIns, CoreIn;
    RestWf(x);
    var ws := Query.Compile(q).0;
    var run := EagerRun(ws, Opened(x), k);
    EagerStrobes(q, x, tab, k);
    EagerAnswered(q, x, tab, k);
    var u, i, rest := UseAfter(Opened(x), run[..15]), run[15], run[16..];
    EagerReady(ws, Opened(x), k);
    CoreInsReady(UseNext(u, i), rest);
    NoStalls(Scheduler.Next(DEFAULTS, u.x.core, CoreIn(u.x, i)), NO_TRACE, CoreIns(UseNext(u, i), rest));
    GroupbyLatency(q, x.axil.regs, tab, u, i, rest);
    GroupbyEndToEnd(q, x, tab, run);
  }
}
