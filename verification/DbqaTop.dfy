/** dbqa_top: the register file wired to the scheduler, with abort as a reset of the core only. */
module DbqaTop {
  import opened DbPkg
  import opened ColumnReader
  import opened AxiLite
  import opened Scheduler
  import opened PipelineProof
  import opened QueryProof
  import opened RefTable
  import SchedulerCore

  datatype Top = Top(axil: Axil, core: Sched)

  datatype TopIn = TopIn(rst: bool, bus: Bus, gready: bool)

  predicate TopWf(x: Top)
    ensures TopWf(x) ==> x.axil.regs.Wf()
  {
    x.axil.regs.Wf() && Scheduler.Wf(DEFAULTS, x.core)
  }

  /** What the scheduler sees: the registers as configuration, the strobes, and abort as reset. */
  function CoreIn(x: Top, i: TopIn): Scheduler.In {
    Scheduler.In(i.rst || x.axil.abort, Load(x.axil.load, x.axil.regs.loadAddr, x.axil.regs.loadData),
                 x.axil.regs.Config(), x.axil.start, i.gready)
  }

  function TopNext(x: Top, i: TopIn): (x': Top)
    requires TopWf(x)
    ensures TopWf(x')
  {
    Top(if i.rst then RESET_AXIL else AxilNext(x.axil, i.bus), Scheduler.Next(DEFAULTS, x.core, CoreIn(x, i)))
  }

  /** Abort cancels whatever runs, leaves the core quiet, and touches neither the registers nor
      the table. */
  lemma AbortCancels(x: Top, i: TopIn)
    requires TopWf(x) && x.axil.abort && !i.rst && !x.axil.load
    ensures var x' := TopNext(x, i);
      && Quiet(DEFAULTS, x'.core) && x'.core.fsm == Idle
      && Data(x'.core.rd.banks) == Data(x.core.rd.banks)
      && (!Captures(x.axil, i.bus) ==> x'.axil.regs == x.axil.regs)
  {
    BanksHold(x.core.rd.banks, CoreIn(x, i).load, x.core.rd.raddr);
  }

  // ------------------------------------------------------------------ the top

  class Accelerator {
    const axil: Slave
    const core: SchedulerCore.Core

    ghost predicate Owns() {
      core.Owns() && {axil, axil.file, axil.file.preds, axil.file.loadData} !! core.Repr
    }

    ghost function State(): Top
      requires Owns()
      reads axil, axil.file, axil.file.preds, axil.file.loadData, core.Repr
    {
      Top(axil.State(), core.State())
    }

    ghost predicate Valid()
      reads axil, axil.file, axil.file.preds, axil.file.loadData, core.Repr
    {
      Owns() && axil.file.Valid() && core.d == DEFAULTS && core.Valid()
    }

    constructor (buckets: Table)
      requires |buckets| == DEFAULTS.Gb().B()
      ensures Valid() && State().axil == RESET_AXIL
    {
      hide SchedulerCore.Core.State, SchedulerCore.Core.Owns, SchedulerCore.Core.Valid;
      var c := SchedulerCore.NewCore(DEFAULTS, buckets);
      axil := new Slave();
      core := c;
    }

    /** One clock edge of both halves; the core samples the registers as they were. */
    method Tick(i: TopIn)
      requires Valid()
      modifies axil, axil.file, axil.file.preds, axil.file.loadData, core.Repr
      ensures Valid() && State() == TopNext(old(State()), i)
    {
      hide SchedulerCore.Core.State, SchedulerCore.Core.Owns, SchedulerCore.Core.Valid, Scheduler.Next, Scheduler.Wf,
           AxilNext;
      var file := axil.file;
      var cfg := Config(file.query, file.agg, file.preds[..], file.mask);
      var load := Load(axil.load, file.loadAddr, file.loadData[..]);
      core.Tick(Scheduler.In(i.rst || axil.abort, load, cfg, axil.start, i.gready));
      if i.rst { axil.Reset(); } else { axil.Tick(i.bus); }
    }
  }
}
