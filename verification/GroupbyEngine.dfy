/** groupby_engine: the clocked GROUP BY engine, register by register.
    Next is one clock edge: every new value is computed from the old ones. */
module GroupbyEngine {
  import opened Bits
  import opened RefTable
  import opened DbPkg

  datatype Phase = Clear | AggIdle | AggRd | AggWrite | Scan | Present

  datatype GroupBeat = GroupBeat(g: Group, last: bool)

  /** The bucket RAM with its read register and its registered write. */
  datatype Ram = Ram(mem: Table, raddr: nat, rd: Bucket, wen: bool, waddr: nat, wdata: Bucket) {
    predicate Wf(b: nat) {
      |mem| == b && raddr < b && waddr < b
    }

    /** The contents with the registered write applied. */
    function Eff(): (t: Table)
      requires waddr < |mem|
      ensures |t| == |mem|
    {
      if wen then mem[waddr := wdata] else mem
    }

    /** One edge of the ports with the address and write registers kept: the read port
        returns the old contents. */
    function Edge(b: nat): (r: Ram)
      requires Wf(b)
      ensures r.Wf(b)
    {
      Ram(Eff(), raddr, mem[raddr], wen, waddr, wdata)
    }

    function ReadAt(b: nat, a: nat): (r: Ram)
      requires Wf(b) && a < b
      ensures r.Wf(b)
    {
      Ram(Eff(), a, mem[raddr], wen, waddr, wdata)
    }

    function Idle(b: nat, a: nat): (r: Ram)
      requires Wf(b) && a < b
      ensures r.Wf(b)
    {
      Ram(Eff(), a, mem[raddr], false, waddr, wdata)
    }

    function WriteAt(b: nat, a: nat, x: Bucket): (r: Ram)
      requires Wf(b) && a < b
      ensures r.Wf(b)
    {
      Ram(Eff(), raddr, mem[raddr], true, a, x)
    }
  }

  /** The row being aggregated and its probe chain. */
  datatype Cur = Cur(key: nat, val: nat, last: bool, probeIdx: nat, probeCount: nat)

  /** The dump passes and the output register. */
  datatype Dump = Dump(idx: nat, lastValid: nat, hold: bool, isLast: bool, out: Group)

  datatype Gb = Gb(phase: Phase, busy: bool, done: bool, stage: nat, clearIdx: nat,
                   cur: Cur, dump: Dump, ram: Ram)

  /** One edge's inputs. */
  datatype In = In(start: bool, valid: bool, row: Row, ready: bool)

  /** Addresses, indices, the read stage and the probe counter stay within their widths. */
  predicate Wf(p: Params, s: Gb) {
    && p.Ok()
    && s.ram.Wf(p.B())
    && s.stage < 4 && s.clearIdx < p.B()
    && s.cur.probeIdx < p.B() && s.cur.probeCount < 2 * p.B()
    && s.dump.idx < p.B() && s.dump.lastValid < p.B()
  }

  predicate Ready(s: Gb) {
    s.busy && s.phase == AggIdle
  }

  predicate OutValid(s: Gb) {
    s.phase == Present && s.dump.hold
  }

  function OutBeat(s: Gb): GroupBeat {
    GroupBeat(s.dump.out, s.dump.isLast)
  }

  /** The carry-out adder: an extended sum one bit wider than the accumulator. */
  function SumExt(m: nat, x: nat, v: nat): nat {
    (x + v) % (2 * (m + 1))
  }

  function SatAdd(m: nat, x: nat, v: nat): nat {
    if SumExt(m, x, v) > m then m else SumExt(m, x, v)
  }

  function CountInc(m: nat, n: nat): nat {
    (n + 1) % (m + 1)
  }

  lemma CountFits(m: nat, n: nat)
    requires n < m
    ensures CountInc(m, n) == n + 1
  {
    ModUnique(n + 1, m + 1, 0, n + 1);
  }

  lemma SumExtFits(m: nat, x: nat, v: nat)
    requires x <= m && v <= m
    ensures SumExt(m, x, v) == x + v
  {
    ModUnique(x + v, 2 * (m + 1), 0, x + v);
  }

  function UpdatedBucket(m: nat, s: Bucket, key: nat, v: nat): Bucket {
    if !s.valid then Bucket(true, Group(key, 1, v, v, v))
    else
      var g := s.g;
      Bucket(true, Group(g.key, CountInc(m, g.count), SatAdd(m, g.sum, v),
                         if v < g.min then v else g.min, if v > g.max then v else g.max))
  }

  function Reset(p: Params, s: Gb): (s': Gb)
    requires Wf(p, s)
    ensures Wf(p, s')
  {
    Gb(AggIdle, false, false, 0, 0, Cur(0, 0, false, 0, 0), Dump(0, 0, false, false, ZERO_GROUP),
       Ram(s.ram.Eff(), s.ram.raddr, ZERO_BUCKET, false, 0, ZERO_BUCKET))
  }

  function Next(p: Params, s: Gb, i: In): (s': Gb)
    requires Wf(p, s)
    ensures Wf(p, s')
  {
    if i.start then
      Gb(Clear, true, false, 0, 0, s.cur, s.dump.(hold := false), s.ram.Idle(p.B(), s.ram.raddr))
    else if !s.busy then s.(ram := s.ram.Edge(p.B()))
    else match s.phase
      case Clear => ClearNext(p, s)
      case AggIdle => IdleNext(p, s, i)
      case AggRd => RdNext(p, s)
      case AggWrite => WriteNext(p, s)
      case Scan => ScanNext(p, s)
      case Present => PresentNext(p, s, i)
  }

  function ClearNext(p: Params, s: Gb): (s': Gb)
    requires Wf(p, s)
    ensures Wf(p, s')
  {
    var r := s.ram.WriteAt(p.B(), s.clearIdx, ZERO_BUCKET);
    if s.clearIdx == p.B() - 1 then s.(phase := AggIdle, ram := r)
    else s.(clearIdx := s.clearIdx + 1, ram := r)
  }

  /** Enter the first dump pass. */
  function ToScan(s: Gb, r: Ram, c: Cur): Gb {
    s.(phase := Scan, stage := 0, cur := c, dump := s.dump.(idx := 0), ram := r)
  }

  function IdleNext(p: Params, s: Gb, i: In): (s': Gb)
    requires Wf(p, s)
    ensures Wf(p, s')
  {
    var row := i.row;
    var r := s.ram.Idle(p.B(), s.ram.raddr);
    if !i.valid then s.(ram := r)
    else if row.pass then
      HashInRange(p.addrW, row.key);
      var h := Hash(p.B(), row.key);
      s.(phase := AggRd, stage := 1, cur := Cur(row.key, row.val, row.last, h, 2 * p.B() - 1),
         ram := s.ram.Idle(p.B(), h))
    else if row.last then ToScan(s, r, s.cur.(last := true))
    else s.(cur := s.cur.(last := false), ram := r)
  }

  function RdNext(p: Params, s: Gb): (s': Gb)
    requires Wf(p, s)
    ensures Wf(p, s')
  {
    var c, r := s.cur, s.ram;
    if s.stage != 2 then s.(stage := (s.stage + 1) % 4, ram := r.Edge(p.B()))
    else if r.rd.valid && r.rd.g.key != c.key then
      if c.probeCount == p.B() then
        if c.last then ToScan(s, r.Edge(p.B()), c) else s.(phase := AggIdle, ram := r.Edge(p.B()))
      else
        var a := Inc(p.B(), c.probeIdx);
        s.(stage := 1, cur := c.(probeIdx := a, probeCount := Inc(2 * p.B(), c.probeCount)),
           ram := r.ReadAt(p.B(), a))
    else
      s.(phase := AggWrite,
         ram := r.WriteAt(p.B(), c.probeIdx, UpdatedBucket(p.accMax, r.rd, c.key, c.val)))
  }

  function WriteNext(p: Params, s: Gb): (s': Gb)
    requires Wf(p, s)
    ensures Wf(p, s')
  {
    var r := s.ram.Idle(p.B(), s.ram.raddr);
    if s.cur.last then ToScan(s, r, s.cur) else s.(phase := AggIdle, ram := r)
  }

  /** Read issue and wait, shared by the two dump passes. */
  function DumpWait(p: Params, s: Gb): (s': Gb)
    requires Wf(p, s)
    ensures Wf(p, s')
  {
    s.(stage := (s.stage + 1) % 4,
       ram := s.ram.ReadAt(p.B(), if s.stage == 0 then s.dump.idx else s.ram.raddr))
  }

  /** Advance a dump pass to the next bucket, with d the other dump registers. */
  function DumpStep(p: Params, s: Gb, d: Dump): (s': Gb)
    requires Wf(p, s) && d.lastValid < p.B()
    ensures Wf(p, s')
  {
    var a := Inc(p.B(), s.dump.idx);
    s.(stage := 1, dump := d.(idx := a), ram := s.ram.ReadAt(p.B(), a))
  }

  function ScanNext(p: Params, s: Gb): (s': Gb)
    requires Wf(p, s)
    ensures Wf(p, s')
  {
    if s.stage != 2 then DumpWait(p, s)
    else
      var d := if s.ram.rd.valid then s.dump.(lastValid := s.dump.idx) else s.dump;
      if s.dump.idx == p.B() - 1 then
        s.(phase := Present, stage := 0, dump := d.(idx := 0), ram := s.ram.Edge(p.B()))
      else DumpStep(p, s, d)
  }

  function PresentNext(p: Params, s: Gb, i: In): (s': Gb)
    requires Wf(p, s)
    ensures Wf(p, s')
  {
    var d := s.dump;
    if d.hold then
      if !i.ready then s.(ram := s.ram.Edge(p.B()))
      else if d.idx == p.B() - 1 then
        s.(busy := false, done := true, dump := d.(hold := false), ram := s.ram.Edge(p.B()))
      else DumpStep(p, s, d.(hold := false))
    else if s.stage != 2 then DumpWait(p, s)
    else if s.ram.rd.valid then
      s.(dump := d.(hold := true, isLast := d.idx == d.lastValid, out := s.ram.rd.g),
         ram := s.ram.Edge(p.B()))
    else if d.idx == p.B() - 1 then s.(busy := false, done := true, ram := s.ram.Edge(p.B()))
    else DumpStep(p, s, d)
  }

  // ------------------------------------------------------------------ the engine

  /** The bucket RAM: a write is registered on one edge and committed on the next, and a read
      returns the word addressed on the edge before. */
  class BucketRam {
    const mem: array<Bucket>
    var raddr: nat
    var rd: Bucket
    var wen: bool
    var waddr: nat
    var wdata: Bucket

    ghost function State(): Ram
      reads this, mem
    {
      Ram(mem[..], raddr, rd, wen, waddr, wdata)
    }

    ghost predicate Valid()
      reads this, mem
    {
      State().Wf(mem.Length)
    }

    constructor (contents: Table)
      requires |contents| > 0
      ensures fresh(mem) && Valid() && State() == Ram(contents, 0, ZERO_BUCKET, false, 0, ZERO_BUCKET)
    {
      mem := new Bucket[|contents|](i requires 0 <= i < |contents| => contents[i]);
      raddr, rd, wen, waddr, wdata := 0, ZERO_BUCKET, false, 0, ZERO_BUCKET;
      new;
      assert mem[..] == contents;
    }

    /** The port registers after reset; a write already registered is still committed. */
    method Reset()
      requires Valid()
      modifies this, mem
      ensures Valid()
      ensures State() == old(Ram(State().Eff(), raddr, ZERO_BUCKET, false, 0, ZERO_BUCKET))
    {
      Edge();
      rd, wen, waddr, wdata := ZERO_BUCKET, false, 0, ZERO_BUCKET;
    }

    method Edge()
      requires Valid()
      modifies this, mem
      ensures Valid() && State() == old(State().Edge(mem.Length))
    {
      rd := mem[raddr];
      if wen { mem[waddr] := wdata; }
    }

    method ReadAt(a: nat)
      requires Valid() && a < mem.Length
      modifies this, mem
      ensures Valid() && State() == old(State().ReadAt(mem.Length, a))
    {
      Edge();
      raddr := a;
    }

    method Idle(a: nat)
      requires Valid() && a < mem.Length
      modifies this, mem
      ensures Valid() && State() == old(State().Idle(mem.Length, a))
    {
      Edge();
      raddr, wen := a, false;
    }

    method WriteAt(a: nat, x: Bucket)
      requires Valid() && a < mem.Length
      modifies this, mem
      ensures Valid() && State() == old(State().WriteAt(mem.Length, a, x))
    {
      Edge();
      wen, waddr, wdata := true, a, x;
    }
  }

  class Engine {
    const p: Params
    const ram: BucketRam
    var phase: Phase
    var busy: bool
    var done: bool
    var stage: nat
    var clearIdx: nat
    var cur: Cur
    var dump: Dump

    ghost function State(): Gb
      reads this, ram, ram.mem
    {
      Gb(phase, busy, done, stage, clearIdx, cur, dump, ram.State())
    }

    ghost predicate Valid()
      reads this, ram, ram.mem
    {
      ram.mem.Length == p.B() && Wf(p, State())
    }

    /** A core out of reset; the bucket RAM holds whatever it held. */
    constructor (p: Params, contents: Table)
      requires p.Ok() && |contents| == p.B()
      ensures this.p == p && fresh(ram) && fresh(ram.mem) && Valid()
      ensures State() == Gb(AggIdle, false, false, 0, 0, Cur(0, 0, false, 0, 0),
                            Dump(0, 0, false, false, ZERO_GROUP),
                            Ram(contents, 0, ZERO_BUCKET, false, 0, ZERO_BUCKET))
    {
      this.p := p;
      ram := new BucketRam(contents);
      phase, busy, done, stage, clearIdx := AggIdle, false, false, 0, 0;
      cur, dump := Cur(0, 0, false, 0, 0), Dump(0, 0, false, false, ZERO_GROUP);
    }

    method ResetTick()
      requires Valid()
      modifies this, ram, ram.mem
      ensures Valid() && State() == Reset(p, old(State()))
    {
      hide Pow2;
      ram.Reset();
      phase, busy, done, stage, clearIdx := AggIdle, false, false, 0, 0;
      cur, dump := Cur(0, 0, false, 0, 0), Dump(0, 0, false, false, ZERO_GROUP);
    }

    /** One clock edge without reset. */
    method Tick(start: bool, valid: bool, row: Row, ready: bool)
      requires Valid()
      modifies this, ram, ram.mem
      ensures Valid() && State() == Next(p, old(State()), In(start, valid, row, ready))
    {
      hide Pow2, ClearNext, IdleNext, RdNext, WriteNext, ScanNext, PresentNext;
      if start {
        ram.Idle(ram.raddr);
        phase, busy, done, stage, clearIdx := Clear, true, false, 0, 0;
        dump := dump.(hold := false);
      } else if !busy {
        ram.Edge();
      } else {
        match phase
        case Clear => ClearTick();
        case AggIdle => IdleTick(In(start, valid, row, ready));
        case AggRd => RdTick();
        case AggWrite => WriteTick();
        case Scan => ScanTick();
        case Present => PresentTick(In(start, valid, row, ready));
      }
    }

    method ClearTick()
      requires Valid()
      modifies this, ram, ram.mem
      ensures Valid() && State() == ClearNext(p, old(State()))
    {
      hide Pow2;
      ram.WriteAt(clearIdx, ZERO_BUCKET);
      if clearIdx == p.B() - 1 { phase := AggIdle; } else { clearIdx := clearIdx + 1; }
    }

    method IdleTick(i: In)
      requires Valid()
      modifies this, ram, ram.mem
      ensures Valid() && State() == IdleNext(p, old(State()), i)
    {
      hide Pow2, Hash;
      var row := i.row;
      if i.valid && row.pass {
        HashInRange(p.addrW, row.key);
        var h := Hash(p.B(), row.key);
        ram.Idle(h);
        cur := Cur(row.key, row.val, row.last, h, 2 * p.B() - 1);
        stage, phase := 1, AggRd;
      } else {
        ram.Idle(ram.raddr);
        if i.valid {
          cur := cur.(last := row.last);
          if row.last { EnterScan(); }
        }
      }
    }

    method RdTick()
      requires Valid()
      modifies this, ram, ram.mem
      ensures Valid() && State() == RdNext(p, old(State()))
    {
      hide Pow2, UpdatedBucket;
      var word := ram.rd;
      if stage != 2 {
        ram.Edge();
        stage := (stage + 1) % 4;
      } else if word.valid && word.g.key != cur.key {
        if cur.probeCount == p.B() {
          ram.Edge();
          if cur.last { EnterScan(); } else { phase := AggIdle; }
        } else {
          var a := Inc(p.B(), cur.probeIdx);
          ram.ReadAt(a);
          cur := cur.(probeIdx := a, probeCount := Inc(2 * p.B(), cur.probeCount));
          stage := 1;
        }
      } else {
        ram.WriteAt(cur.probeIdx, UpdatedBucket(p.accMax, word, cur.key, cur.val));
        phase := AggWrite;
      }
    }

    method WriteTick()
      requires Valid()
      modifies this, ram, ram.mem
      ensures Valid() && State() == WriteNext(p, old(State()))
    {
      hide Pow2;
      ram.Idle(ram.raddr);
      if cur.last { EnterScan(); } else { phase := AggIdle; }
    }

    method ScanTick()
      requires Valid()
      modifies this, ram, ram.mem
      ensures Valid() && State() == ScanNext(p, old(State()))
    {
      hide Pow2;
      if stage != 2 {
        Fetch();
      } else {
        if ram.rd.valid { dump := dump.(lastValid := dump.idx); }
        if dump.idx == p.B() - 1 {
          ram.Edge();
          phase, stage, dump := Present, 0, dump.(idx := 0);
        } else {
          NextBucket();
        }
      }
    }

    method PresentTick(i: In)
      requires Valid()
      modifies this, ram, ram.mem
      ensures Valid() && State() == PresentNext(p, old(State()), i)
    {
      hide Pow2;
      if dump.hold {
        if !i.ready {
          ram.Edge();
        } else {
          dump := dump.(hold := false);
          if dump.idx == p.B() - 1 { Finish(); } else { NextBucket(); }
        }
      } else if stage != 2 {
        Fetch();
      } else if ram.rd.valid {
        dump := dump.(hold := true, isLast := dump.idx == dump.lastValid, out := ram.rd.g);
        ram.Edge();
      } else if dump.idx == p.B() - 1 {
        Finish();
      } else {
        NextBucket();
      }
    }

    method EnterScan()
      modifies this
      ensures State() == ToScan(old(State()), ram.State(), cur) && cur == old(cur)
    {
      phase, stage, dump := Scan, 0, dump.(idx := 0);
    }

    /** Read issue and wait. */
    method Fetch()
      requires Valid()
      modifies this, ram, ram.mem
      ensures Valid() && State() == DumpWait(p, old(State()))
    {
      hide Pow2;
      ram.ReadAt(if stage == 0 then dump.idx else ram.raddr);
      stage := (stage + 1) % 4;
    }

    method NextBucket()
      requires Valid()
      modifies this, ram, ram.mem
      ensures Valid() && State() == DumpStep(p, old(State()), old(dump))
    {
      hide Pow2;
      var a := Inc(p.B(), dump.idx);
      ram.ReadAt(a);
      stage, dump := 1, dump.(idx := a);
    }

    /** The run ends after the last bucket. */
    method Finish()
      requires Valid()
      modifies this, ram, ram.mem
      ensures Valid()
      ensures State() == old(State().(busy := false, done := true, ram := State().ram.Edge(p.B())))
    {
      hide Pow2;
      ram.Edge();
      busy, done := false, true;
    }
  }
}
