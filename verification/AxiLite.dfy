/** axi_lite_slave: the AXI-Lite handshakes and the register file, one clock edge at a time. */
module AxiLite {
  import opened Bits
  import opened DbPkg
  import opened Scheduler

  // ------------------------------------------------------------------ register map

  const REG_CTRL: nat := 0
  const REG_STATUS: nat := 1
  const REG_QUERY: nat := 2
  const REG_AGG_CFG: nat := 3
  const REG_PROJ_MASK: nat := 4
  const REG_PRED_BASE: nat := 8
  const REG_LOAD_ADDR: nat := 0x20
  const REG_LOAD_DATA0: nat := 0x21
  const REG_LOAD_ROW: nat := 0x25
  const REG_RESULT: nat := 0x30
  const REG_RESULT_HI: nat := 0x31
  const REG_COUNT: nat := 0x32
  const REG_COUNT_HI: nat := 0x33
  const REG_OVERFLOW: nat := 0x34

  const NUM_PRED: nat := 2
  const NUM_COLS: nat := 4
  const WORD: nat := 0x1_0000_0000

  /** The shipped parameters: 1024 rows of 4 columns of 32 bits, 256 buckets. */
  const DEFAULTS := Dims(1024, NUM_COLS, 8, 4)

  /** The derived widths the register map and the control plane hard-code. */
  lemma ShippedWidths()
    ensures DEFAULTS.Ok() && DEFAULTS.ColWidth() == 32 && DEFAULTS.ColAddrW() == 10 && DEFAULTS.AccumW() == 42
    ensures DEFAULTS.Gb().B() == 256 && Pow2(DEFAULTS.ColWidth()) == WORD
  {
    assert Pow2(8) == 0x100 && Pow2(10) == 1024;
    hide Pow2, Clog2;
    Clog2OfPow2(10);
    Pow2Add(8, 8);
    Pow2Add(16, 16);
  }

  // ------------------------------------------------------------------ register file

  datatype RegFile = RegFile(query: nat, agg: AggCfg, preds: seq<Pred>, mask: nat, loadAddr: nat, loadData: seq<nat>) {
    predicate Wf() {
      |preds| == NUM_PRED && |loadData| == NUM_COLS
    }

    function Config(): DbPkg.Config {
      DbPkg.Config(query, agg, preds, mask)
    }
  }

  const ZERO_PRED := Pred(false, 0, false, 0, 0)
  const ZERO_REGS := RegFile(0, AggCfg(0, false, 0, 0), [ZERO_PRED, ZERO_PRED], 0, 0, [0, 0, 0, 0])

  /** One register write: word offset and data. */
  datatype Write = Write(word: nat, data: nat)

  /** agg_cfg_t in bits [23:0]: op[23:21] groupby[20] column[19:10] gby_key[9:0]. */
  function DecodeAgg(w: nat): AggCfg {
    AggCfg(w / 0x20_0000 % 8, w / 0x10_0000 % 2 == 1, w / 0x400 % 0x400, w % 0x400)
  }

  /** The upper word of a predicate slot, bits [14:0]: enable[14] op[13:11] combine[10] column[9:0]. */
  function DecodePredHigh(p: Pred, w: nat): Pred {
    Pred(w / 0x4000 % 2 == 1, w / 0x800 % 8, w / 0x400 % 2 == 1, w % 0x400, p.imm)
  }

  function ApplyWrite(r: RegFile, w: Write): (r': RegFile)
    requires r.Wf()
    ensures r'.Wf()
  {
    if w.word == REG_QUERY then r.(query := w.data % 0x400)
    else if w.word == REG_AGG_CFG then r.(agg := DecodeAgg(w.data))
    else if w.word == REG_PROJ_MASK then r.(mask := w.data % 16)
    else if w.word == REG_LOAD_ADDR then r.(loadAddr := w.data % 0x400)
    else if REG_PRED_BASE <= w.word < REG_PRED_BASE + 2 * NUM_PRED then
      var i := (w.word - REG_PRED_BASE) / 2;
      if w.word % 2 == 1 then r.(preds := r.preds[i := DecodePredHigh(r.preds[i], w.data)])
      else r.(preds := r.preds[i := r.preds[i].(imm := w.data)])
    else if REG_LOAD_DATA0 <= w.word < REG_LOAD_DATA0 + NUM_COLS then
      r.(loadData := r.loadData[w.word - REG_LOAD_DATA0 := w.data])
    else r
  }

  function ApplyAll(r: RegFile, ws: seq<Write>): (r': RegFile)
    requires r.Wf()
    ensures r'.Wf()
  {
    if ws == [] then r else ApplyWrite(ApplyAll(r, ws[..|ws| - 1]), ws[|ws| - 1])
  }

  // ------------------------------------------------------------------ one edge

  datatype Axil = Axil(awready: bool, wready: bool, bvalid: bool, arready: bool, rvalid: bool, araddr: nat,
                       regs: RegFile, start: bool, abort: bool, load: bool)

  datatype Bus = Bus(awvalid: bool, awaddr: nat, wvalid: bool, wdata: nat, bready: bool,
                     arvalid: bool, araddr: nat, rready: bool)

  const RESET_AXIL := Axil(true, true, false, true, false, 0, ZERO_REGS, false, false, false)

  /** Address bits [15:2]. */
  function WordOf(addr: nat): nat {
    addr / 4 % 0x4000
  }

  /** The four byte addresses of a word, and its aliases above the 16 address bits. */
  lemma WordAddresses(w: nat, byte: nat, page: nat)
    requires w < 0x4000 && byte < 4
    ensures WordOf(page * 0x1_0000 + 4 * w + byte) == w
  {
    ModUnique(page * 0x1_0000 + 4 * w + byte, 4, page * 0x4000 + w, byte);
    ModUnique(page * 0x4000 + w, 0x4000, page, w);
  }

  /** AW and W are accepted together on this edge. */
  predicate Captures(s: Axil, b: Bus) {
    b.awvalid && s.awready && b.wvalid && s.wready
  }

  function WriteOf(b: Bus): Write {
    Write(WordOf(b.awaddr), b.wdata)
  }

  function AxilNext(s: Axil, b: Bus): (s': Axil)
    requires s.regs.Wf()
    ensures s'.regs.Wf()
  {
    var cap, w := Captures(s, b), WriteOf(b);
    var resp := s.bvalid && b.bready;
    var ar := b.arvalid && s.arready;
    var rd := s.rvalid && b.rready;
    Axil(if resp then true else if cap then false else s.awready,
         if resp then true else if cap then false else s.wready,
         if resp then false else if cap then true else s.bvalid,
         if rd then true else if ar then false else s.arready,
         if rd then false else if ar then true else s.rvalid,
         if ar then b.araddr else s.araddr,
         if cap then ApplyWrite(s.regs, w) else s.regs,
         cap && w.word == REG_CTRL && Bit(w.data, 0),
         cap && w.word == REG_CTRL && Bit(w.data, 1),
         cap && w.word == REG_LOAD_ROW)
  }

  /** Either ready for a write, or owing a response; and the same of reads. */
  predicate Handshake(s: Axil) {
    s.regs.Wf() && s.awready == s.wready == !s.bvalid && s.arready == !s.rvalid
  }

  /** What the bus has seen: writes captured, in order, and responses taken. */
  datatype BusTrace = BusTrace(writes: seq<Write>, responses: nat)

  function BusTraceNext(s: Axil, b: Bus, t: BusTrace): BusTrace {
    BusTrace(if Captures(s, b) then t.writes + [WriteOf(b)] else t.writes,
             if s.bvalid && b.bready then t.responses + 1 else t.responses)
  }

  function AxilAfter(s: Axil, t: BusTrace, bs: seq<Bus>): (r: (Axil, BusTrace))
    requires s.regs.Wf()
    ensures r.0.regs.Wf()
  {
    if bs == [] then (s, t)
    else
      var (s1, t1) := AxilAfter(s, t, bs[..|bs| - 1]);
      (AxilNext(s1, bs[|bs| - 1]), BusTraceNext(s1, bs[|bs| - 1], t1))
  }

  /** Under any bus activity and any ready pattern: the register file holds exactly the writes
      captured, each applied once and in order; a write is captured only when the one before
      has been answered, and every captured write owes or has had exactly one response. */
  lemma {:induction false} WritesAppliedOnce(s: Axil, bs: seq<Bus>)
    requires Handshake(s) && !s.bvalid
    ensures var (s', t) := AxilAfter(s, BusTrace([], 0), bs);
      && Handshake(s')
      && s'.regs == ApplyAll(s.regs, t.writes)
      && |t.writes| == t.responses + if s'.bvalid then 1 else 0
  {
    if bs == [] {
    } else {
      var n := |bs| - 1;
      WritesAppliedOnce(s, bs[..n]);
      var (s1, t1) := AxilAfter(s, BusTrace([], 0), bs[..n]);
      ApplyAllSnoc(s.regs, t1.writes, WriteOf(bs[n]));
    }
  }

  lemma ApplyAllSnoc(r: RegFile, ws: seq<Write>, w: Write)
    requires r.Wf()
    ensures ApplyAll(r, ws + [w]) == ApplyWrite(ApplyAll(r, ws), w)
  {
    assert (ws + [w])[..|ws|] == ws;
  }

  /** A strobe lasts one edge: it follows a capture of its register, and only that. */
  lemma StrobesArePulses(s: Axil, b: Bus)
    requires Handshake(s)
    ensures var s' := AxilNext(s, b);
      && (s'.start || s'.abort || s'.load ==> Captures(s, b) && s'.bvalid && !s'.awready)
      && (s'.start || s'.abort ==> !s'.load)
  {}

  // ------------------------------------------------------------------ the slave

  /** The writable registers. */
  class RegisterFile {
    const preds: array<Pred>
    const loadData: array<nat>
    var query: nat
    var agg: AggCfg
    var mask: nat
    var loadAddr: nat

    ghost function State(): RegFile
      reads this, preds, loadData
    {
      RegFile(query, agg, preds[..], mask, loadAddr, loadData[..])
    }

    ghost predicate Valid() {
      preds.Length == NUM_PRED && loadData.Length == NUM_COLS
    }

    constructor ()
      ensures Valid() && fresh(preds) && fresh(loadData) && State() == ZERO_REGS
    {
      preds := new Pred[NUM_PRED](_ => ZERO_PRED);
      loadData := new nat[NUM_COLS](_ => 0);
      query, agg, mask, loadAddr := 0, AggCfg(0, false, 0, 0), 0, 0;
    }

    method Reset()
      requires Valid()
      modifies this, preds, loadData
      ensures State() == ZERO_REGS
    {
      query, agg, mask, loadAddr := 0, AggCfg(0, false, 0, 0), 0, 0;
      for i := 0 to NUM_PRED
        modifies preds
        invariant forall k | 0 <= k < i :: preds[k] == ZERO_PRED
      {
        preds[i] := ZERO_PRED;
      }
      for c := 0 to NUM_COLS
        modifies loadData
        invariant forall k | 0 <= k < c :: loadData[k] == 0
      {
        loadData[c] := 0;
      }
    }

    /** The registers a captured word lands in. */
    method Store(w: Write)
      requires Valid()
      modifies this, preds, loadData
      ensures State() == ApplyWrite(old(State()), w)
    {
      hide DecodeAgg, DecodePredHigh;
      if w.word == REG_QUERY {
        query := w.data % 0x400;
      } else if w.word == REG_AGG_CFG {
        agg := DecodeAgg(w.data);
      } else if w.word == REG_PROJ_MASK {
        mask := w.data % 16;
      } else if w.word == REG_LOAD_ADDR {
        loadAddr := w.data % 0x400;
      }
      if REG_PRED_BASE <= w.word < REG_PRED_BASE + 2 * NUM_PRED {
        var i := (w.word - REG_PRED_BASE) / 2;
        if w.word % 2 == 1 {
          preds[i] := DecodePredHigh(preds[i], w.data);
        } else {
          preds[i] := preds[i].(imm := w.data);
        }
      }
      if REG_LOAD_DATA0 <= w.word < REG_LOAD_DATA0 + NUM_COLS {
        loadData[w.word - REG_LOAD_DATA0] := w.data;
      }
    }
  }

  class Slave {
    const file: RegisterFile
    var awready: bool
    var wready: bool
    var bvalid: bool
    var arready: bool
    var rvalid: bool
    var araddr: nat
    var start: bool
    var abort: bool
    var load: bool

    ghost function State(): Axil
      reads this, file, file.preds, file.loadData
    {
      Axil(awready, wready, bvalid, arready, rvalid, araddr, file.State(), start, abort, load)
    }

    constructor ()
      ensures file.Valid() && fresh(file) && fresh(file.preds) && fresh(file.loadData) && State() == RESET_AXIL
    {
      file := new RegisterFile();
      awready, wready, bvalid, arready, rvalid, araddr := true, true, false, true, false, 0;
      start, abort, load := false, false, false;
    }

    method Reset()
      requires file.Valid()
      modifies this, file, file.preds, file.loadData
      ensures State() == RESET_AXIL
    {
      file.Reset();
      awready, wready, bvalid, arready, rvalid, araddr := true, true, false, true, false, 0;
      start, abort, load := false, false, false;
    }

    /** The write handshake: AW and W are taken together, then B is owed until taken. */
    method WriteChannel(cap: bool, bready: bool)
      modifies `awready, `wready, `bvalid
      ensures var answered := old(bvalid) && bready;
        && awready == (if answered then true else if cap then false else old(awready))
        && wready == (if answered then true else if cap then false else old(wready))
        && bvalid == (if answered then false else if cap then true else old(bvalid))
    {
      var answered := bvalid && bready;
      if cap { awready, wready, bvalid := false, false, true; }
      if answered { bvalid, awready, wready := false, true, true; }
    }

    /** The read handshake: AR is taken, then R is owed until taken. */
    method ReadChannel(b: Bus)
      modifies `arready, `rvalid, `araddr
      ensures var ar, taken := b.arvalid && old(arready), old(rvalid) && b.rready;
        && arready == (if taken then true else if ar then false else old(arready))
        && rvalid == (if taken then false else if ar then true else old(rvalid))
        && araddr == if ar then b.araddr else old(araddr)
    {
      var taken := rvalid && b.rready;
      if b.arvalid && arready { arready, araddr, rvalid := false, b.araddr, true; }
      if taken { rvalid, arready := false, true; }
    }

    /** The strobes rise on a capture of their register and fall on the next edge. */
    method Strobe(cap: bool, w: Write)
      modifies `start, `abort, `load
      ensures start == (cap && w.word == REG_CTRL && Bit(w.data, 0))
      ensures abort == (cap && w.word == REG_CTRL && Bit(w.data, 1))
      ensures load == (cap && w.word == REG_LOAD_ROW)
    {
      start, abort, load := false, false, false;
      if cap {
        if w.word == REG_CTRL { start, abort := Bit(w.data, 0), Bit(w.data, 1); }
        if w.word == REG_LOAD_ROW { load := true; }
      }
    }

    /** One clock edge without reset. */
    method Tick(b: Bus)
      requires file.Valid()
      modifies this, file, file.preds, file.loadData
      ensures State() == AxilNext(old(State()), b)
    {
      hide ApplyWrite, WordOf, Bit;
      var cap, w := b.awvalid && awready && b.wvalid && wready, WriteOf(b);
      if cap { file.Store(w); }
      Control(cap, b);
    }

    /** The registers outside the register file. */
    method Control(cap: bool, b: Bus)
      requires cap == (b.awvalid && awready && b.wvalid && wready) && file.Valid()
      modifies this
      ensures State() == AxilNext(old(State()), b).(regs := file.State())
    {
      hide ApplyWrite, WordOf, Bit;
      WriteChannel(cap, b.bready);
      ReadChannel(b);
      Strobe(cap, WriteOf(b));
    }
  }

  // ------------------------------------------------------------------ read mux

  function ErrorCode(e: Error): nat {
    match e case ErrNone => 0 case ErrStartBusy => 1 case ErrAggOverflow => 2
  }

  function EncodeAgg(a: AggCfg): nat {
    a.op * 0x20_0000 + (if a.groupby then 0x10_0000 else 0) + a.column * 0x400 + a.gbyKey
  }

  function EncodePredHigh(p: Pred): nat {
    (if p.enable then 0x4000 else 0) + p.op * 0x800 + (if p.combineOr then 0x400 else 0) + p.column
  }

  /** The word a read returns, from the captured address and the scheduler's outputs. */
  function ReadMux(r: RegFile, addr: nat, c: Sched): nat
    requires r.Wf()
  {
    var w := WordOf(addr);
    if REG_PRED_BASE <= w < REG_PRED_BASE + 2 * NUM_PRED then
      var p := r.preds[(w - REG_PRED_BASE) / 2];
      if w % 2 == 1 then EncodePredHigh(p) else p.imm
    else if REG_LOAD_DATA0 <= w < REG_LOAD_DATA0 + NUM_COLS then r.loadData[w - REG_LOAD_DATA0]
    else if w == REG_LOAD_ADDR then r.loadAddr
    else if w == REG_STATUS then
      4 * ErrorCode(c.error) + (if c.fsm == Done then 2 else 0) + if c.fsm == Scan then 1 else 0
    else if w == REG_QUERY then r.query
    else if w == REG_AGG_CFG then EncodeAgg(r.agg)
    else if w == REG_PROJ_MASK then r.mask
    else if w == REG_RESULT then c.result % WORD
    else if w == REG_RESULT_HI then c.result / WORD
    else if w == REG_COUNT then c.count % WORD
    else if w == REG_COUNT_HI then c.count / WORD
    else if w == REG_OVERFLOW then if c.overflow then 1 else 0
    else 0
  }

  /** A status word shows busy in bit 0, done in bit 1, and the error code above. */
  predicate StatusShows(data: nat, c: Sched) {
    && data < 16 && (Bit(data, 0) <==> c.fsm == Scan) && (Bit(data, 1) <==> c.fsm == Done)
    && match c.error
       case ErrNone => data / 4 == 0
       case ErrStartBusy => data / 4 == 1
       case ErrAggOverflow => data / 4 == 2
  }

  /** A word that a write can set. */
  predicate Writable(word: nat) {
    || word in {REG_QUERY, REG_AGG_CFG, REG_PROJ_MASK, REG_LOAD_ADDR}
    || REG_PRED_BASE <= word < REG_PRED_BASE + 2 * NUM_PRED
    || REG_LOAD_DATA0 <= word < REG_LOAD_DATA0 + NUM_COLS
  }

  /** What reads show that no write set: the scheduler's outputs, and zero at every other word. */
  lemma MuxWords(r: RegFile, addr: nat, c: Sched)
    requires r.Wf()
    ensures WordOf(addr) == REG_RESULT ==> ReadMux(r, addr, c) == c.result % WORD
    ensures WordOf(addr) == REG_RESULT_HI ==> ReadMux(r, addr, c) == c.result / WORD
    ensures WordOf(addr) == REG_COUNT ==> ReadMux(r, addr, c) == c.count % WORD
    ensures WordOf(addr) == REG_COUNT_HI ==> ReadMux(r, addr, c) == c.count / WORD
    ensures WordOf(addr) == REG_OVERFLOW ==> ReadMux(r, addr, c) == if c.overflow then 1 else 0
    ensures WordOf(addr) == REG_STATUS ==> StatusShows(ReadMux(r, addr, c), c)
    ensures !Writable(WordOf(addr)) && WordOf(addr) != REG_STATUS && !(REG_RESULT <= WordOf(addr) <= REG_OVERFLOW)
        ==> ReadMux(r, addr, c) == 0
  {
    if WordOf(addr) == REG_STATUS {
      var s, e := ReadMux(r, addr, c), ErrorCode(c.error);
      assert s == 4 * e + (if c.fsm == Done then 2 else 0) + if c.fsm == Scan then 1 else 0;
      assert Bit(s, 0) == (s % 2 == 1) && Bit(s, 1) == (s / 2 % 2 == 1);
    }
  }

  /** A write changes what one word reads, its own, and what no other does. */
  lemma WritesApart(r: RegFile, w: Write, c: Sched, addr: nat)
    requires r.Wf() && WordOf(addr) != w.word
    ensures ReadMux(ApplyWrite(r, w), addr, c) == ReadMux(r, addr, c)
  {
    hide EncodeAgg, DecodeAgg, WordOf;
  }

  /** After reset every word but the scheduler's reads zero. */
  lemma ZeroReads(addr: nat, c: Sched)
    requires Writable(WordOf(addr))
    ensures ReadMux(ZERO_REGS, addr, c) == 0
  {
    hide WordOf;
    var w := WordOf(addr);
    if REG_PRED_BASE <= w < REG_PRED_BASE + 2 * NUM_PRED {
      assert ZERO_REGS.preds[(w - REG_PRED_BASE) / 2] == ZERO_PRED;
    }
  }

  /** Configuration words read back as written, up to the bits their register holds. */
  lemma ReadBack(r: RegFile, w: Write, c: Sched, addr: nat)
    requires r.Wf() && WordOf(addr) == w.word && w.data < WORD
    requires Writable(w.word)
    ensures ReadMux(ApplyWrite(r, w), addr, c) == w.data % FieldSize(w.word)
  {
    if REG_PRED_BASE <= w.word < REG_PRED_BASE + 2 * NUM_PRED {
      ReadBackSlot(r, w, c, addr);
    } else {
      hide EncodeAgg, DecodeAgg, EncodePredHigh, DecodePredHigh;
      if w.word == REG_AGG_CFG { AggFields(w.data); }
    }
  }

  lemma ReadBackSlot(r: RegFile, w: Write, c: Sched, addr: nat)
    requires r.Wf() && WordOf(addr) == w.word && w.data < WORD
    requires REG_PRED_BASE <= w.word < REG_PRED_BASE + 2 * NUM_PRED
    ensures ReadMux(ApplyWrite(r, w), addr, c) == w.data % FieldSize(w.word)
  {
    hide EncodeAgg, DecodeAgg, EncodePredHigh, DecodePredHigh, WordOf;
    PredFields(w.data);
    assert ApplyWrite(r, w).preds[(w.word - REG_PRED_BASE) / 2]
        == var p := r.preds[(w.word - REG_PRED_BASE) / 2];
           if w.word % 2 == 1 then DecodePredHigh(p, w.data) else p.(imm := w.data);
  }

  /** How many values a register can hold. */
  function FieldSize(word: nat): nat {
    if word == REG_QUERY || word == REG_LOAD_ADDR then 0x400
    else if word == REG_AGG_CFG then 0x100_0000
    else if word == REG_PROJ_MASK then 16
    else if REG_PRED_BASE <= word < REG_PRED_BASE + 2 * NUM_PRED && word % 2 == 1 then 0x8000
    else WORD
  }

  lemma AggFields(w: nat)
    ensures EncodeAgg(DecodeAgg(w)) == w % 0x100_0000
  {
    ModSplit(w, 0x20_0000, 8);
    ModSplit(w, 0x10_0000, 2);
    ModSplit(w, 0x400, 0x400);
  }

  lemma PredFields(w: nat)
    ensures forall p :: EncodePredHigh(DecodePredHigh(p, w)) == w % 0x8000
  {
    ModSplit(w, 0x4000, 2);
    ModSplit(w, 0x800, 8);
    ModSplit(w, 0x400, 2);
  }
}
