/** column_memory and column_reader: synchronous-read banks and the scan FSM over them. */
module ColumnReader {
  import opened Bits
  import opened DbPkg
  import AxisFifo

  /** One column bank: its RAM and the read register of the streaming port. */
  datatype Mem = Mem(data: seq<nat>, rdata: nat)

  /** Port A load, one whole row across the banks. */
  datatype Load = Load(wen: bool, addr: nat, data: seq<nat>)

  /** One edge of a bank: port B returns the contents before this edge's write. */
  function MemNext(m: Mem, wen: bool, waddr: nat, wdata: nat, raddr: nat): Mem {
    Mem(if wen && waddr < |m.data| then m.data[waddr := wdata] else m.data, Col(m.data, raddr))
  }

  /** The reader's registers, its banks, and the words its output FIFO holds. */
  datatype Reader = Reader(raddr: nat, ret: nat, pending: bool, busy: bool, done: bool,
                           banks: seq<Mem>, fifo: seq<Beat>)

  predicate Wf(d: Dims, s: Reader) {
    && d.Ok()
    && |s.banks| == d.numCols && (forall c | 0 <= c < d.numCols :: |s.banks[c].data| == d.numRows)
    && |s.fifo| <= d.fifoDepth
  }

  function BanksNext(banks: seq<Mem>, l: Load, raddr: nat): (r: seq<Mem>)
    ensures |r| == |banks|
  {
    seq(|banks|, c requires 0 <= c < |banks| => MemNext(banks[c], l.wen, l.addr, Col(l.data, c), raddr))
  }

  /** The read registers of all banks, as one row. */
  function RowOut(banks: seq<Mem>): (r: seq<nat>)
    ensures |r| == |banks|
  {
    seq(|banks|, c requires 0 <= c < |banks| => banks[c].rdata)
  }

  /** The row the scan stops at: bound - 1, or the table's last row. */
  function LastRow(d: Dims, bound: nat): nat
    requires d.Ok()
  {
    if bound == 0 then d.numRows - 1
    else if bound - 1 < d.numRows - 1 then bound - 1
    else d.numRows - 1
  }

  lemma LastRowIsScanRows(d: Dims, bound: nat)
    requires d.Ok()
    ensures LastRow(d, bound) + 1 == ScanRows(d.numRows, bound)
  {}

  predicate PushValid(s: Reader) {
    s.pending && s.busy
  }

  predicate PushReady(d: Dims, s: Reader) {
    |s.fifo| < d.fifoDepth
  }

  function PushBeat(d: Dims, s: Reader, bound: nat): Beat
    requires d.Ok()
  {
    Beat(true, RowOut(s.banks), s.ret == LastRow(d, bound))
  }

  function Reset(d: Dims, s: Reader, l: Load): (s': Reader)
    requires Wf(d, s)
    ensures Wf(d, s')
  {
    Reader(0, 0, false, false, false, BanksNext(s.banks, l, s.raddr), [])
  }

  function Next(d: Dims, s: Reader, l: Load, start: bool, bound: nat, ready: bool): (s': Reader)
    requires Wf(d, s)
    ensures Wf(d, s')
  {
    var fifo := AxisFifo.QueueNext(d.fifoDepth, s.fifo, PushValid(s), PushBeat(d, s, bound), ready);
    Advance(d, s.(banks := BanksNext(s.banks, l, s.raddr), fifo := fifo), start,
            s.pending && PushReady(d, s), s.ret == LastRow(d, bound))
  }

  /** The scan FSM: a fresh row was accepted or not, and it was the last or not. */
  function Advance(d: Dims, s: Reader, start: bool, accepted: bool, last: bool): (s': Reader)
    requires Wf(d, s)
    ensures Wf(d, s')
  {
    if start then s.(busy := true, done := false, raddr := 0, ret := 0, pending := true)
    else if !s.busy then s
    else if !accepted then s.(ret := s.raddr, pending := true)
    else if last then s.(busy := false, done := true, raddr := 0, ret := 0, pending := false)
    else s.(ret := s.raddr, raddr := Inc(Pow2(d.ColAddrW()), s.raddr), pending := false)
  }

  // ------------------------------------------------------------------ the banks and the reader

  class ColumnMemory {
    const mem: array<nat>
    var rdata: nat

    ghost function State(): Mem
      reads this, mem
    {
      Mem(mem[..], rdata)
    }

    constructor (depth: nat)
      ensures fresh(mem) && State() == Mem(seq(depth, _ => 0), 0)
    {
      mem := new nat[depth](_ => 0);
      rdata := 0;
      new;
      assert mem[..] == seq(depth, _ => 0);
    }

    /** One clock edge of both ports: the read returns the word from before the write. */
    method Tick(wen: bool, waddr: nat, wdata: nat, raddr: nat)
      modifies this, mem
      ensures State() == MemNext(old(State()), wen, waddr, wdata, raddr)
    {
      rdata := if raddr < mem.Length then mem[raddr] else 0;
      if wen && waddr < mem.Length { mem[waddr] := wdata; }
    }
  }

  ghost function Footprint(banks: seq<ColumnMemory>): set<object> {
    (set c | 0 <= c < |banks| :: banks[c] as object) + (set c | 0 <= c < |banks| :: banks[c].mem as object)
  }

  ghost predicate Separate(banks: seq<ColumnMemory>) {
    forall b, c | 0 <= b < c < |banks| :: banks[b] != banks[c] && banks[b].mem != banks[c].mem
  }

  ghost function States(banks: seq<ColumnMemory>): (r: seq<Mem>)
    reads Footprint(banks)
    ensures |r| == |banks| && forall c | 0 <= c < |banks| :: r[c] == banks[c].State()
  {
    seq(|banks|, c requires 0 <= c < |banks| reads Footprint(banks) => banks[c].State())
  }

  method NewBanks(cols: nat, depth: nat) returns (banks: seq<ColumnMemory>)
    ensures |banks| == cols && Separate(banks) && fresh(Footprint(banks))
    ensures forall c | 0 <= c < cols :: States(banks)[c] == Mem(seq(depth, _ => 0), 0)
  {
    banks := [];
    for c := 0 to cols
      invariant |banks| == c && Separate(banks) && fresh(Footprint(banks))
      invariant forall k | 0 <= k < c :: banks[k].State() == Mem(seq(depth, _ => 0), 0)
    {
      var bank := new ColumnMemory(depth);
      ghost var was := banks;
      banks := banks + [bank];
      assert forall o | o in Footprint(banks) :: o in Footprint(was) || o == bank || o == bank.mem;
    }
  }

  /** One edge of every bank: the same address, each bank's own column of the load. */
  method TickBanks(banks: seq<ColumnMemory>, l: Load, raddr: nat)
    requires Separate(banks)
    modifies Footprint(banks)
    ensures States(banks) == BanksNext(old(States(banks)), l, raddr)
  {
    for c := 0 to |banks|
      invariant forall k | 0 <= k < c ::
          banks[k].State() == MemNext(old(banks[k].State()), l.wen, l.addr, Col(l.data, k), raddr)
      invariant forall k | c <= k < |banks| :: banks[k].State() == old(banks[k].State())
    {
      banks[c].Tick(l.wen, l.addr, Col(l.data, c), raddr);
    }
  }

  /** The packing loop over the read registers. */
  method PackRow(banks: seq<ColumnMemory>) returns (row: seq<nat>)
    ensures row == RowOut(States(banks))
  {
    row := [];
    for c := 0 to |banks|
      invariant |row| == c && forall k | 0 <= k < c :: row[k] == banks[k].rdata
    {
      row := row + [banks[c].rdata];
    }
  }

  class TableReader {
    const d: Dims
    const banks: seq<ColumnMemory>
    const fifo: AxisFifo.Fifo<Beat>
    var raddr: nat
    var ret: nat
    var pending: bool
    var busy: bool
    var done: bool

    ghost const Repr: set<object>

    /** Everything the reader's registers live in. */
    ghost predicate Owns() {
      Repr == {this, fifo, fifo.mem} + Footprint(banks) && Separate(banks)
    }

    ghost function State(): (s: Reader)
      requires Owns()
      reads Repr
      ensures s.done == done
    {
      Reader(raddr, ret, pending, busy, done, States(banks), fifo.Queue())
    }

    ghost predicate Valid()
      reads Repr
      ensures Valid() ==> Owns() && Wf(d, State())
    {
      Owns() && fifo.Valid() && fifo.depth == d.fifoDepth && Wf(d, State())
    }

    constructor (d: Dims)
      requires d.Ok()
      ensures Valid() && fresh(Repr) && this.d == d
      ensures !busy && !done && State().fifo == []
    {
      this.d := d;
      var bs := NewBanks(d.numCols, d.numRows);
      banks := bs;
      var f := new AxisFifo.Fifo(d.fifoDepth, Beat(false, [], false));
      fifo := f;
      Repr := {this, f, f.mem} + Footprint(bs);
      raddr, ret, pending, busy, done := 0, 0, false, false, false;
    }

    method ResetTick(l: Load)
      requires Valid()
      modifies Repr
      ensures Valid() && State() == Reset(d, old(State()), l)
    {
      hide RowOut, BanksNext, AxisFifo.View;
      ghost var banks' := BanksNext(States(banks), l, raddr);
      TickBanks(banks, l, raddr);
      fifo.Reset(Beat(false, [], false));
      assert States(banks) == banks';
      Latch(false, false, 0, 0, false);
    }

    method Latch(b: bool, f: bool, a: nat, r: nat, p: bool)
      modifies this
      ensures busy == b && done == f && raddr == a && ret == r && pending == p
    {
      busy, done, raddr, ret, pending := b, f, a, r, p;
    }

    /** The edge of the banks and of the output FIFO. */
    method Move(l: Load, x: Beat, ready: bool)
      requires Valid()
      modifies Footprint(banks), fifo, fifo.mem
      ensures fifo.Valid() && States(banks) == BanksNext(old(States(banks)), l, raddr)
      ensures fifo.Queue() == AxisFifo.QueueNext(d.fifoDepth, old(fifo.Queue()), pending && busy, x, ready)
    {
      hide Wf, BanksNext, AxisFifo.QueueNext, AxisFifo.View;
      fifo.Tick(pending && busy, x, ready);
      TickBanks(banks, l, raddr);
    }

    /** One clock edge without reset. */
    method Tick(l: Load, start: bool, bound: nat, ready: bool)
      requires Valid()
      modifies Repr
      ensures Valid() && State() == Next(d, old(State()), l, start, bound, ready)
    {
      hide RowOut, BanksNext, AxisFifo.QueueNext, AxisFifo.View, Advance, LastRow;
      var accepted, last := pending && fifo.InReady(), ret == LastRow(d, bound);
      var row := PackRow(banks);
      Move(l, Beat(true, row, last), ready);
      Step(start, accepted, last);
    }

    method Step(start: bool, accepted: bool, last: bool)
      requires Valid()
      modifies this
      ensures Valid() && State() == Advance(d, old(State()), start, accepted, last)
    {
      hide AxisFifo.View, Pow2, Clog2;
      if start {
        busy, done, raddr, ret, pending := true, false, 0, 0, true;
      } else if busy {
        if !accepted {
          ret, pending := raddr, true;
        } else if last {
          busy, done, raddr, ret, pending := false, true, 0, 0, false;
        } else {
          ret, raddr, pending := raddr, Inc(Pow2(d.ColAddrW()), raddr), false;
        }
      }
    }
  }
}
