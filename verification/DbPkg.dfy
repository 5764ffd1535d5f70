/** db_pkg: widths, configuration records, the pipeline beat, and comparator semantics. */
module DbPkg {
  import opened Values
  import opened Bits

  // ------------------------------------------------------------------ widths

  /** GROUP BY: bucket address width, and the all-ones value of an accumulator. */
  datatype Params = Params(addrW: nat, accMax: nat) {
    function B(): (b: nat)
      ensures b > 0
    {
      Pow2(addrW)
    }

    predicate Ok() {
      addrW >= 1
    }
  }

  /** The design's parameters and the widths derived from them. */
  datatype Dims = Dims(numRows: nat, numCols: nat, bucketAddrW: nat, fifoDepth: nat) {
    predicate Ok() {
      numRows >= 1 && numCols >= 1 && bucketAddrW >= 1 && fifoDepth >= 2
    }

    /** The bucket hash folds four chunks, so a column is four bucket addresses wide. */
    function ColWidth(): nat { 4 * bucketAddrW }

    function ColAddrW(): nat { if numRows <= 2 then 1 else Clog2(numRows) }

    function AccumW(): nat { ColWidth() + ColAddrW() }

    function ColMax(): nat { Pow2(ColWidth()) - 1 }

    function AccMax(): nat { Pow2(AccumW()) - 1 }

    function Gb(): Params { Params(bucketAddrW, AccMax()) }
  }

  lemma RowsFitAddress(d: Dims)
    requires d.Ok()
    ensures d.numRows <= Pow2(d.ColAddrW())
  {
    Clog2IsLeast(d.numRows);
    assert Pow2(1) == 2;
  }

  /** The accumulator holds the row count and every operand, and no SUM over a table of
      full-width operands reaches past it. */
  lemma AccumulatorSuffices(d: Dims, vs: seq<nat>)
    requires d.Ok() && |vs| <= d.numRows && forall i | 0 <= i < |vs| :: vs[i] <= d.ColMax()
    ensures d.numRows <= d.AccMax() && d.ColMax() <= d.AccMax()
    ensures Sum(vs) <= d.AccMax()
  {
    RowsFitAddress(d);
    Pow2Add(d.ColWidth(), d.ColAddrW());
    Pow2Monotone(1, d.ColWidth());
    assert Pow2(1) == 2;
    SumAtMost(vs, d.ColMax());
    WorstCase(|vs|, d.numRows, Pow2(d.ColWidth()), Pow2(d.ColAddrW()), Sum(vs));
  }

  lemma WorstCase(k: nat, n: nat, w: nat, a: nat, s: nat)
    requires k <= n <= a && 1 <= n && 2 <= w && s <= k * (w - 1)
    ensures n < w * a && w - 1 < w * a && s < w * a
  {
    MulMonotone(k, a, w - 1);
    MulMonotone(2, w, a);
    MulMonotone(1, a, w);
    assert w * a == a * w && a * (w - 1) == a * w - a;
  }

  lemma MulMonotone(x: nat, y: nat, k: nat)
    requires x <= y
    ensures x * k <= y * k
  {}

  lemma {:induction false} SumAtMost(vs: seq<nat>, k: nat)
    requires forall i | 0 <= i < |vs| :: vs[i] <= k
    ensures Sum(vs) <= |vs| * k
  {
    if vs == [] {
    } else {
      var n := |vs| - 1;
      assert vs == vs[..n] + [vs[n]];
      SumAtMost(vs[..n], k);
      assert |vs| * k == n * k + k;
    }
  }

  // ------------------------------------------------------------------ beats and configuration

  /** One row on the pipeline: {pass, columns} and tlast. */
  datatype Beat = Beat(pass: bool, cols: seq<nat>, last: bool)

  /** A column of a row; indices past the last column are outside the design's use. */
  function Col(cols: seq<nat>, c: nat): nat {
    if c < |cols| then cols[c] else 0
  }

  /** One predicate slot; combineOr false is LOGIC_AND. */
  datatype Pred = Pred(enable: bool, op: nat, combineOr: bool, column: nat, imm: nat)

  datatype AggCfg = AggCfg(op: nat, groupby: bool, column: nat, gbyKey: nat)

  datatype Config = Config(numRows: nat, agg: AggCfg, preds: seq<Pred>, mask: nat)

  const OP_COUNT: nat := 1
  const OP_SUM: nat := 2
  const OP_MIN: nat := 3
  const OP_MAX: nat := 4
  const OP_AVG: nat := 5

  datatype Error = ErrNone | ErrStartBusy | ErrAggOverflow

  function PredApply(op: nat, a: nat, b: nat): bool {
    if op == 0 then a == b
    else if op == 1 then a != b
    else if op == 2 then a < b
    else if op == 3 then a > b
    else if op == 4 then a <= b
    else if op == 5 then a >= b
    else false
  }

  function PredCombine(lhs: bool, combineOr: bool, rhs: bool): bool {
    if combineOr then lhs || rhs else lhs && rhs
  }

  /** Rows a scan with this bound visits: 0 means all, and the table clamps. */
  function ScanRows(numRows: nat, bound: nat): (n: nat)
    ensures n <= numRows
    ensures numRows >= 1 ==> n >= 1
  {
    if bound == 0 || bound > numRows then numRows else bound
  }

  /** Rows a limit asks for, as the reference model reads it. */
  function RowsAsked(numRows: nat, limit: int): (n: nat)
    ensures n <= numRows
  {
    if limit == 0 then numRows else if limit < 0 then 0 else Min(limit, numRows)
  }

  /** The rows below a limit, all of them for a limit of 0. */
  lemma LimitMeans(numRows: nat, limit: int, k: nat)
    ensures k < RowsAsked(numRows, limit) <==> k < numRows && (limit == 0 || k < limit)
    ensures limit >= 0 ==> ScanRows(numRows, limit) == RowsAsked(numRows, limit)
  {}
}
