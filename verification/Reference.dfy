/** The table-level specification of a query, and that completed queries meet it. */
module Reference {
  import opened Values
  import opened Bits
  import opened Options
  import opened RefTable
  import opened DbPkg
  import opened Operators
  import opened Aggregation
  import opened Scheduler
  import opened PipelineProof
  import opened QueryProof
  import GroupbyEngine
  import GroupbyProof

  datatype AggRef = AggRef(count: nat, sum: nat, min: nat, max: nat)

  /** Row i of a table given as rows; rows that were not loaded read as zero. */
  function RowAt(cols: nat, table: seq<seq<nat>>, i: nat): seq<nat> {
    if i < |table| then table[i] else seq(cols, _ => 0)
  }

  /** A column's values over the first n rows that satisfy the WHERE clause. */
  function Selected(cols: nat, preds: seq<Pred>, col: nat, table: seq<seq<nat>>, n: nat): (vs: seq<nat>)
    ensures |vs| <= n
  {
    if n == 0 then []
    else
      var row := RowAt(cols, table, n - 1);
      var vs := Selected(cols, preds, col, table, n - 1);
      if Passes(preds, row) then vs + [Col(row, col)] else vs
  }

  /** A table with fewer rows than asked for is read as if filled up with rows of zeros. */
  lemma {:induction false} PaddedSame(cols: nat, preds: seq<Pred>, col: nat, table: seq<seq<nat>>, k: nat, n: nat)
    ensures Selected(cols, preds, col, table, n)
         == Selected(cols, preds, col, table + seq(k, _ => seq(cols, _ => 0)), n)
  {
    hide Passes;
    if n == 0 {
    } else {
      PaddedSame(cols, preds, col, table, k, n - 1);
    }
  }

  /** COUNT, saturated SUM, MIN and MAX of a value list, with the sentinels of an empty one. */
  function Summary(d: Dims, vs: seq<nat>): AggRef {
    AggRef(|vs|, Min(Sum(vs), d.AccMax()), MinOr(d.ColMax(), vs), MaxOr(0, vs))
  }

  /** The reference model's optional single predicate, as a WHERE clause. */
  function AsPreds(p: Option<(nat, nat, nat)>): seq<Pred> {
    match p
    case None => []
    case Some((op, imm, col)) => [Pred(true, op, false, col, imm)]
  }

  lemma OnePredicate(p: Option<(nat, nat, nat)>, row: seq<nat>)
    ensures Passes(AsPreds(p), row) <==> (p.None? || PredApply(p.value.0, Col(row, p.value.2), p.value.1))
  {
    AllAndIsConjunction(AsPreds(p), row);
    assert p.Some? ==> AsPreds(p)[0] in AsPreds(p);
  }

  /** Every value is a column datum. */
  predicate TableFits(d: Dims, table: seq<seq<nat>>) {
    forall i, c | 0 <= i < |table| && 0 <= c < |table[i]| :: table[i][c] <= d.ColMax()
  }

  lemma EmptySummary(d: Dims)
    ensures Summary(d, []) == AggRef(0, 0, d.ColMax(), 0)
  {}

  lemma SummaryStep(d: Dims, vs: seq<nat>, v: nat)
    requires v <= d.ColMax()
    ensures var r := Summary(d, vs);
      Summary(d, vs + [v])
      == AggRef(r.count + 1, if r.sum + v > d.AccMax() then d.AccMax() else r.sum + v, Min(r.min, v), Max(r.max, v))
  {
    ValuesSnoc(d.ColMax(), vs, v);
  }

  /** The classic reference loop, for an optional (operator, operand, column) predicate. */
  method ClassicReference(d: Dims, table: seq<seq<nat>>, numRows: int, aggCol: nat,
                          clause: Option<(nat, nat, nat)>) returns (r: AggRef)
    requires d.Ok() && TableFits(d, table)
    ensures r == Summary(d, Selected(d.numCols, AsPreds(clause), aggCol, table, RowsAsked(d.numRows, numRows)))
  {
    hide Passes, AsPreds, Summary;
    assert Summary(d, []) == AggRef(0, 0, d.ColMax(), 0) by { EmptySummary(d); }
    var n := if numRows == 0 then d.numRows else if numRows < 0 then 0 else Min(numRows, d.numRows);
    r := AggRef(0, 0, d.ColMax(), 0);
    for i := 0 to n
      invariant r == Summary(d, Selected(d.numCols, AsPreds(clause), aggCol, table, i))
    {
      var row := RowAt(d.numCols, table, i);
      OnePredicate(clause, row);
      ghost var vs := Selected(d.numCols, AsPreds(clause), aggCol, table, i);
      var selected := clause.None? || PredApply(clause.value.0, Col(row, clause.value.2), clause.value.1);
      if selected {
        var v := Col(row, aggCol);
        assert v <= d.ColMax();
        SummaryStep(d, vs, v);
        r := AggRef(r.count + 1, if r.sum + v > d.AccMax() then d.AccMax() else r.sum + v,
                    Min(r.min, v), Max(r.max, v));
      }
    }
  }

  // ------------------------------------------------------------------ GROUP BY

  /** The rows GROUP BY sees: WHERE decides pass, the last row carries tlast. */
  function GroupRows(cols: nat, preds: seq<Pred>, keyCol: nat, valCol: nat, table: seq<seq<nat>>, n: nat)
      : (rs: seq<Row>)
    ensures |rs| == n
  {
    seq(n, k requires 0 <= k < n =>
      var row := RowAt(cols, table, k);
      Row(Passes(preds, row), Col(row, keyCol), Col(row, valCol), k + 1 == n))
  }

  lemma PaddedGroups(cols: nat, preds: seq<Pred>, keyCol: nat, valCol: nat, table: seq<seq<nat>>, k: nat, n: nat)
    ensures GroupRows(cols, preds, keyCol, valCol, table, n)
         == GroupRows(cols, preds, keyCol, valCol, table + seq(k, _ => seq(cols, _ => 0)), n)
  {
    hide Passes;
    var padded := table + seq(k, _ => seq(cols, _ => 0));
    forall i | 0 <= i < n ensures RowAt(cols, table, i) == RowAt(cols, padded, i) {}
  }

  /** One row folded into the reference dictionary. */
  function RefFold(m: nat, out: map<nat, AggRef>, key: nat, v: nat): map<nat, AggRef> {
    if key !in out then out[key := AggRef(1, v, v, v)]
    else
      var g := out[key];
      out[key := AggRef(g.count + 1, Min(g.sum + v, m), Min(g.min, v), Max(g.max, v))]
  }

  function RefMap(m: nat, rows: seq<Row>): map<nat, AggRef> {
    if rows == [] then map[]
    else
      var r := rows[|rows| - 1];
      var out := RefMap(m, rows[..|rows| - 1]);
      if r.pass then RefFold(m, out, r.key, r.val) else out
  }

  function AsRef(g: Group): AggRef {
    AggRef(g.count, g.sum, g.min, g.max)
  }

  /** The dictionary holds each key that has a passing row, with its aggregates over them. */
  lemma {:induction false} RefMapMeans(m: nat, rows: seq<Row>, key: nat)
    requires forall r | r in rows :: r.val <= m
    ensures key in RefMap(m, rows) <==> Vals(key, rows) != []
    ensures key in RefMap(m, rows) ==> RefMap(m, rows)[key] == AsRef(Aggregate(m, key, rows))
  {
    if rows == [] {
    } else {
      var r0, r := rows[..|rows| - 1], rows[|rows| - 1];
      assert rows == r0 + [r];
      RefMapMeans(m, r0, key);
      ValsSnoc(key, r0, r);
      if r.pass && r.key == key {
        var s := if Vals(key, r0) == [] then ZERO_BUCKET else Bucket(true, Aggregate(m, key, r0));
        AggregateSnoc(m, r0, r, s);
      }
    }
  }

  /** The GROUP BY reference loop over a dictionary. */
  method GroupbyReference(d: Dims, table: seq<seq<nat>>, numRows: int, keyCol: nat, valCol: nat)
      returns (out: map<nat, AggRef>)
    requires d.Ok()
    ensures out == RefMap(d.AccMax(), GroupRows(d.numCols, [], keyCol, valCol, table, RowsAsked(d.numRows, numRows)))
  {
    var n := if numRows == 0 then d.numRows else if numRows < 0 then 0 else Min(numRows, d.numRows);
    ghost var rows := GroupRows(d.numCols, [], keyCol, valCol, table, n);
    out := map[];
    for i := 0 to n
      invariant out == RefMap(d.AccMax(), rows[..i])
    {
      var row := RowAt(d.numCols, table, i);
      var k, v := Col(row, keyCol), Col(row, valCol);
      assert rows[..i + 1][..i] == rows[..i];
      if k !in out {
        out := out[k := AggRef(1, v, v, v)];
      } else {
        var g := out[k];
        out := out[k := AggRef(g.count + 1, Min(g.sum + v, d.AccMax()), Min(g.min, v), Max(g.max, v))];
      }
    }
    assert rows[..n] == rows;
  }

  /** All distinct keys of the passing rows, in arrival order. */
  function Distinct(rows: seq<Row>): (ks: seq<nat>)
    ensures forall i, j | 0 <= i < j < |ks| :: ks[i] != ks[j]
  {
    if rows == [] then []
    else
      var r := rows[|rows| - 1];
      var ks := Distinct(rows[..|rows| - 1]);
      if r.pass && r.key !in ks then ks + [r.key] else ks
  }

  /** The admitted keys are the first b distinct keys. */
  lemma {:induction false} AdmittedIsFirst(b: nat, rows: seq<Row>)
    ensures Admitted(b, rows) == Distinct(rows)[..Min(b, |Distinct(rows)|)]
  {
    if rows == [] {
    } else {
      AdmittedIsFirst(b, rows[..|rows| - 1]);
    }
  }

  lemma {:induction false} DistinctMeans(rows: seq<Row>, key: nat)
    ensures key in Distinct(rows) <==> Vals(key, rows) != []
  {
    if rows == [] {
    } else {
      DistinctMeans(rows[..|rows| - 1], key);
    }
  }

  // ------------------------------------------------------------------ completed queries

  /** What the first n rows of the loaded table select. */
  function JobVals(j: Job, n: nat): seq<nat> {
    Selected(j.d.numCols, j.cfg.preds, j.cfg.agg.column, RowMajor(j.d.numRows, j.tab), n)
  }

  /** An unprojected column reads as zero. */
  function Shown(on: bool, v: nat): nat {
    if on then v else 0
  }

  /** The rows a GROUP BY query asks to group, as the reference model reads the table. */
  function JobRows(j: Job): (rs: seq<Row>)
    ensures |rs| == j.N()
  {
    GroupRows(j.d.numCols, j.cfg.preds, j.cfg.agg.gbyKey, j.cfg.agg.column, RowMajor(j.d.numRows, j.tab), j.N())
  }

  /** Rows as the engine receives them when key and value are projected or not. */
  function SeenRows(onKey: bool, onVal: bool, rows: seq<Row>): (rs: seq<Row>)
    ensures |rs| == |rows|
  {
    seq(|rows|, i requires 0 <= i < |rows| =>
      rows[i].(key := Shown(onKey, rows[i].key), val := Shown(onVal, rows[i].val)))
  }

  /** With key and value projected the engine receives the rows the reference model groups. */
  lemma ProjectedRows(rows: seq<Row>)
    ensures SeenRows(true, true, rows) == rows
  {}

  predicate KeyShown(j: Job) {
    Bit(j.cfg.mask, j.cfg.agg.gbyKey)
  }

  predicate ValShown(j: Job) {
    Bit(j.cfg.mask, j.cfg.agg.column)
  }

  /** An unprojected column aggregates as zeros. */
  function Masked(on: bool, vs: seq<nat>): (r: seq<nat>)
    ensures |r| == |vs|
  {
    if on then vs else seq(|vs|, _ => 0)
  }

  lemma MaskedSnoc(on: bool, vs: seq<nat>, v: nat)
    ensures Masked(on, vs + [v]) == Masked(on, vs) + [if on then v else 0]
  {}

  lemma {:induction false} StreamSelects(j: Job, k: nat)
    requires j.Ok() && k <= j.N()
    ensures PassVals(j.cfg.agg.column, j.Ideal()[..k]) == Masked(Bit(j.cfg.mask, j.cfg.agg.column), JobVals(j, k))
  {
    if k == 0 {
    } else {
      hide Passes, Bit;
      StreamSelects(j, k - 1);
      var xs := j.Ideal()[..k];
      assert xs[..k - 1] == j.Ideal()[..k - 1];
      assert xs[k - 1] == j.Fin(k - 1);
      FinRow(j, k - 1, j.cfg.agg.column);
      MaskedSnoc(Bit(j.cfg.mask, j.cfg.agg.column), JobVals(j, k - 1),
                 Col(RowMajor(j.d.numRows, j.tab)[k - 1], j.cfg.agg.column));
    }
  }

  /** A beat of the ideal stream: WHERE over the whole row, then the SELECT list. */
  lemma FinRow(j: Job, k: nat, c: nat)
    requires j.Ok() && k < j.N()
    ensures var row := RowAt(j.d.numCols, RowMajor(j.d.numRows, j.tab), k);
      && j.Fin(k).pass == Passes(j.cfg.preds, row)
      && Col(j.Fin(k).cols, c) == Shown(Bit(j.cfg.mask, c), Col(row, c))
      && row == RowMajor(j.d.numRows, j.tab)[k]
  {}

  // ------------------------------------------------------------------ classic queries and the SELECT list

  /** The opcode reads the aggregated column. */
  predicate ReadsColumn(op: nat) {
    op in {OP_SUM, OP_MIN, OP_MAX, OP_AVG}
  }

  predicate AllZero(vs: seq<nat>) {
    forall i | 0 <= i < |vs| :: vs[i] == 0
  }

  /** Reading zeros for these values answers the opcode as the values do: it reads none, the
      column is projected, or what it would find is zero already. */
  predicate Undisturbed(op: nat, on: bool, vs: seq<nat>) {
    || on || !ReadsColumn(op)
    || (op == OP_MIN && (vs == [] || 0 in vs))
    || (op != OP_MIN && AllZero(vs))
  }

  /** Masking leaves an answer as it is exactly when the values are undisturbed by it. */
  lemma MaskedAnswerIff(d: Dims, op: nat, on: bool, vs: seq<nat>)
    requires d.Ok() && forall i | 0 <= i < |vs| :: vs[i] <= d.ColMax()
    ensures Answer(d, op, Masked(on, vs)) == Answer(d, op, vs) <==> Undisturbed(op, on, vs)
  {
    if !on && ReadsColumn(op) {
      AccumulatorSuffices(d, []);
      ZerosAnswer(Masked(on, vs));
      SumZeroIff(vs);
      if vs != [] { ExtremesZeroIff(vs); }
    }
  }

  lemma ExtremesZeroIff(vs: seq<nat>)
    requires vs != []
    ensures Least(vs) == 0 <==> 0 in vs
    ensures Greatest(vs) == 0 <==> AllZero(vs)
  {
    hide Least, Greatest;
    if Greatest(vs) == 0 {
      forall i | 0 <= i < |vs| ensures vs[i] == 0 { assert vs[i] in vs; }
    }
  }

  lemma ZerosAnswer(zs: seq<nat>)
    requires AllZero(zs)
    ensures Sum(zs) == 0 && (zs != [] ==> Least(zs) == 0 && Greatest(zs) == 0)
  {
    SumZeroIff(zs);
    if zs != [] {
      assert zs[0] in zs;
      ExtremesZeroIff(zs);
    }
  }

  lemma {:induction false} SumZeroIff(vs: seq<nat>)
    ensures Sum(vs) == 0 <==> AllZero(vs)
  {
    if vs == [] {
    } else {
      var n := |vs| - 1;
      SumZeroIff(vs[..n]);
      assert vs == vs[..n] + [vs[n]];
      assert AllZero(vs) <==> AllZero(vs[..n]) && vs[n] == 0;
    }
  }

  lemma {:induction false} JobValsFit(j: Job, n: nat)
    requires j.Ok() && n <= j.N()
    ensures forall i | 0 <= i < |JobVals(j, n)| :: JobVals(j, n)[i] <= j.d.ColMax()
  {
    if n == 0 {
    } else {
      hide Passes;
      JobValsFit(j, n - 1);
      var row, c := RowAt(j.d.numCols, RowMajor(j.d.numRows, j.tab), n - 1), j.cfg.agg.column;
      assert row == TableRow(j.tab, n - 1);
      assert Col(row, c) <= j.d.ColMax() by {
        if c < |row| { assert row[c] == j.tab[c][n - 1]; }
      }
      assert JobVals(j, n) == if Passes(j.cfg.preds, row) then JobVals(j, n - 1) + [Col(row, c)] else JobVals(j, n - 1);
    }
  }

  /** A completed classic query: the count is the number of rows selected among the first n,
      whatever is projected; overflow is clear; the result is the opcode's answer over the values
      as they are seen, zeros when the column is not projected. That is the answer over the
      selected rows themselves exactly when they are undisturbed by the masking, and with the
      column projected it is the reference's. */
  lemma ClassicMeetsReference(j: Job, s: Sched, t: Trace)
    requires j.Ok() && RunInv(j, s, t) && s.fsm == Done && !j.cfg.agg.groupby
    ensures var op, on, vs := j.cfg.agg.op, ValShown(j), JobVals(j, j.N());
      var ref := Summary(j.d, vs);
      && s.count == ref.count && !s.overflow
      && s.result == Answer(j.d, op, Masked(on, vs))
      && (s.result == Answer(j.d, op, vs) <==> Undisturbed(op, on, vs))
      && (op == OP_COUNT ==> s.result == ref.count)
      && (on && (op == OP_SUM || op == OP_AVG) ==> s.result == ref.sum)
      && (on && op == OP_MIN ==> s.result == ref.min)
      && (on && op == OP_MAX ==> s.result == ref.max)
  {
    StreamSelects(j, j.N());
    assert j.Ideal()[..j.N()] == j.Ideal();
    JobValsFit(j, j.N());
    MaskedAnswerIff(j.d, j.cfg.agg.op, ValShown(j), JobVals(j, j.N()));
  }

  /** Over all value lists an opcode is answered from the true values exactly when its column is
      projected or it reads none. */
  lemma ProjectionMatters(d: Dims, op: nat, on: bool)
    requires d.Ok()
    ensures (forall vs: seq<nat> | (forall i | 0 <= i < |vs| :: vs[i] <= d.ColMax()) ::
               Answer(d, op, Masked(on, vs)) == Answer(d, op, vs))
       <==> on || !ReadsColumn(op)
  {
    if !on && ReadsColumn(op) {
      Pow2Monotone(1, d.ColWidth());
      assert Pow2(1) == 2;
      assert 1 in [1];
      MaskedAnswerIff(d, op, on, [1]);
    }
  }

  ghost predicate TrueAnswer(j: Job) {
    Answer(j.d, j.cfg.agg.op, Masked(ValShown(j), JobVals(j, j.N()))) == Answer(j.d, j.cfg.agg.op, JobVals(j, j.N()))
  }

  /** The same over all WHERE clauses and all tables. */
  lemma TableNeedsColumn(d: Dims, cfg: Config)
    requires d.Ok() && cfg.agg.gbyKey < d.numCols && cfg.agg.column < d.numCols
    ensures (forall preds, tab | Over(d, cfg, preds, tab).Ok() :: TrueAnswer(Over(d, cfg, preds, tab)))
       <==> Bit(cfg.mask, cfg.agg.column) || !ReadsColumn(cfg.agg.op)
  {
    hide Bit, Answer;
    if Bit(cfg.mask, cfg.agg.column) || !ReadsColumn(cfg.agg.op) {
      forall preds, tab | Over(d, cfg, preds, tab).Ok() ensures TrueAnswer(Over(d, cfg, preds, tab)) {
        var j := Over(d, cfg, preds, tab);
        JobValsFit(j, j.N());
        MaskedAnswerIff(d, cfg.agg.op, ValShown(j), JobVals(j, j.N()));
      }
    } else {
      var tab := seq(d.numCols, _ => seq(d.numRows, _ => 1));
      var j := Over(d, cfg, [], tab);
      OnesOk(d, cfg, tab);
      OnesVals(d, cfg, tab, j.N());
      JobValsFit(j, j.N());
      assert JobVals(j, j.N())[0] in JobVals(j, j.N());
      MaskedAnswerIff(d, cfg.agg.op, false, JobVals(j, j.N()));
    }
  }

  /** Every selected value of a table of ones is one. */
  lemma {:induction false} OnesVals(d: Dims, cfg: Config, tab: seq<seq<nat>>, n: nat)
    requires d.Ok() && cfg.agg.column < d.numCols && tab == seq(d.numCols, _ => seq(d.numRows, _ => 1))
    requires n <= d.numRows
    ensures var vs := JobVals(Over(d, cfg, [], tab), n);
      |vs| == n && forall i | 0 <= i < |vs| :: vs[i] == 1
  {
    if n == 0 {
    } else {
      OnesVals(d, cfg, tab, n - 1);
      assert RowMajor(d.numRows, tab)[n - 1][cfg.agg.column] == 1;
    }
  }

  /** Selecting only another column loses the aggregate: over one row (5, 7), the sum of the
      second column with the first selected shows 0, and the selected row's sum is 7. */
  lemma UnselectedSumLost()
    ensures var j := Job(Dims(1, 2, 1, 2), Config(0, AggCfg(OP_SUM, false, 1, 0), [], 1), [[5], [7]]);
      && j.Ok() && Answer(j.d, OP_SUM, JobVals(j, j.N())) == 7
      && forall s, t | RunInv(j, s, t) && s.fsm == Done :: s.result == 0
  {
    var j := Job(Dims(1, 2, 1, 2), Config(0, AggCfg(OP_SUM, false, 1, 0), [], 1), [[5], [7]]);
    SevenSelected(j);
    hide Pow2, Clog2, JobVals, Job.N, Job.Ok, Bit;
    SevenSums(j.d);
    assert !ValShown(j) by { assert !Bit(1, 1); }
    forall s, t | RunInv(j, s, t) && s.fsm == Done ensures s.result == 0 {
      hide RunInv;
      ClassicMeetsReference(j, s, t);
    }
  }

  lemma SevenSelected(j: Job)
    requires j == Job(Dims(1, 2, 1, 2), Config(0, AggCfg(OP_SUM, false, 1, 0), [], 1), [[5], [7]])
    ensures j.Ok() && j.N() == 1 && JobVals(j, j.N()) == [7] && !Bit(1, 1) && 7 <= j.d.ColMax()
  {
    assert Pow2(4) == 16;
    assert RowMajor(1, j.tab)[0] == [5, 7];
    assert JobVals(j, 0) == [];
  }

  lemma SevenSums(d: Dims)
    requires d.Ok() && 7 <= d.ColMax()
    ensures Answer(d, OP_SUM, [7]) == 7 && Answer(d, OP_SUM, Masked(false, [7])) == 0
  {
    hide Pow2, Clog2;
    assert Masked(false, [7]) == [0] && [7][..0] == [] && [0][..0] == [];
    assert Sum([7]) == 7 && Sum([0]) == 0;
    AccumulatorSuffices(d, [7]);
  }

  lemma StreamGroups(j: Job)
    requires j.Ok()
    ensures Rows(j.cfg.agg, j.Ideal()) == SeenRows(KeyShown(j), ValShown(j), JobRows(j))
  {
    hide Passes, Bit, Job.Fin;
    forall k | 0 <= k < j.N()
      ensures Rows(j.cfg.agg, j.Ideal())[k] == SeenRows(KeyShown(j), ValShown(j), JobRows(j))[k]
    {
      FinRow(j, k, j.cfg.agg.gbyKey);
      FinRow(j, k, j.cfg.agg.column);
      assert j.Fin(k).last == (k + 1 == j.N()) by { FinLast(j, k); }
    }
  }

  lemma FinLast(j: Job, k: nat)
    ensures j.Fin(k).last == (k + 1 == j.N())
  {}

  lemma JobRowsFit(j: Job)
    requires j.Ok()
    ensures forall r | r in JobRows(j) :: r.val <= j.d.AccMax()
  {
    AccumulatorSuffices(j.d, []);
    forall r | r in JobRows(j) ensures r.val <= j.d.AccMax() {
      var k :| 0 <= k < j.N() && r == JobRows(j)[k];
      var row := RowMajor(j.d.numRows, j.tab)[k];
      var c := j.cfg.agg.column;
      if c < |row| { assert row[c] == j.tab[c][k]; }
    }
  }

  /** The emitted groups are the reference dictionary: its keys, each once, with its values. */
  ghost predicate IsDictionary(beats: seq<GroupbyEngine.GroupBeat>, out: map<nat, AggRef>) {
    && |beats| == |out|
    && (forall k | k in out :: exists i :: 0 <= i < |beats| && beats[i].g.key == k)
    && (forall i | 0 <= i < |beats| ::
          beats[i].g.key in out && AsRef(beats[i].g) == out[beats[i].g.key])
  }

  // ------------------------------------------------------------------ GROUP BY and the SELECT list

  /** No passing row has anything to lose: what is not projected is zero already. */
  predicate Harmless(onKey: bool, onVal: bool, rows: seq<Row>) {
    forall i | 0 <= i < |rows| && rows[i].pass :: (onKey || rows[i].key == 0) && (onVal || rows[i].val == 0)
  }

  ghost predicate SameDictionary(m: nat, onKey: bool, onVal: bool, rows: seq<Row>) {
    RefMap(m, SeenRows(onKey, onVal, rows)) == RefMap(m, rows)
  }

  predicate ValuesFit(m: nat, rows: seq<Row>) {
    forall i | 0 <= i < |rows| :: rows[i].val <= m
  }

  lemma {:induction false} HarmlessSame(m: nat, onKey: bool, onVal: bool, rows: seq<Row>)
    requires Harmless(onKey, onVal, rows)
    ensures SameDictionary(m, onKey, onVal, rows)
  {
    if rows == [] {
    } else {
      var n := |rows| - 1;
      HarmlessSame(m, onKey, onVal, rows[..n]);
      assert SeenRows(onKey, onVal, rows)[..n] == SeenRows(onKey, onVal, rows[..n]);
    }
  }

  /** A passing row's value is among its key's values, and every such value is a passing row's. */
  lemma {:induction false} ValsAre(key: nat, rows: seq<Row>, v: nat)
    ensures v in Vals(key, rows)
       <==> exists i :: 0 <= i < |rows| && rows[i].pass && rows[i].key == key && rows[i].val == v
  {
    if rows == [] {
    } else {
      var n := |rows| - 1;
      ValsAre(key, rows[..n], v);
      assert rows == rows[..n] + [rows[n]];
      if i :| 0 <= i < n && rows[i].pass && rows[i].key == key && rows[i].val == v {
        assert rows[..n][i] == rows[i];
      }
    }
  }

  /** Masking leaves the dictionary as it is exactly when no passing row loses anything. */
  lemma SameDictionaryIff(m: nat, onKey: bool, onVal: bool, rows: seq<Row>)
    requires ValuesFit(m, rows)
    ensures SameDictionary(m, onKey, onVal, rows) <==> Harmless(onKey, onVal, rows)
  {
    if Harmless(onKey, onVal, rows) {
      HarmlessSame(m, onKey, onVal, rows);
    } else {
      var i :| 0 <= i < |rows| && rows[i].pass && !((onKey || rows[i].key == 0) && (onVal || rows[i].val == 0));
      if !onKey && rows[i].key != 0 {
        KeyLost(m, onVal, rows, i);
      } else {
        ValueLost(m, onKey, rows, i);
      }
    }
  }

  lemma KeyLost(m: nat, onVal: bool, rows: seq<Row>, i: nat)
    requires ValuesFit(m, rows) && i < |rows| && rows[i].pass && rows[i].key != 0
    ensures !SameDictionary(m, false, onVal, rows)
  {
    hide RefMap, Vals;
    var k, seen := rows[i].key, SeenRows(false, onVal, rows);
    RefMapMeans(m, rows, k);
    RefMapMeans(m, seen, k);
    ValsAre(k, rows, rows[i].val);
    if Vals(k, seen) != [] {
      ValsAre(k, seen, Vals(k, seen)[0]);
      assert false;
    }
  }

  lemma ValueLost(m: nat, onKey: bool, rows: seq<Row>, i: nat)
    requires ValuesFit(m, rows) && i < |rows| && rows[i].pass && rows[i].val != 0 && (onKey || rows[i].key == 0)
    ensures !SameDictionary(m, onKey, false, rows)
  {
    hide RefMap, Vals;
    var k, seen := rows[i].key, SeenRows(onKey, false, rows);
    RefMapMeans(m, rows, k);
    RefMapMeans(m, seen, k);
    ValsAre(k, rows, rows[i].val);
    if k in RefMap(m, seen) {
      assert RefMap(m, rows)[k].max >= rows[i].val;
      ValsAre(k, seen, RefMap(m, seen)[k].max);
      assert RefMap(m, seen)[k].max == 0;
    }
  }

  /** Over all row lists GROUP BY is answered from the true keys and values exactly when both
      are projected. */
  lemma GroupbyNeedsProjection(m: nat, onKey: bool, onVal: bool)
    requires m >= 1
    ensures (forall rows | ValuesFit(m, rows) :: SameDictionary(m, onKey, onVal, rows)) <==> onKey && onVal
  {
    if onKey && onVal {
      forall rows | ValuesFit(m, rows) ensures SameDictionary(m, onKey, onVal, rows) {
        SameDictionaryIff(m, onKey, onVal, rows);
      }
    } else {
      var rows := [Row(true, 1, 1, true)];
      assert rows[0].pass;
      SameDictionaryIff(m, onKey, onVal, rows);
    }
  }

  /** A configuration over another WHERE clause and another table. */
  function Over(d: Dims, cfg: Config, preds: seq<Pred>, tab: seq<seq<nat>>): Job {
    Job(d, cfg.(preds := preds), tab)
  }

  /** The same over all WHERE clauses and all tables. */
  lemma TableNeedsProjection(d: Dims, cfg: Config)
    requires d.Ok() && cfg.agg.gbyKey < d.numCols && cfg.agg.column < d.numCols
    ensures var onKey, onVal := Bit(cfg.mask, cfg.agg.gbyKey), Bit(cfg.mask, cfg.agg.column);
      (forall preds, tab | Over(d, cfg, preds, tab).Ok() ::
         SameDictionary(d.AccMax(), onKey, onVal, JobRows(Over(d, cfg, preds, tab)))) <==> onKey && onVal
  {
    hide Bit;
    var onKey, onVal := Bit(cfg.mask, cfg.agg.gbyKey), Bit(cfg.mask, cfg.agg.column);
    if onKey && onVal {
      forall preds, tab | Over(d, cfg, preds, tab).Ok()
        ensures SameDictionary(d.AccMax(), onKey, onVal, JobRows(Over(d, cfg, preds, tab)))
      {
        HarmlessSame(d.AccMax(), onKey, onVal, JobRows(Over(d, cfg, preds, tab)));
      }
    } else {
      var tab := seq(d.numCols, _ => seq(d.numRows, _ => 1));
      var j := Over(d, cfg, [], tab);
      OnesOk(d, cfg, tab);
      JobRowsFit(j);
      SameDictionaryIff(d.AccMax(), onKey, onVal, JobRows(j));
    }
  }

  /** A table of ones is column data, and every row of it passes an empty WHERE clause. */
  lemma OnesOk(d: Dims, cfg: Config, tab: seq<seq<nat>>)
    requires d.Ok() && cfg.agg.gbyKey < d.numCols && cfg.agg.column < d.numCols
    requires tab == seq(d.numCols, _ => seq(d.numRows, _ => 1))
    ensures var j := Over(d, cfg, [], tab);
      && j.Ok() && j.N() > 0 && JobRows(j)[0].pass && JobRows(j)[0].key == 1 && JobRows(j)[0].val == 1
  {
    Pow2Monotone(1, d.ColWidth());
    assert Pow2(1) == 2;
    var j := Over(d, cfg, [], tab);
    assert RowMajor(d.numRows, tab)[0][cfg.agg.gbyKey] == 1 == RowMajor(d.numRows, tab)[0][cfg.agg.column];
  }

  // ------------------------------------------------------------------ a completed GROUP BY query

  /** A completed GROUP BY query has emitted one beat per key among the first b distinct passing
      keys, with that key's aggregates over every passing row, columns that are not projected
      reading as zero. That is the reference dictionary of the table exactly when no passing row
      loses anything by that and at most b keys are distinct. */
  lemma GroupbyMeetsReference(j: Job, s: Sched, t: Trace)
    requires j.Ok() && RunInv(j, s, t) && s.fsm == Done && j.cfg.agg.groupby
    ensures var b, m := j.d.Gb().B(), j.d.AccMax();
      && GroupbyProof.GroupsOf(b, m, SeenRows(KeyShown(j), ValShown(j), JobRows(j)), t.g.beats)
      && (IsDictionary(t.g.beats, RefMap(m, JobRows(j)))
          <==> Harmless(KeyShown(j), ValShown(j), JobRows(j)) && |Distinct(JobRows(j))| <= b)
  {
    hide RefMap, Distinct, KeyShown, ValShown, IsDictionary, Harmless, SeenRows, GroupbyProof.GroupsOf;
    var b, m, rows := j.d.Gb().B(), j.d.AccMax(), JobRows(j);
    var seen := SeenRows(KeyShown(j), ValShown(j), rows);
    StreamGroups(j);
    JobRowsFit(j);
    SeenFit(m, KeyShown(j), ValShown(j), rows);
    GroupbyProof.DumpIsGroups(b, m, seen);
    DictionaryIff(b, m, KeyShown(j), ValShown(j), rows, t.g.beats);
  }

  /** A completed GROUP BY query has emitted nothing, not even a tlast, exactly when no row it
      asked for passes. */
  lemma SilentQueryIff(j: Job, s: Sched, t: Trace)
    requires j.Ok() && RunInv(j, s, t) && s.fsm == Done && j.cfg.agg.groupby
    ensures t.g.beats == [] <==> forall k | 0 <= k < j.N() :: !JobRows(j)[k].pass
  {
    hide RunInv, GroupbyProof.GroupsOf, KeyShown, ValShown, IsDictionary, Harmless, Distinct, RefMap;
    GroupbyMeetsReference(j, s, t);
    var seen := SeenRows(KeyShown(j), ValShown(j), JobRows(j));
    GroupbyProof.SilentIff(j.d.Gb().B(), j.d.AccMax(), seen, t.g.beats);
    assert forall k | 0 <= k < j.N() :: seen[k].pass == JobRows(j)[k].pass;
  }

  /** Over one row (5, 7), grouping the rows whose first column is 9 completes without a beat. */
  lemma NoRowPassesSilent()
    ensures var j := Job(Dims(1, 2, 1, 2),
                         Config(0, AggCfg(OP_SUM, true, 1, 0), [Pred(true, 0, false, 0, 9)], 3), [[5], [7]]);
      j.Ok() && forall s, t | RunInv(j, s, t) && s.fsm == Done :: t.g.beats == []
  {
    var preds := [Pred(true, 0, false, 0, 9)];
    var j := Job(Dims(1, 2, 1, 2), Config(0, AggCfg(OP_SUM, true, 1, 0), preds, 3), [[5], [7]]);
    assert j.N() == 1 && Pow2(4) == 16 && j.Ok();
    assert RowMajor(1, j.tab)[0] == [5, 7];
    assert preds[..0] == [] && Enabled(preds) == preds;
    assert !JobRows(j)[0].pass;
    forall s, t | RunInv(j, s, t) && s.fsm == Done ensures t.g.beats == [] {
      hide RunInv;
      SilentQueryIff(j, s, t);
    }
  }

  /** Two buckets and the three keys 1, 2, 3: no completed run emits the reference dictionary. */
  lemma ThirdKeyLost()
    ensures var j := Job(Dims(3, 2, 1, 2), Config(0, AggCfg(OP_SUM, true, 1, 0), [], 3), [[1, 2, 3], [0, 0, 0]]);
      && j.Ok() && j.d.Gb().B() == 2 && Distinct(JobRows(j)) == [1, 2, 3]
      && forall s, t | RunInv(j, s, t) && s.fsm == Done ::
           !IsDictionary(t.g.beats, RefMap(j.d.AccMax(), JobRows(j)))
  {
    var j := Job(Dims(3, 2, 1, 2), Config(0, AggCfg(OP_SUM, true, 1, 0), [], 3), [[1, 2, 3], [0, 0, 0]]);
    assert j.N() == 3 && Pow2(1) == 2 && Pow2(4) == 16 && j.Ok();
    ThreeKeys(JobRows(j));
    forall s, t | RunInv(j, s, t) && s.fsm == Done
      ensures !IsDictionary(t.g.beats, RefMap(j.d.AccMax(), JobRows(j)))
    {
      hide RunInv;
      GroupbyMeetsReference(j, s, t);
    }
  }

  lemma ThreeKeys(rows: seq<Row>)
    requires |rows| == 3 && forall k | 0 <= k < 3 :: rows[k].pass && rows[k].key == k + 1
    ensures Distinct(rows) == [1, 2, 3]
  {
    hide Distinct;
    DistinctAdds(rows, 0, []);
    DistinctAdds(rows, 1, [1]);
    DistinctAdds(rows, 2, [1, 2]);
    assert rows[..3] == rows;
  }

  lemma DistinctAdds(rows: seq<Row>, n: nat, ks: seq<nat>)
    requires n < |rows| && rows[n].pass && rows[n].key !in ks
    requires Distinct(rows[..n]) == ks || (n == 0 && ks == [])
    ensures Distinct(rows[..n + 1]) == ks + [rows[n].key]
  {
    assert rows[..n + 1][..n] == rows[..n];
  }

  lemma SeenFit(m: nat, onKey: bool, onVal: bool, rows: seq<Row>)
    requires forall r | r in rows :: r.val <= m
    ensures forall r | r in SeenRows(onKey, onVal, rows) :: r.val <= m
    ensures ValuesFit(m, rows)
  {}

  /** Groups of the rows seen are the dictionary of the rows asked for exactly when nothing is
      lost and the keys fit. */
  lemma DictionaryIff(b: nat, m: nat, onKey: bool, onVal: bool, rows: seq<Row>, beats: seq<GroupbyEngine.GroupBeat>)
    requires b >= 1 && forall r | r in rows :: r.val <= m
    requires GroupbyProof.GroupsOf(b, m, SeenRows(onKey, onVal, rows), beats)
    ensures IsDictionary(beats, RefMap(m, rows)) <==> Harmless(onKey, onVal, rows) && |Distinct(rows)| <= b
  {
    hide RefMap, Distinct, IsDictionary, SeenRows, Harmless, Admitted, Vals, Aggregate;
    var seen := SeenRows(onKey, onVal, rows);
    SeenFit(m, onKey, onVal, rows);
    GroupsAreDictionaryIff(b, m, seen, beats);
    SameDictionaryIff(m, onKey, onVal, rows);
    DistinctIsKeys(m, rows);
    DistinctIsKeys(m, seen);
    if IsDictionary(beats, RefMap(m, rows)) {
      DictionarySize(beats, RefMap(m, rows));
      SeenDistinct(onKey, onVal, rows);
      OneDictionary(beats, RefMap(m, rows), RefMap(m, seen));
    }
  }

  lemma DictionarySize(beats: seq<GroupbyEngine.GroupBeat>, out: map<nat, AggRef>)
    requires IsDictionary(beats, out)
    ensures |beats| == |out|
  {}

  /** A list of beats is the dictionary of at most one map. */
  lemma OneDictionary(beats: seq<GroupbyEngine.GroupBeat>, out: map<nat, AggRef>, out': map<nat, AggRef>)
    requires IsDictionary(beats, out) && IsDictionary(beats, out')
    ensures out == out'
  {
    forall k ensures k in out <==> k in out' {}
    forall k | k in out ensures out[k] == out'[k] {
      var i :| 0 <= i < |beats| && beats[i].g.key == k;
    }
  }

  /** Masking never adds keys: all survive, or at most one is left. */
  lemma SeenDistinct(onKey: bool, onVal: bool, rows: seq<Row>)
    ensures onKey ==> Distinct(SeenRows(onKey, onVal, rows)) == Distinct(rows)
    ensures !onKey ==> |Distinct(SeenRows(onKey, onVal, rows))| <= 1
  {
    if onKey {
      SameKeysDistinct(onVal, rows);
    } else {
      var seen := SeenRows(onKey, onVal, rows);
      var ks := Distinct(seen);
      assert |ks| >= 2 ==> ks[0] in ks && ks[1] in ks && ks[0] != ks[1];
      forall k | k in ks ensures k == 0 {
        DistinctMeans(seen, k);
        ValsAre(k, seen, Vals(k, seen)[0]);
      }
    }
  }

  lemma {:induction false} SameKeysDistinct(onVal: bool, rows: seq<Row>)
    ensures Distinct(SeenRows(true, onVal, rows)) == Distinct(rows)
  {
    if rows == [] {
    } else {
      var n := |rows| - 1;
      SameKeysDistinct(onVal, rows[..n]);
      assert SeenRows(true, onVal, rows)[..n] == SeenRows(true, onVal, rows[..n]);
    }
  }

  /** Selecting only the value column of a GROUP BY query loses the key: over one row (5, 7),
      summing the second column by the first, the emitted group is not the dictionary's. */
  lemma UnselectedKeyLost()
    ensures var j := Job(Dims(1, 2, 1, 2), Config(0, AggCfg(OP_SUM, true, 1, 0), [], 2), [[5], [7]]);
      && j.Ok() && |Distinct(JobRows(j))| <= j.d.Gb().B()
      && forall s, t | RunInv(j, s, t) && s.fsm == Done ::
           !IsDictionary(t.g.beats, RefMap(j.d.AccMax(), JobRows(j)))
  {
    var j := Job(Dims(1, 2, 1, 2), Config(0, AggCfg(OP_SUM, true, 1, 0), [], 2), [[5], [7]]);
    assert j.N() == 1 && Pow2(4) == 16 && j.Ok();
    DistinctAtMost(JobRows(j));
    assert RowMajor(1, j.tab)[0] == [5, 7];
    assert JobRows(j)[0].pass && JobRows(j)[0].key == 5;
    assert !KeyShown(j);
    forall s, t | RunInv(j, s, t) && s.fsm == Done
      ensures !IsDictionary(t.g.beats, RefMap(j.d.AccMax(), JobRows(j)))
    {
      hide RunInv;
      GroupbyMeetsReference(j, s, t);
    }
  }

  lemma {:induction false} DistinctAtMost(rows: seq<Row>)
    ensures |Distinct(rows)| <= |rows|
  {
    if rows == [] {
    } else {
      DistinctAtMost(rows[..|rows| - 1]);
    }
  }

  lemma GroupsAreDictionaryIff(b: nat, m: nat, rows: seq<Row>, beats: seq<GroupbyEngine.GroupBeat>)
    requires forall r | r in rows :: r.val <= m
    requires GroupbyProof.GroupsOf(b, m, rows, beats)
    ensures IsDictionary(beats, RefMap(m, rows)) <==> |Distinct(rows)| <= b
  {
    hide RefMap, Distinct, Admitted, Vals, Aggregate;
    var out := RefMap(m, rows);
    AdmittedIsFirst(b, rows);
    DistinctIsKeys(m, rows);
    if |Distinct(rows)| <= b {
      assert Admitted(b, rows) == Distinct(rows);
      forall i | 0 <= i < |beats| ensures beats[i].g.key in out && AsRef(beats[i].g) == out[beats[i].g.key] {
        RefMapMeans(m, rows, beats[i].g.key);
      }
    }
  }

  lemma DistinctIsKeys(m: nat, rows: seq<Row>)
    requires forall r | r in rows :: r.val <= m
    ensures forall k :: k in RefMap(m, rows) <==> k in Distinct(rows)
    ensures |Distinct(rows)| == |RefMap(m, rows)|
  {
    hide RefMap, Distinct, Vals;
    forall k ensures k in RefMap(m, rows) <==> k in Distinct(rows) {
      RefMapMeans(m, rows, k);
      DistinctMeans(rows, k);
    }
    DistinctSize(Distinct(rows), RefMap(m, rows).Keys);
  }

  lemma {:induction false} DistinctSize(ks: seq<nat>, keys: set<nat>)
    requires forall i, j | 0 <= i < j < |ks| :: ks[i] != ks[j]
    requires forall k :: k in keys <==> k in ks
    ensures |ks| == |keys|
  {
    if ks == [] {
      assert keys == {};
    } else {
      var n := |ks| - 1;
      assert ks == ks[..n] + [ks[n]];
      DistinctSize(ks[..n], keys - {ks[n]});
    }
  }
}
