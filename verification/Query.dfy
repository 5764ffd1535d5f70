/** The control plane: packing of configuration words, the fluent query object, and the
    compilation of a query into register writes. */
module Query {
  import opened Bits
  import opened Options
  import opened DbPkg
  import opened Operators
  import opened AxiLite

  datatype QueryError = SchemaSize | UnknownColumn | TooManyPredicates | UnknownOperator | NoAggregate

  // ------------------------------------------------------------------ packing

  function Flag(b: bool): nat { if b then 1 else 0 }

  function PackAgg(op: nat, groupby: bool, column: nat, gbyKey: nat): nat {
    Or(Or(Or(Shl(op, 21), Shl(Flag(groupby), 20)), Shl(column, 10)), gbyKey)
  }

  /** The low bits of a row count of either sign. */
  function PackQuery(numRows: int): nat {
    numRows % 0x400
  }

  /** The upper word of a predicate slot; the lower word is the operand. */
  function PackPredHigh(enable: bool, op: nat, column: nat, combine: nat): nat {
    Or(Or(Or(Shl(Flag(enable), 14), Shl(op % 8, 11)), Shl(combine, 10)), column % 0x400)
  }

  function MaskOf(columns: seq<nat>): nat {
    if columns == [] then 0 else Or(MaskOf(columns[..|columns| - 1]), Shl(1, columns[|columns| - 1]))
  }

  method PackProjMask(columns: seq<nat>, numColumns: nat) returns (mask: nat)
    ensures mask == MaskOf(columns) % Pow2(numColumns)
  {
    mask := 0;
    for i := 0 to |columns|
      invariant mask == MaskOf(columns[..i])
    {
      assert columns[..i + 1][..i] == columns[..i];
      mask := Or(mask, Shl(1, columns[i]));
    }
    assert columns[..|columns|] == columns;
    mask := mask % Pow2(numColumns);
  }

  lemma {:induction false} MaskBits(columns: seq<nat>, c: nat)
    ensures Bit(MaskOf(columns), c) <==> c in columns
  {
    if columns == [] {
      BitOfZero(c);
    } else {
      var n := |columns| - 1;
      MaskBits(columns[..n], c);
      BitOr(MaskOf(columns[..n]), Shl(1, columns[n]), c);
      BitPow2(columns[n], c);
      assert columns == columns[..n] + [columns[n]];
    }
  }

  lemma PackAggIs(op: nat, groupby: bool, column: nat, gbyKey: nat)
    requires column < 0x400 && gbyKey < 0x400
    ensures PackAgg(op, groupby, column, gbyKey) == ((2 * op + Flag(groupby)) * 0x400 + column) * 0x400 + gbyKey
  {
    var g := Flag(groupby);
    assert Pow2(1) == 2 && Pow2(10) == 0x400;
    OrField(1, 20, op, g);
    OrField(10, 10, op * 2 + g, column);
    OrDisjoint(10, (op * 2 + g) * 0x400 + column, gbyKey);
  }

  /** Packing and the hardware's unpacking of agg_cfg_t are inverse on in-range fields. */
  lemma PackAggDecodes(op: nat, groupby: bool, column: nat, gbyKey: nat)
    requires op < 8 && column < 0x400 && gbyKey < 0x400
    ensures DecodeAgg(PackAgg(op, groupby, column, gbyKey)) == AggCfg(op, groupby, column, gbyKey)
  {
    hide PackAgg;
    PackAggIs(op, groupby, column, gbyKey);
  }

  lemma PackPredIs(enable: bool, op: nat, column: nat, combine: nat)
    requires op < 8 && column < 0x400 && combine < 2
    ensures PackPredHigh(enable, op, column, combine)
         == ((8 * Flag(enable) + op) * 2 + combine) * 0x400 + column
  {
    assert op % 8 == op && column % 0x400 == column;
    PredHighIs(Flag(enable), op, column, combine);
  }

  lemma PredHighIs(e: nat, op: nat, column: nat, combine: nat)
    requires op < 8 && column < 0x400 && combine < 2
    ensures Or(Or(Or(Shl(e, 14), Shl(op, 11)), Shl(combine, 10)), column)
         == ((8 * e + op) * 2 + combine) * 0x400 + column
  {
    assert Pow2(1) == 2 && Pow2(3) == 8 && Pow2(10) == 0x400;
    OrField(3, 11, e, op);
    OrField(1, 10, e * 8 + op, combine);
    OrDisjoint(10, (e * 8 + op) * 2 + combine, column);
  }

  lemma PackPredDecodes(enable: bool, op: nat, column: nat, combine: nat, p: Pred)
    requires op < 8 && column < 0x400 && combine < 2
    ensures DecodePredHigh(p, PackPredHigh(enable, op, column, combine))
         == Pred(enable, op, combine == 1, column, p.imm)
  {
    hide PackPredHigh;
    PackPredIs(enable, op, column, combine);
    var f, x := Flag(enable), PackPredHigh(enable, op, column, combine);
    ModUnique(x, 0x400, (8 * f + op) * 2 + combine, column);
    ModUnique(x, 0x800, 8 * f + op, combine * 0x400 + column);
    ModUnique(x, 0x4000, f, op * 0x800 + combine * 0x400 + column);
    ModUnique(8 * f + op, 8, f, op);
    ModUnique((8 * f + op) * 2 + combine, 2, 8 * f + op, combine);
  }

  /** The limits ten bits can carry: 0..1024, and any larger multiple of 1024. */
  predicate LimitHonoured(numRows: int) {
    0 <= numRows && (numRows <= DEFAULTS.numRows || numRows % DEFAULTS.numRows == 0)
  }

  /** The packed limit scans the rows asked for exactly then; 1024 itself travels as 0, a full
      scan. */
  lemma LimitHonouredIff(numRows: int)
    ensures ScanRows(DEFAULTS.numRows, PackQuery(numRows)) == RowsAsked(DEFAULTS.numRows, numRows)
       <==> LimitHonoured(numRows)
  {}

  /** A limit of 1025 scans one row. */
  lemma LimitWraps()
    ensures ScanRows(DEFAULTS.numRows, PackQuery(1025)) == 1 && RowsAsked(DEFAULTS.numRows, 1025) == 1024
  {}

  // ------------------------------------------------------------------ queries

  /** A column named in the schema, or given by index. */
  datatype ColRef = ByName(name: string) | ByIndex(index: nat)

  /** One WHERE clause, resolved. */
  datatype Clause = Clause(column: nat, op: nat, imm: nat)

  /** A dictionary from names to columns, in insertion order. */
  type Schema = s: seq<(string, nat)> | DistinctNames(s) witness []

  predicate DistinctNames(s: seq<(string, nat)>) {
    forall i, j :: 0 <= i < j < |s| ==> s[i].0 != s[j].0
  }

  /** The query object's contents. */
  datatype Spec = Spec(schema: Schema, select: seq<ColRef>, clauses: seq<Clause>,
                       agg: Option<(nat, nat)>, groupby: Option<nat>, numRows: int)

  /** A name the schema does not have. */
  predicate Unknown(schema: Schema, c: ColRef) {
    c.ByName? && forall p | p in schema :: p.0 != c.name
  }

  /** Column k is the one meant. */
  predicate Means(schema: Schema, c: ColRef, k: nat) {
    match c
    case ByName(name) => (name, k) in schema
    case ByIndex(i) => k == i
  }

  function Lookup(schema: seq<(string, nat)>, name: string): (r: Option<nat>)
    ensures r.Some? ==> (name, r.value) in schema
    ensures r.None? <==> forall p | p in schema :: p.0 != name
  {
    if schema == [] then None
    else if schema[0].0 == name then Some(schema[0].1)
    else assert schema == [schema[0]] + schema[1..]; Lookup(schema[1..], name)
  }

  function Resolve(schema: Schema, c: ColRef): (r: Option<nat>)
    ensures r.None? <==> Unknown(schema, c)
    ensures forall k: nat :: r == Some(k) <==> Means(schema, c, k)
  {
    match c
    case ByName(name) => Lookup(schema, name)
    case ByIndex(i) => Some(i)
  }

  /** The WHERE syntax's operators. */
  predicate IsOperator(op: string) {
    op in {"==", "!=", "<", ">", "<=", ">="}
  }

  predicate Compares(op: string, a: nat, b: nat) {
    || (op == "==" && a == b) || (op == "!=" && a != b) || (op == "<" && a < b)
    || (op == ">" && a > b) || (op == "<=" && a <= b) || (op == ">=" && a >= b)
  }

  function OpCode(op: string): (r: Option<nat>)
    ensures r.Some? <==> IsOperator(op)
  {
    if op == "==" then Some(0)
    else if op == "!=" then Some(1)
    else if op == "<" then Some(2)
    else if op == ">" then Some(3)
    else if op == "<=" then Some(4)
    else if op == ">=" then Some(5)
    else None
  }

  /** Each operator of the WHERE syntax, through its code and the hardware's comparator, is the
      comparison it is written as. */
  lemma OperatorMeans(op: string, a: nat, b: nat)
    requires IsOperator(op)
    ensures PredApply(OpCode(op).value, a, b) <==> Compares(op, a, b)
  {}

  /** A comparator code that no operator has never holds. */
  lemma OtherCodesFail(code: nat, a: nat, b: nat)
    requires forall op | IsOperator(op) :: OpCode(op) != Some(code)
    ensures !PredApply(code, a, b)
  {
    assert OpCode("==") == Some(0) && OpCode("!=") == Some(1) && OpCode("<") == Some(2);
    assert OpCode(">") == Some(3) && OpCode("<=") == Some(4) && OpCode(">=") == Some(5);
  }

  function ResolveAll(schema: Schema, cs: seq<ColRef>): (r: Option<seq<nat>>)
    ensures r.None? <==> exists c | c in cs :: Unknown(schema, c)
    ensures r.Some? ==> |r.value| == |cs| && forall i | 0 <= i < |cs| :: Means(schema, cs[i], r.value[i])
  {
    if cs == [] then Some([])
    else
      assert cs == cs[..|cs| - 1] + [cs[|cs| - 1]];
      match (ResolveAll(schema, cs[..|cs| - 1]), Resolve(schema, cs[|cs| - 1]))
      case (Some(ks), Some(k)) => Some(ks + [k])
      case _ => None
  }

  /** What the query object's methods keep: its clauses fit the slots, and every code, operand
      and opcode is one the hardware knows. */
  predicate WellFormed(q: Spec) {
    && |q.clauses| <= NUM_PRED
    && (forall c | c in q.clauses :: c.op < 6 && c.imm < WORD)
    && (q.agg.Some? ==> OP_COUNT <= q.agg.value.0 <= OP_AVG)
  }

  // ------------------------------------------------------------------ compilation

  /** The predicate a slot is to hold. */
  function SlotPred(q: Spec, i: nat): Pred {
    if i < |q.clauses| then Pred(true, q.clauses[i].op, false, q.clauses[i].column, q.clauses[i].imm)
    else ZERO_PRED
  }

  function SlotLow(q: Spec, i: nat): nat {
    if i < |q.clauses| then q.clauses[i].imm else 0
  }

  function SlotHigh(q: Spec, i: nat): nat {
    if i < |q.clauses| then PackPredHigh(true, q.clauses[i].op, q.clauses[i].column, 0) else 0
  }

  /** The writes of the first n predicate slots. */
  function SlotWrites(q: Spec, n: nat): seq<Write> {
    if n == 0 then []
    else SlotWrites(q, n - 1) + [Write(REG_PRED_BASE + 2 * (n - 1), SlotLow(q, n - 1))]
         + [Write(REG_PRED_BASE + 2 * (n - 1) + 1, SlotHigh(q, n - 1))]
  }

  /** The register writes a query issues, and the error it stops with, if any. An unknown
      projected column is only noticed after the predicate slots have been written. */
  function Compile(q: Spec): (r: (seq<Write>, Option<QueryError>)) {
    if q.agg.None? then ([], Some(NoAggregate))
    else
      match ResolveAll(q.schema, q.select)
      case None => (SlotWrites(q, NUM_PRED), Some(UnknownColumn))
      case Some(columns) =>
        (SlotWrites(q, NUM_PRED)
         + [Write(REG_PROJ_MASK, MaskOf(columns) % Pow2(NUM_COLS))]
         + [Write(REG_AGG_CFG, PackAgg(q.agg.value.0, q.groupby.Some?, q.agg.value.1,
                                       if q.groupby.Some? then q.groupby.value else 0))]
         + [Write(REG_QUERY, PackQuery(q.numRows))]
         + [Write(REG_CTRL, 1)], None)
  }

  /** Every name in the SELECT list is in the schema. */
  predicate SelectKnown(q: Spec) {
    forall c | c in q.select :: !Unknown(q.schema, c)
  }

  /** The words a query that stops on an unknown projected column has written. */
  predicate SlotsOnly(ws: seq<Write>) {
    && |ws| == 2 * NUM_PRED
    && forall k | 0 <= k < 2 * NUM_PRED :: ws[k].word == REG_PRED_BASE + k
  }

  /** The words of a query that starts: the slots, the configuration, and last the start bit. */
  predicate Starts(ws: seq<Write>) {
    && |ws| == 2 * NUM_PRED + 4 && SlotsOnly(ws[..2 * NUM_PRED])
    && ws[4].word == REG_PROJ_MASK && ws[5].word == REG_AGG_CFG && ws[6].word == REG_QUERY
    && ws[7] == Write(REG_CTRL, 1)
  }

  /** How executing a query ends. */
  ghost predicate Executed(q: Spec, ws: seq<Write>, err: Option<QueryError>) {
    && (err == Some(NoAggregate) <==> q.agg.None?)
    && (err == Some(UnknownColumn) <==> q.agg.Some? && !SelectKnown(q))
    && match err
       case None => Starts(ws)
       case Some(UnknownColumn) => SlotsOnly(ws)
       case Some(NoAggregate) => ws == []
       case _ => false
  }

  /** A query stops without an aggregate before any write, or on an unknown projected column after
      the slot writes alone; any other issues all its writes. */
  lemma CompileErrs(q: Spec)
    ensures Executed(q, Compile(q).0, Compile(q).1)
  {
    hide SlotLow, SlotHigh, MaskOf, PackAgg, PackQuery;
    SlotWords(q);
  }

  lemma SlotWords(q: Spec)
    ensures SlotsOnly(SlotWrites(q, NUM_PRED))
  {
    hide SlotLow, SlotHigh;
    var s0, s1 := SlotWrites(q, 0), SlotWrites(q, 1);
    assert s0 == [] && |s1| == 2;
  }

  /** A column is in the SELECT list and in the table. */
  predicate Projected(q: Spec, c: nat) {
    c < NUM_COLS && exists s | s in q.select :: Means(q.schema, s, c)
  }

  /** The query object. */
  class Query {
    const schema: Schema
    var select: seq<ColRef>
    var clauses: seq<Clause>
    var agg: Option<(nat, nat)>
    var groupby: Option<nat>
    var numRows: int

    ghost function State(): Spec
      reads this
    {
      Spec(schema, select, clauses, agg, groupby, numRows)
    }

    ghost predicate Valid()
      reads this
    {
      WellFormed(State())
    }

    /** A new query selects every column. */
    constructor (schema: Schema, numRows: int)
      ensures Valid()
      ensures State() == Spec(schema, AllColumns(schema), [], None, None, numRows)
    {
      this.schema := schema;
      select := AllColumns(schema);
      clauses, agg, groupby := [], None, None;
      this.numRows := numRows;
    }

    method Select(cols: seq<ColRef>)
      requires Valid()
      modifies this
      ensures Valid() && State() == old(State()).(select := cols)
    {
      select := cols;
    }

    /** A third clause, an unknown operator and an unknown column are refused, in that order,
        and leave the query as it was; otherwise one clause is added, the comparison as written on
        the column meant. */
    method Where(col: ColRef, op: string, value: int) returns (err: Option<QueryError>)
      requires Valid()
      modifies this
      ensures Valid()
      ensures err == if |old(clauses)| >= NUM_PRED then Some(TooManyPredicates)
                     else if !IsOperator(op) then Some(UnknownOperator)
                     else if Unknown(schema, col) then Some(UnknownColumn)
                     else None
      ensures err.Some? ==> State() == old(State())
      ensures err.None? ==>
        && clauses != []
        && var c := clauses[|clauses| - 1];
        && State() == old(State()).(clauses := old(clauses) + [c])
        && Means(schema, col, c.column) && c.imm == value % WORD
        && forall a: nat :: PredApply(c.op, a, c.imm) <==> Compares(op, a, c.imm)
    {
      if |clauses| >= NUM_PRED { return Some(TooManyPredicates); }
      var code := OpCode(op);
      if code.None? { return Some(UnknownOperator); }
      var c := Resolve(schema, col);
      if c.None? { return Some(UnknownColumn); }
      clauses := clauses + [Clause(c.value, code.value, value % WORD)];
      forall a: nat { OperatorMeans(op, a, value % WORD); }
      return None;
    }

    method GroupBy(col: ColRef) returns (err: Option<QueryError>)
      requires Valid()
      modifies this
      ensures Valid() && err == if Unknown(schema, col) then Some(UnknownColumn) else None
      ensures State() == old(State()).(groupby := groupby)
      ensures if err.Some? then groupby == old(groupby) else groupby.Some? && Means(schema, col, groupby.value)
    {
      var c := Resolve(schema, col);
      if c.None? { return Some(UnknownColumn); }
      groupby := c;
      return None;
    }

    method Limit(n: int)
      requires Valid()
      modifies this
      ensures Valid() && State() == old(State()).(numRows := n)
    {
      numRows := n;
    }

    /** sum, min, max and avg, by opcode; count passes no column and aggregates column 0. */
    method Aggregate(op: nat, col: Option<ColRef>) returns (err: Option<QueryError>)
      requires Valid() && OP_COUNT <= op <= OP_AVG && (col.None? ==> op == OP_COUNT)
      modifies this
      ensures Valid()
      ensures err == if col.Some? && Unknown(schema, col.value) then Some(UnknownColumn) else None
      ensures State() == old(State()).(agg := agg)
      ensures err.Some? ==> agg == old(agg)
      ensures err.None? ==>
        && agg.Some? && agg.value.0 == op
        && if col.Some? then Means(schema, col.value, agg.value.1) else agg.value.1 == 0
    {
      var c := if col.Some? then Resolve(schema, col.value) else Some(0);
      if c.None? { return Some(UnknownColumn); }
      agg := Some((op, c.value));
      return None;
    }

    /** Issue the register writes, ending with the start bit. */
    method Execute() returns (writes: seq<Write>, err: Option<QueryError>)
      requires Valid()
      ensures (writes, err) == Compile(State()) && Executed(State(), writes, err)
    {
      CompileErrs(State());
      writes, err := [], None;
      if agg.None? { return [], Some(NoAggregate); }
      for i := 0 to NUM_PRED
        invariant writes == SlotWrites(State(), i)
      {
        var low, high := 0, 0;
        if i < |clauses| {
          low, high := clauses[i].imm, PackPredHigh(true, clauses[i].op, clauses[i].column, 0);
        }
        writes := writes + [Write(REG_PRED_BASE + 2 * i, low)];
        writes := writes + [Write(REG_PRED_BASE + 2 * i + 1, high)];
      }
      var columns := ResolveAll(schema, select);
      if columns.None? { return writes, Some(UnknownColumn); }
      var mask := PackProjMask(columns.value, NUM_COLS);
      writes := writes + [Write(REG_PROJ_MASK, mask)];
      var key := if groupby.Some? then groupby.value else 0;
      writes := writes + [Write(REG_AGG_CFG, PackAgg(agg.value.0, groupby.Some?, agg.value.1, key))];
      writes := writes + [Write(REG_QUERY, PackQuery(numRows))];
      writes := writes + [Write(REG_CTRL, 1)];
    }
  }

  function AllColumns(schema: Schema): seq<ColRef> {
    seq(|schema|, i requires 0 <= i < |schema| => ByName(schema[i].0))
  }

  /** Each reference to a column of the schema by name means that column and no other. */
  lemma NameMeans(schema: Schema, i: nat, c: nat)
    requires i < |schema|
    ensures Means(schema, AllColumns(schema)[i], c) <==> c == schema[i].1
  {
    assert schema[i] in schema;
  }

  /** A query with no SELECT list of its own projects the schema's columns, each in its place. */
  lemma AllResolve(schema: Schema)
    ensures var r := ResolveAll(schema, AllColumns(schema));
      r.Some? && |r.value| == |schema| && forall i | 0 <= i < |schema| :: r.value[i] == schema[i].1
  {
    hide Means;
    var cs := AllColumns(schema);
    forall c | c in cs ensures !Unknown(schema, c) {
      var i :| 0 <= i < |cs| && cs[i] == c;
      assert schema[i] in schema;
    }
    var r := ResolveAll(schema, cs);
    forall i | 0 <= i < |schema| ensures r.value[i] == schema[i].1 {
      NameMeans(schema, i, r.value[i]);
      assert Means(schema, cs[i], r.value[i]);
    }
  }

  lemma AllProjected(q: Spec)
    requires q.select == AllColumns(q.schema)
    ensures SelectKnown(q)
    ensures forall c: nat :: Projected(q, c) <==> c < NUM_COLS && exists p | p in q.schema :: p.1 == c
  {
    hide Means, ResolveAll, AllColumns;
    AllResolve(q.schema);
    forall c: nat ensures Projected(q, c) <==> c < NUM_COLS && exists p | p in q.schema :: p.1 == c {
      ColumnMeant(q, c);
      var columns := ResolveAll(q.schema, q.select).value;
      if c in columns {
        var i :| 0 <= i < |columns| && columns[i] == c;
        assert q.schema[i] in q.schema;
      }
      if p :| p in q.schema && p.1 == c {
        var i :| 0 <= i < |q.schema| && q.schema[i] == p;
        assert columns[i] == c;
      }
    }
  }

  /** Building a query refuses a schema that does not name exactly the table's columns; what it
      builds selects every column of the schema. */
  method NewQuery(schema: Schema, numRows: int) returns (q: Query?, err: Option<QueryError>)
    ensures q == null <==> |schema| != NUM_COLS
    ensures err == if |schema| != NUM_COLS then Some(SchemaSize) else None
    ensures q != null ==> q.Valid() && q.State() == Spec(schema, AllColumns(schema), [], None, None, numRows)
    ensures q != null ==> SelectKnown(q.State())
    ensures q != null ==>
      forall c: nat :: Projected(q.State(), c) <==> c < NUM_COLS && exists p | p in schema :: p.1 == c
  {
    if |schema| != NUM_COLS { return null, Some(SchemaSize); }
    q := new Query(schema, numRows);
    err := None;
    AllProjected(q.State());
  }

  // ------------------------------------------------------------------ the meaning preserved

  /** The query addresses columns of the table. */
  predicate InTable(q: Spec) {
    && q.agg.Some? && q.agg.value.1 < NUM_COLS && (q.groupby.Some? ==> q.groupby.value < NUM_COLS)
    && forall c | c in q.clauses :: c.column < NUM_COLS
  }

  /** Every WHERE clause holds on a row. */
  predicate ClausesHold(q: Spec, row: seq<nat>) {
    forall c | c in q.clauses :: PredApply(c.op, Col(row, c.column), c.imm)
  }

  /** Operation, operand and key are those of the query. */
  predicate AggSelects(q: Spec, agg: AggCfg) {
    && q.agg == Some((agg.op, agg.column)) && agg.groupby == q.groupby.Some?
    && (q.groupby.Some? ==> agg.gbyKey == q.groupby.value)
  }

  /** A configuration filters, projects and aggregates what a query says. */
  ghost predicate Selects(q: Spec, cfg: Config)
    requires InTable(q)
  {
    && (forall row :: Passes(cfg.preds, row) <==> ClausesHold(q, row))
    && AggSelects(q, cfg.agg)
    && forall c: nat :: Bit(cfg.mask, c) <==> Projected(q, c)
  }

  /** And it does so over the rows the query asks for. */
  ghost predicate Denotes(q: Spec, cfg: Config)
    requires InTable(q)
  {
    Selects(q, cfg) && ScanRows(DEFAULTS.numRows, cfg.numRows) == RowsAsked(DEFAULTS.numRows, q.numRows)
  }

  /** Writing both words of a slot sets it, and only it. */
  lemma SlotApplied(r: RegFile, i: nat, low: nat, high: nat)
    requires r.Wf() && i < NUM_PRED
    ensures ApplyWrite(ApplyWrite(r, Write(REG_PRED_BASE + 2 * i, low)), Write(REG_PRED_BASE + 2 * i + 1, high))
         == r.(preds := r.preds[i := DecodePredHigh(Pred(false, 0, false, 0, low), high)])
  {
    assert (REG_PRED_BASE + 2 * i - REG_PRED_BASE) / 2 == i == (REG_PRED_BASE + 2 * i + 1 - REG_PRED_BASE) / 2;
  }

  lemma SlotDecodes(q: Spec, i: nat)
    requires WellFormed(q) && forall c | c in q.clauses :: c.column < NUM_COLS
    ensures DecodePredHigh(Pred(false, 0, false, 0, SlotLow(q, i)), SlotHigh(q, i)) == SlotPred(q, i)
  {
    if i < |q.clauses| {
      hide PackPredHigh;
      assert q.clauses[i] in q.clauses;
      PackPredDecodes(true, q.clauses[i].op, q.clauses[i].column, 0, Pred(false, 0, false, 0, SlotLow(q, i)));
    }
  }

  lemma {:induction false} SlotsApplied(r: RegFile, q: Spec, n: nat)
    requires r.Wf() && WellFormed(q) && n <= NUM_PRED
    requires forall c | c in q.clauses :: c.column < NUM_COLS
    ensures var r' := ApplyAll(r, SlotWrites(q, n));
      && r' == r.(preds := r'.preds)
      && forall i | 0 <= i < n :: r'.preds[i] == SlotPred(q, i)
  {
    if n == 0 {
    } else {
      SlotsApplied(r, q, n - 1);
      SlotStep(r, q, n - 1);
    }
  }

  /** One more slot. */
  lemma SlotStep(r: RegFile, q: Spec, i: nat)
    requires r.Wf() && WellFormed(q) && i < NUM_PRED
    requires forall c | c in q.clauses :: c.column < NUM_COLS
    ensures var r' := ApplyAll(r, SlotWrites(q, i));
      ApplyAll(r, SlotWrites(q, i + 1)) == r'.(preds := r'.preds[i := SlotPred(q, i)])
  {
    hide ApplyAll, ApplyWrite, SlotLow, SlotHigh, DecodePredHigh, SlotPred;
    var ws := SlotWrites(q, i);
    var low := Write(REG_PRED_BASE + 2 * i, SlotLow(q, i));
    ApplyAllSnoc(r, ws, low);
    ApplyAllSnoc(r, ws + [low], Write(REG_PRED_BASE + 2 * i + 1, SlotHigh(q, i)));
    SlotApplied(ApplyAll(r, ws), i, SlotLow(q, i), SlotHigh(q, i));
    SlotDecodes(q, i);
  }

  lemma ConfigApplied(r: RegFile, mask: nat, agg: nat, query: nat)
    requires r.Wf()
    ensures ApplyWrite(ApplyWrite(ApplyWrite(ApplyWrite(r, Write(REG_PROJ_MASK, mask)), Write(REG_AGG_CFG, agg)),
                                  Write(REG_QUERY, query)), Write(REG_CTRL, 1))
         == r.(mask := mask % 16, agg := DecodeAgg(agg), query := query % 0x400)
  {}

  /** The registers after a compiled query's writes, whatever they held before. */
  lemma CompiledRegisters(r: RegFile, q: Spec)
    requires r.Wf() && WellFormed(q) && InTable(q) && SelectKnown(q)
    ensures var r' := ApplyAll(r, Compile(q).0);
      && r'.preds == [SlotPred(q, 0), SlotPred(q, 1)]
      && AggSelects(q, r'.agg) && r'.agg.gbyKey < NUM_COLS
      && (forall c: nat :: Bit(r'.mask, c) <==> Projected(q, c))
      && r'.query == PackQuery(q.numRows)
  {
    hide ApplyWrite, SlotPred, PackAgg, MaskOf, DecodeAgg, SlotWrites, ApplyAll, PackQuery, Projected, Bit;
    CompileErrs(q);
    var ws0 := SlotWrites(q, NUM_PRED);
    SlotsApplied(r, q, NUM_PRED);
    var m := MaskOf(ResolveAll(q.schema, q.select).value);
    var key := if q.groupby.Some? then q.groupby.value else 0;
    var agg := PackAgg(q.agg.value.0, q.groupby.Some?, q.agg.value.1, key);
    var ws1 := ws0 + [Write(REG_PROJ_MASK, m % Pow2(NUM_COLS))];
    var ws2 := ws1 + [Write(REG_AGG_CFG, agg)];
    var ws3 := ws2 + [Write(REG_QUERY, PackQuery(q.numRows))];
    ApplyAllSnoc(r, ws0, Write(REG_PROJ_MASK, m % Pow2(NUM_COLS)));
    ApplyAllSnoc(r, ws1, Write(REG_AGG_CFG, agg));
    ApplyAllSnoc(r, ws2, Write(REG_QUERY, PackQuery(q.numRows)));
    ApplyAllSnoc(r, ws3, Write(REG_CTRL, 1));
    ConfigApplied(ApplyAll(r, ws0), m % Pow2(NUM_COLS), agg, PackQuery(q.numRows));
    PackAggDecodes(q.agg.value.0, q.groupby.Some?, q.agg.value.1, key);
    assert m % Pow2(NUM_COLS) % 16 == m % 16 by { assert Pow2(NUM_COLS) == 16; }
    MaskProjects(q);
    assert PackQuery(q.numRows) % 0x400 == PackQuery(q.numRows) by { QueryInRange(q.numRows); }
  }

  /** The packed mask has exactly the projected columns' bits. */
  lemma MaskProjects(q: Spec)
    requires SelectKnown(q)
    ensures forall c: nat :: Bit(MaskOf(ResolveAll(q.schema, q.select).value) % 16, c) <==> Projected(q, c)
  {
    hide MaskOf, Bit;
    var columns := ResolveAll(q.schema, q.select).value;
    forall c: nat ensures Bit(MaskOf(columns) % 16, c) <==> Projected(q, c) {
      assert Pow2(NUM_COLS) == 16;
      BitTruncate(MaskOf(columns), NUM_COLS, c);
      MaskBits(columns, c);
      ColumnMeant(q, c);
    }
  }

  /** The resolved columns are the columns meant. */
  lemma ColumnMeant(q: Spec, c: nat)
    requires SelectKnown(q)
    ensures c in ResolveAll(q.schema, q.select).value <==> exists s | s in q.select :: Means(q.schema, s, c)
  {
    hide Means;
    var columns := ResolveAll(q.schema, q.select).value;
    if c in columns {
      var i :| 0 <= i < |columns| && columns[i] == c;
      assert q.select[i] in q.select && Means(q.schema, q.select[i], c);
    }
    if s :| s in q.select && Means(q.schema, s, c) {
      var i :| 0 <= i < |q.select| && q.select[i] == s;
      assert Resolve(q.schema, s) == Some(c) == Some(columns[i]);
    }
  }

  lemma QueryInRange(n: int)
    ensures PackQuery(n) < 0x400
  {}

  /** Compiling preserves meaning: from any prior register contents, the configuration the
      hardware decodes denotes the query, exactly when its limit can be carried. */
  lemma CompileDenotes(r: RegFile, q: Spec)
    requires r.Wf() && WellFormed(q) && InTable(q) && SelectKnown(q)
    ensures Denotes(q, ApplyAll(r, Compile(q).0).Config()) <==> LimitHonoured(q.numRows)
  {
    hide Compile, Selects, PackQuery;
    CompileSelects(r, q);
    CompiledRegisters(r, q);
    LimitHonouredIff(q.numRows);
  }

  /** Filter, projection and aggregate are preserved whatever the limit. */
  lemma CompileSelects(r: RegFile, q: Spec)
    requires r.Wf() && WellFormed(q) && InTable(q) && SelectKnown(q)
    ensures Selects(q, ApplyAll(r, Compile(q).0).Config())
  {
    hide Compile, Projected, Bit;
    CompiledRegisters(r, q);
    var cfg := ApplyAll(r, Compile(q).0).Config();
    forall row ensures Passes(cfg.preds, row) <==> ClausesHold(q, row) {
      ClausesConjoin(q, row);
    }
  }

  /** The two slots together test every clause. */
  lemma ClausesConjoin(q: Spec, row: seq<nat>)
    requires WellFormed(q)
    ensures Passes([SlotPred(q, 0), SlotPred(q, 1)], row) <==> ClausesHold(q, row)
  {
    var preds := [SlotPred(q, 0), SlotPred(q, 1)];
    AllAndIsConjunction(preds, row);
    assert preds[0] in preds && preds[1] in preds;
    hide Passes;
    if forall p | p in preds && p.enable :: SlotResult(p, row) {
      forall c | c in q.clauses ensures PredApply(c.op, Col(row, c.column), c.imm) {
        var i :| 0 <= i < |q.clauses| && q.clauses[i] == c;
        assert preds[i].enable && SlotResult(preds[i], row);
      }
    }
    if ClausesHold(q, row) {
      forall p | p in preds && p.enable ensures SlotResult(p, row) {
        var i :| 0 <= i < 2 && p == preds[i];
        assert q.clauses[i] in q.clauses;
      }
    }
  }
}
