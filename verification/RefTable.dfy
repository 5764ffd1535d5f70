/** The probing hash table without clock timing, and what it means.
    A table of b buckets is filled by linear probing from a hash of the key; a row that
    finds neither its key nor a free bucket is dropped. */
module RefTable {
  import opened Values
  import opened Bits

  /** Aggregates of one key: the payload of a bucket, and of one emitted beat. */
  datatype Group = Group(key: nat, count: nat, sum: nat, min: nat, max: nat)

  datatype Bucket = Bucket(valid: bool, g: Group)

  const ZERO_GROUP := Group(0, 0, 0, 0, 0)
  const ZERO_BUCKET := Bucket(false, ZERO_GROUP)

  type Table = seq<Bucket>

  /** What the GROUP BY stage sees of one beat. */
  datatype Row = Row(pass: bool, key: nat, val: nat, last: bool)

  // ------------------------------------------------------------------ hash and probe order

  /** XOR-fold of the four bucket-address-wide chunks of the key. */
  function Hash(b: nat, key: nat): nat
    requires b > 0
  {
    Xor(Xor(Xor(key % b, key / b % b), key / (b * b) % b), key / (b * b * b) % b)
  }

  lemma HashInRange(a: nat, key: nat)
    ensures Hash(Pow2(a), key) < Pow2(a)
  {
    var b := Pow2(a);
    XorBound(a, key % b, key / b % b);
    XorBound(a, Xor(key % b, key / b % b), key / (b * b) % b);
    XorBound(a, Xor(Xor(key % b, key / b % b), key / (b * b) % b), key / (b * b * b) % b);
  }

  /** The four chunks of a key. */
  function Chunk(b: nat, key: nat, i: nat): nat
    requires b > 0 && i < 4
  {
    if i == 0 then key % b
    else if i == 1 then key / b % b
    else if i == 2 then key / (b * b) % b
    else key / (b * b * b) % b
  }

  /** Bit k of the bucket address is the parity of bit k of each of the key's four chunks. */
  lemma HashBits(a: nat, key: nat, k: nat)
    requires k < a
    ensures Bit(Hash(Pow2(a), key), k)
         == (((Bit(key, k) != Bit(key, a + k)) != Bit(key, 2 * a + k)) != Bit(key, 3 * a + k))
  {
    hide Xor, Bit;
    var b := Pow2(a);
    var c0, c1, c2, c3 := key % b, key / b % b, key / (b * b) % b, key / (b * b * b) % b;
    assert b * b == Pow2(2 * a) && b * b * b == Pow2(3 * a) by {
      Pow2Add(a, a);
      Pow2Add(2 * a, a);
    }
    hide Pow2;
    BitTruncate(key, a, k);
    ChunkBits(a, a, key, k);
    ChunkBits(a, 2 * a, key, k);
    ChunkBits(a, 3 * a, key, k);
    BitXor(c0, c1, k);
    BitXor(Xor(c0, c1), c2, k);
    BitXor(Xor(Xor(c0, c1), c2), c3, k);
  }

  lemma ChunkBits(a: nat, n: nat, key: nat, k: nat)
    requires k < a
    ensures Bit(key / Pow2(n) % Pow2(a), k) == Bit(key, n + k)
  {
    hide Bit, Pow2;
    var q, r := key / Pow2(n), key % Pow2(n);
    BitTruncate(q, a, k);
    BitShift(key, q, r, n, k);
  }

  /** Two keys that differ in exactly one chunk never share a bucket address. */
  lemma HashSeparates(b: nat, k1: nat, k2: nat, i: nat)
    requires b > 0 && i < 4
    requires Chunk(b, k1, i) != Chunk(b, k2, i)
    requires forall j: nat | j < 4 && j != i :: Chunk(b, k1, j) == Chunk(b, k2, j)
    ensures Hash(b, k1) != Hash(b, k2)
  {
    var c0, c1, c2, c3 := Chunk(b, k1, 0), Chunk(b, k1, 1), Chunk(b, k1, 2), Chunk(b, k1, 3);
    var d0, d1, d2, d3 := Chunk(b, k2, 0), Chunk(b, k2, 1), Chunk(b, k2, 2), Chunk(b, k2, 3);
    var c01, d01 := Xor(c0, c1), Xor(d0, d1);
    var c012, d012 := Xor(c01, c2), Xor(d01, d2);
    if Hash(b, k1) == Hash(b, k2) {
      if i == 3 {
        XorInjective(c012, c3, d3);
      } else {
        XorCommutes(c012, c3);
        XorCommutes(d012, d3);
        XorInjective(c3, c012, d012);
        if i == 2 {
          XorInjective(c01, c2, d2);
        } else {
          XorCommutes(c01, c2);
          XorCommutes(d01, d2);
          XorInjective(c2, c01, d01);
          if i == 0 {
            XorCommutes(c0, c1);
            XorCommutes(d0, d1);
            XorInjective(c1, c0, d0);
          } else {
            XorInjective(c0, c1, d1);
          }
        }
      }
    }
  }

  /** The fold of the chunks above the lowest. */
  function UpperFold(b: nat, key: nat): nat
    requires b > 0
  {
    Xor(Xor(Chunk(b, key, 1), Chunk(b, key, 2)), Chunk(b, key, 3))
  }

  /** Keys sharing their low chunk start in different buckets exactly when their upper chunks
      fold differently. */
  lemma SharedLowChunk(b: nat, k1: nat, k2: nat)
    requires b > 0 && Chunk(b, k1, 0) == Chunk(b, k2, 0)
    ensures Hash(b, k1) != Hash(b, k2) <==> UpperFold(b, k1) != UpperFold(b, k2)
  {
    HashIsFold(b, k1);
    HashIsFold(b, k2);
    if Hash(b, k1) == Hash(b, k2) { XorInjective(Chunk(b, k1, 0), UpperFold(b, k1), UpperFold(b, k2)); }
  }

  lemma HashIsFold(b: nat, key: nat)
    requires b > 0
    ensures Hash(b, key) == Xor(Chunk(b, key, 0), UpperFold(b, key))
  {
    var c0, c1, c2, c3 := Chunk(b, key, 0), Chunk(b, key, 1), Chunk(b, key, 2), Chunk(b, key, 3);
    XorAssociates(c0, c1, c2);
    XorAssociates(c0, Xor(c1, c2), c3);
  }

  /** Keys 0 and 0x10100 share a low byte and a bucket. */
  lemma LowByteCollides()
    ensures Chunk(256, 0, 0) == Chunk(256, 0x1_0100, 0) && Hash(256, 0) == Hash(256, 0x1_0100)
  {
    assert Chunk(256, 0x1_0100, 1) == 1 && Chunk(256, 0x1_0100, 2) == 1 && Chunk(256, 0x1_0100, 3) == 0;
    assert Xor(0, 0) == 0 && Xor(0, 1) == 1 && Xor(1, 1) == 0;
  }

  /** The bucket examined by probe p of a key. */
  function Slot(b: nat, key: nat, p: nat): (i: nat)
    requires b > 0
    ensures i < b
  {
    (Hash(b, key) + p) % b
  }

  lemma SlotNext(b: nat, key: nat, p: nat)
    requires b > 0
    ensures Slot(b, key, p + 1) == Inc(b, Slot(b, key, p))
  {
    ModStep(Hash(b, key) + p, b);
  }

  lemma SlotWraps(b: nat, key: nat, p: nat)
    requires b > 0
    ensures Slot(b, key, p + b) == Slot(b, key, p)
  {
    ModStep(Hash(b, key) + p, b);
  }

  /** The first b probes visit every bucket. */
  lemma SlotCovers(b: nat, key: nat, i: nat) returns (p: nat)
    requires i < b
    ensures p < b && Slot(b, key, p) == i
  {
    p := ModReach(Hash(b, key), b, i);
  }

  // ------------------------------------------------------------------ search and insertion

  /** Probe p of key ends the search: the bucket is free or holds the key. */
  predicate Stops(t: Table, key: nat, p: nat)
    requires |t| > 0
  {
    var s := t[Slot(|t|, key, p)];
    !s.valid || s.g.key == key
  }

  /** The first probe from p on that ends the search; |t| when none does. */
  function Search(t: Table, key: nat, p: nat): (q: nat)
    requires 0 < |t| && p <= |t|
    ensures p <= q <= |t|
    ensures forall i: nat | p <= i < q :: !Stops(t, key, i)
    ensures q < |t| ==> Stops(t, key, q)
    decreases |t| - p
  {
    if p == |t| || Stops(t, key, p) then p else Search(t, key, p + 1)
  }

  /** Search is characterized by its contract. */
  lemma SearchIs(t: Table, key: nat, q: nat)
    requires 0 < |t| && q <= |t|
    requires forall i: nat | i < q :: !Stops(t, key, i)
    requires q < |t| ==> Stops(t, key, q)
    ensures Search(t, key, 0) == q
  {}

  /** A bucket after a row is placed in it or folded into it; m is the accumulator maximum. */
  function Put(m: nat, s: Bucket, key: nat, v: nat): Bucket {
    if !s.valid then Bucket(true, Group(key, 1, v, v, v))
    else
      var g := s.g;
      Bucket(true, Group(g.key, g.count + 1, if g.sum + v > m then m else g.sum + v,
                         if v < g.min then v else g.min, if v > g.max then v else g.max))
  }

  function Insert(m: nat, t: Table, key: nat, v: nat): (t': Table)
    requires |t| > 0
    ensures |t'| == |t|
  {
    var q := Search(t, key, 0);
    if q == |t| then t
    else
      var i := Slot(|t|, key, q);
      t[i := Put(m, t[i], key, v)]
  }

  function Cleared(b: nat): (t: Table)
    ensures |t| == b && forall i | 0 <= i < b :: t[i] == ZERO_BUCKET
  {
    seq(b, _ => ZERO_BUCKET)
  }

  /** The table after the passing rows of a stream have been inserted into an empty one. */
  function TableOf(b: nat, m: nat, rows: seq<Row>): (t: Table)
    requires b > 0
    ensures |t| == b
  {
    if rows == [] then Cleared(b)
    else
      var r := rows[|rows| - 1];
      var t0 := TableOf(b, m, rows[..|rows| - 1]);
      if r.pass then Insert(m, t0, r.key, r.val) else t0
  }

  lemma TableOfSnoc(b: nat, m: nat, rows: seq<Row>, r: Row)
    requires b > 0
    ensures TableOf(b, m, rows + [r])
         == if r.pass then Insert(m, TableOf(b, m, rows), r.key, r.val) else TableOf(b, m, rows)
  {
    assert (rows + [r])[..|rows|] == rows;
  }

  // ------------------------------------------------------------------ the probing invariant

  /** Every resident key's search ends at the bucket that holds it. */
  ghost predicate Probing(t: Table)
    requires |t| > 0
  {
    forall i | 0 <= i < |t| && t[i].valid ::
      var q := Search(t, t[i].g.key, 0);
      q < |t| && Slot(|t|, t[i].g.key, q) == i
  }

  /** The same in terms of the table alone: the probe path from a key's hash to its bucket
      passes only over valid buckets that hold other keys, and resident keys are unique. */
  lemma ProbingMeans(t: Table)
    requires |t| > 0
    ensures Probing(t) <==> forall i | 0 <= i < |t| && t[i].valid :: ReachedByPath(t, i)
    ensures Probing(t) ==>
      forall i, j | 0 <= i < |t| && 0 <= j < |t| && t[i].valid && t[j].valid && t[i].g.key == t[j].g.key :: i == j
  {
    forall i | 0 <= i < |t| && t[i].valid
      ensures ReachedByPath(t, i) <==>
        Search(t, t[i].g.key, 0) < |t| && Slot(|t|, t[i].g.key, Search(t, t[i].g.key, 0)) == i
    {
      PathIsSearch(t, i);
    }
  }

  ghost predicate ReachedByPath(t: Table, i: nat)
    requires i < |t|
  {
    exists q: nat :: q < |t| && Slot(|t|, t[i].g.key, q) == i && PathTaken(t, t[i].g.key, q)
  }

  lemma PathIsSearch(t: Table, i: nat)
    requires i < |t| && t[i].valid
    ensures ReachedByPath(t, i) <==>
      Search(t, t[i].g.key, 0) < |t| && Slot(|t|, t[i].g.key, Search(t, t[i].g.key, 0)) == i
  {
    var key := t[i].g.key;
    if ReachedByPath(t, i) {
      var q: nat :| q < |t| && Slot(|t|, key, q) == i && PathTaken(t, key, q);
      forall p: nat | p < q ensures !Stops(t, key, p) {}
      SearchIs(t, key, q);
    }
    var r := Search(t, key, 0);
    if r < |t| && Slot(|t|, key, r) == i {
      forall p: nat | p < r ensures t[Slot(|t|, key, p)].valid && t[Slot(|t|, key, p)].g.key != key {
        assert !Stops(t, key, p);
      }
      assert PathTaken(t, key, r);
    }
  }

  ghost predicate PathTaken(t: Table, key: nat, q: nat)
    requires |t| > 0
  {
    forall p: nat | p < q :: t[Slot(|t|, key, p)].valid && t[Slot(|t|, key, p)].g.key != key
  }

  lemma InsertKeepsProbing(m: nat, t: Table, key: nat, v: nat)
    requires |t| > 0 && Probing(t)
    ensures Probing(Insert(m, t, key, v))
  {
    var t' := Insert(m, t, key, v);
    var q := Search(t, key, 0);
    if q < |t| {
      var s := Slot(|t|, key, q);
      forall i | 0 <= i < |t| && t'[i].valid
        ensures Search(t', t'[i].g.key, 0) < |t| && Slot(|t|, t'[i].g.key, Search(t', t'[i].g.key, 0)) == i
      {
        var k := t'[i].g.key;
        var r := if i == s then q else Search(t, k, 0);
        if i == s { assert k == key; } else { assert t[i].valid && t[i].g.key == k; }
        forall p: nat | p < r ensures !Stops(t', k, p) {
          assert !Stops(t, k, p);
        }
        SearchIs(t', k, r);
      }
    }
  }

  /** A key is resident when some valid bucket holds it. */
  ghost predicate Has(t: Table, key: nat) {
    exists i :: 0 <= i < |t| && t[i].valid && t[i].g.key == key
  }

  /** A row is dropped exactly when every bucket is valid and holds another key. */
  lemma DroppedIff(t: Table, key: nat)
    requires |t| > 0
    ensures Search(t, key, 0) == |t|
       <==> forall i | 0 <= i < |t| :: t[i].valid && t[i].g.key != key
  {
    if Search(t, key, 0) == |t| {
      forall i | 0 <= i < |t| ensures t[i].valid && t[i].g.key != key {
        var p := SlotCovers(|t|, key, i);
        assert !Stops(t, key, p);
      }
    }
  }

  // ------------------------------------------------------------------ what a table means

  /** The values of one key's passing rows, in arrival order. */
  function Vals(key: nat, rows: seq<Row>): (vs: seq<nat>)
    ensures |vs| <= |rows|
  {
    if rows == [] then []
    else
      var r := rows[|rows| - 1];
      var vs := Vals(key, rows[..|rows| - 1]);
      if r.pass && r.key == key then vs + [r.val] else vs
  }

  /** COUNT, saturated SUM, MIN and MAX over all passing rows of a key. */
  function Aggregate(m: nat, key: nat, rows: seq<Row>): Group
    requires Vals(key, rows) != []
  {
    var vs := Vals(key, rows);
    Group(key, |vs|, Min(Sum(vs), m), Least(vs), Greatest(vs))
  }

  /** The first b distinct keys of the passing rows, in arrival order. */
  function Admitted(b: nat, rows: seq<Row>): (ks: seq<nat>)
    ensures |ks| <= b
    ensures forall i, j | 0 <= i < j < |ks| :: ks[i] != ks[j]
    ensures forall k | k in ks :: Vals(k, rows) != []
  {
    if rows == [] then []
    else
      var r := rows[|rows| - 1];
      var ks := Admitted(b, rows[..|rows| - 1]);
      if r.pass && r.key !in ks && |ks| < b then ks + [r.key] else ks
  }

  function CountValid(t: Table): (n: nat)
    ensures n <= |t|
  {
    if t == [] then 0 else CountValid(t[..|t| - 1]) + (if t[|t| - 1].valid then 1 else 0)
  }

  lemma {:induction false} CountValidPlace(t: Table, i: nat, x: Bucket)
    requires i < |t| && x.valid
    ensures CountValid(t[i := x]) == CountValid(t) + if t[i].valid then 0 else 1
  {
    var n := |t| - 1;
    if i < n {
      CountValidPlace(t[..n], i, x);
      assert t[i := x][..n] == t[..n][i := x];
    } else {
      assert t[i := x][..n] == t[..n];
    }
  }

  lemma {:induction false} CountValidFull(t: Table)
    ensures CountValid(t) == |t| <==> forall i | 0 <= i < |t| :: t[i].valid
  {
    if t == [] {
    } else {
      var n := |t| - 1;
      CountValidFull(t[..n]);
      assert forall i | 0 <= i < n :: t[..n][i] == t[i];
    }
  }

  lemma {:induction false} CountValidCleared(t: Table)
    requires forall i | 0 <= i < |t| :: !t[i].valid
    ensures CountValid(t) == 0
  {
    if t == [] {
    } else {
      CountValidCleared(t[..|t| - 1]);
    }
  }

  /** The table a stream leaves behind: probing holds, the resident keys are exactly the
      admitted ones, and each bucket aggregates all passing rows of its key. */
  ghost predicate Means(b: nat, m: nat, t: Table, rows: seq<Row>)
    requires |t| > 0
  {
    && Probing(t)
    && CountValid(t) == |Admitted(b, rows)|
    && (forall k :: Has(t, k) <==> k in Admitted(b, rows))
    && (forall i | 0 <= i < |t| && t[i].valid ::
          t[i].g.key in Admitted(b, rows) && t[i].g == Aggregate(m, t[i].g.key, rows))
  }

  lemma {:induction false} TableMeans(b: nat, m: nat, rows: seq<Row>)
    requires b > 0
    requires forall r | r in rows :: r.val <= m
    ensures Means(b, m, TableOf(b, m, rows), rows)
  {
    if rows == [] {
      CountValidCleared(Cleared(b));
    } else {
      var r0, r := rows[..|rows| - 1], rows[|rows| - 1];
      assert rows == r0 + [r];
      TableMeans(b, m, r0);
      TableOfSnoc(b, m, r0, r);
      if r.pass { PassingRowMeans(b, m, TableOf(b, m, r0), r0, r); }
      else { FailingRowMeans(b, m, TableOf(b, m, r0), r0, r); }
    }
  }

  lemma ValsSnoc(key: nat, rows: seq<Row>, r: Row)
    ensures Vals(key, rows + [r])
         == if r.pass && r.key == key then Vals(key, rows) + [r.val] else Vals(key, rows)
  {
    assert (rows + [r])[..|rows|] == rows;
  }

  lemma AdmittedSnoc(b: nat, rows: seq<Row>, r: Row)
    ensures var ks := Admitted(b, rows);
      Admitted(b, rows + [r]) == if r.pass && r.key !in ks && |ks| < b then ks + [r.key] else ks
  {
    assert (rows + [r])[..|rows|] == rows;
  }

  lemma AggregateSnoc(m: nat, rows: seq<Row>, r: Row, s: Bucket)
    requires r.pass && r.val <= m
    requires s.valid ==> Vals(r.key, rows) != [] && s.g == Aggregate(m, r.key, rows)
    requires !s.valid ==> Vals(r.key, rows) == []
    ensures Vals(r.key, rows + [r]) != []
    ensures Put(m, s, r.key, r.val) == Bucket(true, Aggregate(m, r.key, rows + [r]))
  {
    var vs := Vals(r.key, rows);
    ValsSnoc(r.key, rows, r);
    assert (vs + [r.val])[..|vs|] == vs;
    if s.valid {
      assert Sum(vs + [r.val]) == Sum(vs) + r.val;
    } else {
      assert vs + [r.val] == [r.val];
      assert Sum([r.val]) == r.val by { assert [r.val][..0] == []; }
    }
  }

  /** A key that has passing rows but was not admitted arrived when the table was full. */
  lemma {:induction false} NotAdmittedMeansFull(b: nat, rows: seq<Row>, key: nat)
    requires Vals(key, rows) != [] && key !in Admitted(b, rows)
    ensures |Admitted(b, rows)| == b
  {
    var n := |rows| - 1;
    if Vals(key, rows[..n]) == [] {
    } else {
      NotAdmittedMeansFull(b, rows[..n], key);
    }
  }

  lemma FailingRowMeans(b: nat, m: nat, t: Table, rows: seq<Row>, r: Row)
    requires |t| == b > 0 && Means(b, m, t, rows)
    requires !r.pass
    ensures Means(b, m, t, rows + [r])
  {
    AdmittedSnoc(b, rows, r);
    forall i | 0 <= i < b && t[i].valid
      ensures t[i].g.key in Admitted(b, rows + [r]) && t[i].g == Aggregate(m, t[i].g.key, rows + [r])
    {
      ValsSnoc(t[i].g.key, rows, r);
    }
  }

  lemma PassingRowMeans(b: nat, m: nat, t: Table, rows: seq<Row>, r: Row)
    requires |t| == b > 0 && Means(b, m, t, rows)
    requires r.pass && r.val <= m
    ensures Means(b, m, Insert(m, t, r.key, r.val), rows + [r])
  {
    var q := Search(t, r.key, 0);
    InsertKeepsProbing(m, t, r.key, r.val);
    if q < b {
      InsertStoresMeans(b, m, t, rows, r, q);
    } else {
      DroppedIff(t, r.key);
      CountValidFull(t);
      AdmittedSnoc(b, rows, r);
      forall i | 0 <= i < b
        ensures t[i].g.key in Admitted(b, rows + [r]) && t[i].g == Aggregate(m, t[i].g.key, rows + [r])
      {
        ValsSnoc(t[i].g.key, rows, r);
      }
    }
  }

  lemma InsertStoresMeans(b: nat, m: nat, t: Table, rows: seq<Row>, r: Row, q: nat)
    requires |t| == b > 0 && Means(b, m, t, rows)
    requires r.pass && r.val <= m && q == Search(t, r.key, 0) < b
    ensures var t' := Insert(m, t, r.key, r.val);
      && CountValid(t') == |Admitted(b, rows + [r])|
      && (forall k :: Has(t', k) <==> k in Admitted(b, rows + [r]))
      && (forall i | 0 <= i < b && t'[i].valid ::
            t'[i].g.key in Admitted(b, rows + [r]) && t'[i].g == Aggregate(m, t'[i].g.key, rows + [r]))
  {
    hide Admitted, Vals, Sum, Least, Greatest, CountValid, Hash;
    var rows' := rows + [r];
    var ks := Admitted(b, rows);
    var s := Slot(b, r.key, q);
    var t' := Insert(m, t, r.key, r.val);
    AdmittedSnoc(b, rows, r);
    CountValidPlace(t, s, t'[s]);
    CountValidFull(t);
    assert t[s].valid || CountValid(t) < b;
    assert Has(t, r.key) <==> t[s].valid by {
      if i :| 0 <= i < b && t[i].valid && t[i].g.key == r.key { assert i == s; }
    }
    if !t[s].valid && Vals(r.key, rows) != [] { NotAdmittedMeansFull(b, rows, r.key); assert false; }
    AggregateSnoc(m, rows, r, t[s]);
    forall i | 0 <= i < b && t'[i].valid
      ensures t'[i].g.key in Admitted(b, rows') && t'[i].g == Aggregate(m, t'[i].g.key, rows')
    {
      if i != s {
        assert t[i].g.key != r.key;
        ValsSnoc(t[i].g.key, rows, r);
      }
    }
    PlacedHas(t, s, t'[s]);
  }

  /** Placing a key, or refreshing its bucket, makes it resident and disturbs no other. */
  lemma PlacedHas(t: Table, s: nat, x: Bucket)
    requires s < |t| && x.valid && (t[s].valid ==> t[s].g.key == x.g.key)
    ensures forall k :: Has(t[s := x], k) <==> Has(t, k) || k == x.g.key
  {
    var t' := t[s := x];
    forall k ensures Has(t', k) <==> Has(t, k) || k == x.g.key {
      if Has(t, k) && k != x.g.key {
        var i :| 0 <= i < |t| && t[i].valid && t[i].g.key == k;
        assert t'[i].valid && t'[i].g.key == k;
      }
      if k == x.g.key { assert t'[s].valid && t'[s].g.key == k; }
    }
  }

  // ------------------------------------------------------------------ the table in place

  /** The reference table: an array of slots, probed in a loop. */
  class ProbingTable {
    const slots: array<Bucket>
    const accMax: nat

    constructor (buckets: nat, accMax: nat)
      requires buckets > 0
      ensures fresh(slots) && slots.Length == buckets && this.accMax == accMax
      ensures slots[..] == Cleared(buckets)
    {
      slots := new Bucket[buckets](_ => ZERO_BUCKET);
      this.accMax := accMax;
    }

    method Reset()
      modifies slots
      ensures forall i | 0 <= i < slots.Length :: !slots[i].valid && slots[i].g == old(slots[i].g)
    {
      for i := 0 to slots.Length
        invariant forall k | 0 <= k < i :: !slots[k].valid && slots[k].g == old(slots[k].g)
        invariant forall k | i <= k < slots.Length :: slots[k] == old(slots[k])
      {
        slots[i] := slots[i].(valid := false);
      }
    }

    method Add(key: nat, v: nat)
      requires slots.Length > 0
      modifies slots
      ensures slots[..] == Insert(accMax, old(slots[..]), key, v)
    {
      ghost var t := slots[..];
      var h := Hash(slots.Length, key);
      for p := 0 to slots.Length
        invariant slots[..] == t && forall i: nat | i < p :: !Stops(t, key, i)
      {
        var idx := (h + p) % slots.Length;
        assert idx == Slot(|t|, key, p);
        if !slots[idx].valid {
          SearchIs(t, key, p);
          slots[idx] := Bucket(true, Group(key, 1, v, v, v));
          return;
        }
        if slots[idx].g.key == key {
          SearchIs(t, key, p);
          var g := slots[idx].g;
          slots[idx] := Bucket(true, Group(g.key, g.count + 1, if g.sum + v > accMax then accMax else g.sum + v,
                                           if v < g.min then v else g.min, if v > g.max then v else g.max));
          return;
        }
      }
      SearchIs(t, key, slots.Length);
    }
  }
}
