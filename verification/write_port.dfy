/**
The write port (engine-py/python/rust_backend.py): creates and updates run natively as one statement per
batch with flattened parameters, or are delegated whole.  SQL texts are reduced to their shape, and the
server is a table that gives every inserted row an id of its own and returns the ids in row order.
*/
module Parameters {
  /** A converted value; only a plain one can be bound as a parameter. */
  datatype Cell = Plain(v: int) | SqlFragment | TupleValue

  type Row = seq<Cell>

  predicate OfWidth(rows: seq<Row>, width: nat)
  {
    forall i :: 0 <= i < |rows| ==> |rows[i]| == width
  }

  /** Row-major: all values of the first row, then all of the second, and so on. */
  function Flatten(rows: seq<Row>): seq<Cell>
  {
    if rows == [] then [] else rows[0] + Flatten(rows[1..])
  }

  /** How a statement of `n` rows of a width reads its parameters. */
  function Unflatten(params: seq<Cell>, width: nat, n: nat): seq<Row>
    decreases n
  {
    if n == 0 then []
    else if |params| < width then []
    else [params[..width]] + Unflatten(params[width..], width, n - 1)
  }

  lemma {:induction false} FlattenUndone(rows: seq<Row>, width: nat)
    requires OfWidth(rows, width)
    ensures Unflatten(Flatten(rows), width, |rows|) == rows
  {
    if rows != [] {
      FlattenUndone(rows[1..], width);
      assert Flatten(rows)[..width] == rows[0];
      assert Flatten(rows)[width..] == Flatten(rows[1..]);
    }
  }

  /** Flattening is undone by (row, column) indexing. */
  lemma {:induction false} FlattenIndexed(rows: seq<Row>, width: nat, row: nat, column: nat)
    requires OfWidth(rows, width) && row < |rows| && column < width
    ensures |Flatten(rows)| == |rows| * width
    ensures 0 <= row * width + column < |rows| * width
    ensures Flatten(rows)[row * width + column] == rows[row][column]
  {
    FlattenLength(rows, width);
    if row == 0 {
      assert 0 * width + column == column;
      FlattenLength(rows[1..], width);
      assert |rows| * width == width + |rows[1..]| * width;
    } else {
      FlattenIndexed(rows[1..], width, row - 1, column);
      assert row * width == (row - 1) * width + width;
      assert |rows| * width == |rows[1..]| * width + width;
      assert Flatten(rows)[row * width + column] == Flatten(rows[1..])[(row - 1) * width + column];
    }
  }

  lemma {:induction false} FlattenLength(rows: seq<Row>, width: nat)
    requires OfWidth(rows, width)
    ensures |Flatten(rows)| == |rows| * width
  {
    if rows != [] {
      FlattenLength(rows[1..], width);
      assert |rows| * width == width + |rows[1..]| * width;
    }
  }

  /** Every value as often as the statement of a uniform update mentions it. */
  function Repeated(values: seq<Cell>, repeats: seq<nat>): seq<Cell>
    requires |values| == |repeats|
  {
    if values == [] then []
    else Repeated(values[..|values| - 1], repeats[..|values| - 1]) + Copies(values[|values| - 1], repeats[|values| - 1])
  }

  function Copies(value: Cell, n: nat): seq<Cell>
  {
    seq(n, i => value)
  }

  /** The values such a statement reads: one per run. */
  function RunsOf(params: seq<Cell>, repeats: seq<nat>): seq<Cell>
  {
    if repeats == [] then []
    else
      var last := repeats[|repeats| - 1];
      if last == 0 || |params| < last then []
      else RunsOf(params[..|params| - last], repeats[..|repeats| - 1]) + [params[|params| - 1]]
  }

  lemma {:induction false} RunsUndo(values: seq<Cell>, repeats: seq<nat>)
    requires |values| == |repeats| && forall i :: 0 <= i < |repeats| ==> repeats[i] > 0
    ensures RunsOf(Repeated(values, repeats), repeats) == values
  {
    if values != [] {
      var n := |values| - 1;
      RunsUndo(values[..n], repeats[..n]);
    }
  }
}

module WritePort {
  import opened Parameters
  import opened Wrappers

  datatype Statement =
    | Insert(width: nat, rows: nat, given: Option<seq<Cell>>)
    | UpdateValues(width: nat, rows: nat, params: seq<Cell>)
    | UpdateUniform(repeats: seq<nat>, params: seq<Cell>, ids: seq<int>)

  /** The rows an insert binds: without columns there are no parameters and every row is empty. */
  function Bound(s: Statement): seq<Row>
    requires s.Insert?
  {
    match s.given
    case None => seq(s.rows, i => [])
    case Some(params) => Unflatten(params, s.width, s.rows)
  }

  type Table = map<int, Row>

  function Target(row: Row): int
  {
    if row != [] && row[0].Plain? then row[0].v else -1
  }

  /** One row of an update: the values after the id, if there is such a record. */
  function Updated(t: Table, row: Row): Table
  {
    if row != [] && Target(row) in t then t[Target(row) := row[1..]] else t
  }

  function UpdatedAll(t: Table, rows: seq<Row>): Table
  {
    if rows == [] then t else Updated(UpdatedAll(t, rows[..|rows| - 1]), rows[|rows| - 1])
  }

  function WithValues(ids: seq<int>, values: seq<Cell>): seq<Row>
  {
    seq(|ids|, i requires 0 <= i < |ids| => [Plain(ids[i])] + values)
  }

  function Effect(t: Table, s: Statement): Table
    requires !s.Insert?
  {
    match s
    case UpdateValues(width, rows, params) => UpdatedAll(t, Unflatten(params, width, rows))
    case UpdateUniform(repeats, params, ids) => UpdatedAll(t, WithValues(ids, RunsOf(params, repeats)))
  }

  /** The cursor of the environment and the table behind it. */
  class Cursor {
    var executed: seq<Statement>
    var table: Table
    var sequence: int

    ghost predicate Valid()
      reads this
    {
      forall i :: i in table ==> i < sequence
    }

    constructor ()
      ensures Valid() && executed == [] && table == map[]
    {
      executed, table, sequence := [], map[], 1;
    }

    /** Each bound row becomes a record with an id of its own; the ids come back in row order. */
    method ExecuteInsert(s: Statement) returns (ids: seq<int>)
      requires Valid() && s.Insert?
      modifies this
      ensures Valid() && executed == old(executed) + [s]
      ensures |ids| == |Bound(s)|
      ensures forall k :: 0 <= k < |ids| ==> ids[k] !in old(table) && ids[k] in table && table[ids[k]] == Bound(s)[k]
      ensures forall j, k :: 0 <= j < k < |ids| ==> ids[j] != ids[k]
      ensures forall i :: i in old(table) ==> i in table && table[i] == old(table)[i]
      ensures forall i :: i in table ==> i in old(table) || i in ids
    {
      executed := executed + [s];
      var rows := Bound(s);
      ids := [];
      for k := 0 to |rows|
        invariant Valid() && sequence >= old(sequence) && executed == old(executed) + [s]
        invariant |ids| == k
        invariant forall j :: 0 <= j < k ==> old(sequence) <= ids[j] < sequence && ids[j] in table && table[ids[j]] == rows[j]
        invariant forall j, m :: 0 <= j < m < k ==> ids[j] != ids[m]
        invariant forall i :: i in old(table) ==> i in table && table[i] == old(table)[i]
        invariant forall i :: i in table ==> i in old(table) || i in ids
      {
        table := table[sequence := rows[k]];
        ids := ids + [sequence];
        sequence := sequence + 1;
      }
    }

    method ExecuteUpdate(s: Statement)
      requires Valid() && !s.Insert?
      modifies this
      ensures Valid() && executed == old(executed) + [s] && table == Effect(old(table), s)
    {
      executed := executed + [s];
      EffectKeeps(table, s);
      table := Effect(table, s);
    }
  }

  lemma {:induction false} UpdatedKeeps(t: Table, rows: seq<Row>)
    ensures UpdatedAll(t, rows).Keys == t.Keys
  {
    if rows != [] {
      UpdatedKeeps(t, rows[..|rows| - 1]);
    }
  }

  lemma EffectKeeps(t: Table, s: Statement)
    requires !s.Insert?
    ensures Effect(t, s).Keys == t.Keys
  {
    match s
    case UpdateValues(width, rows, params) => UpdatedKeeps(t, Unflatten(params, width, rows));
    case UpdateUniform(repeats, params, ids) => UpdatedKeeps(t, WithValues(ids, RunsOf(params, repeats)));
  }

  // ----- one statement per batch ------------------------------------------------------------------------------

  datatype Shape = Inserting | Updating

  function StatementOf(shape: Shape, batch: seq<Row>, width: nat): Statement
  {
    match shape
    case Inserting => Insert(width, |batch|, if Flatten(batch) == [] then None else Some(Flatten(batch)))
    case Updating => UpdateValues(width, |batch|, Flatten(batch))
  }

  /** Whether the kernel refuses the statement for so many rows, at this batch of the call. */
  type Refuses = (nat, nat) -> bool

  function BatchEnd(start: nat, total: nat, size: nat): nat
  {
    if start + size < total then start + size else total
  }

  function Planned(shape: Shape, refuses: Refuses, rows: seq<Row>, width: nat, size: nat, start: nat): Option<seq<Statement>>
    requires size >= 1 && start <= |rows|
    decreases |rows| - start
  {
    if start == |rows| then Some([])
    else
      var end := BatchEnd(start, |rows|, size);
      if refuses(start, end - start) then None
      else
        match Planned(shape, refuses, rows, width, size, end)
        case None => None
        case Some(rest) => Some([StatementOf(shape, rows[start..end], width)] + rest)
  }

  predicate AnyRefused(refuses: Refuses, total: nat, size: nat, start: nat)
    requires size >= 1 && start <= total
    decreases total - start
  {
    start < total &&
    (refuses(start, BatchEnd(start, total, size) - start) || AnyRefused(refuses, total, size, BatchEnd(start, total, size)))
  }

  lemma {:induction false} PlannedUnlessRefused(shape: Shape, refuses: Refuses, rows: seq<Row>, width: nat, size: nat, start: nat)
    requires size >= 1 && start <= |rows|
    ensures Planned(shape, refuses, rows, width, size, start).None? <==> AnyRefused(refuses, |rows|, size, start)
    decreases |rows| - start
  {
    if start < |rows| {
      PlannedUnlessRefused(shape, refuses, rows, width, size, BatchEnd(start, |rows|, size));
    }
  }

  // ----- the batches ----------------------------------------------------------------------------------------------

  /** Batch `k` starts at row `k * size` and takes `size` rows, or those that are left. */
  function BatchRows(total: nat, size: nat, k: nat): nat
    requires k * size < total
  {
    if total - k * size < size then total - k * size else size
  }

  ghost predicate RefusedAt(refuses: Refuses, total: nat, size: nat, k: nat)
  {
    k * size < total && refuses(k * size, BatchRows(total, size, k))
  }

  lemma LaterBatch(size: nat, j: nat, k: nat)
    requires j <= k
    ensures (j + 1) * size == j * size + size && j * size <= k * size
  {
    if j < k {
      LaterBatch(size, j, k - 1);
      assert k * size == (k - 1) * size + size;
    }
  }

  /** Some batch is refused exactly when the kernel refuses one of these. */
  lemma {:induction false} AnyRefusedIff(refuses: Refuses, total: nat, size: nat, j: nat)
    requires size >= 1 && j * size <= total
    ensures AnyRefused(refuses, total, size, j * size) <==> exists k :: j <= k && RefusedAt(refuses, total, size, k)
    decreases total - j * size
  {
    var start := j * size;
    LaterBatch(size, j, j);
    if start + size < total {
      AnyRefusedIff(refuses, total, size, j + 1);
      assert BatchEnd(start, total, size) == (j + 1) * size;
      assert AnyRefused(refuses, total, size, start) <==>
             RefusedAt(refuses, total, size, j) || AnyRefused(refuses, total, size, (j + 1) * size);
      forall k | j <= k && RefusedAt(refuses, total, size, k)
        ensures RefusedAt(refuses, total, size, j) || AnyRefused(refuses, total, size, (j + 1) * size)
      {
        if k != j {
          assert j + 1 <= k && RefusedAt(refuses, total, size, k);
        }
      }
    } else {
      LastRefused(refuses, total, size, j);
    }
  }

  lemma LastRefused(refuses: Refuses, total: nat, size: nat, j: nat)
    requires size >= 1 && j * size <= total <= j * size + size
    ensures AnyRefused(refuses, total, size, j * size) <==> exists k :: j <= k && RefusedAt(refuses, total, size, k)
  {
    forall k | j < k
      ensures !RefusedAt(refuses, total, size, k)
    {
      LaterBatch(size, j + 1, k);
      LaterBatch(size, j, k);
    }
    assert AnyRefused(refuses, total, size, j * size) <==> RefusedAt(refuses, total, size, j);
  }

  /** The statement binds exactly the rows of batch `k`. */
  ghost predicate BatchAt(shape: Shape, rows: seq<Row>, width: nat, size: nat, k: nat, statement: Statement)
  {
    && k * size < |rows|
    && statement == StatementOf(shape, rows[k * size..k * size + BatchRows(|rows|, size, k)], width)
  }

  /** One statement for each batch: none is longer than `size`, and together they take every row once. */
  lemma {:induction false} PlannedBatches(shape: Shape, refuses: Refuses, rows: seq<Row>, width: nat, size: nat, j: nat, statements: seq<Statement>)
    requires size >= 1 && j * size <= |rows|
    requires Planned(shape, refuses, rows, width, size, j * size) == Some(statements)
    ensures forall k :: 0 <= k < |statements| ==> BatchAt(shape, rows, width, size, j + k, statements[k])
    ensures |rows| <= (j + |statements|) * size
    decreases |statements|
  {
    if statements != [] {
      var rest := statements[1..];
      if (j + 1) * size <= |rows| {
        PlannedBatches(shape, refuses, rows, width, size, j + 1, rest);
        assert j + 1 + |rest| == j + |statements|;
        forall k | 0 < k < |statements|
          ensures BatchAt(shape, rows, width, size, j + k, statements[k])
        {
          assert BatchAt(shape, rows, width, size, j + 1 + (k - 1), rest[k - 1]);
        }
      }
    }
  }

  lemma PlanIsBatches(shape: Shape, refuses: Refuses, rows: seq<Row>, width: nat, size: nat)
    requires size >= 1
    ensures var statements := Planned(shape, refuses, rows, width, size, 0);
            && (statements.None? <==> exists k :: RefusedAt(refuses, |rows|, size, k))
            && (statements.Some? ==>
                  && |rows| <= |statements.value| * size
                  && forall k :: 0 <= k < |statements.value| ==> BatchAt(shape, rows, width, size, k, statements.value[k]))
  {
    var statements := Planned(shape, refuses, rows, width, size, 0);
    assert 0 * size == 0;
    AnyRefusedIff(refuses, |rows|, size, 0);
    PlannedUnlessRefused(shape, refuses, rows, width, size, 0);
    if statements.Some? {
      PlannedBatches(shape, refuses, rows, width, size, 0, statements.value);
      forall k | 0 <= k < |statements.value|
        ensures BatchAt(shape, rows, width, size, k, statements.value[k])
      {
        assert BatchAt(shape, rows, width, size, 0 + k, statements.value[k]);
      }
    }
  }

  function Prefixed(statements: seq<Statement>, rest: Option<seq<Statement>>): Option<seq<Statement>>
  {
    if rest.None? then None else Some(statements + rest.value)
  }

  /** The loop over the batches: nothing is executed yet, so a refusal leaves no trace. */
  method PlanStatements(shape: Shape, refuses: Refuses, rows: seq<Row>, width: nat, size: nat)
    returns (statements: Option<seq<Statement>>)
    requires size >= 1
    ensures statements == Planned(shape, refuses, rows, width, size, 0)
    ensures statements.None? <==> exists k :: RefusedAt(refuses, |rows|, size, k)
    ensures statements.Some? ==>
              && |rows| <= |statements.value| * size
              && forall k :: 0 <= k < |statements.value| ==> BatchAt(shape, rows, width, size, k, statements.value[k])
  {
    var planned: seq<Statement> := [];
    var start := 0;
    ghost var goal := Planned(shape, refuses, rows, width, size, 0);
    assert goal.Some? ==> [] + goal.value == goal.value;
    while start < |rows|
      invariant start <= |rows|
      invariant goal == Prefixed(planned, Planned(shape, refuses, rows, width, size, start))
      decreases |rows| - start
    {
      var end := BatchEnd(start, |rows|, size);
      if refuses(start, end - start) {
        PlanIsBatches(shape, refuses, rows, width, size);
        return None;
      }
      var statement := StatementOf(shape, rows[start..end], width);
      ghost var rest := Planned(shape, refuses, rows, width, size, end);
      assert rest.Some? ==> planned + ([statement] + rest.value) == (planned + [statement]) + rest.value;
      planned := planned + [statement];
      start := end;
    }
    assert planned + [] == planned;
    statements := Some(planned);
    PlanIsBatches(shape, refuses, rows, width, size);
  }

  /** An insert binds exactly the rows of its batch. */
  lemma InsertBinds(batch: seq<Row>, width: nat)
    requires OfWidth(batch, width)
    ensures Bound(StatementOf(Inserting, batch, width)) == batch
  {
    FlattenUndone(batch, width);
    if Flatten(batch) == [] {
      forall i | 0 <= i < |batch|
        ensures batch[i] == []
      {
        FlattenEmpty(batch, i);
      }
    }
  }

  lemma {:induction false} FlattenEmpty(rows: seq<Row>, i: nat)
    requires Flatten(rows) == [] && i < |rows|
    ensures rows[i] == []
  {
    assert |Flatten(rows)| == |rows[0]| + |Flatten(rows[1..])|;
    if i > 0 {
      FlattenEmpty(rows[1..], i - 1);
    }
  }

  // ----- creating -------------------------------------------------------------------------------------------------

  /** Every row is a record of its own, at the position of its id; nothing else was touched. */
  ghost predicate Paired(before: Table, after: Table, rows: seq<Row>, ids: seq<int>)
  {
    && |ids| == |rows|
    && (forall k :: 0 <= k < |ids| ==> ids[k] !in before && ids[k] in after && after[ids[k]] == rows[k])
    && (forall j, k :: 0 <= j < k < |ids| ==> ids[j] != ids[k])
    && (forall i :: i in before ==> i in after && after[i] == before[i])
    && (forall i :: i in after ==> i in before || i in ids)
  }

  lemma PlannedFirst(shape: Shape, refuses: Refuses, rows: seq<Row>, width: nat, size: nat, start: nat, statements: seq<Statement>)
    requires size >= 1 && start <= |rows| && statements != []
    requires Planned(shape, refuses, rows, width, size, start) == Some(statements)
    ensures var end := BatchEnd(start, |rows|, size);
            && start < end <= |rows|
            && statements[0] == StatementOf(shape, rows[start..end], width)
            && Planned(shape, refuses, rows, width, size, end) == Some(statements[1..])
  {
  }

  /** One batch more: its rows get the ids that follow. */
  method InsertBatch(cr: Cursor, statement: Statement, ghost t: Table, ghost rows: seq<Row>, ghost width: nat,
                     ghost start: nat, ghost end: nat, ids: seq<int>)
    returns (more: seq<int>)
    requires cr.Valid() && OfWidth(rows, width) && start <= end <= |rows|
    requires statement == StatementOf(Inserting, rows[start..end], width)
    requires Paired(t, cr.table, rows[..start], ids)
    modifies cr
    ensures cr.Valid() && cr.executed == old(cr.executed) + [statement]
    ensures Paired(t, cr.table, rows[..end], more)
  {
    ghost var before, batch := cr.table, rows[start..end];
    InsertBinds(batch, width);
    var fetched := cr.ExecuteInsert(statement);
    assert rows[..start] + batch == rows[..end];
    more := ids + fetched;
  }

  method ExecuteInserts(cr: Cursor, statements: seq<Statement>, ghost refuses: Refuses, ghost rows: seq<Row>,
                        ghost width: nat, ghost size: nat)
    returns (ids: seq<int>)
    requires cr.Valid() && size >= 1 && OfWidth(rows, width)
    requires Planned(Inserting, refuses, rows, width, size, 0) == Some(statements)
    modifies cr
    ensures cr.Valid() && cr.executed == old(cr.executed) + statements
    ensures Paired(old(cr.table), cr.table, rows, ids)
  {
    ids := [];
    ghost var start: nat := 0;
    for k := 0 to |statements|
      invariant cr.Valid() && start <= |rows|
      invariant Planned(Inserting, refuses, rows, width, size, start) == Some(statements[k..])
      invariant cr.executed == old(cr.executed) + statements[..k]
      invariant Paired(old(cr.table), cr.table, rows[..start], ids)
    {
      ghost var end := BatchEnd(start, |rows|, size);
      PlannedFirst(Inserting, refuses, rows, width, size, start, statements[k..]);
      assert statements[k..][1..] == statements[k + 1..];
      ids := InsertBatch(cr, statements[k], old(cr.table), rows, width, start, end, ids);
      assert statements[..k] + [statements[k]] == statements[..k + 1];
      start := end;
    }
    assert statements[..|statements|] == statements;
    assert statements[|statements|..] == [];
    assert start == |rows| && rows[..start] == rows;
  }

  /** What decides whether the port may answer natively at all. */
  datatype Context = Context(armed: bool, kernel: bool, moved: bool, copyDisabled: bool, copyThreshold: nat,
                             inPipeline: bool, columns: nat)

  predicate LeftToCopy(c: Context, total: nat)
  {
    !c.copyDisabled && c.columns > 0 && total >= c.copyThreshold && !c.inPipeline
  }

  predicate AllPlain(rows: seq<Row>)
  {
    forall i, j :: 0 <= i < |rows| && 0 <= j < |rows[i]| ==> rows[i][j].Plain?
  }

  /** The rows to bind: the converted values, or nothing at all for a model without columns. */
  function Rows(c: Context, prepared: seq<Row>): seq<Row>
  {
    if c.columns > 0 then prepared else seq(|prepared|, i => [])
  }

  predicate CreatesNatively(c: Context, prepared: seq<Row>, refuses: Refuses, size: nat)
    requires size >= 1
  {
    && !LeftToCopy(c, |prepared|) && c.kernel && !c.moved
    && AllPlain(Rows(c, prepared))
    && !AnyRefused(refuses, |prepared|, size, 0)
  }

  method CheckPlain(rows: seq<Row>) returns (plain: bool)
    ensures plain == AllPlain(rows)
  {
    for i := 0 to |rows|
      invariant forall k, j :: 0 <= k < i && 0 <= j < |rows[k]| ==> rows[k][j].Plain?
    {
      for j := 0 to |rows[i]|
        invariant forall m :: 0 <= m < j ==> rows[i][m].Plain?
      {
        if !rows[i][j].Plain? {
          return false;
        }
      }
    }
    plain := true;
  }

  method CreateRowsNative(c: Context, cr: Cursor, prepared: seq<Row>, refuses: Refuses, size: nat)
    returns (ids: Option<seq<int>>)
    requires cr.Valid() && size >= 1 && OfWidth(prepared, c.columns)
    modifies cr
    ensures cr.Valid()
    ensures ids.Some? <==> CreatesNatively(c, prepared, refuses, size)
    ensures ids.Some? <==>
              && (c.copyDisabled || c.columns == 0 || |prepared| < c.copyThreshold || c.inPipeline)
              && c.kernel && !c.moved
              && (c.columns > 0 ==> forall i, j :: 0 <= i < |prepared| && 0 <= j < |prepared[i]| ==> prepared[i][j].Plain?)
              && forall k :: !RefusedAt(refuses, |prepared|, size, k)
    ensures ids.None? ==> cr.executed == old(cr.executed) && cr.table == old(cr.table)
    ensures ids.Some? ==> Paired(old(cr.table), cr.table, Rows(c, prepared), ids.value)
    ensures ids.Some? ==> Planned(Inserting, refuses, Rows(c, prepared), c.columns, size, 0).Some?
                          && cr.executed == old(cr.executed) + Planned(Inserting, refuses, Rows(c, prepared), c.columns, size, 0).value
  {
    if LeftToCopy(c, |prepared|) || !c.kernel || c.moved {
      return None;
    }
    var rows := Rows(c, prepared);
    if c.columns > 0 {
      var plain := CheckPlain(rows);
      if !plain {
        return None;
      }
    }
    PlannedUnlessRefused(Inserting, refuses, rows, c.columns, size, 0);
    var statements := PlanStatements(Inserting, refuses, rows, c.columns, size);
    if statements.None? {
      return None;
    }
    var fetched := ExecuteInserts(cr, statements.value, refuses, rows, c.columns, size);
    ids := Some(fetched);
  }

  // ----- updating -----------------------------------------------------------------------------------------------------

  lemma {:induction false} UpdatedThen(t: Table, a: seq<Row>, b: seq<Row>)
    ensures UpdatedAll(UpdatedAll(t, a), b) == UpdatedAll(t, a + b)
  {
    if b == [] {
      assert a + b == a;
    } else {
      var n := |b| - 1;
      UpdatedThen(t, a, b[..n]);
      assert (a + b)[..|a + b| - 1] == a + b[..n];
    }
  }

  lemma BatchExecuted(t: Table, batch: seq<Row>, width: nat)
    requires OfWidth(batch, width)
    ensures Effect(t, StatementOf(Updating, batch, width)) == UpdatedAll(t, batch)
  {
    FlattenUndone(batch, width);
  }

  lemma UpdateStep(t: Table, rows: seq<Row>, width: nat, start: nat, end: nat)
    requires OfWidth(rows, width) && start <= end <= |rows|
    ensures Effect(UpdatedAll(t, rows[..start]), StatementOf(Updating, rows[start..end], width)) == UpdatedAll(t, rows[..end])
  {
    var batch := rows[start..end];
    BatchExecuted(UpdatedAll(t, rows[..start]), batch, width);
    UpdatedThen(t, rows[..start], batch);
    assert rows[..start] + batch == rows[..end];
  }

  method ExecuteUpdates(cr: Cursor, statements: seq<Statement>, ghost refuses: Refuses, ghost rows: seq<Row>,
                        ghost width: nat, ghost size: nat)
    requires cr.Valid() && size >= 1 && OfWidth(rows, width)
    requires Planned(Updating, refuses, rows, width, size, 0) == Some(statements)
    modifies cr
    ensures cr.Valid() && cr.executed == old(cr.executed) + statements
    ensures cr.table == UpdatedAll(old(cr.table), rows)
  {
    ghost var start: nat := 0;
    for k := 0 to |statements|
      invariant cr.Valid() && start <= |rows|
      invariant Planned(Updating, refuses, rows, width, size, start) == Some(statements[k..])
      invariant cr.executed == old(cr.executed) + statements[..k]
      invariant cr.table == UpdatedAll(old(cr.table), rows[..start])
    {
      ghost var end := BatchEnd(start, |rows|, size);
      PlannedFirst(Updating, refuses, rows, width, size, start, statements[k..]);
      assert statements[k..][1..] == statements[k + 1..];
      UpdateStep(old(cr.table), rows, width, start, end);
      cr.ExecuteUpdate(statements[k]);
      assert statements[..k] + [statements[k]] == statements[..k + 1];
      start := end;
    }
    assert statements[..|statements|] == statements;
    assert statements[|statements|..] == [];
    assert start == |rows| && rows[..start] == rows;
  }

  function TargetsOf(rows: seq<Row>): seq<int>
  {
    seq(|rows|, i requires 0 <= i < |rows| => Target(rows[i]))
  }

  /** Odoo found that all rows write the same values. */
  predicate Uniform(rows: seq<Row>, values: seq<Cell>)
  {
    forall i :: 0 <= i < |rows| ==> rows[i] == [Plain(Target(rows[i]))] + values
  }

  predicate UpdatesNatively(c: Context, rows: seq<Row>, uniform: Option<seq<Cell>>, refuses: Refuses, size: nat)
    requires size >= 1
  {
    && c.kernel && !c.moved
    && if uniform.Some? then !refuses(0, |rows|) else !AnyRefused(refuses, |rows|, size, 0)
  }

  /** The parameters of a uniform update: each value as often as the statement repeats it. */
  method UniformParams(values: seq<Cell>, repeats: seq<nat>) returns (params: seq<Cell>)
    requires |values| == |repeats|
    ensures params == Repeated(values, repeats)
  {
    params := [];
    for i := 0 to |values|
      invariant params == Repeated(values[..i], repeats[..i])
    {
      assert values[..i + 1][..i] == values[..i] && repeats[..i + 1][..i] == repeats[..i];
      params := params + Copies(values[i], repeats[i]);
    }
    assert values[..|values|] == values && repeats[..|values|] == repeats;
  }

  /** Native or not, the effect is that of every row written in turn; not at all when any statement is
      refused. */
  method UpdateRowsNative(c: Context, cr: Cursor, rows: seq<Row>, width: nat, uniform: Option<seq<Cell>>,
                          repeats: seq<nat>, refuses: Refuses, size: nat) returns (done: bool)
    requires cr.Valid() && size >= 1 && OfWidth(rows, width)
    requires uniform.Some? ==> Uniform(rows, uniform.value) && |repeats| == |uniform.value|
    requires forall i :: 0 <= i < |repeats| ==> repeats[i] > 0
    modifies cr
    ensures cr.Valid()
    ensures done <==> UpdatesNatively(c, rows, uniform, refuses, size)
    ensures done <==>
              && c.kernel && !c.moved
              && (uniform.Some? ==> !refuses(0, |rows|))
              && (uniform.None? ==> forall k :: !RefusedAt(refuses, |rows|, size, k))
    ensures done && uniform.Some? ==> |cr.executed| == |old(cr.executed)| + 1
    ensures done && uniform.None? ==>
              Some(cr.executed) == Prefixed(old(cr.executed), Planned(Updating, refuses, rows, width, size, 0))
    ensures !done ==> cr.executed == old(cr.executed) && cr.table == old(cr.table)
    ensures done ==> cr.table == UpdatedAll(old(cr.table), rows)
  {
    if !c.kernel || c.moved {
      return false;
    }
    if uniform.Some? {
      if refuses(0, |rows|) {
        return false;
      }
      var params := UniformParams(uniform.value, repeats);
      RunsUndo(uniform.value, repeats);
      assert WithValues(TargetsOf(rows), uniform.value) == rows;
      cr.ExecuteUpdate(UpdateUniform(repeats, params, TargetsOf(rows)));
      return true;
    }
    PlannedUnlessRefused(Updating, refuses, rows, width, size, 0);
    var statements := PlanStatements(Updating, refuses, rows, width, size);
    if statements.None? {
      return false;
    }
    ExecuteUpdates(cr, statements.value, refuses, rows, width, size);
    done := true;
  }

  // ----- the port ---------------------------------------------------------------------------------------------------

  /** The Python backend behind the port. */
  class Delegate {
    var created: seq<seq<Row>>
    var updated: seq<seq<Row>>

    constructor ()
      ensures created == [] && updated == []
    {
      created, updated := [], [];
    }

    method CreateRows(stored: seq<Row>, answer: seq<int>) returns (ids: seq<int>)
      modifies this
      ensures created == old(created) + [stored] && updated == old(updated) && ids == answer
    {
      created := created + [stored];
      ids := answer;
    }

    method UpdateRows(rows: seq<Row>)
      modifies this
      ensures updated == old(updated) + [rows] && created == old(created)
    {
      updated := updated + [rows];
    }
  }

  class RustBackend {
    const delegate: Delegate
    var native: nat
    var delegated: nat

    constructor (delegate: Delegate)
      ensures this.delegate == delegate && native == 0 && delegated == 0
    {
      this.delegate := delegate;
      native, delegated := 0, 0;
    }

    /** All or nothing: either every row is created natively, each under the id at its position, and the
        delegate is not asked; or no native statement was executed and the delegate receives all rows
        exactly once.  Every call is counted on one side. */
    method CreateRows(c: Context, cr: Cursor, prepared: seq<Row>, refuses: Refuses, size: nat, answer: seq<int>)
      returns (ids: seq<int>)
      requires cr.Valid() && size >= 1 && OfWidth(prepared, c.columns)
      modifies this, cr, delegate
      ensures cr.Valid() && native + delegated == old(native) + old(delegated) + 1
      ensures delegate.updated == old(delegate.updated)
      ensures c.armed && CreatesNatively(c, prepared, refuses, size) ==>
                && native == old(native) + 1
                && delegate.created == old(delegate.created)
                && Paired(old(cr.table), cr.table, Rows(c, prepared), ids)
      ensures !(c.armed && CreatesNatively(c, prepared, refuses, size)) ==>
                && native == old(native)
                && cr.executed == old(cr.executed) && cr.table == old(cr.table)
                && delegate.created == old(delegate.created) + [prepared] && ids == answer
    {
      var own: Option<seq<int>> := None;
      if c.armed {
        own := CreateRowsNative(c, cr, prepared, refuses, size);
        if own.Some? {
          native := native + 1;
        }
      }
      if own.Some? {
        return own.value;
      }
      delegated := delegated + 1;
      ids := delegate.CreateRows(prepared, answer);
    }

    method UpdateRows(c: Context, cr: Cursor, rows: seq<Row>, width: nat, uniform: Option<seq<Cell>>,
                      repeats: seq<nat>, refuses: Refuses, size: nat)
      requires cr.Valid() && size >= 1 && OfWidth(rows, width)
      requires uniform.Some? ==> Uniform(rows, uniform.value) && |repeats| == |uniform.value|
      requires forall i :: 0 <= i < |repeats| ==> repeats[i] > 0
      modifies this, cr, delegate
      ensures cr.Valid() && native + delegated == old(native) + old(delegated) + 1
      ensures delegate.created == old(delegate.created)
      ensures c.armed && UpdatesNatively(c, rows, uniform, refuses, size) ==>
                && native == old(native) + 1
                && delegate.updated == old(delegate.updated)
                && cr.table == UpdatedAll(old(cr.table), rows)
      ensures !(c.armed && UpdatesNatively(c, rows, uniform, refuses, size)) ==>
                && native == old(native)
                && cr.executed == old(cr.executed) && cr.table == old(cr.table)
                && delegate.updated == old(delegate.updated) + [rows]
    {
      var done := false;
      if c.armed {
        done := UpdateRowsNative(c, cr, rows, width, uniform, repeats, refuses, size);
      }
      if done {
        native := native + 1;
        return;
      }
      delegated := delegated + 1;
      delegate.UpdateRows(rows);
    }
  }
}
