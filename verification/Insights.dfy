/**
 * The pivot of Logs Insights results (src/logs_insights.cpp): ragged rows of named fields become a
 * table with one column per field name.
 */
module Insights {
  import opened Strings
  import opened TokenSets

  type Field = (Bytes, Bytes)

  type Row = seq<Field>

  // ---------- the columns ----------

  function Names(row: Row): (r: seq<Bytes>)
    ensures |r| == |row| && forall i | 0 <= i < |r| :: r[i] == row[i].0
  {
    seq(|row|, i requires 0 <= i < |row| => row[i].0)
  }

  /** Every field name in reading order, repetitions included. */
  function AllNames(rows: seq<Row>): seq<Bytes> {
    if rows == [] then [] else AllNames(rows[..|rows| - 1]) + Names(rows[|rows| - 1])
  }

  /** The names without the ones seen before. */
  function FirstSeen(names: seq<Bytes>): seq<Bytes> {
    if names == [] then []
    else
      var front, last := names[..|names| - 1], names[|names| - 1];
      FirstSeen(front) + if last in front then [] else [last]
  }

  lemma FirstSeenPush(names: seq<Bytes>, name: Bytes)
    ensures FirstSeen(names + [name]) == FirstSeen(names) + if name in names then [] else [name]
  {
    assert (names + [name])[..|names|] == names;
  }

  /** Where a name first occurs. */
  function FirstIndex(names: seq<Bytes>, name: Bytes): nat
    requires name in names
  {
    if names[0] == name then 0 else 1 + FirstIndex(names[1..], name)
  }

  lemma {:induction false} FirstIndexAppend(a: seq<Bytes>, b: seq<Bytes>, name: Bytes)
    requires name in a || name in b
    ensures FirstIndex(a + b, name) == if name in a then FirstIndex(a, name) else |a| + FirstIndex(b, name)
    ensures name in a ==> FirstIndex(a, name) < |a|
  {
    if a == [] {
      assert a + b == b;
    } else {
      assert (a + b)[1..] == a[1..] + b;
      if a[0] != name {
        FirstIndexAppend(a[1..], b, name);
      }
    }
  }

  /** The columns are distinct, exactly the names present, and ordered by where each is first seen. */
  lemma {:induction false} FirstSeenMeaning(names: seq<Bytes>)
    ensures Distinct(FirstSeen(names))
    ensures forall name :: name in FirstSeen(names) <==> name in names
    ensures forall i, j | 0 <= i < j < |FirstSeen(names)| ::
              FirstIndex(names, FirstSeen(names)[i]) < FirstIndex(names, FirstSeen(names)[j])
  {
    hide FirstIndex;
    if names == [] {
    } else {
      var front, last := names[..|names| - 1], names[|names| - 1];
      FirstSeenMeaning(front);
      assert names == front + [last];
      forall i, j | 0 <= i < j < |FirstSeen(names)|
        ensures FirstIndex(names, FirstSeen(names)[i]) < FirstIndex(names, FirstSeen(names)[j])
      {
        FirstIndexAppend(front, [last], FirstSeen(names)[i]);
        FirstIndexAppend(front, [last], FirstSeen(names)[j]);
      }
    }
  }

  const FALLBACK: Bytes := "@message"

  function Columns(rows: seq<Row>): (r: seq<Bytes>)
    ensures r != []
  {
    var names := FirstSeen(AllNames(rows));
    if names == [] then [FALLBACK] else names
  }

  // ---------- the cells ----------

  /** The position of the last field of a name, or -1. */
  function LastIndex(row: Row, name: Bytes): (i: int)
    ensures -1 <= i < |row|
  {
    if row == [] then -1 else if row[|row| - 1].0 == name then |row| - 1 else LastIndex(row[..|row| - 1], name)
  }

  lemma {:induction false} LastIndexMeaning(row: Row, name: Bytes)
    ensures var i := LastIndex(row, name);
            && (i >= 0 ==> row[i].0 == name)
            && forall j | i < j < |row| :: row[j].0 != name
  {
    if row == [] {
    } else {
      LastIndexMeaning(row[..|row| - 1], name);
    }
  }

  /** The text in a row's cell: the last field of the column's name, NULL exactly when it has none. */
  function CellOf(row: Row, column: Bytes): Option<Bytes> {
    if LastIndex(row, column) < 0 then None else Some(row[LastIndex(row, column)].1)
  }

  lemma CellMeaning(row: Row, column: Bytes)
    ensures CellOf(row, column).None? <==> column !in Names(row)
    ensures forall i | 0 <= i < |row| && row[i].0 == column ::
              (forall j | i < j < |row| :: row[j].0 != column) ==> CellOf(row, column) == Some(row[i].1)
  {
    hide LastIndex;
    LastIndexMeaning(row, column);
    var i := LastIndex(row, column);
    if i >= 0 {
      assert Names(row)[i] == column;
    }
  }

  datatype ColumnId = RowId | Column(index: nat)

  datatype Cell = Number(value: nat) | Text(text: Option<Bytes>)

  function CellFor(rows: seq<Row>, r: nat, id: ColumnId): Cell
    requires r < |rows| && (id.Column? ==> id.index < |Columns(rows)|)
  {
    match id
    case RowId => Number(r)
    case Column(index) => Text(CellOf(rows[r], Columns(rows)[index]))
  }

  predicate IdsOk(rows: seq<Row>, ids: seq<ColumnId>) {
    forall c | 0 <= c < |ids| :: ids[c].Column? ==> ids[c].index < |Columns(rows)|
  }

  function OutputRow(rows: seq<Row>, ids: seq<ColumnId>, r: nat): (cells: seq<Cell>)
    requires r < |rows| && IdsOk(rows, ids)
    ensures |cells| == |ids| && forall c | 0 <= c < |ids| :: cells[c] == CellFor(rows, r, ids[c])
  {
    seq(|ids|, c requires 0 <= c < |ids| => CellFor(rows, r, ids[c]))
  }

  /** What a cell shows: the row's number, or the row's last field of the column's name, or NULL without one. */
  ghost predicate ShowsCell(cell: Cell, rows: seq<Row>, r: nat, id: ColumnId)
    requires r < |rows| && (id.Column? ==> id.index < |Columns(rows)|)
  {
    match id
    case RowId => cell == Number(r)
    case Column(index) =>
      if forall i | 0 <= i < |rows[r]| :: rows[r][i].0 != Columns(rows)[index] then cell == Text(None)
      else exists i | 0 <= i < |rows[r]| ::
             && rows[r][i].0 == Columns(rows)[index] && (forall j | i < j < |rows[r]| :: rows[r][j].0 != Columns(rows)[index])
             && cell == Text(Some(rows[r][i].1))
  }

  lemma CellShown(rows: seq<Row>, r: nat, id: ColumnId)
    requires r < |rows| && (id.Column? ==> id.index < |Columns(rows)|)
    ensures ShowsCell(CellFor(rows, r, id), rows, r, id)
  {
    hide Columns, LastIndex;
    if id.Column? {
      LastIndexMeaning(rows[r], Columns(rows)[id.index]);
      var i := LastIndex(rows[r], Columns(rows)[id.index]);
      if i >= 0 {
        assert rows[r][i].0 == Columns(rows)[id.index];
      }
    }
  }

  /** The table's rows lo up to hi. */
  function OutputRows(rows: seq<Row>, ids: seq<ColumnId>, lo: nat, hi: nat): (output: seq<seq<Cell>>)
    requires lo <= hi <= |rows| && IdsOk(rows, ids)
    ensures |output| == hi - lo && forall k | 0 <= k < |output| :: output[k] == OutputRow(rows, ids, lo + k)
  {
    seq(hi - lo, k requires 0 <= k < hi - lo => OutputRow(rows, ids, lo + k))
  }

  lemma OutputRowsAppend(rows: seq<Row>, ids: seq<ColumnId>, lo: nat, mid: nat, hi: nat)
    requires lo <= mid <= hi <= |rows| && IdsOk(rows, ids)
    ensures OutputRows(rows, ids, lo, mid) + OutputRows(rows, ids, mid, hi) == OutputRows(rows, ids, lo, hi)
  {
    hide Columns, CellFor;
  }

  /** Every cell of a scanned chunk shows its own row and column. */
  lemma ChunkShows(rows: seq<Row>, ids: seq<ColumnId>, lo: nat, hi: nat, k: nat, c: nat)
    requires lo <= hi <= |rows| && IdsOk(rows, ids) && k < hi - lo && c < |ids|
    ensures ShowsCell(OutputRows(rows, ids, lo, hi)[k][c], rows, lo + k, ids[c])
  {
    hide Columns, CellFor, ShowsCell;
    CellShown(rows, lo + k, ids[c]);
  }

  // ---------- deriving the schema and scanning ----------

  const STANDARD_VECTOR_SIZE: nat := 2048

  /** position maps exactly the collected names to where they stand. */
  ghost predicate Positions(position: map<Bytes, nat>, columns: seq<Bytes>) {
    && (forall name :: name in position <==> name in columns)
    && (forall name | name in position :: position[name] < |columns| && columns[position[name]] == name)
  }

  lemma PositionsPush(position: map<Bytes, nat>, columns: seq<Bytes>, name: Bytes)
    requires Positions(position, columns) && name !in position
    ensures Positions(position[name := |columns|], columns + [name])
  {
  }

  lemma PositionsEmpty()
    ensures Positions(map[], [])
  {
  }

  lemma Known(position: map<Bytes, nat>, columns: seq<Bytes>, seen: seq<Bytes>, name: Bytes)
    requires Positions(position, columns) && columns == FirstSeen(seen)
    ensures name in position <==> name in seen
  {
    hide FirstSeen;
    FirstSeenMeaning(seen);
  }

  /** One row's names join the columns collected so far. */
  method CollectNames(row: Row, ghost before: seq<Bytes>, position: map<Bytes, nat>, columns: seq<Bytes>)
    returns (position': map<Bytes, nat>, columns': seq<Bytes>)
    requires Positions(position, columns) && columns == FirstSeen(before)
    ensures Positions(position', columns') && columns' == FirstSeen(before + Names(row))
  {
    hide Positions, FirstSeen;
    position', columns' := position, columns;
    assert before + Names(row[..0]) == before;
    for f := 0 to |row|
      invariant Positions(position', columns') && columns' == FirstSeen(before + Names(row[..f]))
    {
      var seen := before + Names(row[..f]);
      FirstSeenPush(seen, row[f].0);
      assert before + Names(row[..f + 1]) == seen + [row[f].0];
      Known(position', columns', seen, row[f].0);
      if row[f].0 !in position' {
        PositionsPush(position', columns', row[f].0);
        position' := position'[row[f].0 := |columns'|];
        columns' := columns' + [row[f].0];
      } else {
        assert columns' + [] == columns';
      }
    }
    assert row[..|row|] == row;
  }

  /** The field index of every column in one row, later fields overwriting earlier ones. */
  method IndexRow(row: Row, position: map<Bytes, nat>, ghost names: seq<Bytes>, columns: seq<Bytes>) returns (result: seq<int>)
    requires Positions(position, names) && Distinct(names) && |names| <= |columns|
    requires names == columns || (names == [] && row == [])
    ensures |result| == |columns| && forall c | 0 <= c < |columns| :: result[c] == LastIndex(row, columns[c])
  {
    var indices := new int[|columns|](_ => -1);
    for f := 0 to |row|
      invariant forall c | 0 <= c < |columns| :: indices[c] == LastIndex(row[..f], columns[c])
    {
      assert row[..f + 1][..f] == row[..f];
      if row[f].0 in position {
        indices[position[row[f].0]] := f;
      }
    }
    assert row[..|row|] == row;
    result := indices[..];
  }

  lemma NoNames()
    ensures FirstSeen([]) == []
  {
  }

  lemma {:induction false} NameCollected(rows: seq<Row>, r: nat, f: nat)
    requires r < |rows| && f < |rows[r]|
    ensures rows[r][f].0 in AllNames(rows)
  {
    var n := |rows| - 1;
    if r < n {
      NameCollected(rows[..n], r, f);
    } else {
      assert Names(rows[n])[f] == rows[r][f].0;
    }
  }

  lemma {:induction false} RowIsEmpty(rows: seq<Row>, r: nat)
    requires r < |rows| && FirstSeen(AllNames(rows)) == []
    ensures rows[r] == []
  {
    FirstSeenMeaning(AllNames(rows));
    if rows[r] == [] {
    } else {
      NameCollected(rows, r, 0);
    }
  }

  class CloudwatchInsights {
    const rows: seq<Row>
    var columnNames: seq<Bytes>
    var rowFieldIndex: seq<seq<int>>
    var emitted: nat

    constructor (rows: seq<Row>)
      ensures this.rows == rows && columnNames == [] && rowFieldIndex == [] && emitted == 0
    {
      this.rows := rows;
      columnNames, rowFieldIndex, emitted := [], [], 0;
    }

    /** The schema fits the rows, and every index points at its column's last field. */
    predicate Derived()
      reads this
    {
      && columnNames == Columns(rows)
      && |rowFieldIndex| == |rows|
      && (forall r | 0 <= r < |rows| :: |rowFieldIndex[r]| == |columnNames|)
      && (forall r, c | 0 <= r < |rows| && 0 <= c < |columnNames| :: rowFieldIndex[r][c] == LastIndex(rows[r], columnNames[c]))
    }

    method DeriveSchema()
      requires columnNames == [] && rowFieldIndex == []
      modifies this
      ensures Derived() && emitted == old(emitted)
    {
      hide Positions, FirstSeen, LastIndex;
      var position: map<Bytes, nat> := map[];
      PositionsEmpty();
      assert FirstSeen([]) == [] by { NoNames(); }
      for r := 0 to |rows|
        invariant Positions(position, columnNames) && columnNames == FirstSeen(AllNames(rows[..r]))
        invariant rowFieldIndex == [] && emitted == old(emitted)
      {
        position, columnNames := CollectNames(rows[r], AllNames(rows[..r]), position, columnNames);
        assert rows[..r + 1][..r] == rows[..r];
      }
      assert rows[..|rows|] == rows;
      ghost var names := columnNames;
      FirstSeenMeaning(AllNames(rows));
      if columnNames == [] {
        columnNames := [FALLBACK];
      }
      for r := 0 to |rows|
        invariant columnNames == Columns(rows) && emitted == old(emitted)
        invariant |rowFieldIndex| == r
        invariant forall q | 0 <= q < r :: |rowFieldIndex[q]| == |columnNames|
        invariant forall q, c | 0 <= q < r && 0 <= c < |columnNames| :: rowFieldIndex[q][c] == LastIndex(rows[q], columnNames[c])
      {
        if names == [] {
          RowIsEmpty(rows, r);
        }
        var indices := IndexRow(rows[r], position, names, columnNames);
        rowFieldIndex := rowFieldIndex + [indices];
      }
    }

    /** One chunk of at most a vector of rows. */
    method CloudwatchInsightsScan(columnIds: seq<ColumnId>) returns (output: seq<seq<Cell>>)
      requires Derived() && emitted <= |rows| && IdsOk(rows, columnIds)
      modifies this`emitted
      ensures Derived() && old(emitted) <= emitted <= |rows|
      ensures output == OutputRows(rows, columnIds, old(emitted), emitted)
      ensures |output| == if |rows| - old(emitted) < STANDARD_VECTOR_SIZE then |rows| - old(emitted) else STANDARD_VECTOR_SIZE
    {
      hide Columns, LastIndex, CellFor;
      output := [];
      while |output| < STANDARD_VECTOR_SIZE && emitted < |rows|
        invariant old(emitted) <= emitted <= |rows| && |output| <= STANDARD_VECTOR_SIZE
        invariant output == OutputRows(rows, columnIds, old(emitted), emitted)
      {
        var cells := ScanRow(columnIds);
        OutputRowsAppend(rows, columnIds, old(emitted), emitted, emitted + 1);
        assert OutputRows(rows, columnIds, emitted, emitted + 1) == [cells];
        output := output + [cells];
        emitted := emitted + 1;
      }
    }

    method ScanRow(columnIds: seq<ColumnId>) returns (cells: seq<Cell>)
      requires Derived() && emitted < |rows| && IdsOk(rows, columnIds)
      ensures cells == OutputRow(rows, columnIds, emitted)
    {
      hide Columns;
      cells := [];
      for c := 0 to |columnIds|
        invariant |cells| == c && forall k | 0 <= k < c :: cells[k] == CellFor(rows, emitted, columnIds[k])
      {
        match columnIds[c]
        case RowId =>
          cells := cells + [Number(emitted)];
        case Column(index) =>
          var fieldIndex := rowFieldIndex[emitted][index];
          assert fieldIndex == LastIndex(rows[emitted], columnNames[index]);
          cells := cells + [Text(if fieldIndex < 0 then None else Some(rows[emitted][fieldIndex].1))];
      }
    }
  }

  lemma {:induction false} NameFromRow(rows: seq<Row>, name: Bytes)
    requires name in AllNames(rows)
    ensures exists r | 0 <= r < |rows| :: name in Names(rows[r])
  {
    var n := |rows| - 1;
    if name in Names(rows[n]) {
    } else {
      NameFromRow(rows[..n], name);
      var r :| 0 <= r < n && name in Names(rows[..n][r]);
      assert rows[r] == rows[..n][r];
    }
  }

  /** The columns of a result: distinct, in first-seen order, and the names some row has, or the one fallback. */
  lemma ColumnsMeaning(rows: seq<Row>)
    ensures Distinct(Columns(rows))
    ensures (forall r | 0 <= r < |rows| :: rows[r] == []) ==> Columns(rows) == [FALLBACK]
    ensures (exists r | 0 <= r < |rows| :: rows[r] != []) ==>
              forall name :: name in Columns(rows) <==> exists r | 0 <= r < |rows| :: name in Names(rows[r])
  {
    hide FirstSeen;
    FirstSeenMeaning(AllNames(rows));
    forall name | name in AllNames(rows) ensures exists r | 0 <= r < |rows| :: name in Names(rows[r]) {
      NameFromRow(rows, name);
    }
    forall r, f | 0 <= r < |rows| && 0 <= f < |rows[r]| ensures rows[r][f].0 in AllNames(rows) {
      NameCollected(rows, r, f);
    }
    forall r, name | 0 <= r < |rows| && name in Names(rows[r]) ensures name in AllNames(rows) {
      var f :| 0 <= f < |rows[r]| && Names(rows[r])[f] == name;
      NameCollected(rows, r, f);
    }
    if AllNames(rows) != [] {
      assert AllNames(rows)[0] in FirstSeen(AllNames(rows));
    }
    if FirstSeen(AllNames(rows)) != [] {
      assert FirstSeen(AllNames(rows))[0] in AllNames(rows);
    }
    if exists r | 0 <= r < |rows| :: rows[r] != [] {
      var r :| 0 <= r < |rows| && rows[r] != [];
      assert rows[r][0].0 in AllNames(rows);
    }
  }
}
