/** What happens when the same stream or patch is applied to a table twice, as it is when
    the echo of an edit arrives after the edit has been forgotten. */
module RepeatedEdits {
  import opened Options
  import opened ColumnData

  // ── Patches ─────────────────────────────────────────────────────────

  /** The last value a patch gives a row. */
  function LastCell(cells: seq<(nat, Cell)>, row: nat): Option<Cell> {
    if cells == [] then None
    else
      var later := LastCell(cells[1..], row);
      if later.Some? then later else if cells[0].0 == row then Some(cells[0].1) else None
  }

  lemma {:induction false} PatchedCell(column: Column, cells: seq<(nat, Cell)>, row: nat)
    ensures |SetCells(column, cells)| == |column|
    ensures row < |column| ==>
              var last := LastCell(cells, row);
              SetCells(column, cells)[row] == if last.Some? then last.value else column[row]
    decreases |cells|
  {
    if cells != [] {
      var (at, cell) := cells[0];
      PatchedCell(if at < |column| then column[at := cell] else column, cells[1..], row);
    }
  }

  /** A patch names the values it sets, so setting them again changes nothing. */
  lemma PatchTwice(column: Column, cells: seq<(nat, Cell)>)
    ensures SetCells(SetCells(column, cells), cells) == SetCells(column, cells)
  {
    var once := SetCells(column, cells);
    PatchedCell(column, cells, 0);
    PatchedCell(once, cells, 0);
    forall row | 0 <= row < |column|
      ensures SetCells(once, cells)[row] == once[row]
    {
      PatchedCell(column, cells, row);
      PatchedCell(once, cells, row);
    }
  }

  // ── Streams ─────────────────────────────────────────────────────────

  predicate Repeats(column: Column, period: nat) {
    forall i :: 0 <= i < |column| - period ==> column[i] == column[i + period]
  }

  /** The stream has no rows, or fills its rollover with rows that repeat with its length. */
  predicate Settles(column: Column, rows: Column, rollover: Option<nat>) {
    || rows == []
    || (rollover.Some? && rollover.value <= |column| + |rows| && Repeats(Streamed(column, rows, rollover), |rows|))
  }

  lemma StreamTwice(column: Column, rows: Column, rollover: Option<nat>)
    ensures var once := Streamed(column, rows, rollover);
            Streamed(once, rows, rollover) == once <==> Settles(column, rows, rollover)
  {
    var once := Streamed(column, rows, rollover);
    if rows == [] {
      assert once + rows == once;
    } else if rollover.Some? && rollover.value <= |column| + |rows| {
      FullStream(column, rows, rollover.value);
    }
  }

  lemma FullStream(column: Column, rows: Column, n: nat)
    requires rows != [] && n <= |column| + |rows|
    ensures var once := Streamed(column, rows, Some(n));
            Streamed(once, rows, Some(n)) == once <==> Repeats(once, |rows|)
  {
    var once := Streamed(column, rows, Some(n));
    var twice := Streamed(once, rows, Some(n));
    assert |once| == n == |twice|;
    forall i | 0 <= i < n
      ensures twice[i] == if i < n - |rows| then once[i + |rows|] else once[i]
    {
      assert twice[i] == (once + rows)[i + |rows|];
      assert once[i] == (column + rows)[|column| + |rows| - n + i];
    }
  }

  // ── Tables ──────────────────────────────────────────────────────────

  /** Applying the edit to a table that already has it changes nothing: every patch, and a
      stream that settles every column it touches. */
  predicate Harmless(op: Op, table: Table) {
    forall c :: c in Touched(op) ==> HarmlessTo(op, table, c)
  }

  predicate HarmlessTo(op: Op, table: Table, c: string)
    requires c in Touched(op)
  {
    op.Stream? ==> Settles(if c in table then table[c] else [], op.rows[c], op.rollover)
  }

  lemma TwiceIsOnce(op: Op, table: Table)
    ensures ApplyOp(op, ApplyOp(op, table)) == ApplyOp(op, table) <==> Harmless(op, table)
  {
    var once := ApplyOp(op, table);
    var twice := ApplyOp(op, once);
    forall c | c in Touched(op)
      ensures c in once && c in twice && (twice[c] == once[c] <==> HarmlessTo(op, table, c))
    {
      ColumnTwice(op, table, c);
    }
    if Harmless(op, table) {
      assert twice == once;
    } else {
      var c :| c in Touched(op) && !HarmlessTo(op, table, c);
      assert twice[c] != once[c];
    }
  }

  lemma ColumnTwice(op: Op, table: Table, c: string)
    requires c in Touched(op)
    ensures var once := EditColumn(op, c, if c in table then table[c] else []);
            EditColumn(op, c, once) == once <==> HarmlessTo(op, table, c)
  {
    var column := if c in table then table[c] else [];
    match op
    case Stream(rows, rollover) => StreamTwice(column, rows[c], rollover);
    case Patch(cells) => PatchTwice(column, cells[c]);
  }

  /** Without a rollover, exactly the streams without rows are harmless. */
  lemma PlainStreamTwice(rows: map<string, Column>, table: Table)
    ensures var op := Stream(rows, None);
            ApplyOp(op, ApplyOp(op, table)) == ApplyOp(op, table) <==> forall c :: c in rows ==> rows[c] == []
  {
    var op := Stream(rows, None);
    TwiceIsOnce(op, table);
    assert forall c :: c in rows ==> (HarmlessTo(op, table, c) <==> rows[c] == []);
  }

  // ── Any table ───────────────────────────────────────────────────────

  /** The column has what the edit would put there: every cell a patch sets last, or, for a
      stream, a full rollover that repeats on into the rows. */
  predicate IdleOn(op: Op, c: string, column: Column)
    requires c in Touched(op)
  {
    match op
    case Patch(cells) => forall row :: 0 <= row < |column| ==> LastCell(cells[c], row) in {None, Some(column[row])}
    case Stream(rows, rollover) =>
      if rows[c] == [] then rollover.None? || |column| <= rollover.value
      else rollover == Some(|column|) && column == (column + rows[c])[|rows[c]|..]
  }

  predicate Idle(op: Op, table: Table) {
    forall c :: c in Touched(op) ==> c in table && IdleOn(op, c, table[c])
  }

  lemma IdleColumn(op: Op, c: string, column: Column)
    requires c in Touched(op)
    ensures EditColumn(op, c, column) == column <==> IdleOn(op, c, column)
  {
    match op
    case Patch(cells) =>
      PatchedCell(column, cells[c], 0);
      forall row | 0 <= row < |column|
        ensures SetCells(column, cells[c])[row] == column[row] <==> LastCell(cells[c], row) in {None, Some(column[row])}
      {
        PatchedCell(column, cells[c], row);
      }
    case Stream(rows, rollover) =>
      if rows[c] == [] {
        assert column + rows[c] == column;
      }
  }

  /** Exactly when an edit changes nothing. */
  lemma AppliedForNothing(op: Op, table: Table)
    ensures ApplyOp(op, table) == table <==> Idle(op, table)
  {
    var after := ApplyOp(op, table);
    forall c | c in Touched(op) && c in table ensures after[c] == table[c] <==> IdleOn(op, c, table[c]) {
      IdleColumn(op, c, table[c]);
    }
    if Idle(op, table) {
      assert after == table;
    } else {
      var c :| c in Touched(op) && !(c in table && IdleOn(op, c, table[c]));
      assert c in after;
    }
  }
}
