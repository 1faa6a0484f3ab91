/** The "Generate" button (`generateNotesBasedOnMode`): a fresh grid in
    which every one of the sixteen columns lights the row of a pitch drawn
    at random from the mode's pitches. The random draws are supplied as an
    oracle: `oracle[i]` is the index `Math.floor(Math.random() * length)`
    that `sample` computes for column i. */
module Pattern {
  import opened Wrappers
  import opened Sequences
  import opened Pitch
  import opened Grid

  /** The handler stops with a `TypeError` when the drawn value has no row:
      `newGrid[i][-1]` is `undefined`, and setting its `isActive` throws.
      The grid is then never stored. */
  datatype GenerateError = UndefinedCell(column: nat)

  /** One draw per column, each a valid index into the pool. */
  predicate ValidOracle(pool: seq<Option<Pitch>>, oracle: seq<nat>)
  {
    |oracle| == Columns && forall i :: 0 <= i < |oracle| ==> oracle[i] < |pool|
  }

  /** The row the handler lights for a drawn value: `findIndex` of the
      value among the row pitches; `undefined` matches no row. */
  function RowOf(rows: seq<Pitch>, drawn: Option<Pitch>): (k: int)
    ensures -1 <= k < |rows|
    ensures 0 <= k <==> drawn.Some? && drawn.value in rows
    ensures 0 <= k ==> rows[k] == drawn.value
  {
    if drawn.Some? then FindIndex(rows, drawn.value) else -1
  }

  /** The handler finds a row by comparing label strings with `===`; for
      names without digits that finds the same row as comparing pitches. */
  lemma {:induction false} RowByLabel(rows: seq<Pitch>, drawn: Pitch)
    requires NoDigits(drawn.pitchClass)
    requires forall j :: 0 <= j < |rows| ==> NoDigits(rows[j].pitchClass)
    ensures FindIndex(Labels(rows), Render(drawn)) == FindIndex(rows, drawn)
    decreases |rows|
  {
    if |rows| > 0 {
      if Render(rows[0]) == Render(drawn) {
        RenderInjective(rows[0], drawn);
      } else {
        assert Labels(rows)[1..] == Labels(rows[1..]);
        RowByLabel(rows[1..], drawn);
      }
    }
  }

  /** The loop of the handler from column `i` on, over the grid built so
      far: columns before `i` are lit, the others are still fresh. */
  function FillFrom(rows: seq<Pitch>, pool: seq<Option<Pitch>>, oracle: seq<nat>,
                    i: nat, grid: Grid): (r: Result<Grid, GenerateError>)
    requires ValidOracle(pool, oracle) && i <= Columns && |grid| == Columns
    requires forall c :: 0 <= c < Columns ==>
      LitOnly(grid[c], rows, if c < i then RowOf(rows, pool[oracle[c]]) else -1)
    ensures r.Success? <==> forall c :: i <= c < Columns ==> RowOf(rows, pool[oracle[c]]) >= 0
    ensures r.Failure? ==>
      && i <= r.error.column < Columns
      && RowOf(rows, pool[oracle[r.error.column]]) < 0
      && forall c :: i <= c < r.error.column ==> RowOf(rows, pool[oracle[c]]) >= 0
    ensures r.Success? ==> |r.value| == Columns && forall c :: 0 <= c < Columns ==>
      LitOnly(r.value[c], rows, RowOf(rows, pool[oracle[c]]))
    decreases Columns - i
  {
    if i == Columns then Success(grid)
    else
      var k := RowOf(rows, pool[oracle[i]]);
      if k < 0 then Failure(UndefinedCell(i))
      else
        assert LitOnly(grid[i], rows, -1);
        var lit := grid[i][k := Cell(grid[i][k].note, true)];
        assert LitOnly(lit, rows, k);
        var next := grid[i := lit];
        assert forall c :: 0 <= c < Columns ==>
          LitOnly(next[c], rows, if c < i + 1 then RowOf(rows, pool[oracle[c]]) else -1);
        FillFrom(rows, pool, oracle, i + 1, next)
  }

  /** `generateNotesBasedOnMode` over the row pitches `rows`, the mode's
      pitches `pool` and the draws `oracle`. It succeeds exactly when every
      drawn value is a row pitch; it then lights, in every column, the row
      holding the drawn pitch and no other; otherwise it reports the first
      column whose draw has no row. */
  function Generate(rows: seq<Pitch>, pool: seq<Option<Pitch>>, oracle: seq<nat>)
    : (r: Result<Grid, GenerateError>)
    requires ValidOracle(pool, oracle)
    ensures r.Success? <==>
      forall c :: 0 <= c < Columns ==> pool[oracle[c]].Some? && pool[oracle[c]].value in rows
    ensures r.Failure? ==>
      && r.error.column < Columns
      && !(pool[oracle[r.error.column]].Some? && pool[oracle[r.error.column]].value in rows)
      && forall c :: 0 <= c < r.error.column ==>
           pool[oracle[c]].Some? && pool[oracle[c]].value in rows
    ensures r.Success? ==> |r.value| == Columns && forall c :: 0 <= c < Columns ==>
      && LitOnly(r.value[c], rows, FindIndex(rows, pool[oracle[c]].value))
      && rows[FindIndex(rows, pool[oracle[c]].value)] == pool[oracle[c]].value
  {
    FillFrom(rows, pool, oracle, 0, GenerateGrid(rows))
  }

  /** When every draw is a row pitch, "Generate" succeeds and step c of the
      music is exactly the pitch drawn for column c. */
  lemma PlaylistOfGenerate(rows: seq<Pitch>, pool: seq<Option<Pitch>>, oracle: seq<nat>)
    requires ValidOracle(pool, oracle)
    requires forall c :: 0 <= c < Columns ==> pool[oracle[c]].Some? && pool[oracle[c]].value in rows
    ensures Generate(rows, pool, oracle).Success?
    ensures |Playlist(Generate(rows, pool, oracle).value)| == Columns
    ensures forall c :: 0 <= c < Columns ==>
      Playlist(Generate(rows, pool, oracle).value)[c] == [pool[oracle[c]].value]
  {
    var g := Generate(rows, pool, oracle).value;
    forall c | 0 <= c < Columns
      ensures ActiveNotes(g[c]) == [pool[oracle[c]].value]
    {
      ActiveNotesOfLit(g[c], rows, FindIndex(rows, pool[oracle[c]].value));
    }
  }
}
