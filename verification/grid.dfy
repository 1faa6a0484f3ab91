/** The sequencer grid: sixteen columns (time steps), each holding one cell
    per row pitch, and the three things the application does with it:
    build a fresh grid, toggle one cell, and read the active notes of each
    column for playback. */
module Grid {
  import opened Pitch

  datatype Cell = Cell(note: Pitch, isActive: bool)

  type Grid = seq<seq<Cell>>

  /** The number of time steps. */
  const Columns: nat := 16

  /** A column that lights exactly the row `row` (none when `row` is outside
      the column) over the row pitches `notes`. */
  predicate LitOnly(column: seq<Cell>, notes: seq<Pitch>, row: int)
  {
    && |column| == |notes|
    && forall j :: 0 <= j < |notes| ==> column[j] == Cell(notes[j], j == row)
  }

  /** `GenerateGrid`: sixteen columns of inactive cells, one per note. */
  function GenerateGrid(notes: seq<Pitch>): (g: Grid)
    ensures |g| == Columns
    ensures forall i :: 0 <= i < |g| ==> LitOnly(g[i], notes, -1)
  {
    seq(Columns, _ => seq(|notes|, j requires 0 <= j < |notes| => Cell(notes[j], false)))
  }

  /** `handleNoteClick(column, row)`: the grid with the one cell at
      (`column`, `row`) flipped, or unchanged when no cell sits there. */
  function Toggle(g: Grid, column: int, row: int): (r: Grid)
    ensures |r| == |g|
    ensures forall i :: 0 <= i < |g| ==> |r[i]| == |g[i]|
    ensures forall i, j :: 0 <= i < |g| && 0 <= j < |g[i]| ==>
      r[i][j].note == g[i][j].note
    ensures forall i, j :: 0 <= i < |g| && 0 <= j < |g[i]| ==>
      (r[i][j].isActive != g[i][j].isActive <==> i == column && j == row)
  {
    seq(|g|, i requires 0 <= i < |g| =>
      seq(|g[i]|, j requires 0 <= j < |g[i]| =>
        if i == column && j == row then Cell(g[i][j].note, !g[i][j].isActive) else g[i][j]))
  }

  /** Clicking the same cell twice restores the grid. */
  lemma ToggleTwice(g: Grid, column: int, row: int)
    ensures Toggle(Toggle(g, column, row), column, row) == g
  {
    var r := Toggle(Toggle(g, column, row), column, row);
    assert forall i :: 0 <= i < |g| ==> r[i] == g[i];
  }

  /** The notes of the active cells of a column, from the first row to the
      last. */
  function ActiveNotes(column: seq<Cell>): (notes: seq<Pitch>)
    ensures |notes| <= |column|
    decreases |column|
  {
    if |column| == 0 then []
    else (if column[0].isActive then [column[0].note] else []) + ActiveNotes(column[1..])
  }

  /** A note is played in a step exactly when some active cell of that
      column carries it. */
  lemma {:induction false} ActiveNotesMembers(column: seq<Cell>, p: Pitch)
    ensures p in ActiveNotes(column) <==>
      exists j :: 0 <= j < |column| && column[j].isActive && column[j].note == p
    decreases |column|
  {
    if |column| > 0 {
      ActiveNotesMembers(column[1..], p);
      if exists j :: 0 <= j < |column| && column[j].isActive && column[j].note == p {
        var j :| 0 <= j < |column| && column[j].isActive && column[j].note == p;
        if j > 0 {
          assert column[1..][j - 1] == column[j];
        }
      }
      if exists j :: 0 <= j < |column[1..]| && column[1..][j].isActive && column[1..][j].note == p {
        var j :| 0 <= j < |column[1..]| && column[1..][j].isActive && column[1..][j].note == p;
        assert column[j + 1] == column[1..][j];
      }
    }
  }

  /** The active notes keep the row order: those of a split column are
      those of its top part followed by those of its bottom part. */
  lemma {:induction false} ActiveNotesAppend(top: seq<Cell>, bottom: seq<Cell>)
    ensures ActiveNotes(top + bottom) == ActiveNotes(top) + ActiveNotes(bottom)
    decreases |top|
  {
    if |top| == 0 {
      assert top + bottom == bottom;
    } else {
      var whole := top + bottom;
      var head := if top[0].isActive then [top[0].note] else [];
      assert whole[0] == top[0];
      assert whole[1..] == top[1..] + bottom;
      assert ActiveNotes(whole) == head + ActiveNotes(whole[1..]);
      assert ActiveNotes(top) == head + ActiveNotes(top[1..]);
      ActiveNotesAppend(top[1..], bottom);
    }
  }

  /** A column lit only at one row plays exactly that row's note; a column
      with no row lit plays nothing. */
  lemma {:induction false} ActiveNotesOfLit(column: seq<Cell>, notes: seq<Pitch>, row: int)
    requires LitOnly(column, notes, row)
    ensures 0 <= row < |notes| ==> ActiveNotes(column) == [notes[row]]
    ensures (row < 0 || |notes| <= row) ==> ActiveNotes(column) == []
    decreases |notes|
  {
    if |notes| > 0 {
      ActiveNotesOfLit(column[1..], notes[1..], row - 1);
    }
  }

  /** The music handed to the player: for every column, the notes of its
      active cells (the extraction at the start of `PlayMusic`). */
  function Playlist(g: Grid): (music: seq<seq<Pitch>>)
    ensures |music| == |g|
    ensures forall i :: 0 <= i < |g| ==> music[i] == ActiveNotes(g[i])
  {
    seq(|g|, i requires 0 <= i < |g| => ActiveNotes(g[i]))
  }

  /** A fresh grid plays nothing in any of its sixteen steps. */
  lemma PlaylistOfFreshGrid(notes: seq<Pitch>)
    ensures Playlist(GenerateGrid(notes)) == seq(Columns, _ => [])
  {
    var g := GenerateGrid(notes);
    forall i | 0 <= i < Columns
      ensures ActiveNotes(g[i]) == []
    {
      ActiveNotesOfLit(g[i], notes, -1);
    }
  }

  /** Toggling an inactive cell adds its note to that step's music, in row
      order, and leaves every other step's music as it was. */
  lemma PlaylistAfterToggleOn(g: Grid, column: int, row: int)
    requires 0 <= column < |g| && 0 <= row < |g[column]| && !g[column][row].isActive
    ensures var before, after := Playlist(g), Playlist(Toggle(g, column, row));
      && |after| == |before|
      && (forall i :: 0 <= i < |g| && i != column ==> after[i] == before[i])
      && after[column] == ActiveNotes(g[column][..row]) + [g[column][row].note]
                            + ActiveNotes(g[column][row + 1..])
  {
    var t := Toggle(g, column, row);
    forall i | 0 <= i < |g| && i != column
      ensures t[i] == g[i]
    {
    }
    var c, d := g[column], t[column];
    assert d == c[..row] + [d[row]] + c[row + 1..];
    assert c == c[..row] + [c[row]] + c[row + 1..];
    ActiveNotesAppend(c[..row] + [d[row]], c[row + 1..]);
    ActiveNotesAppend(c[..row], [d[row]]);
    ActiveNotesAppend(c[..row] + [c[row]], c[row + 1..]);
    ActiveNotesAppend(c[..row], [c[row]]);
    assert ActiveNotes([d[row]]) == [c[row].note] by {
      assert [d[row]][1..] == [];
    }
  }
}
