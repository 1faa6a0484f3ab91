/** The whole chain as the application runs it for one choice of key,
    octave and mode: the chromatic row, in the orientation the mode walk's
    in-place reversal leaves it, the pitches of the mode, and the
    "Generate" fill of the grid from them. */
module Pipeline {
  import opened Wrappers
  import opened Sequences
  import opened Pitch
  import opened Chromatic
  import opened Modes
  import opened Scale
  import opened Grid
  import opened Pattern

  /** The key list the application imports: twelve distinct names. */
  predicate ValidKeys(keys: seq<string>)
  {
    |keys| == 12 && Distinct(keys)
  }

  /** The chromatic row after the memo's `reverse()`: what the walk reads,
      and what the grid rows show, after a change of key or octave. */
  function Rows(keys: seq<string>, key: string, octave: nat): (rows: seq<Pitch>)
    ensures |rows| == |keys|
    ensures forall i :: 0 <= i < |keys| ==> rows[i] == Build(keys, key, octave)[|keys| - 1 - i]
  {
    Reverse(Build(keys, key, octave))
  }

  /** The memo reverses the memoised array in place each time it runs. A
      key or octave change builds a fresh array, which the walk then reads
      reversed; each mode change re-runs the walk on the same array and
      flips it again, so after an odd number of mode changes it is in built
      order and after an even number it is reversed. So the walk and
      "Generate" see the built row in one of its two orientations. */
  predicate RowOrder(rows: seq<Pitch>, keys: seq<string>, key: string, octave: nat)
  {
    rows == Build(keys, key, octave) || rows == Rows(keys, key, octave)
  }

  /** Each run of the memo reverses the array it was given, so the two
      orientations alternate: the built row turns into "Rows", and a
      second run turns "Rows" back into the built row. */
  lemma RowOrderAlternates(rows: seq<Pitch>, keys: seq<string>, key: string, octave: nat)
    requires RowOrder(rows, keys, key, octave)
    ensures RowOrder(Reverse(rows), keys, key, octave)
    ensures rows == Build(keys, key, octave) ==> Reverse(rows) == Rows(keys, key, octave)
    ensures rows == Rows(keys, key, octave) ==> Reverse(rows) == Build(keys, key, octave)
  {
    ReverseTwice(Build(keys, key, octave));
  }

  /** A mode found by name has seven "Whole"/"Half" tokens whose offsets
      all lie within a twelve-pitch row. */
  lemma TokensOfName(name: string, tokens: seq<string>)
    requires Lookup(name) == Some(tokens)
    ensures |tokens| == 7
    ensures forall k :: 0 <= k < |tokens| ==> tokens[k] in {Whole, Half}
    ensures forall k :: 0 <= k < |tokens| ==> Offset(tokens, k) <= 11
  {
    var p :| 0 <= p < |Models| && Models[p] == Mode(name, tokens);
    TableShape();
    ModesStayInBounds();
    assert tokens == Models[p].intervals;
  }

  /** For a known key and a mode of the table, the walk over the row in
      either orientation stays inside the twelve rows: it yields seven
      distinct pitches of the row, read at the mode's offsets. */
  lemma ScaleOfMode(keys: seq<string>, key: string, octave: nat, name: string,
                    tokens: seq<string>, rows: seq<Pitch>)
    requires ValidKeys(keys) && key in keys && Lookup(name) == Some(tokens)
    requires RowOrder(rows, keys, key, octave)
    ensures var pool := Walk(rows, tokens);
      && |pool| == 7
      && Distinct(pool)
      && (forall k :: 0 <= k < 7 ==>
            Offset(tokens, k) <= 11 && pool[k] == Some(rows[Offset(tokens, k)]))
      && (forall k :: 0 <= k < 7 ==> pool[k].value in Build(keys, key, octave))
  {
    var row := Build(keys, key, octave);
    TokensOfName(name, tokens);
    BuildPermutesKeys(keys, key, octave);
    ReversePreserves(row);
    assert |rows| == 12 && Distinct(rows) && forall x :: x in rows <==> x in row;
    WalkInBounds(rows, tokens);
    WalkDistinct(rows, tokens);
  }

  /** After a key or octave change, and after any even number of mode
      changes since then, the walk reads the reversed row, so the first
      pitch it records is the last pitch of the built row: the key's
      chromatic predecessor, in the next octave unless the key is the first
      of the list. */
  lemma FirstScalePitch(keys: seq<string>, key: string, octave: nat, tokens: seq<string>)
    requires ValidKeys(keys) && key in keys && 0 < |tokens|
    ensures var start := FindIndex(keys, key);
      Walk(Rows(keys, key, octave), tokens)[0]
        == Some(Pitch(keys[(start + 11) % 12], if start == 0 then octave else octave + 1))
  {
    var row := Build(keys, key, octave);
    assert Offset(tokens, 0) == 0 by {
      assert tokens[..0] == [];
    }
    assert PitchClasses(row)[11] == row[11].pitchClass;
  }

  /** When the row is in built order (an odd number of mode changes since
      the last key or octave change), the first pitch the walk records is
      the key in the selected octave. */
  lemma FirstScalePitchBuilt(keys: seq<string>, key: string, octave: nat, tokens: seq<string>)
    requires key in keys && 0 < |tokens|
    ensures Walk(Build(keys, key, octave), tokens)[0] == Some(Pitch(key, octave))
  {
    BuildStartsAtKey(keys, key, octave);
    assert Offset(tokens, 0) == 0 by {
      assert tokens[..0] == [];
    }
  }

  /** When the key is the first name of the list, the whole row lies in the
      selected octave and the rows are the list read backwards (so with the
      list C, C#, ..., B the rows for "C" and 4 are B4 down to C4, the rows
      the grid starts with). */
  lemma RowsOfFirstKey(keys: seq<string>, octave: nat)
    requires ValidKeys(keys)
    ensures Rows(keys, keys[0], octave) == WithOctave(Reverse(keys), octave)
  {
    FindIndexOfDistinct(keys, 0);
    var row := Build(keys, keys[0], octave);
    var rows := Rows(keys, keys[0], octave);
    forall i | 0 <= i < 12
      ensures rows[i] == Pitch(keys[11 - i], octave)
    {
      assert PitchClasses(row)[11 - i] == keys[11 - i];
    }
  }

  /** For a known key and a mode of the table, "Generate" never throws,
      whatever the random draws and whichever orientation the row has, and
      the music it leaves in step c is the single pitch drawn for column c. */
  lemma GenerateSucceeds(keys: seq<string>, key: string, octave: nat, name: string,
                         tokens: seq<string>, rows: seq<Pitch>, oracle: seq<nat>)
    requires ValidKeys(keys) && key in keys && Lookup(name) == Some(tokens)
    requires RowOrder(rows, keys, key, octave)
    requires ValidOracle(Walk(rows, tokens), oracle)
    ensures var pool := Walk(rows, tokens);
      && Generate(rows, pool, oracle).Success?
      && forall c :: 0 <= c < Columns ==>
           Playlist(Generate(rows, pool, oracle).value)[c] == [pool[oracle[c]].value]
  {
    var pool := Walk(rows, tokens);
    ScaleOfMode(keys, key, octave, name, tokens, rows);
    PlaylistOfGenerate(rows, pool, oracle);
  }
}
