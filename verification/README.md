# Mode Master: the pitch and scale pipeline, in Dafny

Mode Master is a browser step sequencer. Its grid has one row per pitch and
sixteen columns (time steps). The user picks a key, an octave and a church
mode. This project models the logic that turns those choices into grid
contents:

1. **Chromatic row** (`Chromatic.Build`). The `notes` memo looks up the key
   in the key list. The names from the key to the end of the list get the
   chosen octave. The names before the key get the next octave.
2. **Mode walk** (`Scale.Walk`). The `notesOnMode` memo reverses that row
   in place. It then walks a cursor over it: for each interval token of the mode it
   records the pitch under the cursor, then moves 2 places for `"Whole"`,
   1 for `"Half"` and 0 for any other token.
3. **Grid** (`Grid.GenerateGrid`). Sixteen columns of inactive cells, one
   cell per row pitch.
4. **Grid updates.** A click flips one cell (`Grid.Toggle`). "Generate"
   builds a fresh grid and lights one cell per column, at the row of a pitch
   drawn at random from the mode's pitches (`Pattern.Generate`). Playback
   first lists the active notes of each column (`Grid.Playlist`).
5. **Mode table** (`Modes.Models`). Seven interval patterns, Ionian through
   Locrian, each a rotation of Ionian.

`Pipeline` chains the stages for one choice of key, octave and mode. It
proves that, for a known key and any mode of the table, the walk stays
inside the twelve rows and yields seven distinct row pitches. It also
proves that "Generate" then never fails and that each step of the music is
exactly the drawn pitch. Both results hold for either orientation of the
row (see below).

Modelling choices:

- A pitch is the datatype `Pitch(pitchClass, octave)`. The application's
  label is the string `name + octave`, and it compares labels with `===`.
  `Pitch.RenderInjective` and `Pattern.RowByLabel` show that comparing
  datatypes finds the same rows, provided the names contain no digits.
- The key list `KEYS` is imported by the application but is not part of
  this model. It is a parameter `keys`. The end-to-end lemmas require twelve
  distinct names (`Pipeline.ValidKeys`).
- JavaScript's `undefined` is `Option.None`, as for an array read past its
  end. `Modes.Lookup` gives `None` for a name that is not one of the seven
  modes. A thrown `TypeError` is `Result.Failure`: a `findIndex` miss (-1
  from `Pattern.RowOf`) makes the write to `newGrid[i][-1]` throw, and
  `Pattern.FillFrom` stops there with `UndefinedCell(i)`.
- `Math.random` is replaced by an oracle. `oracle[i]` is the index that
  `sample` computes for column i (`Math.floor(Math.random() * length)`).
  Every such index is below the pool's length (`Pattern.ValidOracle`). That
  needs a non-empty pool: for an empty array `sample` computes index 0 and
  reads `undefined`. A table mode always yields a pool of seven pitches
  (`Pipeline.ScaleOfMode`), so the empty case does not arise.
- Value semantics replace in-place mutation. The memo's `notes.reverse()`
  reverses the memoised array itself, every time the memo runs. The model
  passes the row explicitly, in one of its two orientations
  (`Pipeline.RowOrder`):
  - After a key or octave change, `notes` is a freshly built array. The
    walk reverses it, so the walk reads `Reverse(Build(..))`
    (`Pipeline.Rows`). The grid effect runs after that and shows the same
    reversed rows.
  - Each mode change runs the walk again on the same array and reverses
    it once more. After an odd number of mode changes since the last key
    or octave change, the walk reads `Build(..)` itself and "Generate"
    builds its grid in built order. After an even number it reads
    `Rows(..)` again. The grid effect does not run on a mode change: its
    dependency list is the `notes` array itself, and the previous list it
    is compared with is that same array object.
  - `Pipeline.RowOrderAlternates` shows that each run flips between the
    two orientations.

Behaviour of the code that the model keeps as written:

- **Unknown key.** An unknown key is not rejected. `findIndex` gives -1,
  and `slice(-1)` / `slice(0, -1)` then give the row of the last key in the
  list (`Chromatic.BuildUnknownKey`).
- **Cursor past the end.** A cursor past the end reads `undefined` and
  pushes it (`Scale.At`). Only "Generate" then fails, when such a value is
  drawn (`Pattern.Generate`).
- **First recorded pitch.** Which pitch the walk records first depends on
  the orientation. On the reversed row, which the walk reads after a key or
  octave change and after any even number of mode changes since then, it
  is the key's chromatic predecessor (`Pipeline.FirstScalePitch`). On the
  row in built order, after an odd number of mode changes since the last
  key or octave change, it is the key itself, in the chosen octave
  (`Pipeline.FirstScalePitchBuilt`).
- **Pattern pool.** Every column draws from all of the mode's pitches. The
  code has no pool limited by a note count.

## Model

| member | source | states |
|---|---|---|
| Sequences.FindIndex | src/App.js:76 | `findIndex` gives the first position holding the value, and -1 exactly when the value is absent |
| Sequences.Slice | src/App.js:77-83 | `slice` with in-range bounds is the plain subsequence; a negative start or end counts back from the end |
| Sequences.Reverse | src/App.js:90 | `reverse()` puts the element at position i at position length − 1 − i |
| Sequences.ReverseTwice | src/App.js:88-90 | a second `reverse()` of the same array restores it |
| Sequences.ReversePreserves | src/App.js:90 | reversing the row keeps the same pitches, with the same multiplicities, and keeps them distinct |
| Pitch.ParseDecimal | src/App.js:79 | `parseInt` of an octave's decimal numeral gives the octave back, so `octave + 1` is the next octave |
| Pitch.Render | src/App.js:77-82 | a label `name + octave` starts with the name, and the rest is a numeral that `parseInt` reads back as the octave |
| Pitch.RenderInjective | src/App.js:77-83 | two labels `name + octave` with digit-free names are equal only for the same name and octave |
| Chromatic.Build | src/App.js:75-86 | the row has one pitch per key name; for a known key its names are the key list rotated left to the key; the first (length − start) pitches carry the octave and the rest carry octave + 1 |
| Chromatic.BuildStartsAtKey | src/App.js:76-85 | for a known key the row starts with the key in the chosen octave |
| Chromatic.BuildPermutesKeys | src/App.js:76-85 | the row's names are a permutation of the key list; distinct key names give distinct pitches |
| Chromatic.BuildRotatesBack | src/App.js:76-85 | rotating the row's names back by the key's position restores the key list |
| Chromatic.BuildUnknownKey | src/App.js:76-83 | an unknown key (`findIndex` = -1) produces the same row as the last key of the list |
| Modes.Lookup | src/App.js:92 | `MODELS[mode]` finds intervals exactly for the seven mode names, and they are the table's entry for that name |
| Modes.TableShape | src/static/modes.js:1-9 | the table `Modes.Models` has seven entries, Ionian through Locrian, each of seven tokens, every token "Whole" or "Half" |
| Modes.ModesAreRotations | src/static/modes.js:2-8 | the mode at position p of `Modes.Models` is Ionian rotated left by p |
| Modes.StepCounts | src/static/modes.js:2-8 | every mode has five "Whole" and two "Half" tokens |
| Scale.StepSize | src/App.js:94-98 | a token moves the cursor 2 places exactly when it is "Whole", 1 exactly when it is "Half", and 0 for any other token |
| Scale.At | src/App.js:93 | `_notes[index]` is the pitch at that position when the position is inside the row, and `undefined` exactly when it is past the end |
| Scale.WalkFrom | src/App.js:92-98 | from cursor position i, one value per token is pushed, in token order; the k-th is the row entry at i plus the steps of the earlier tokens, or `undefined` past the end |
| Scale.Walk | src/App.js:88-102 | `notesOnMode` pushes one value per token; the k-th is the row entry at the k-th cumulative offset |
| Scale.OffsetStep | src/App.js:94-98 | each token moves the cursor by 2 for "Whole", 1 for "Half", 0 otherwise |
| Scale.OffsetMonotone | src/App.js:94-98 | the cursor never moves back, and moves strictly forward past each "Whole" or "Half" token |
| Scale.SpanByCounts | src/App.js:94-98 | the total movement is twice the number of "Whole" tokens plus the number of "Half" tokens |
| Scale.WalkInBounds | src/App.js:92-98 | when the last offset is inside the row, every pushed value is a row pitch, read at its offset |
| Scale.WalkDistinct | src/App.js:92-98 | a walk of "Whole"/"Half" tokens inside a row of distinct pitches pushes no pitch twice |
| Scale.IonianOffsets | src/static/modes.js:2 | Ionian's cursor positions before its pushes are 0, 2, 4, 5, 7, 9, 11 |
| Scale.ModesStayInBounds | src/static/modes.js:2-8 | every mode moves twelve places in all, and all seven pre-push positions are at most 11 |
| Grid.GenerateGrid | src/App.js:37-44 | sixteen columns; column i, row j is an inactive cell holding note j |
| Grid.Toggle | src/App.js:111-128 | same dimensions and notes; a cell's flag changes exactly at the clicked column and row (nowhere when no cell is there) |
| Grid.ToggleTwice | src/App.js:111-128 | clicking the same cell twice restores the grid |
| Grid.PlaylistAfterToggleOn | src/App.js:111-157 | switching a cell on inserts its note into that step's music at its row position and changes no other step |
| Grid.Playlist | src/App.js:149-157 | one list per column, each the active notes of that column |
| Grid.ActiveNotes | src/App.js:150-155 | a column's list of active notes is no longer than the column |
| Grid.ActiveNotesMembers | src/App.js:150-155 | a note is in a step's list exactly when an active cell of that column holds it |
| Grid.ActiveNotesAppend | src/App.js:150-155 | the list keeps row order: a split column lists its top part's notes, then its bottom part's |
| Grid.ActiveNotesOfLit | src/App.js:150-155 | a column lit at one row lists just that row's note; a column with nothing lit lists nothing |
| Grid.PlaylistOfFreshGrid | src/App.js:37-44 | a freshly generated grid plays nothing in any of its sixteen steps |
| Pattern.RowOf | src/App.js:190-192 | the row found for a drawn value holds that value; none is found exactly when the value is `undefined` or not a row pitch |
| Pattern.RowByLabel | src/App.js:190-192 | searching rows by label string finds the same row as searching by pitch, for digit-free names |
| Pattern.FillFrom | src/App.js:187-196 | from column i on, the loop lights each column's drawn row, or stops at the first column whose draw has no row |
| Pattern.Generate | src/App.js:180-198 | for draws made by `sample` (src/App.js:14-16: an oracle index below the pool's length in each of the 16 columns, `Pattern.ValidOracle`), succeeds exactly when every draw is a row pitch; then every column lights exactly the row holding its draw; otherwise it names the first failing column |
| Pattern.PlaylistOfGenerate | src/App.js:180-198 | when every draw is a row pitch, "Generate" succeeds and step c of the music is exactly the pitch drawn for column c |
| Pipeline.Rows | src/App.js:88-90 | after a key or octave change the walk reads the built row backwards: entry i is the built row's entry length − 1 − i |
| Pipeline.RowOrderAlternates | src/App.js:88-90 | each run of the memo flips the row between the built order and the reversed order |
| Pipeline.TokensOfName | src/App.js:92 | a mode found by name has seven "Whole"/"Half" tokens whose offsets all lie within twelve rows |
| Pipeline.ScaleOfMode | src/App.js:75-102 | for a known key and a table mode, and either orientation of the row, the walk yields seven distinct pitches of the row, read at offsets ≤ 11 |
| Pipeline.FirstScalePitch | src/App.js:88-93 | after a key or octave change the first recorded pitch is the key's chromatic predecessor, in the next octave unless the key is first in the list |
| Pipeline.FirstScalePitchBuilt | src/App.js:88-93 | when the row is in built order (an odd number of mode changes since the last key or octave change) the first recorded pitch is the key in the chosen octave |
| Pipeline.RowsOfFirstKey | src/App.js:20-35 | for the first key of the list, the rows are the list read backwards in one octave, as the start-up grid rows B4 … C4 are |
| Pipeline.GenerateSucceeds | src/App.js:180-198 | for a known key, a table mode and either orientation of the row, "Generate" succeeds for every draw, and step c of the music is the pitch drawn for column c |

## Left out

- Audio playback is not modelled. This covers the Tone.js transport, the `PolySynth`, and the `Sequence` start/stop/dispose lifecycle. It is an external library with an asynchronous transport. Only the extraction of the music from the grid is modelled.
- React plumbing is not modelled: state hooks, the `useEffect` that rebuilds the grid, JSX rendering and `console.log`. The selector and description components are left out too; they only map options and join strings for display.
- The aliasing effects are replaced by value semantics. The in-place `reverse()` of the memoised array turns the row around again on every re-run of the memo. The toggle's shallow copy mutates the shared cell objects.
- The string/number mix of the octave is not modelled: the octave is a natural number. The select box delivers it as a string, which `note + octave` uses directly and `parseInt` reads back. `Pitch.ParseDecimal` covers the read-back.
- The `"*"` branch of "Generate" is left out because it is dead: no pool holds `"*"`. So is the unused `newNotes` array.
- The distribution of `Math.random` is left out. Only the index that `sample` derives from it is modelled, as the oracle.
- Mode names outside the table are not modelled beyond `Modes.Lookup` giving `None`. In the code, `MODELS[mode]` for such a name is `undefined` or a prototype member such as `MODELS["constructor"]`, and `for…of` over it throws. The path cannot be reached, because the mode selector offers only `Object.keys(MODELS)` (src/App.js:252).
- The grid effect's re-run condition is not modelled. Its dependency list is the elements of the `notes` array, which stay the same object after a mode change. The model only records which orientation the walk and "Generate" read (`Pipeline.RowOrder`).
- The key list `KEYS` is not part of this model. Its contents appear only as the parameter `keys`.
