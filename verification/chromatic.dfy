/** The `notes` memo of the application: the twelve chromatic pitches that
    label the grid rows, starting at the selected key and octave and moving
    into the next octave where the key list wraps around. */
module Chromatic {
  import opened Sequences
  import opened Pitch

  /** Every name of `names` with the same octave suffix. */
  function WithOctave(names: seq<string>, octave: nat): (ps: seq<Pitch>)
    ensures |ps| == |names|
    ensures forall i :: 0 <= i < |names| ==> ps[i] == Pitch(names[i], octave)
  {
    seq(|names|, i requires 0 <= i < |names| => Pitch(names[i], octave))
  }

  /** The chromatic row for `key` in `octave`, built from the key list
      `keys` the way the application builds it: `findIndex` of the key,
      the names from there to the end with `octave`, then the names before
      it with `octave + 1`. A key missing from `keys` is not rejected: the
      -1 from `findIndex` goes into `slice` as it would in the application
      (see `BuildUnknownKey`). */
  function Build(keys: seq<string>, key: string, octave: nat): (row: seq<Pitch>)
    ensures |row| == |keys|
    ensures key in keys ==>
      PitchClasses(row) == Rotate(keys, FindIndex(keys, key))
    ensures key in keys ==> forall i :: 0 <= i < |row| ==>
      row[i].octave == (if i < |keys| - FindIndex(keys, key) then octave else octave + 1)
  {
    var start := FindIndex(keys, key);
    var high := Slice(keys, start, |keys|);
    var low := Slice(keys, 0, start);
    assert |high| + |low| == |keys| by {
      if start < 0 && 0 < |keys| {
        assert high == keys[|keys| - 1..] && low == keys[..|keys| - 1];
      }
    }
    assert key in keys ==> high + low == Rotate(keys, start);
    ClassesWithOctaves(high, octave, low, octave + 1);
    WithOctave(high, octave) + WithOctave(low, octave + 1)
  }

  /** Attaching octaves to two runs of names keeps the names, in order. */
  lemma ClassesWithOctaves(xs: seq<string>, o: nat, ys: seq<string>, o': nat)
    ensures PitchClasses(WithOctave(xs, o) + WithOctave(ys, o')) == xs + ys
  {
    var ps := WithOctave(xs, o) + WithOctave(ys, o');
    assert forall i :: 0 <= i < |ps| ==> PitchClasses(ps)[i] == (xs + ys)[i];
  }

  /** The row starts at the key itself, in the selected octave. */
  lemma BuildStartsAtKey(keys: seq<string>, key: string, octave: nat)
    requires key in keys
    ensures |Build(keys, key, octave)| == |keys|
    ensures Build(keys, key, octave)[0] == Pitch(key, octave)
  {
    var row := Build(keys, key, octave);
    assert PitchClasses(row)[0] == row[0].pitchClass;
  }

  /** The row holds every name of `keys` exactly as often as `keys` does;
      with distinct names it holds no pitch twice. */
  lemma BuildPermutesKeys(keys: seq<string>, key: string, octave: nat)
    requires key in keys
    ensures multiset(PitchClasses(Build(keys, key, octave))) == multiset(keys)
    ensures Distinct(keys) ==> Distinct(Build(keys, key, octave))
  {
    var row := Build(keys, key, octave);
    var start := FindIndex(keys, key);
    if Distinct(keys) {
      RotateDistinct(keys, start);
      forall i, j | 0 <= i < j < |row|
        ensures row[i] != row[j]
      {
        assert PitchClasses(row)[i] != PitchClasses(row)[j];
      }
    }
  }

  /** Rotating the row's names back by the key's position gives `keys`. */
  lemma BuildRotatesBack(keys: seq<string>, key: string, octave: nat)
    requires key in keys
    ensures var start := FindIndex(keys, key);
      Rotate(PitchClasses(Build(keys, key, octave)), |keys| - start) == keys
  {
    var start := FindIndex(keys, key);
    RotateBack(keys, start);
  }

  /** A key that is not in `keys` makes `findIndex` answer -1, and
      `slice(-1)` / `slice(0, -1)` then split off the last name: the row is
      the one of the last key in the list. */
  lemma BuildUnknownKey(keys: seq<string>, key: string, octave: nat)
    requires key !in keys && 0 < |keys| && Distinct(keys)
    ensures Build(keys, key, octave) == Build(keys, keys[|keys| - 1], octave)
  {
    FindIndexOfDistinct(keys, |keys| - 1);
  }
}
