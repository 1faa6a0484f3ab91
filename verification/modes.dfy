/** The table of the seven church modes, each a sequence of interval
    tokens, looked up by name when the user picks a mode. */
module Modes {
  import opened Wrappers
  import opened Sequences

  const Whole: string := "Whole"
  const Half: string := "Half"

  /** One named interval pattern of the table. */
  datatype Mode = Mode(name: string, intervals: seq<string>)

  const Ionian: seq<string> := [Whole, Whole, Half, Whole, Whole, Whole, Half]

  /** The mode table, in the order the mode selector lists it. */
  const Models: seq<Mode> := [
    Mode("Ionian", Ionian),
    Mode("Dorian", [Whole, Half, Whole, Whole, Whole, Half, Whole]),
    Mode("Phrygian", [Half, Whole, Whole, Whole, Half, Whole, Whole]),
    Mode("Lydian", [Whole, Whole, Whole, Half, Whole, Whole, Half]),
    Mode("Mixolydian", [Whole, Whole, Half, Whole, Whole, Half, Whole]),
    Mode("Aeolian", [Whole, Half, Whole, Whole, Half, Whole, Whole]),
    Mode("Locrian", [Half, Whole, Whole, Half, Whole, Whole, Whole])
  ]

  const ModeNames: seq<string> :=
    ["Ionian", "Dorian", "Phrygian", "Lydian", "Mixolydian", "Aeolian", "Locrian"]

  /** The intervals stored under `name` in `table`, or nothing when no entry
      carries that name. */
  function LookupIn(table: seq<Mode>, name: string): (r: Option<seq<string>>)
    ensures r.Some? <==> exists p :: 0 <= p < |table| && table[p].name == name
    ensures r.Some? ==> exists p :: 0 <= p < |table| && table[p] == Mode(name, r.value)
    decreases |table|
  {
    if |table| == 0 then None
    else if table[0].name == name then Some(table[0].intervals)
    else
      var r := LookupIn(table[1..], name);
      assert forall p :: 1 <= p < |table| ==> table[p] == table[1..][p - 1];
      r
  }

  /** `MODELS[mode]`: the intervals of the mode called `name`, or nothing
      for a name that is not one of the seven modes. */
  function Lookup(name: string): (r: Option<seq<string>>)
    ensures r.Some? <==> name in ModeNames
    ensures r.Some? ==> exists p :: 0 <= p < |Models| && Models[p] == Mode(name, r.value)
  {
    assert forall p :: 0 <= p < |Models| ==> Models[p].name == ModeNames[p];
    LookupIn(Models, name)
  }

  /** The table has seven entries, Ionian through Locrian, each of seven
      tokens, and every token is "Whole" or "Half". */
  lemma TableShape()
    ensures |Models| == 7
    ensures forall p :: 0 <= p < |Models| ==> Models[p].name == ModeNames[p]
    ensures forall p :: 0 <= p < |Models| ==> |Models[p].intervals| == 7
    ensures forall p, k :: 0 <= p < |Models| && 0 <= k < |Models[p].intervals| ==>
      Models[p].intervals[k] in {Whole, Half}
  {
  }

  /** The mode at position p of the table is Ionian rotated left by p. */
  lemma ModesAreRotations()
    ensures forall p :: 0 <= p < |Models| ==> Models[p].intervals == Rotate(Ionian, p)
  {
    forall p | 0 <= p < |Models|
      ensures Models[p].intervals == Rotate(Ionian, p)
    {
      var m := Models[p].intervals;
      if p == 0 { assert m == Ionian[0..] + Ionian[..0]; }
      else if p == 1 { assert m == Ionian[1..] + Ionian[..1]; }
      else if p == 2 { assert m == Ionian[2..] + Ionian[..2]; }
      else if p == 3 { assert m == Ionian[3..] + Ionian[..3]; }
      else if p == 4 { assert m == Ionian[4..] + Ionian[..4]; }
      else if p == 5 { assert m == Ionian[5..] + Ionian[..5]; }
      else { assert m == Ionian[6..] + Ionian[..6]; }
    }
  }

  /** Every mode has five "Whole" and two "Half" tokens. */
  lemma {:induction false} StepCounts()
    ensures forall p :: 0 <= p < |Models| ==>
      multiset(Models[p].intervals)[Whole] == 5 && multiset(Models[p].intervals)[Half] == 2
  {
    ModesAreRotations();
    assert multiset(Ionian)[Whole] == 5 && multiset(Ionian)[Half] == 2;
  }
}
