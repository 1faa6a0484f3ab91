/** The `notesOnMode` memo of the application: a cursor walks the chromatic
    row (which the memo reverses in place); for every interval token of the
    chosen mode it records the pitch under the cursor and then moves on by
    the token's step. */
module Scale {
  import opened Wrappers
  import opened Sequences
  import opened Pitch
  import opened Modes

  /** How far one interval token moves the cursor: two places for "Whole",
      one for "Half", and none for any other token. */
  function StepSize(token: string): (n: nat)
    ensures n == 2 <==> token == Whole
    ensures n == 1 <==> token == Half
    ensures n == 0 <==> token !in {Whole, Half}
  {
    if token == Whole then 2 else if token == Half then 1 else 0
  }

  /** The total movement of a run of tokens. */
  function Span(tokens: seq<string>): nat
    decreases |tokens|
  {
    if |tokens| == 0 then 0 else StepSize(tokens[0]) + Span(tokens[1..])
  }

  /** The cursor position when the k-th token is reached: the movement of
      the tokens before it. */
  function Offset(tokens: seq<string>, k: nat): nat
    requires k <= |tokens|
  {
    Span(tokens[..k])
  }

  /** `_notes[index]`: the pitch at a position, or `undefined` past the end. */
  function At(notes: seq<Pitch>, index: nat): (r: Option<Pitch>)
    ensures r.Some? <==> index < |notes|
    ensures r.Some? ==> r.value == notes[index]
  {
    if index < |notes| then Some(notes[index]) else None
  }

  /** The walk from cursor position `index` over the remaining tokens: one
      pitch pushed per token, read where the cursor stands before moving. */
  function WalkFrom(notes: seq<Pitch>, tokens: seq<string>, index: nat): (pushed: seq<Option<Pitch>>)
    ensures |pushed| == |tokens|
    ensures forall k :: 0 <= k < |tokens| ==> pushed[k] == At(notes, index + Offset(tokens, k))
    decreases |tokens|
  {
    if |tokens| == 0 then []
    else
      var rest := WalkFrom(notes, tokens[1..], index + StepSize(tokens[0]));
      OffsetOfTail(tokens);
      [At(notes, index)] + rest
  }

  /** `notesOnMode`: the walk over the whole mode, starting at position 0
      of `notes` (the row in whichever orientation the memo's in-place
      `reverse()` has left it). */
  function Walk(notes: seq<Pitch>, tokens: seq<string>): (pushed: seq<Option<Pitch>>)
    ensures |pushed| == |tokens|
    ensures forall k :: 0 <= k < |tokens| ==> pushed[k] == At(notes, Offset(tokens, k))
  {
    WalkFrom(notes, tokens, 0)
  }

  /** Beyond the first token, offsets are the first step plus the offsets
      of the remaining tokens. */
  lemma OffsetOfTail(tokens: seq<string>)
    requires 0 < |tokens|
    ensures forall k :: 1 <= k <= |tokens| ==>
      Offset(tokens, k) == StepSize(tokens[0]) + Offset(tokens[1..], k - 1)
  {
    forall k | 1 <= k <= |tokens|
      ensures Offset(tokens, k) == StepSize(tokens[0]) + Offset(tokens[1..], k - 1)
    {
      assert tokens[..k][1..] == tokens[1..][..k - 1];
    }
  }

  /** The span of two runs is the sum of their spans. */
  lemma {:induction false} SpanAppend(a: seq<string>, b: seq<string>)
    ensures Span(a + b) == Span(a) + Span(b)
    decreases |a|
  {
    if |a| > 0 {
      assert (a + b)[1..] == a[1..] + b;
      SpanAppend(a[1..], b);
    } else {
      assert a + b == b;
    }
  }

  /** Each token moves the cursor by its own step. */
  lemma OffsetStep(tokens: seq<string>, k: nat)
    requires k < |tokens|
    ensures Offset(tokens, k + 1) == Offset(tokens, k) + StepSize(tokens[k])
  {
    assert tokens[..k + 1] == tokens[..k] + [tokens[k]];
    SpanAppend(tokens[..k], [tokens[k]]);
  }

  /** The cursor never moves back, and moves forward at every "Whole" or
      "Half" token. */
  lemma {:induction false} OffsetMonotone(tokens: seq<string>, i: nat, j: nat)
    requires i <= j <= |tokens|
    ensures Offset(tokens, i) <= Offset(tokens, j)
    ensures i < j && tokens[i] in {Whole, Half} ==> Offset(tokens, i) < Offset(tokens, j)
    decreases j - i
  {
    if i < j {
      OffsetStep(tokens, i);
      OffsetMonotone(tokens, i + 1, j);
    }
  }

  /** The span counts two per "Whole" and one per "Half" token. */
  lemma {:induction false} SpanByCounts(tokens: seq<string>)
    ensures Span(tokens) == 2 * multiset(tokens)[Whole] + multiset(tokens)[Half]
    decreases |tokens|
  {
    if |tokens| > 0 {
      assert tokens == [tokens[0]] + tokens[1..];
      assert multiset(tokens) == multiset{tokens[0]} + multiset(tokens[1..]);
      SpanByCounts(tokens[1..]);
    }
  }

  /** The cumulative offsets of the tokens, one per pushed pitch. */
  function Offsets(tokens: seq<string>): (offsets: seq<nat>)
    ensures |offsets| == |tokens|
    ensures forall k :: 0 <= k < |tokens| ==> offsets[k] == Offset(tokens, k)
  {
    seq(|tokens|, k requires 0 <= k < |tokens| => Offset(tokens, k))
  }

  /** When the cursor is still inside the row at the last token, every pushed
      value is a pitch of the row, read at that token's offset. */
  lemma WalkInBounds(notes: seq<Pitch>, tokens: seq<string>)
    requires 0 < |tokens| && Offset(tokens, |tokens| - 1) < |notes|
    ensures forall k :: 0 <= k < |tokens| ==>
      Offset(tokens, k) < |notes| && Walk(notes, tokens)[k] == Some(notes[Offset(tokens, k)])
    ensures forall k :: 0 <= k < |tokens| ==> Walk(notes, tokens)[k].value in notes
  {
    forall k | 0 <= k < |tokens|
      ensures Offset(tokens, k) < |notes|
    {
      OffsetMonotone(tokens, k, |tokens| - 1);
    }
  }

  /** A walk of "Whole" and "Half" tokens inside a row of distinct pitches
      pushes no pitch twice. */
  lemma WalkDistinct(notes: seq<Pitch>, tokens: seq<string>)
    requires 0 < |tokens| && Offset(tokens, |tokens| - 1) < |notes|
    requires forall k :: 0 <= k < |tokens| ==> tokens[k] in {Whole, Half}
    requires Distinct(notes)
    ensures Distinct(Walk(notes, tokens))
  {
    var pushed := Walk(notes, tokens);
    WalkInBounds(notes, tokens);
    forall i, j | 0 <= i < j < |pushed|
      ensures pushed[i] != pushed[j]
    {
      OffsetMonotone(tokens, i, j);
    }
  }

  /** Ionian's cursor stands at 0, 2, 4, 5, 7, 9, 11 before its pushes. */
  lemma IonianOffsets()
    ensures Offsets(Ionian) == [0, 2, 4, 5, 7, 9, 11]
  {
    var t := Ionian;
    assert t[..0] == [];
    OffsetStep(t, 0);
    OffsetStep(t, 1);
    OffsetStep(t, 2);
    OffsetStep(t, 3);
    OffsetStep(t, 4);
    OffsetStep(t, 5);
  }

  /** Every mode moves the cursor twelve places in all, and its seven pushes
      read positions 0..11, inside a twelve-pitch row. */
  lemma ModesStayInBounds()
    ensures forall p :: 0 <= p < |Models| ==> Span(Models[p].intervals) == 12
    ensures forall p, k :: 0 <= p < |Models| && 0 <= k < |Models[p].intervals| ==>
      Offset(Models[p].intervals, k) <= 11
  {
    TableShape();
    StepCounts();
    forall p | 0 <= p < |Models|
      ensures Span(Models[p].intervals) == 12
      ensures forall k :: 0 <= k < |Models[p].intervals| ==> Offset(Models[p].intervals, k) <= 11
    {
      var t := Models[p].intervals;
      SpanByCounts(t);
      forall k | 0 <= k < |t|
        ensures Offset(t, k) <= 11
      {
        assert t[..|t|] == t;
        OffsetMonotone(t, k, |t|);
      }
    }
  }
}
