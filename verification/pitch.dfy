/** Pitches: the row labels of the sequencer grid. The application writes a
    pitch as a string, a pitch-class name such as "C#" followed by the
    decimal octave number ("C#4"), and compares labels with `===`. The model
    keeps the two parts apart in a datatype; `Render` is the string, and
    `RenderInjective` shows that comparing datatypes is comparing labels. */
module Pitch {

  datatype Pitch = Pitch(pitchClass: string, octave: nat)

  /** The pitch-class names of a sequence of pitches, in order. */
  function PitchClasses(ps: seq<Pitch>): (names: seq<string>)
    ensures |names| == |ps|
    ensures forall i :: 0 <= i < |ps| ==> names[i] == ps[i].pitchClass
  {
    seq(|ps|, i requires 0 <= i < |ps| => ps[i].pitchClass)
  }

  predicate IsDigit(c: char)
  {
    '0' <= c <= '9'
  }

  /** A pitch-class name never contains a digit ("C", "C#", ...). */
  predicate NoDigits(name: string)
  {
    forall i :: 0 <= i < |name| ==> !IsDigit(name[i])
  }

  /** The numeric value of a decimal digit character. */
  function DigitValue(c: char): (d: nat)
    requires IsDigit(c)
    ensures d < 10
  {
    c as int - '0' as int
  }

  /** The decimal digit character of a number below ten. */
  function Digit(d: nat): (c: char)
    requires d < 10
    ensures IsDigit(c) && DigitValue(c) == d
  {
    ('0' as int + d) as char
  }

  /** `String(n)`: the decimal numeral of `n`, no leading zeros. */
  function Decimal(n: nat): (s: string)
    ensures 1 <= |s|
    ensures forall i :: 0 <= i < |s| ==> IsDigit(s[i])
    decreases n
  {
    if n < 10 then [Digit(n)] else Decimal(n / 10) + [Digit(n % 10)]
  }

  /** `parseInt(s)` on a non-empty string of decimal digits (here only ever
      the numeral `Decimal` writes; `parseInt("")` would be NaN, which the
      value 0 for the empty string does not model). */
  function ParseInt(s: string): (n: nat)
    requires forall i :: 0 <= i < |s| ==> IsDigit(s[i])
    decreases |s|
  {
    if |s| == 0 then 0
    else ParseInt(s[..|s| - 1]) * 10 + DigitValue(s[|s| - 1])
  }

  /** Reading back the numeral of an octave gives the octave:
      `parseInt(String(n)) == n`. */
  lemma {:induction false} ParseDecimal(n: nat)
    ensures ParseInt(Decimal(n)) == n
    decreases n
  {
    var s := Decimal(n);
    if n >= 10 {
      ParseDecimal(n / 10);
      assert s[..|s| - 1] == Decimal(n / 10);
    }
  }

  /** The grid label of a pitch: `name + octave`. The label starts with the
      name, and the rest is a numeral that `parseInt` reads back as the
      octave. */
  function Render(p: Pitch): (text: string)
    ensures |p.pitchClass| < |text| && text[..|p.pitchClass|] == p.pitchClass
    ensures var numeral := text[|p.pitchClass|..];
      && (forall i :: 0 <= i < |numeral| ==> IsDigit(numeral[i]))
      && ParseInt(numeral) == p.octave
  {
    var text := p.pitchClass + Decimal(p.octave);
    ParseDecimal(p.octave);
    assert text[|p.pitchClass|..] == Decimal(p.octave);
    text
  }

  /** The labels of a sequence of pitches, as the grid shows them. */
  function Labels(ps: seq<Pitch>): (labels: seq<string>)
    ensures |labels| == |ps|
    ensures forall i :: 0 <= i < |ps| ==> labels[i] == Render(ps[i])
  {
    seq(|ps|, i requires 0 <= i < |ps| => Render(ps[i]))
  }

  /** The length of the longest digit-free prefix: where a label's octave
      numeral starts. */
  function NameLength(text: string): (k: nat)
    ensures k <= |text|
    decreases |text|
  {
    if |text| == 0 || IsDigit(text[0]) then 0 else 1 + NameLength(text[1..])
  }

  /** In a label, the name ends where the octave numeral begins. */
  lemma {:induction false} NameLengthOfLabel(name: string, digits: string)
    requires NoDigits(name)
    requires 1 <= |digits| && IsDigit(digits[0])
    ensures NameLength(name + digits) == |name|
    decreases |name|
  {
    if |name| > 0 {
      assert (name + digits)[1..] == name[1..] + digits;
      NameLengthOfLabel(name[1..], digits);
    }
  }

  /** Two pitches whose names carry no digits have the same label only when
      they are the same pitch. */
  lemma RenderInjective(p: Pitch, q: Pitch)
    requires NoDigits(p.pitchClass) && NoDigits(q.pitchClass)
    requires Render(p) == Render(q)
    ensures p == q
  {
    var s := Render(p);
    NameLengthOfLabel(p.pitchClass, Decimal(p.octave));
    NameLengthOfLabel(q.pitchClass, Decimal(q.octave));
    var a := |p.pitchClass|;
    assert p.pitchClass == s[..a] == q.pitchClass;
    assert Decimal(p.octave) == s[a..] == Decimal(q.octave);
    ParseDecimal(p.octave);
    ParseDecimal(q.octave);
  }
}
