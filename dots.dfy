/** The list of pressed notes (the `dots` of the fretboard page) and the update
    a click on a fret applies to it. */
module Dots {

  /** One marked position: the string number (1 to 6), the fret, the pitch-class
      name shown inside the dot, and whether it is the hover preview dot. */
  datatype Dot = Dot(stringNumber: int, fret: nat, note: string, moving: bool)

  /** The note a dot shows: the looked-up note name without its last character
      (the octave digit). JavaScript's `substring(0, -1)` clamps, so "" stays "". */
  function StripOctave(looked: string): (r: string)
    ensures r <= looked
    ensures |r| == if |looked| == 0 then 0 else |looked| - 1
  {
    if |looked| == 0 then "" else looked[..|looked| - 1]
  }

  /** Stripping undoes appending a one-character octave: "E2" shows as "E". */
  lemma StripOctaveOfNoteWithOctave(pitchClass: string, octave: char)
    ensures StripOctave(pitchClass + [octave]) == pitchClass
  {
    assert (pitchClass + [octave])[..|pitchClass|] == pitchClass;
  }

  /** Some dot sits exactly at (s, f): the condition that sets `removeDot`. */
  predicate HasExact(dots: seq<Dot>, s: int, f: int)
  {
    exists i :: 0 <= i < |dots| && dots[i].stringNumber == s && dots[i].fret == f
  }

  /** Some dot sits on string s: the condition that sets `replaceDot`. */
  predicate HasString(dots: seq<Dot>, s: int)
  {
    exists i :: 0 <= i < |dots| && dots[i].stringNumber == s
  }

  /** The index of the last dot on string s, or -1 when there is none: the
      `dotIndex` the scan ends with, since every dot on s overwrites it. */
  function LastOnString(dots: seq<Dot>, s: int): (r: int)
    ensures -1 <= r < |dots|
    ensures 0 <= r ==> dots[r].stringNumber == s
    ensures forall j :: r < j < |dots| ==> dots[j].stringNumber != s
  {
    if |dots| == 0 then -1
    else if dots[|dots| - 1].stringNumber == s then |dots| - 1
    else LastOnString(dots[..|dots| - 1], s)
  }

  /** The dot list after a click at (s, f) whose looked-up note shows as `note`:
      remove the dot at `dotIndex` when an exact match exists, otherwise replace the
      dot at `dotIndex` when the string is held, otherwise append the new dot. */
  function Clicked(dots: seq<Dot>, s: int, f: nat, note: string): (r: seq<Dot>)
    ensures HasExact(dots, s, f) ==> |r| == |dots| - 1
    ensures !HasExact(dots, s, f) && HasString(dots, s) ==> |r| == |dots|
    ensures !HasString(dots, s) ==> |r| == |dots| + 1
    ensures forall i :: 0 <= i < |r| ==> r[i] in dots || r[i] == Dot(s, f, note, false)
  {
    var k := LastOnString(dots, s);
    if HasExact(dots, s, f) then dots[..k] + dots[k + 1..]
    else if 0 <= k then dots[k := Dot(s, f, note, false)]
    else dots + [Dot(s, f, note, false)]
  }

  /** At most one dot per string: the invariant the click update keeps. */
  predicate OnePerString(dots: seq<Dot>)
  {
    forall i, j :: 0 <= i < j < |dots| ==> dots[i].stringNumber != dots[j].stringNumber
  }

  /** Every dot lies on one of the six strings of the fretboard. */
  predicate OnFretboard(dots: seq<Dot>)
  {
    forall i :: 0 <= i < |dots| ==> 1 <= dots[i].stringNumber <= 6
  }

  /** The scan of the click handler: one pass over the list that raises
      `removeDot` on an exact match, `replaceDot` on a dot on the same string,
      and leaves `dotIndex` at the last index where either happened. */
  method ScanDots(dots: seq<Dot>, s: int, f: nat) returns (removeDot: bool, replaceDot: bool, dotIndex: int)
    ensures removeDot <==> HasExact(dots, s, f)
    ensures replaceDot <==> HasString(dots, s)
    ensures dotIndex == LastOnString(dots, s)
  {
    removeDot, replaceDot, dotIndex := false, false, -1;
    var i := 0;
    while i < |dots|
      invariant 0 <= i <= |dots|
      invariant removeDot <==> HasExact(dots[..i], s, f)
      invariant replaceDot <==> HasString(dots[..i], s)
      invariant dotIndex == LastOnString(dots[..i], s)
    {
      var currentDot := dots[i];
      if currentDot.fret == f && currentDot.stringNumber == s {
        removeDot := true;
        dotIndex := i;
      }
      if currentDot.stringNumber == s {
        replaceDot := true;
        dotIndex := i;
      }
      assert dots[..i + 1][..i] == dots[..i];
      i := i + 1;
    }
    assert dots[..i] == dots;
  }

  /** When string s holds a dot, LastOnString finds it and nothing else. */
  lemma LastOnStringUnique(dots: seq<Dot>, s: int, k: nat)
    requires OnePerString(dots)
    requires k < |dots| && dots[k].stringNumber == s
    ensures LastOnString(dots, s) == k
  {
  }

  /** A click on a held position removes exactly that dot; the other dots keep their order. */
  lemma ClickRemovesExact(dots: seq<Dot>, s: int, f: nat, note: string, k: nat)
    requires OnePerString(dots)
    requires k < |dots| && dots[k].stringNumber == s && dots[k].fret == f
    ensures Clicked(dots, s, f, note) == dots[..k] + dots[k + 1..]
    ensures |Clicked(dots, s, f, note)| == |dots| - 1
  {
    LastOnStringUnique(dots, s, k);
  }

  /** A click on a held string at another fret replaces that dot in place; every other dot is unchanged. */
  lemma ClickReplacesOnString(dots: seq<Dot>, s: int, f: nat, note: string, k: nat)
    requires OnePerString(dots)
    requires k < |dots| && dots[k].stringNumber == s && dots[k].fret != f
    ensures Clicked(dots, s, f, note) == dots[k := Dot(s, f, note, false)]
    ensures |Clicked(dots, s, f, note)| == |dots|
  {
    LastOnStringUnique(dots, s, k);
    assert !HasExact(dots, s, f) by {
      forall i | 0 <= i < |dots| && dots[i].stringNumber == s
        ensures dots[i].fret != f
      {
        LastOnStringUnique(dots, s, i);
      }
    }
  }

  /** A click on an empty string appends the new dot after the unchanged old ones. */
  lemma ClickAppendsOnFreeString(dots: seq<Dot>, s: int, f: nat, note: string)
    requires !HasString(dots, s)
    ensures Clicked(dots, s, f, note) == dots + [Dot(s, f, note, false)]
  {
  }

  /** Removing one element of a list keeps "at most one dot per string". */
  lemma RemovalKeepsOnePerString(dots: seq<Dot>, k: nat)
    requires OnePerString(dots) && k < |dots|
    ensures OnePerString(dots[..k] + dots[k + 1..])
  {
    var r := dots[..k] + dots[k + 1..];
    forall i, j | 0 <= i < j < |r|
      ensures r[i].stringNumber != r[j].stringNumber
    {
      var i' := if i < k then i else i + 1;
      var j' := if j < k then j else j + 1;
      assert r[i] == dots[i'] && r[j] == dots[j'];
    }
  }

  /** No dot of the list is the hover preview. */
  predicate Placed(dots: seq<Dot>)
  {
    forall i :: 0 <= i < |dots| ==> !dots[i].moving
  }

  /** A click keeps "at most one dot per string", keeps every dot on the
      fretboard, and adds no hover dot to the list. */
  lemma {:induction false} ClickKeepsInvariant(dots: seq<Dot>, s: int, f: nat, note: string)
    requires OnePerString(dots) && OnFretboard(dots) && Placed(dots)
    requires 1 <= s <= 6
    ensures OnePerString(Clicked(dots, s, f, note))
    ensures OnFretboard(Clicked(dots, s, f, note))
    ensures Placed(Clicked(dots, s, f, note))
  {
    var k := LastOnString(dots, s);
    var r := Clicked(dots, s, f, note);
    if HasExact(dots, s, f) {
      RemovalKeepsOnePerString(dots, k);
      forall i | 0 <= i < |r| ensures 1 <= r[i].stringNumber <= 6 && !r[i].moving {
        assert r[i] == dots[if i < k then i else i + 1];
      }
    } else if 0 <= k {
      ReplacementKeepsOnePerString(dots, k, Dot(s, f, note, false));
    } else {
      assert r == dots + [Dot(s, f, note, false)];
      forall i, j | 0 <= i < j < |r|
        ensures r[i].stringNumber != r[j].stringNumber
      {
        if j == |dots| {
          assert r[i] == dots[i];
        } else {
          assert r[i] == dots[i] && r[j] == dots[j];
        }
      }
    }
  }

  /** A list of dots on distinct strings, all drawn from `strings`, is no longer than `strings`. */
  lemma {:induction false} DistinctStringsBound(dots: seq<Dot>, strings: set<int>)
    requires OnePerString(dots)
    requires forall i :: 0 <= i < |dots| ==> dots[i].stringNumber in strings
    ensures |dots| <= |strings|
  {
    if |dots| > 0 {
      var last := dots[|dots| - 1];
      var rest := dots[..|dots| - 1];
      assert forall i :: 0 <= i < |rest| ==> rest[i] == dots[i];
      DistinctStringsBound(rest, strings - {last.stringNumber});
    }
  }

  /** With one dot per string and six strings, at most six dots are ever held. */
  lemma AtMostSixDots(dots: seq<Dot>)
    requires OnePerString(dots) && OnFretboard(dots)
    ensures |dots| <= 6
  {
    var strings := {1, 2, 3, 4, 5, 6};
    assert |strings| == 6;
    forall i | 0 <= i < |dots| ensures dots[i].stringNumber in strings {
      var n := dots[i].stringNumber;
      assert n == 1 || n == 2 || n == 3 || n == 4 || n == 5 || n == 6;
    }
    DistinctStringsBound(dots, strings);
  }

  /** Clicking the same position twice, starting from a free string, restores the list. */
  lemma ClickTwiceRestores(dots: seq<Dot>, s: int, f: nat, note: string)
    requires !HasString(dots, s)
    ensures Clicked(Clicked(dots, s, f, note), s, f, note) == dots
  {
    ClickAppendsOnFreeString(dots, s, f, note);
    var once := dots + [Dot(s, f, note, false)];
    assert once[|dots|].stringNumber == s && once[|dots|].fret == f;
    assert LastOnString(once, s) == |dots|;
    assert once[..|dots|] == dots;
  }

  /** Replacing a dot by one on the same string keeps "at most one dot per string". */
  lemma ReplacementKeepsOnePerString(dots: seq<Dot>, k: nat, d: Dot)
    requires OnePerString(dots) && k < |dots| && d.stringNumber == dots[k].stringNumber
    ensures OnePerString(dots[k := d])
  {
    var r := dots[k := d];
    forall i, j | 0 <= i < j < |r|
      ensures r[i].stringNumber != r[j].stringNumber
    {
      assert r[i].stringNumber == dots[i].stringNumber;
      assert r[j].stringNumber == dots[j].stringNumber;
    }
  }

  /** After removing the only dot on string s, no dot is left on s. */
  lemma RemovalFreesString(dots: seq<Dot>, s: int, k: nat)
    requires OnePerString(dots) && k < |dots| && dots[k].stringNumber == s
    ensures !HasString(dots[..k] + dots[k + 1..], s)
  {
    var r := dots[..k] + dots[k + 1..];
    forall i | 0 <= i < |r| ensures r[i].stringNumber != s {
      var i' := if i < k then i else i + 1;
      assert r[i] == dots[i'];
    }
  }

  /** Two clicks at a position that was not held leave its string empty: the
      first click places (or moves) the dot there and the second removes it. */
  lemma ClickTwiceFreesString(dots: seq<Dot>, s: int, f: nat, note: string)
    requires OnePerString(dots)
    requires !HasExact(dots, s, f)
    ensures !HasString(Clicked(Clicked(dots, s, f, note), s, f, note), s)
  {
    if HasString(dots, s) {
      var k :| 0 <= k < |dots| && dots[k].stringNumber == s;
      var d := Dot(s, f, note, false);
      ClickReplacesOnString(dots, s, f, note, k);
      ReplacementKeepsOnePerString(dots, k, d);
      var once := dots[k := d];
      ClickRemovesExact(once, s, f, note, k);
      RemovalFreesString(once, s, k);
    } else {
      ClickTwiceRestores(dots, s, f, note);
    }
  }
}
