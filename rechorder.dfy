/** The state of the fretboard page: the held dots, the last chord names, the
    chord-guess text, and the handlers that change or read them. */
module Rechorder {
  import opened Dots
  import opened ChordText
  import opened ChordShape

  /** A captured chord chart: the shape passed to the renderer and its caption. */
  datatype Chart = Chart(shape: string, caption: string)

  /** The notes handed to the chord detector: the note of every dot, in list order. */
  function NotesOf(dots: seq<Dot>): (r: seq<string>)
    ensures |r| == |dots|
    ensures forall i :: 0 <= i < |dots| ==> r[i] == dots[i].note
  {
    seq(|dots|, i requires 0 <= i < |dots| => dots[i].note)
  }

  class Session {
    /** The chord detector, an external library: any function from notes to names. */
    const detect: seq<string> -> seq<string>
    /** The held dots, in the order their strings were first held; a replacement keeps its index. */
    var dots: seq<Dot>
    /** The normalised chord names of the last guess taken with two or more dots. */
    var chords: seq<string>
    /** The text of the chord-guess element. */
    var chordText: string

    /** One dot per string, all on the fretboard, none of them the hover dot, and
        whenever two or more are held the chord names are those of the current dots. */
    ghost predicate Valid()
      reads this
    {
      OnePerString(dots) && OnFretboard(dots) && Placed(dots) &&
      (|dots| >= 2 ==> chords == NormalizeAll(detect(NotesOf(dots))))
    }

    constructor (detect: seq<string> -> seq<string>)
      ensures Valid()
      ensures this.detect == detect && dots == [] && chords == [] && chordText == ""
    {
      this.detect := detect;
      dots := [];
      chords := [];
      chordText := "";
    }

    /** Recomputes the guess: with two or more dots the chord names are refreshed
        from the detector; the text follows the rules of GuessText. */
    method UpdateChordGuess()
      modifies this`chords, this`chordText
      ensures chords == if |dots| >= 2 then NormalizeAll(detect(NotesOf(dots))) else old(chords)
      ensures chordText == GuessText(|dots|, detect(NotesOf(dots)))
    {
      var text := Thinking;
      if |dots| >= 2 {
        chords := NormalizeAll(detect(NotesOf(dots)));
        if |chords| == 0 {
          text := Jazzy;
        } else {
          text := Sentence(chords);
        }
      }
      chordText := text;
    }

    /** The list update of a click at (s, f) showing `note`: the scan, then
        removal, in-place replacement or append. */
    method UpdateDots(s: int, f: nat, note: string)
      modifies this`dots
      ensures dots == Clicked(old(dots), s, f, note)
    {
      var dot := Dot(s, f, note, false);
      var removeDot, replaceDot, dotIndex := ScanDots(dots, s, f);
      if removeDot {
        dots := dots[..dotIndex] + dots[dotIndex + 1..];
      } else if replaceDot {
        dots := dots[dotIndex := dot];
      } else {
        dots := dots + [dot];
      }
    }

    /** A click at (s, f) whose looked-up note name is `looked`: the list update,
        then a fresh chord guess. */
    method Click(s: int, f: nat, looked: string)
      requires Valid() && 1 <= s <= 6
      modifies this`dots, this`chords, this`chordText
      ensures Valid()
      ensures dots == Clicked(old(dots), s, f, StripOctave(looked))
      ensures chords == if |dots| >= 2 then NormalizeAll(detect(NotesOf(dots))) else old(chords)
      ensures chordText == GuessText(|dots|, detect(NotesOf(dots)))
      ensures |dots| <= 6
    {
      ClickKeepsInvariant(dots, s, f, StripOctave(looked));
      AtMostSixDots(Clicked(dots, s, f, StripOctave(looked)));
      UpdateDots(s, f, StripOctave(looked));
      UpdateChordGuess();
    }

    /** The "clear-fretboard" action: empties the list; the guess text is left as it was. */
    method ClearFretboard()
      requires Valid()
      modifies this`dots
      ensures Valid()
      ensures dots == []
    {
      dots := [];
    }

    /** The clear button: empties the list and refreshes the guess, which then reads the thinking face. */
    method ClearButton()
      requires Valid()
      modifies this`dots, this`chords, this`chordText
      ensures Valid()
      ensures dots == [] && chordText == Thinking && chords == old(chords)
    {
      dots := [];
      UpdateChordGuess();
    }

    /** The dots drawn while the mouse hovers at (s, f): a copy of the list, with
        the moving dot appended unless a dot already sits exactly there. */
    method Hover(s: int, f: nat, looked: string) returns (render: seq<Dot>)
      requires 1 <= s <= 6
      ensures HasExact(dots, s, f) ==> render == dots
      ensures !HasExact(dots, s, f) ==> render == dots + [Dot(s, f, StripOctave(looked), true)]
    {
      var dot := Dot(s, f, StripOctave(looked), true);
      var dotsToRender := dots;
      if !HasExact(dotsToRender, s, f) {
        dotsToRender := dotsToRender + [dot];
      }
      render := dotsToRender;
    }

    /** The capture button: nothing below two dots; otherwise the chord shape of
        the held dots, captioned with the chord names joined by spaces. */
    method Capture() returns (chart: Option<Chart>)
      requires Valid()
      ensures chart.None? <==> |dots| < 2
      ensures chart.Some? ==>
        chart.value == Chart(ChordString(dots), Join(NormalizeAll(detect(NotesOf(dots))), " "))
    {
      if |dots| < 2 {
        return None;
      }
      var chordString := ChordString(dots);
      chart := Some(Chart(chordString, Join(chords, " ")));
    }
  }
}
