# rechorder: verified model of the fretboard state

rechorder is a web page with a guitar fretboard. The user clicks frets to mark
pressed notes ("dots"). The page names the chord those notes form and, on
"capture", draws a small chord chart. This project models the part of
`src/index.js` that holds real logic:

- the list of held dots and the click update (remove, replace in place, or append);
- the two clear handlers;
- the chord-guess text: detector names with a trailing `M` dropped, folded into
  "This is A or B or C", or one of two fixed messages;
- the chord-shape string built on capture: for strings 6 down to 1, the held
  fret in decimal or `x`, concatenated;
- the octave stripping of note names;
- the hover preview, which works on a copy of the list.

Modules:

- `Dots` (`dots.dfy`) holds the `Dot` record, the click update `Clicked`, and the
  `ScanDots` loop that mirrors the handler's flag scan. It also holds the
  lemmas about the click: exact removal, in-place replacement, append, the
  one-dot-per-string invariant, at most six dots, and the two-click round trips.
- `ChordText` (`chord_text.dfy`) holds name normalisation and the sentence fold.
  The fold is proved equal to an independent `Join` with `" or "`.
- `ChordShape` (`chord_shape.dfy`) holds the string-to-fret map, decimal
  rendering, and the shape fold. Decimal rendering is proved to round-trip.
  With single-digit frets the shape has six characters that read back to the
  held frets. A two-digit counterexample shows the shape is ambiguous otherwise.
- `Rechorder` (`rechorder.dfy`) holds the page state as the class `Session`.
  It has fields `dots`, `chords` and `chordText`, and one method per handler.
  The detector is a constant function field, so the invariant can say that
  `chords` always belongs to the current dots whenever two or more are held.

The code differs from a plain description of the page in three places. The
model follows the code each time.

- The chord shape has no separator between tokens (`src/index.js:159`), so
  strings 6, 5, 4 at frets 0, 2, 2 give `"022xxx"`, not `"0-2-2-x-x-x"`
  (`ChordShape.ChordStringExample`).
- The held notes are a list, not a fixed table of six slots. The list is in
  the order the strings were first held: a replacement keeps its index, so
  clicks at (1, 0), (2, 0) and (1, 3) leave the list as [(1, 3), (2, 0)].
  The detector gets the notes in list order.
- The click handler removes or replaces the dot at the last index on the
  clicked string. While one dot per string holds, this is the only dot on
  that string. `Dots.Clicked` states the general rule and the lemmas specialise it.

## Model

| member | source | states |
|---|---|---|
| Dots.StripOctave | src/index.js:91-95 | the shown note is the looked-up name minus its last character; an empty name stays empty |
| Dots.StripOctaveOfNoteWithOctave | src/index.js:95 | a name with a one-character octave shows as its pitch class ("E2" as "E") |
| Dots.Clicked | src/index.js:116-122 | the click update: one dot fewer after an exact hit, the same length after a hit on the string, one more on a free string, and no dot other than the old ones and the new one |
| Dots.LastOnString | src/index.js:102-114 | the index the scan leaves in `dotIndex`: a dot on the string with no later one, or -1 when the string is free |
| Dots.ScanDots | src/index.js:98-114 | the loop raises `removeDot` exactly when a dot sits at (string, fret), and `replaceDot` exactly when the string is held; `dotIndex` ends at the last dot on the string |
| Dots.LastOnStringUnique | src/index.js:102-114 | with one dot per string, the scan's `dotIndex` is that string's only dot |
| Dots.ClickRemovesExact | src/index.js:105-117 | clicking a held position removes exactly that dot; the rest keep their order and the length drops by one |
| Dots.ClickReplacesOnString | src/index.js:110-119 | clicking a held string at another fret replaces that dot at the same index; the length and every other dot are unchanged |
| Dots.ClickAppendsOnFreeString | src/index.js:120-121 | clicking a free string appends the new dot after the unchanged old ones |
| Dots.ClickKeepsInvariant | src/index.js:102-122 | a click keeps at most one dot per string, keeps every dot on strings 1 to 6, and adds no hover dot to the list |
| Dots.AtMostSixDots | src/index.js:102-122 | with one dot per string on six strings, at most six dots are held |
| Dots.ClickTwiceRestores | src/index.js:116-121 | from a free string, clicking the same position twice restores the original list |
| Dots.ClickTwiceFreesString | src/index.js:102-122 | clicking a position that is not held twice leaves its string free |
| ChordText.Normalize | src/index.js:43-45 | a name ending in 'M' loses that one character; every other name, the empty one included, is unchanged |
| ChordText.NormalizeDropsOneM | src/index.js:42-45 | normalisation drops exactly one final 'M' ("CMM" becomes "CM") |
| ChordText.Chunk | src/index.js:51 | the piece for a name starts with the name, and is the bare name exactly for the last one |
| ChordText.FoldSentence | src/index.js:50-54 | the reduce only appends to its text, at least one character per remaining name |
| ChordText.Sentence | src/index.js:50-54 | the fold seeded with "This is": just that for no names, and starting with "This is " otherwise |
| ChordText.Join | src/index.js:168 | `Array.prototype.join`: the join starts with the first part and is at least as long as the separators between the parts |
| ChordText.GuessText | src/index.js:38-55 | the guess text: the thinking face below two dots, the "very jazzy" message when the detector returns nothing, and text starting with "This is " otherwise |
| ChordText.NormalizeAll | src/index.js:41-45 | the normalised list has the detector's length and order, name by name |
| ChordText.FoldSentenceIsJoin | src/index.js:50-54 | each step of the reduce adds a space and the next chunk, so the fold equals the names joined with " or " |
| ChordText.SentenceIsJoin | src/index.js:50-54 | the sentence is "This is " followed by the names joined with " or " |
| ChordText.JoinEndsWithLast | src/index.js:51 | the last name closes the sentence, with no trailing "or" |
| ChordText.SentenceEndsWithLast | src/index.js:50-54 | with two or more names the sentence ends with " or " and the last name, and nothing after it |
| ChordText.GuessTextCases | src/index.js:37-59 | below two dots the text is the thinking face; with no names it is the "very jazzy" message; otherwise it is "This is " with the names joined by " or ", ending in the last name |
| ChordText.GuessTextExamples | src/index.js:38-55 | ["CM", "Em"] gives "This is C or Em" and ["G"] gives "This is G" |
| ChordShape.Decimal | src/index.js:157-159 | a fret becomes decimal digits with no leading zero; it is one character exactly when the fret is below 10 |
| ChordShape.DecimalRoundTrip | src/index.js:157-159 | reading the decimal token back gives the fret |
| ChordShape.FretMap | src/index.js:154 | a string has an entry exactly when it holds a dot, and the entry is the fret of the last dot on it |
| ChordShape.Lookup | src/index.js:156 | `Map.get`: a value exactly for a held string, and that value is the map's fret |
| ChordShape.Token | src/index.js:156-157 | a string's token is at least one character and starts with 'x' exactly when the string is free |
| ChordShape.ShapeFold | src/index.js:155-160 | the reduce only appends to its accumulator, at least one character per remaining string |
| ChordShape.ChordString | src/index.js:154-160 | the chord shape of a dot list has at least one character for each of the six strings |
| ChordShape.FretMapSnoc | src/index.js:154 | a dot added at the end sets its own string's entry and leaves the others |
| ChordShape.ShapeFoldIsTokens | src/index.js:155-160 | the reduce appends the tokens of the remaining strings, in order, to its accumulator |
| ChordShape.ShapeFoldOverStrings | src/index.js:155-160 | for any string-to-fret map, the walk emits the tokens of strings 6 to 1 in order with no separator |
| ChordShape.ShapeFoldOfSix | src/index.js:155-160 | over any six strings the reduce yields their six tokens, left to right, with no separator |
| ChordShape.ChordStringTokens | src/index.js:155-160 | the shape is the tokens of strings 6, 5, 4, 3, 2, 1, in that order, with no separator |
| ChordShape.TokensSingleDigit | src/index.js:155-160 | with single-digit frets each string gives one character, which reads back as that string's fret or as free |
| ChordShape.ChordStringSingleDigit | src/index.js:155-160 | with every fret below 10 the shape has length 6 and reads back, string by string, to the held frets |
| ChordShape.ChordStringExample | src/index.js:154-160 | strings 6, 5, 4 at frets 0, 2, 2 give "022xxx" |
| ChordShape.ChordStringAmbiguous | src/index.js:155-160 | two different fret maps give the same shape "112xxxx" once a fret has two digits |
| Rechorder.NotesOf | src/index.js:41 | the detector gets the note of every dot, in list order |
| Rechorder.Session.constructor | src/index.js:33-35 | the page starts with no dots and no chord names |
| Rechorder.Session.UpdateChordGuess | src/index.js:37-60 | with two or more dots the chord names come from the detector's current answer, and otherwise they are kept; the text follows GuessText |
| Rechorder.Session.UpdateDots | src/index.js:98-122 | the scan followed by `splice` or `push` leaves the list equal to the click update of the old list |
| Rechorder.Session.Click | src/index.js:90-126 | the new list is the click update of the old one; the invariant holds and at most six dots are held; the chord names are refreshed at two or more dots and kept below; the text is refreshed |
| Rechorder.Session.ClearFretboard | src/index.js:133-135 | the list becomes empty; the guess text is not refreshed |
| Rechorder.Session.ClearButton | src/index.js:143-147 | the list becomes empty, the text becomes the thinking face, and the chord names are kept |
| Rechorder.Session.Hover | src/index.js:62-78 | the list is not modified; the render list is the list itself when a dot sits at (string, fret), and otherwise the list plus the moving dot |
| Rechorder.Session.Capture | src/index.js:149-173 | nothing when fewer than two dots are held; otherwise the shape of the held dots, captioned with their normalised chord names joined by spaces |

## Left out

- DOM queries, event registration, class toggling, element creation, appending the chart to the page, and `console.log` are not modelled. They are page plumbing. `Capture` returns the chart it would append.
- The `mouseenter` and `mouseleave` handlers only re-render the current list, so they are not modelled.
- Fretboard construction, `render`, `setDots`, `renderChord`, `fretboard.clear()` and `createChordChart` are calls into a rendering library that is not part of this model.
- The note table built with `getScale` is a music-theory library that is not part of this model. The looked-up note name is a parameter (`looked`) of `Click` and `Hover`.
- The table has two octaves per string. A fret past its end would make the handler throw before any change. This is not modelled: `Click` accepts any fret.
- Rechorder.Session.Click, Rechorder.Session.Hover: both require a string number from 1 to 6. For any other string `fretboardNotes[string - 1]` is undefined, and the handler throws a TypeError before changing anything (src/index.js:63, 91). The model does not cover that failure.
- Chord detection is an external library. It is the constant function `Session.detect`, and any function may be supplied.
- The initial text of the chord-guess element comes from the page markup. The constructor sets it to the empty string.
- JavaScript measures string lengths in UTF-16 code units. Here a string is a sequence of Unicode characters. The two differ only for names outside the Basic Multilingual Plane, and chord names are ASCII.
- Rechorder.Session.Hover: its contract does not say in words that `dots` is untouched. The method has no `modifies` clause, so Dafny enforces that instead.
- The stylesheet import and page configuration are not modelled.
