/** The chord guess shown under the fretboard: detector names normalised and
    folded into one English sentence. */
module ChordText {

  /** Shown while fewer than two notes are held. */
  const Thinking: string := "\U{1F914}"

  /** Shown when the detector offers no chord name. */
  const Jazzy: string := "This is something very jazzy \U{1F937}\U{200D}\U{2642}\U{FE0F}"

  /** The seed of the sentence fold. */
  const Opening: string := "This is"

  /** A detector name with its major marker: its last character is 'M'. */
  predicate EndsWithM(name: string)
  {
    |name| > 0 && name[|name| - 1] == 'M'
  }

  /** The normalisation "GM" -> "G": one trailing 'M' is dropped, any other
      name (the empty one included) passes through. */
  function Normalize(name: string): (r: string)
    ensures EndsWithM(name) ==> r + "M" == name
    ensures !EndsWithM(name) ==> r == name
  {
    if EndsWithM(name) then name[..|name| - 1] else name
  }

  /** Normalisation drops exactly one 'M': "CMM" becomes "CM", never "C". */
  lemma NormalizeDropsOneM(name: string)
    ensures Normalize(name + "M") == name
  {
    assert EndsWithM(name + "M");
    assert (name + "M")[..|name|] == name;
  }

  /** The detector's list with every name normalised, in the same order. */
  function NormalizeAll(names: seq<string>): (r: seq<string>)
    ensures |r| == |names|
    ensures forall i :: 0 <= i < |names| ==> r[i] == Normalize(names[i])
  {
    seq(|names|, i requires 0 <= i < |names| => Normalize(names[i]))
  }

  /** The piece the fold appends for the name at index i: the name, followed
      by " or" unless it is the last one. */
  function Chunk(names: seq<string>, i: nat): (r: string)
    requires i < |names|
    ensures names[i] <= r
    ensures r == names[i] <==> i == |names| - 1
  {
    if i == |names| - 1 then names[i] else names[i] + " or"
  }

  /** The fold of the sentence from index i on: each step appends a space and the chunk. */
  function FoldSentence(text: string, names: seq<string>, i: nat): (r: string)
    requires i <= |names|
    ensures text <= r
    ensures |r| >= |text| + |names| - i
    decreases |names| - i
  {
    if i == |names| then text else FoldSentence(text + " " + Chunk(names, i), names, i + 1)
  }

  /** The sentence built from a list of (normalised) chord names. */
  function Sentence(names: seq<string>): (r: string)
    ensures Opening <= r
    ensures |names| == 0 ==> r == Opening
    ensures |names| > 0 ==> "This is " <= r
  {
    FoldSentence(Opening, names, 0)
  }

  /** The reference join: the parts in order with `sep` between neighbours
      (also JavaScript's `Array.prototype.join`). */
  function Join(parts: seq<string>, sep: string): (r: string)
    ensures |parts| > 0 ==> parts[0] <= r
    ensures |parts| > 0 ==> |r| >= |sep| * (|parts| - 1)
  {
    if |parts| == 0 then ""
    else if |parts| == 1 then parts[0]
    else parts[0] + sep + Join(parts[1..], sep)
  }

  /** The join ends with the last part and nothing after it. */
  lemma {:induction false} JoinEndsWithLast(parts: seq<string>, sep: string)
    requires |parts| >= 2
    ensures Join(parts, sep) == Join(parts[..|parts| - 1], sep) + sep + parts[|parts| - 1]
  {
    if |parts| > 2 {
      JoinEndsWithLast(parts[1..], sep);
      assert parts[1..][..|parts| - 2] == parts[..|parts| - 1][1..];
    }
  }

  /** The fold from index i appends " " and the join of the rest of the names. */
  lemma {:induction false} FoldSentenceIsJoin(text: string, names: seq<string>, i: nat)
    requires i < |names|
    ensures FoldSentence(text, names, i) == text + " " + Join(names[i..], " or ")
    decreases |names| - i
  {
    if i == |names| - 1 {
      assert FoldSentence(text + " " + names[i], names, i + 1) == text + " " + names[i];
    } else {
      var next := text + " " + (names[i] + " or");
      FoldSentenceIsJoin(next, names, i + 1);
      assert names[i..][1..] == names[i + 1..];
      var rest := Join(names[i + 1..], " or ");
      assert Join(names[i..], " or ") == names[i] + " or " + rest;
      assert next + " " + rest == text + " " + (names[i] + " or " + rest);
    }
  }

  /** The sentence is "This is " followed by the names joined with " or ". */
  lemma SentenceIsJoin(names: seq<string>)
    requires |names| > 0
    ensures Sentence(names) == "This is " + Join(names, " or ")
  {
    FoldSentenceIsJoin(Opening, names, 0);
    assert names[0..] == names;
  }

  /** With two or more names the sentence closes with " or " and the last name. */
  lemma SentenceEndsWithLast(names: seq<string>)
    requires |names| >= 2
    ensures Sentence(names) == "This is " + Join(names[..|names| - 1], " or ") + " or " + names[|names| - 1]
  {
    SentenceIsJoin(names);
    JoinEndsWithLast(names, " or ");
  }

  /** The text of the chord guess for `dotCount` held notes, given the names
      the detector returned for them (ignored below two notes). */
  function GuessText(dotCount: nat, detected: seq<string>): (r: string)
    ensures dotCount < 2 ==> r == Thinking
    ensures dotCount >= 2 && |detected| == 0 ==> r == Jazzy
    ensures dotCount >= 2 && |detected| > 0 ==> "This is " <= r
  {
    if dotCount < 2 then Thinking
    else
      var chords := NormalizeAll(detected);
      if |chords| == 0 then Jazzy else Sentence(chords)
  }

  /** The three outcomes of the chord guess, with no trailing "or". */
  lemma GuessTextCases(dotCount: nat, detected: seq<string>)
    ensures dotCount < 2 ==> GuessText(dotCount, detected) == Thinking
    ensures dotCount >= 2 && |detected| == 0 ==> GuessText(dotCount, detected) == Jazzy
    ensures dotCount >= 2 && |detected| == 1 ==>
      GuessText(dotCount, detected) == "This is " + Normalize(detected[0])
    ensures dotCount >= 2 && |detected| >= 2 ==>
      GuessText(dotCount, detected) ==
        "This is " + Join(NormalizeAll(detected)[..|detected| - 1], " or ") + " or " + Normalize(detected[|detected| - 1])
  {
    if dotCount >= 2 && |detected| > 0 {
      var chords := NormalizeAll(detected);
      if |detected| >= 2 {
        SentenceEndsWithLast(chords);
      } else {
        SentenceIsJoin(chords);
      }
    }
  }

  /** The worked examples: ["CM", "Em"] reads "This is C or Em", ["G"] reads "This is G". */
  lemma GuessTextExamples()
    ensures GuessText(2, ["CM", "Em"]) == "This is C or Em"
    ensures GuessText(3, ["G"]) == "This is G"
  {
    GuessTextCases(2, ["CM", "Em"]);
    GuessTextCases(3, ["G"]);
    assert Normalize("CM") == "C";
    assert NormalizeAll(["CM", "Em"])[..1] == ["C"];
  }
}
