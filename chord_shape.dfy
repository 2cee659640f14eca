/** The chord-shape string handed to the chord-chart renderer on capture: one
    token per string, lowest string first, each the held fret or 'x'. */
module ChordShape {
  import opened Dots

  datatype Option<T> = None | Some(value: T)

  /** The strings the capture walks, from string 6 (lowest) to string 1. */
  const StringNumbers: seq<int> := [6, 5, 4, 3, 2, 1]

  /** The character of a decimal digit. */
  function DigitChar(d: nat): (c: char)
    requires d < 10
    ensures '0' <= c <= '9'
  {
    (48 + d) as char
  }

  /** The value of a decimal digit character (0 for any other character). */
  function DigitValue(c: char): nat
  {
    if '0' <= c <= '9' then c as int - 48 else 0
  }

  /** A non-negative integer as JavaScript writes it into a string: decimal
      digits without leading zeros. */
  function Decimal(n: nat): (r: string)
    ensures 1 <= |r|
    ensures forall i :: 0 <= i < |r| ==> '0' <= r[i] <= '9'
    ensures r[0] == '0' ==> n == 0
    ensures |r| == 1 <==> n < 10
  {
    if n < 10 then [DigitChar(n)] else Decimal(n / 10) + [DigitChar(n % 10)]
  }

  /** The number a string of decimal digits denotes. */
  function DecimalValue(s: string): nat
  {
    if |s| == 0 then 0 else DecimalValue(s[..|s| - 1]) * 10 + DigitValue(s[|s| - 1])
  }

  /** Reading a fret token back gives the fret. */
  lemma {:induction false} DecimalRoundTrip(n: nat)
    ensures DecimalValue(Decimal(n)) == n
  {
    if n >= 10 {
      DecimalRoundTrip(n / 10);
      var r := Decimal(n);
      assert r[..|r| - 1] == Decimal(n / 10);
    }
  }

  /** The `Map` from string number to fret built from the dots in list order,
      so that a later dot on the same string overwrites an earlier one. */
  function FretMap(dots: seq<Dot>): (m: map<int, nat>)
    ensures forall s :: s in m <==> HasString(dots, s)
    ensures forall s :: s in m ==> 0 <= LastOnString(dots, s) && m[s] == dots[LastOnString(dots, s)].fret
  {
    if |dots| == 0 then map[]
    else
      var last := dots[|dots| - 1];
      var rest := dots[..|dots| - 1];
      assert forall i :: 0 <= i < |rest| ==> rest[i] == dots[i];
      FretMap(rest)[last.stringNumber := last.fret]
  }

  /** What `Map.get` returns for a string: the held fret, or nothing. */
  function Lookup(m: map<int, nat>, s: int): (r: Option<nat>)
    ensures r.Some? <==> s in m
    ensures r.Some? ==> r.value == m[s]
  {
    if s in m then Some(m[s]) else None
  }

  /** The token of one string: its fret in decimal, or "x" when it is not held. */
  function Token(m: map<int, nat>, s: int): (r: string)
    ensures 1 <= |r|
    ensures r[0] == 'x' <==> s !in m
  {
    if s in m then Decimal(m[s]) else "x"
  }

  /** The reduce over the string numbers: each step appends the next token,
      with no separator. */
  function ShapeFold(acc: string, m: map<int, nat>, strings: seq<int>): (r: string)
    ensures acc <= r
    ensures |r| >= |acc| + |strings|
    decreases |strings|
  {
    if |strings| == 0 then acc else ShapeFold(acc + Token(m, strings[0]), m, strings[1..])
  }

  /** The chord-shape string of a list of dots. */
  function ChordString(dots: seq<Dot>): (r: string)
    ensures |r| >= 6
  {
    ShapeFold("", FretMap(dots), StringNumbers)
  }

  /** The reference concatenation: the tokens of `strings`, in order. */
  function Tokens(m: map<int, nat>, strings: seq<int>): string
  {
    if |strings| == 0 then "" else Token(m, strings[0]) + Tokens(m, strings[1..])
  }

  /** The fold appends exactly the tokens of the remaining strings to its accumulator. */
  lemma {:induction false} ShapeFoldIsTokens(acc: string, m: map<int, nat>, strings: seq<int>)
    ensures ShapeFold(acc, m, strings) == acc + Tokens(m, strings)
    decreases |strings|
  {
    if |strings| > 0 {
      var t := Token(m, strings[0]);
      ShapeFoldIsTokens(acc + t, m, strings[1..]);
      assert (acc + t) + Tokens(m, strings[1..]) == acc + (t + Tokens(m, strings[1..]));
    } else {
      assert acc + "" == acc;
    }
  }

  /** The walk over strings 6 to 1 emits their six tokens in that order, with nothing between them. */
  lemma ShapeFoldOverStrings(m: map<int, nat>)
    ensures ShapeFold("", m, StringNumbers) ==
      Token(m, 6) + Token(m, 5) + Token(m, 4) + Token(m, 3) + Token(m, 2) + Token(m, 1)
  {
    ShapeFoldOfSix(m, 6, 5, 4, 3, 2, 1);
  }

  /** The fold over any six strings, unrolled one step at a time. */
  lemma ShapeFoldOfSix(m: map<int, nat>, s1: int, s2: int, s3: int, s4: int, s5: int, s6: int)
    ensures ShapeFold("", m, [s1, s2, s3, s4, s5, s6]) ==
      Token(m, s1) + Token(m, s2) + Token(m, s3) + Token(m, s4) + Token(m, s5) + Token(m, s6)
  {
    var a1 := Token(m, s1);
    var a2 := a1 + Token(m, s2);
    var a3 := a2 + Token(m, s3);
    var a4 := a3 + Token(m, s4);
    var a5 := a4 + Token(m, s5);
    var a6 := a5 + Token(m, s6);
    assert ShapeFold("", m, [s1, s2, s3, s4, s5, s6]) == ShapeFold(a1, m, [s2, s3, s4, s5, s6]) by {
      assert "" + a1 == a1;
      assert [s1, s2, s3, s4, s5, s6][1..] == [s2, s3, s4, s5, s6];
    }
    assert ShapeFold(a1, m, [s2, s3, s4, s5, s6]) == ShapeFold(a2, m, [s3, s4, s5, s6]) by {
      assert [s2, s3, s4, s5, s6][1..] == [s3, s4, s5, s6];
    }
    assert ShapeFold(a2, m, [s3, s4, s5, s6]) == ShapeFold(a3, m, [s4, s5, s6]) by {
      assert [s3, s4, s5, s6][1..] == [s4, s5, s6];
    }
    assert ShapeFold(a3, m, [s4, s5, s6]) == ShapeFold(a4, m, [s5, s6]) by {
      assert [s4, s5, s6][1..] == [s5, s6];
    }
    assert ShapeFold(a4, m, [s5, s6]) == ShapeFold(a5, m, [s6]) by {
      assert [s5, s6][1..] == [s6];
    }
    assert ShapeFold(a5, m, [s6]) == a6 by {
      assert [s6][1..] == [];
    }
  }

  /** The shape is the tokens of strings 6, 5, 4, 3, 2 and 1 in that order, with nothing between them. */
  lemma ChordStringTokens(dots: seq<Dot>)
    ensures var m := FretMap(dots);
      ChordString(dots) == Token(m, 6) + Token(m, 5) + Token(m, 4) + Token(m, 3) + Token(m, 2) + Token(m, 1)
  {
    ShapeFoldOverStrings(FretMap(dots));
  }

  /** Reading the shape character by character: 'x' is an empty string, a digit a fret. */
  function ReadToken(c: char): Option<nat>
  {
    if c == 'x' then None else Some(DigitValue(c))
  }

  /** The shape read back one character per string. */
  function ReadShape(shape: string): (r: seq<Option<nat>>)
    ensures |r| == |shape|
    ensures forall k :: 0 <= k < |shape| ==> r[k] == ReadToken(shape[k])
  {
    seq(|shape|, k requires 0 <= k < |shape| => ReadToken(shape[k]))
  }

  /** With single-digit frets every token is one character that reads back as the string's fret. */
  lemma {:induction false} TokensSingleDigit(m: map<int, nat>, strings: seq<int>)
    requires forall s :: s in m ==> m[s] < 10
    ensures |Tokens(m, strings)| == |strings|
    ensures forall k :: 0 <= k < |strings| ==> ReadToken(Tokens(m, strings)[k]) == Lookup(m, strings[k])
    decreases |strings|
  {
    if |strings| > 0 {
      TokensSingleDigit(m, strings[1..]);
      var t := Token(m, strings[0]);
      assert |t| == 1;
      if strings[0] in m {
        DecimalRoundTrip(m[strings[0]]);
        assert DecimalValue(t) == DigitValue(t[0]);
      }
      forall k | 0 <= k < |strings|
        ensures ReadToken(Tokens(m, strings)[k]) == Lookup(m, strings[k])
      {
        if k > 0 {
          assert Tokens(m, strings)[k] == Tokens(m, strings[1..])[k - 1];
        }
      }
    }
  }

  /** With every held fret below 10 the shape has exactly six characters, and
      reading it back gives, string by string from 6 to 1, the fret held there. */
  lemma ChordStringSingleDigit(dots: seq<Dot>)
    requires forall i :: 0 <= i < |dots| ==> dots[i].fret < 10
    ensures |ChordString(dots)| == 6
    ensures ReadShape(ChordString(dots)) ==
      [Lookup(FretMap(dots), 6), Lookup(FretMap(dots), 5), Lookup(FretMap(dots), 4),
       Lookup(FretMap(dots), 3), Lookup(FretMap(dots), 2), Lookup(FretMap(dots), 1)]
  {
    var m := FretMap(dots);
    ShapeFoldIsTokens("", m, StringNumbers);
    TokensSingleDigit(m, StringNumbers);
  }

  /** Adding a dot at the end sets its string's entry and keeps the others. */
  lemma FretMapSnoc(dots: seq<Dot>, d: Dot)
    ensures FretMap(dots + [d]) == FretMap(dots)[d.stringNumber := d.fret]
  {
    assert (dots + [d])[..|dots|] == dots;
  }

  /** The fret map of a list of dots on distinct strings is built entry by entry. */
  lemma FretMapOfThree(d1: Dot, d2: Dot, d3: Dot)
    ensures FretMap([d1, d2, d3]) == map[d1.stringNumber := d1.fret][d2.stringNumber := d2.fret][d3.stringNumber := d3.fret]
  {
    FretMapSnoc([], d1);
    FretMapSnoc([d1], d2);
    FretMapSnoc([d1, d2], d3);
    assert [d1] + [d2] == [d1, d2] && [d1, d2] + [d3] == [d1, d2, d3];
  }

  // The dots are parameters fixed by `requires` rather than literals in the
  // ensures: applied to literal arguments, the verifier unfolds the map and the
  // fold eagerly and runs out of resource.

  /** The open E-minor shape, strings 6, 5 and 4 at frets 0, 2 and 2, reads "022xxx". */
  lemma ChordStringExample(d6: Dot, d5: Dot, d4: Dot)
    requires d6 == Dot(6, 0, "E", false) && d5 == Dot(5, 2, "B", false) && d4 == Dot(4, 2, "E", false)
    ensures ChordString([d6, d5, d4]) == "022xxx"
  {
    FretMapOfThree(d6, d5, d4);
    var m := map[6 := 0, 5 := 2, 4 := 2];
    assert FretMap([d6, d5, d4]) == m;
    ChordStringTokens([d6, d5, d4]);
    assert Token(m, 6) == "0" && Token(m, 5) == "2" && Token(m, 4) == "2";
    assert Token(m, 3) == "x" && Token(m, 2) == "x" && Token(m, 1) == "x";
  }

  /** Both fret maps of the ambiguity example give the tokens "1", "12" and "11", "2", then four "x". */
  lemma AmbiguousTokens(ma: map<int, nat>, mb: map<int, nat>)
    requires ma == map[6 := 1, 5 := 12] && mb == map[6 := 11, 5 := 2]
    ensures Token(ma, 6) + Token(ma, 5) + Token(ma, 4) + Token(ma, 3) + Token(ma, 2) + Token(ma, 1) == "112xxxx"
    ensures Token(mb, 6) + Token(mb, 5) + Token(mb, 4) + Token(mb, 3) + Token(mb, 2) + Token(mb, 1) == "112xxxx"
  {
    assert Decimal(12) == Decimal(1) + "2";
    assert Decimal(11) == Decimal(1) + "1";
    assert Token(ma, 6) == "1" && Token(ma, 5) == "12";
    assert Token(mb, 6) == "11" && Token(mb, 5) == "2";
    assert 4 !in ma && 3 !in ma && 2 !in ma && 1 !in ma;
    assert 4 !in mb && 3 !in mb && 2 !in mb && 1 !in mb;
  }

  /** With two-digit frets the shape no longer determines the frets: string 6 at
      fret 1 with string 5 at fret 12, and string 6 at fret 11 with string 5 at
      fret 2, both give "112xxxx". */
  lemma ChordStringAmbiguous(a6: Dot, a5: Dot, b6: Dot, b5: Dot)
    requires a6 == Dot(6, 1, "F", false) && a5 == Dot(5, 12, "A", false)
    requires b6 == Dot(6, 11, "D#", false) && b5 == Dot(5, 2, "B", false)
    ensures FretMap([a6, a5]) != FretMap([b6, b5])
    ensures ChordString([a6, a5]) == ChordString([b6, b5]) == "112xxxx"
  {
    FretMapSnoc([], a6);
    FretMapSnoc([a6], a5);
    FretMapSnoc([], b6);
    FretMapSnoc([b6], b5);
    assert [a6] + [a5] == [a6, a5] && [b6] + [b5] == [b6, b5];
    var ma, mb := map[6 := 1, 5 := 12], map[6 := 11, 5 := 2];
    assert FretMap([a6, a5]) == ma && FretMap([b6, b5]) == mb;
    assert ma[5] != mb[5];
    ChordStringTokens([a6, a5]);
    ChordStringTokens([b6, b5]);
    AmbiguousTokens(ma, mb);
  }
}
