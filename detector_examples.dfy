/** The disagreement heuristic on the study's first finding, worked through
    stage by stage: the finding's keywords, a note that shares none of them
    and a note that shares one. */
module DetectorExamples {
  import opened JsText
  import opened Detector

  /** Every character of `s` is a letter `a`-`z` or whitespace. */
  predicate LettersAndSpaces(s: string) {
    forall i :: 0 <= i < |s| ==> IsLetter(s[i]) || IsSpace(s[i])
  }

  /** Stripping a text of letters and whitespace broken by two other marks
      drops exactly the two marks. */
  lemma StripTwoMarks(p1: string, c2: char, p3: string, c4: char)
    requires LettersAndSpaces(p1) && LettersAndSpaces(p3)
    requires !IsLetter(c2) && !IsSpace(c2) && !IsLetter(c4) && !IsSpace(c4)
    ensures StripNonLetters(p1 + [c2] + p3 + [c4]) == p1 + p3
  {
    var a := p1 + [c2];
    var b := a + p3;
    StripNonLettersKeeps(p3);
    StripNonLettersKeeps(p1);
    StripDropsMark(p1, c2);
    StripNonLettersConcat(a, p3);
    StripDropsMark(b, c4);
  }

  /** A mark that is neither a letter nor whitespace disappears. */
  lemma StripDropsMark(p: string, c: char)
    requires !IsLetter(c) && !IsSpace(c)
    ensures StripNonLetters(p + [c]) == StripNonLetters(p)
  {
    StripNonLettersConcat(p, [c]);
    assert StripNonLetters([c]) == StripNonLetters([c][1..]);
  }

  /** A needle holding a character the text lacks is not included in it. */
  lemma MissingCharNotIncluded(hay: string, needle: string, j: nat)
    requires j < |needle| && needle[j] !in hay
    ensures !Includes(hay, needle)
  {
  }

  /** No character of `s` is a capital ASCII letter. */
  predicate NoCapitals(s: string) {
    forall i :: 0 <= i < |s| ==> !IsUpperAscii(s[i])
  }

  /** Lower-casing text followed by text without capitals lower-cases only
      the first part. */
  lemma LowerBeforeNoCapitals(a: string, b: string)
    requires NoCapitals(b)
    ensures ToLower(a + b) == ToLower(a) + b
  {
    ToLowerConcat(a, b);
  }

  lemma JoinFour(ws: seq<string>, seps: seq<string>)
    requires |ws| == 4 && |seps| == 3
    ensures JoinWith(ws, seps) == ws[0] + seps[0] + ws[1] + seps[1] + ws[2] + seps[2] + ws[3]
  {
    assert JoinWith(ws[3..], seps[3..]) == ws[3];
    assert JoinWith(ws[2..], seps[2..]) == ws[2] + seps[2] + ws[3];
    assert JoinWith(ws[1..], seps[1..]) == ws[1] + seps[1] + ws[2] + seps[2] + ws[3];
  }

  lemma {:induction false} DropEmptyKeepsWords(ws: seq<string>)
    requires forall i :: 0 <= i < |ws| ==> ws[i] != []
    ensures DropEmpty(ws) == ws
  {
    if ws != [] {
      DropEmptyKeepsWords(ws[1..]);
    }
  }

  // The finding "Right lower-lobe pneumonia detected."

  lemma PneumoniaParts(ai: string)
    requires ai == "Right lower-lobe pneumonia detected."
    ensures ai == "Right lower" + ['-'] + "lobe pneumonia detected" + ['.']
  {
  }

  lemma PneumoniaPartsLower(a: string, b: string, c: string, d: string)
    requires a == "Right lower" && b == ['-'] && c == "lobe pneumonia detected" && d == ['.']
    ensures ToLower(a) == "right lower" && NoCapitals(b) && NoCapitals(c) && NoCapitals(d)
    ensures LettersAndSpaces("right lower") && LettersAndSpaces(c)
  {
  }

  lemma PneumoniaLower(ai: string)
    requires ai == "Right lower-lobe pneumonia detected."
    ensures ToLower(ai) == "right lower" + ['-'] + "lobe pneumonia detected" + ['.']
  {
    var a, b, c, d := "Right lower", ['-'], "lobe pneumonia detected", ['.'];
    PneumoniaParts(ai);
    PneumoniaPartsLower(a, b, c, d);
    LowerBeforeNoCapitals(a + b + c, d);
    LowerBeforeNoCapitals(a + b, c);
    LowerBeforeNoCapitals(a, b);
  }

  lemma PneumoniaJoined(ws: seq<string>, seps: seq<string>)
    requires ws == ["right", "lowerlobe", "pneumonia", "detected"] && seps == [" ", " ", " "]
    ensures JoinWith(ws, seps) == "right lower" + "lobe pneumonia detected"
  {
    JoinFour(ws, seps);
  }

  lemma PneumoniaShape(ws: seq<string>)
    requires ws == ["right", "lowerlobe", "pneumonia", "detected"]
    ensures SplitShape(ws) && DropEmpty(ws) == ws
  {
    assert SpaceFree(ws[0]) && SpaceFree(ws[1]) && SpaceFree(ws[2]) && SpaceFree(ws[3]);
    DropEmptyKeepsWords(ws);
  }

  lemma PneumoniaStripped(ai: string)
    requires ai == "Right lower-lobe pneumonia detected."
    ensures StripNonLetters(ToLower(ai)) == "right lower" + "lobe pneumonia detected"
  {
    var p1, p3 := "right lower", "lobe pneumonia detected";
    PneumoniaLower(ai);
    PneumoniaPartsLower("Right lower", ['-'], p3, ['.']);
    StripTwoMarks(p1, '-', p3, '.');
  }

  lemma PneumoniaPieces(ai: string)
    requires ai == "Right lower-lobe pneumonia detected."
    ensures SplitOnSpaceRuns(StripNonLetters(ToLower(ai))) ==
            ["right", "lowerlobe", "pneumonia", "detected"]
  {
    var ws, seps := ["right", "lowerlobe", "pneumonia", "detected"], [" ", " ", " "];
    PneumoniaStripped(ai);
    PneumoniaJoined(ws, seps);
    PneumoniaShape(ws);
    SplitJoinRoundTrip(ws, seps);
  }

  lemma NotStopWords(w1: string, w2: string, w3: string)
    requires w1 == "right" && w2 == "lowerlobe" && w3 == "pneumonia"
    ensures w1 !in StopWords && w2 !in StopWords && w3 !in StopWords
  {
  }

  lemma PneumoniaStopWords(ws: seq<string>)
    requires ws == ["right", "lowerlobe", "pneumonia", "detected"]
    ensures RemoveStopWords(ws) == ws[..3]
  {
    NotStopWords(ws[0], ws[1], ws[2]);
    assert ws[3] in StopWords;
    assert RemoveStopWords(ws[3..]) == [];
    assert RemoveStopWords(ws[2..]) == [ws[2]];
    assert RemoveStopWords(ws[1..]) == [ws[1], ws[2]];
  }

  /** The keywords of "Right lower-lobe pneumonia detected.": the hyphen goes,
      so "lower-lobe" becomes one keyword, and the stop word "detected" goes. */
  lemma PneumoniaKeywords(ai: string)
    requires ai == "Right lower-lobe pneumonia detected."
    ensures Keywords(ai) == ["right", "lowerlobe", "pneumonia"]
  {
    var ws := ["right", "lowerlobe", "pneumonia", "detected"];
    PneumoniaPieces(ai);
    PneumoniaShape(ws);
    PneumoniaStopWords(ws);
  }

  // The note "Stable appearance, no concern."

  lemma StableParts(note: string)
    requires note == "Stable appearance, no concern."
    ensures note == "Stable" + " appearance, no concern."
  {
  }

  lemma StablePartsLower(a: string, b: string)
    requires a == "Stable" && b == " appearance, no concern."
    ensures ToLower(a) == "stable" && NoCapitals(b)
    ensures 'g' !in "stable" + b && 'w' !in "stable" + b && 'm' !in "stable" + b
  {
  }

  lemma StableNoHits(hay: string, ws: seq<string>)
    requires 'g' !in hay && 'w' !in hay && 'm' !in hay
    requires ws == ["right", "lowerlobe", "pneumonia"]
    ensures forall w :: w in ws ==> !Includes(hay, w)
  {
    MissingCharNotIncluded(hay, ws[0], 2);
    MissingCharNotIncluded(hay, ws[1], 2);
    MissingCharNotIncluded(hay, ws[2], 4);
  }

  /** A note that mentions none of the keywords is a likely disagreement:
      each keyword has a letter the note lacks. */
  lemma StableNoteDisagrees(note: string, ai: string)
    requires note == "Stable appearance, no concern."
    requires ai == "Right lower-lobe pneumonia detected."
    ensures IsLikelyDisagreement(note, ai)
  {
    var a, b := "Stable", " appearance, no concern.";
    PneumoniaKeywords(ai);
    StableParts(note);
    StablePartsLower(a, b);
    LowerBeforeNoCapitals(a, b);
    StableNoHits(ToLower(note), Keywords(ai));
  }

  // The note "Findings consistent with pneumonia in the right base."

  lemma FindingsParts(note: string)
    requires note == "Findings consistent with pneumonia in the right base."
    ensures note == "Findings consistent with " + "pneumonia" + " in the right base."
  {
  }

  lemma FindingsPartsLower(a: string, b: string)
    requires a == "Findings consistent with " && b == " in the right base."
    ensures ToLower(a) == "findings consistent with " && NoCapitals("pneumonia" + b)
  {
  }

  /** A note that mentions "pneumonia" agrees with the finding. */
  lemma PneumoniaNoteAgrees(note: string, ai: string)
    requires note == "Findings consistent with pneumonia in the right base."
    requires ai == "Right lower-lobe pneumonia detected."
    ensures !IsLikelyDisagreement(note, ai)
  {
    var before, after := "Findings consistent with ", " in the right base.";
    var lowBefore := "findings consistent with ";
    PneumoniaKeywords(ai);
    FindingsParts(note);
    FindingsPartsLower(before, after);
    assert note == before + ("pneumonia" + after);
    LowerBeforeNoCapitals(before, "pneumonia" + after);
    assert ToLower(note) == lowBefore + "pneumonia" + after;
    assert Includes("pneumonia", "pneumonia");
    IncludesWithin("pneumonia", "pneumonia", lowBefore, after);
    assert Keywords(ai)[2] == "pneumonia";
  }
}
