/** The disagreement heuristic `isLikelyDisagreement` of the study app: does a
    clinician's note share no keyword with the AI finding? */
module Detector {
  import opened JsText

  /** The fixed stop list; the remaining words of a finding are its keywords. */
  const StopWords: set<string> := {
    "a", "an", "the", "study", "detected", "present", "normal", "likely",
    "possible", "suggests", "with", "without", "of", "and", "or", "is", "are",
    "to", "for", "small", "large", "multifocal"
  }

  /** The regular-expression class `[a-z]`. */
  predicate IsLetter(c: char) {
    'a' <= c <= 'z'
  }

  /** A non-empty word of lower-case ASCII letters. */
  predicate IsLetterWord(w: string) {
    w != [] && forall i :: 0 <= i < |w| ==> IsLetter(w[i])
  }

  /** `.replace(/[^a-z\s]/g, "")`: keeps the letters `a`-`z` and the whitespace,
      in order, and nothing else. */
  function StripNonLetters(s: string): (r: string)
    ensures |r| <= |s|
    ensures forall i :: 0 <= i < |r| ==> IsLetter(r[i]) || IsSpace(r[i])
  {
    if s == [] then []
    else if IsLetter(s[0]) || IsSpace(s[0]) then [s[0]] + StripNonLetters(s[1..])
    else StripNonLetters(s[1..])
  }

  /** Every kept character comes from the input, every letter and whitespace
      character of the input is kept, and text made only of those is kept
      whole. */
  lemma {:induction false} StripNonLettersKeeps(s: string)
    ensures forall i :: 0 <= i < |StripNonLetters(s)| ==> StripNonLetters(s)[i] in s
    ensures forall i :: 0 <= i < |s| && (IsLetter(s[i]) || IsSpace(s[i])) ==> s[i] in StripNonLetters(s)
    ensures (forall i :: 0 <= i < |s| ==> IsLetter(s[i]) || IsSpace(s[i])) ==> StripNonLetters(s) == s
  {
    if s != [] {
      StripNonLettersKeeps(s[1..]);
      var r, rest := StripNonLetters(s), StripNonLetters(s[1..]);
      forall i | 0 <= i < |r| ensures r[i] in s {
        if IsLetter(s[0]) || IsSpace(s[0]) {
          if i > 0 { assert r[i] == rest[i - 1]; }
        } else {
          assert r[i] == rest[i];
        }
      }
      forall i | 0 <= i < |s| && (IsLetter(s[i]) || IsSpace(s[i])) ensures s[i] in r {
        if i > 0 { assert s[i] == s[1..][i - 1]; }
      }
    }
  }

  /** `.split(/\s+/)`: the pieces between maximal runs of whitespace. As in
      JavaScript, a leading or trailing run yields an empty first or last piece,
      and the empty string splits into one empty piece. */
  function SplitOnSpaceRuns(s: string): (r: seq<string>)
    ensures |r| >= 1
    ensures forall i, j :: 0 <= i < |r| && 0 <= j < |r[i]| ==> !IsSpace(r[i][j])
  {
    if s == [] then [[]]
    else
      var rest := SplitOnSpaceRuns(s[1..]);
      if IsSpace(s[0]) then
        if |s| > 1 && IsSpace(s[1]) then rest else [[]] + rest
      else
        [[s[0]] + rest[0]] + rest[1..]
  }

  /** Every character of every piece comes from the input. */
  lemma {:induction false} SplitPiecesFromInput(s: string)
    ensures forall i, j :: 0 <= i < |SplitOnSpaceRuns(s)| && 0 <= j < |SplitOnSpaceRuns(s)[i]| ==>
              SplitOnSpaceRuns(s)[i][j] in s
  {
    if s != [] {
      SplitPiecesFromInput(s[1..]);
      var r, rest := SplitOnSpaceRuns(s), SplitOnSpaceRuns(s[1..]);
      forall i, j | 0 <= i < |r| && 0 <= j < |r[i]| ensures r[i][j] in s {
        if !IsSpace(s[0]) {
          if i == 0 && j > 0 { assert r[0][j] == rest[0][j - 1]; }
          if i > 0 { assert r[i] == rest[i]; }
        } else if !(|s| > 1 && IsSpace(s[1])) {
          assert r[i] == ([[]] + rest)[i];
        }
      }
    }
  }

  /** The pieces laid end to end. */
  function Concat(ws: seq<string>): string {
    if ws == [] then [] else ws[0] + Concat(ws[1..])
  }

  /** `s` with its whitespace removed. */
  function NonSpace(s: string): string {
    if s == [] then [] else (if IsSpace(s[0]) then [] else [s[0]]) + NonSpace(s[1..])
  }

  /** Splitting loses only the whitespace: the pieces together are the
      non-whitespace characters of `s`, in order. */
  lemma {:induction false} SplitKeepsNonSpace(s: string)
    ensures Concat(SplitOnSpaceRuns(s)) == NonSpace(s)
  {
    if s != [] {
      var rest := SplitOnSpaceRuns(s[1..]);
      SplitKeepsNonSpace(s[1..]);
      if !IsSpace(s[0]) {
        var r := SplitOnSpaceRuns(s);
        assert r[0] == [s[0]] + rest[0] && r[1..] == rest[1..];
        assert Concat(rest) == rest[0] + Concat(rest[1..]);
      } else if !(|s| > 1 && IsSpace(s[1])) {
        assert Concat([[]] + rest) == Concat(rest);
      }
    }
  }

  /** Stripping distributes over concatenation. */
  lemma {:induction false} StripNonLettersConcat(a: string, b: string)
    ensures StripNonLetters(a + b) == StripNonLetters(a) + StripNonLetters(b)
  {
    if a != [] {
      StripNonLettersConcat(a[1..], b);
      assert (a + b)[0] == a[0] && (a + b)[1..] == a[1..] + b;
      if IsLetter(a[0]) || IsSpace(a[0]) {
        calc {
          StripNonLetters(a + b);
          [a[0]] + StripNonLetters(a[1..] + b);
          [a[0]] + (StripNonLetters(a[1..]) + StripNonLetters(b));
          ([a[0]] + StripNonLetters(a[1..])) + StripNonLetters(b);
        }
      }
    } else {
      assert a + b == b;
    }
  }

  /** No character of `w` is whitespace. */
  predicate SpaceFree(w: string) {
    forall i :: 0 <= i < |w| ==> !IsSpace(w[i])
  }

  /** A separator: a non-empty run of whitespace. */
  predicate IsSeparator(sep: string) {
    sep != [] && IsBlank(sep)
  }

  /** The pieces `ws` with the separator `seps[i]` between `ws[i]` and `ws[i + 1]`. */
  function JoinWith(ws: seq<string>, seps: seq<string>): string
    requires |ws| == |seps| + 1
  {
    if |ws| == 1 then ws[0] else ws[0] + seps[0] + JoinWith(ws[1..], seps[1..])
  }

  /** The shape of a split's result: whitespace-free pieces, of which only the
      first and the last may be empty. */
  predicate SplitShape(ws: seq<string>) {
    && ws != []
    && (forall i :: 0 <= i < |ws| ==> SpaceFree(ws[i]))
    && (forall i :: 0 < i < |ws| - 1 ==> ws[i] != [])
  }

  lemma {:induction false} SplitSpaceFree(w: string)
    requires SpaceFree(w)
    ensures SplitOnSpaceRuns(w) == [w]
  {
    if w != [] {
      SplitSpaceFree(w[1..]);
      assert w == [w[0]] + w[1..];
    }
  }

  /** A whitespace-free word (possibly empty) followed by a whitespace run
      splits into the word and the split of what follows the run. With the
      empty word, a leading run gives an empty first piece; with nothing after
      the run, a trailing run gives an empty last piece. */
  lemma {:induction false} SplitWordThenRun(w: string, sep: string, t: string)
    requires SpaceFree(w) && IsSeparator(sep)
    requires t == [] || !IsSpace(t[0])
    ensures SplitOnSpaceRuns(w + sep + t) == [w] + SplitOnSpaceRuns(t)
  {
    if w == [] {
      assert w + sep + t == sep + t;
      assert (sep + t)[1..] == sep[1..] + t;
      if |sep| > 1 {
        SplitWordThenRun(w, sep[1..], t);
        assert w + sep[1..] + t == sep[1..] + t;
      } else {
        assert sep[1..] + t == t;
      }
    } else {
      SplitWordThenRun(w[1..], sep, t);
      assert (w + sep + t)[1..] == w[1..] + sep + t;
      assert w == [w[0]] + w[1..];
    }
  }

  /** Splitting undoes joining with whitespace runs: pieces of a split's shape,
      joined by any separators, split back into the same pieces. */
  lemma {:induction false} SplitJoinRoundTrip(ws: seq<string>, seps: seq<string>)
    requires |ws| == |seps| + 1 && SplitShape(ws)
    requires forall i :: 0 <= i < |seps| ==> IsSeparator(seps[i])
    ensures SplitOnSpaceRuns(JoinWith(ws, seps)) == ws
  {
    if |ws| == 1 {
      SplitSpaceFree(ws[0]);
    } else {
      assert SplitShape(ws[1..]);
      SplitJoinRoundTrip(ws[1..], seps[1..]);
      var t := JoinWith(ws[1..], seps[1..]);
      if ws[1] != [] {
        assert t[0] == ws[1][0] by { JoinWithStartsWithFirst(ws[1..], seps[1..]); }
      } else {
        assert t == [];
      }
      SplitWordThenRun(ws[0], seps[0], t);
    }
  }

  /** A join whose first piece is non-empty starts with that piece's first
      character. */
  lemma JoinWithStartsWithFirst(ws: seq<string>, seps: seq<string>)
    requires |ws| == |seps| + 1 && ws[0] != []
    ensures JoinWith(ws, seps) != [] && JoinWith(ws, seps)[0] == ws[0][0]
  {
  }

  /** `.filter(Boolean)`: drops the empty strings. */
  function DropEmpty(ws: seq<string>): (r: seq<string>)
    ensures |r| <= |ws|
    ensures forall w :: w in r <==> w in ws && w != []
  {
    if ws == [] then []
    else if ws[0] == [] then DropEmpty(ws[1..])
    else [ws[0]] + DropEmpty(ws[1..])
  }

  /** `.filter((w) => !stop.has(w))`. */
  function RemoveStopWords(ws: seq<string>): (r: seq<string>)
    ensures |r| <= |ws|
    ensures forall w :: w in r <==> w in ws && w !in StopWords
  {
    if ws == [] then []
    else if ws[0] in StopWords then RemoveStopWords(ws[1..])
    else [ws[0]] + RemoveStopWords(ws[1..])
  }

  /** The keywords of an AI finding: lower-case it, keep letters and
      whitespace, split on whitespace, drop empty pieces and stop words. Every
      keyword is a non-empty word of the letters `a`-`z` and no stop word. */
  function Keywords(aiText: string): (r: seq<string>)
    ensures forall w :: w in r ==> IsLetterWord(w) && w !in StopWords
  {
    var pieces := SplitOnSpaceRuns(StripNonLetters(ToLower(aiText)));
    var r := RemoveStopWords(DropEmpty(pieces));
    assert forall w :: w in r ==> IsLetterWord(w) && w !in StopWords by {
      forall w | w in r ensures IsLetterWord(w) {
        var i :| 0 <= i < |pieces| && pieces[i] == w;
        SplitPiecesFromInput(StripNonLetters(ToLower(aiText)));
        forall j | 0 <= j < |w| ensures IsLetter(w[j]) {
          assert !IsSpace(pieces[i][j]) && pieces[i][j] in StripNonLetters(ToLower(aiText));
        }
      }
    }
    r
  }

  /** `keywords.filter((w) => hay.includes(w))`. */
  function Hits(keywords: seq<string>, hay: string): (r: seq<string>)
    ensures |r| <= |keywords|
    ensures forall w :: w in r <==> w in keywords && Includes(hay, w)
  {
    if keywords == [] then []
    else if Includes(hay, keywords[0]) then [keywords[0]] + Hits(keywords[1..], hay)
    else Hits(keywords[1..], hay)
  }

  /** `isLikelyDisagreement(note, aiText)`: the finding has a keyword, and none
      of its keywords occurs in the lower-cased note. */
  function IsLikelyDisagreement(note: string, aiText: string): (r: bool)
    ensures r <==> Keywords(aiText) != []
                   && forall w :: w in Keywords(aiText) ==> !Includes(ToLower(note), w)
  {
    var keywords := Keywords(aiText);
    var hits := Hits(keywords, ToLower(note));
    assert |hits| == 0 <==> forall w :: w in keywords ==> !Includes(ToLower(note), w) by {
      if hits != [] { assert hits[0] in hits; }
    }
    |keywords| > 0 && |hits| == 0
  }

  /** No word of `words` stands at any position of `hay`. */
  ghost predicate NoneOccurs(hay: string, words: seq<string>) {
    forall w, i :: w in words ==> !OccursAt(hay, w, i)
  }

  /** The detector against the positional definition of a substring: the
      finding has a keyword, and no keyword stands anywhere in the lower-cased
      note. */
  lemma DisagreementIffNoOccurrence(note: string, aiText: string)
    ensures IsLikelyDisagreement(note, aiText) <==>
            Keywords(aiText) != [] && NoneOccurs(ToLower(note), Keywords(aiText))
  {
    var hay, keywords := ToLower(note), Keywords(aiText);
    if !IsLikelyDisagreement(note, aiText) && keywords != [] {
      var w :| w in keywords && Includes(hay, w);
    }
  }

  /** A finding without keywords (only stop words, or no letters) never
      signals a disagreement, whatever the note. */
  lemma NoKeywordsNoDisagreement(note: string, aiText: string)
    requires Keywords(aiText) == []
    ensures !IsLikelyDisagreement(note, aiText)
  {
  }

  /** Called directly with an empty note, the detector reports a disagreement
      exactly when the finding has a keyword: no keyword is empty, so none
      occurs in the empty note. */
  lemma EmptyNoteDisagreesIffKeywords(aiText: string)
    ensures IsLikelyDisagreement([], aiText) <==> Keywords(aiText) != []
  {
    forall w | w in Keywords(aiText) ensures !Includes(ToLower([]), w) {
      IncludedInEmpty(w);
    }
  }

  /** Changing the letter case of the note or of the finding does not change
      the verdict. */
  lemma CaseInsensitive(note: string, note': string, aiText: string, aiText': string)
    requires SameUpToCase(note, note') && SameUpToCase(aiText, aiText')
    ensures IsLikelyDisagreement(note, aiText) == IsLikelyDisagreement(note', aiText')
  {
    SameUpToCaseIffSameLower(note, note');
    SameUpToCaseIffSameLower(aiText, aiText');
  }

  /** Once a note agrees with the finding (shares a keyword), it keeps agreeing
      however much text is written before or after it. */
  lemma AgreementSurvivesEditsAround(note: string, aiText: string, before: string, after: string)
    requires !IsLikelyDisagreement(note, aiText)
    ensures !IsLikelyDisagreement(before + note + after, aiText)
  {
    var keywords := Keywords(aiText);
    if keywords != [] {
      var w :| w in keywords && Includes(ToLower(note), w);
      IncludesWithin(ToLower(note), w, ToLower(before), ToLower(after));
      ToLowerConcat(before + note, after);
      ToLowerConcat(before, note);
    }
  }
}
