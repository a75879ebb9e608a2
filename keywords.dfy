/** Turning one raw token into a keyword, or into no keyword at all
    (`getKeyWord` and `checkPunct`). */
module Keywords {
  import opened Wrappers

  /** ASCII stand-in for Character.isLetter. */
  predicate IsLetter(c: char)
  {
    'a' <= c <= 'z' || 'A' <= c <= 'Z'
  }

  /** ASCII stand-in for Character.toLowerCase. */
  function LowerChar(c: char): char
  {
    if 'A' <= c <= 'Z' then (c as int + 32) as char else c
  }

  /** ASCII stand-in for String.toLowerCase. */
  function Lower(s: string): string
  {
    seq(|s|, i requires 0 <= i < |s| => LowerChar(s[i]))
  }

  /** Java's `s.trim().isEmpty()`: every character is a space or a control character. */
  predicate IsBlank(s: string)
  {
    forall i :: 0 <= i < |s| ==> s[i] <= ' '
  }

  /** A non-empty string of lower-case ASCII letters. */
  ghost predicate IsLowerWord(s: string)
  {
    s != [] && forall i :: 0 <= i < |s| ==> 'a' <= s[i] <= 'z'
  }

  /** `checkPunct`: the word holds some character that is not a letter. */
  function CheckPunct(word: string): bool
  {
    if word == [] then false
    else if !IsLetter(word[0]) then true
    else CheckPunct(word[1..])
  }

  /** checkPunct finds a non-letter exactly when the word holds one. */
  lemma {:induction false} CheckPunctFinds(word: string)
    ensures CheckPunct(word) <==> exists i :: 0 <= i < |word| && !IsLetter(word[i])
  {
    if word != [] && IsLetter(word[0]) {
      CheckPunctFinds(word[1..]);
      assert forall i :: 0 < i < |word| ==> word[i] == word[1..][i - 1];
    }
  }

  /** The longest prefix of `word` whose characters are all letters (when `letters`)
      or all non-letters (when not): the `bef` and `mid` scans of getKeyWord. */
  function Run(word: string, letters: bool): (run: string)
    ensures |run| <= |word|
  {
    if word != [] && IsLetter(word[0]) == letters then [word[0]] + Run(word[1..], letters) else []
  }

  /** The run is a prefix of the word, of the requested kind, and stops only at the end
      of the word or at a character of the other kind. */
  lemma {:induction false} RunShape(word: string, letters: bool)
    ensures var run := Run(word, letters);
            run == word[..|run|] &&
            (forall i :: 0 <= i < |run| ==> IsLetter(run[i]) == letters) &&
            (|run| < |word| ==> IsLetter(word[|run|]) != letters)
  {
    if word != [] && IsLetter(word[0]) == letters {
      RunShape(word[1..], letters);
    }
  }

  /** `getKeyWord`: the lower-cased leading letter run of the token, provided nothing
      but non-letters follows it, it is not empty and it is not a noise word. */
  function GetKeyWord(word: string, noiseWords: set<string>): Option<string>
  {
    if CheckPunct(word) then
      var bef := Run(word, true);
      var rest := word[|bef|..];
      var mid := Run(rest, false);
      var aft := rest[|mid|..];
      if aft == [] then
        if Lower(bef) in noiseWords then None
        else if !IsBlank(bef) then Some(Lower(bef))
        else None
      else None
    else
      if Lower(word) in noiseWords then None
      else if !IsBlank(word) then Some(Lower(word))
      else None
  }

  /** A keyword is the lower-cased letter prefix of its token, so it is a non-empty
      word of lower-case letters. */
  lemma GetKeyWordIsLowerWord(word: string, noiseWords: set<string>)
    ensures var r := GetKeyWord(word, noiseWords);
            r.Some? ==> IsLowerWord(r.value) && r.value == Lower(Run(word, true))
  {
    var bef := Run(word, true);
    NoPunctuationAllLetters(word);
    if GetKeyWord(word, noiseWords).Some? {
      assert GetKeyWord(word, noiseWords).value == Lower(bef) && !IsBlank(bef);
      RunShape(word, true);
      LowerLetters(bef);
    }
  }

  /** Lower-casing a non-empty run of letters gives a lower-case word. */
  lemma LowerLetters(s: string)
    requires s != [] && forall i :: 0 <= i < |s| ==> IsLetter(s[i])
    ensures IsLowerWord(Lower(s))
  {
  }

  /** A word without punctuation is its own letter run. */
  lemma NoPunctuationAllLetters(word: string)
    ensures !CheckPunct(word) ==> Run(word, true) == word
  {
    CheckPunctFinds(word);
    RunShape(word, true);
  }

  /** No letter comes anywhere after a non-letter: all punctuation trails the letters. */
  ghost predicate PunctuationTrails(word: string)
  {
    forall i, j :: 0 <= i < j < |word| && !IsLetter(word[i]) ==> !IsLetter(word[j])
  }

  /** After the letter run and the non-letter run, nothing is left exactly when
      no letter follows a non-letter. */
  lemma NothingAfterPunctuation(word: string)
    ensures var bef := Run(word, true);
            var rest := word[|bef|..];
            rest[|Run(rest, false)|..] == [] <==> PunctuationTrails(word)
  {
    var bef := Run(word, true);
    var rest := word[|bef|..];
    var mid := Run(rest, false);
    if |bef| + |mid| == |word| {
      ScansCoverTrail(word);
    } else {
      ScansStopAtLetter(word);
    }
  }

  /** When the two scans reach the end, every non-letter lies in the second run, so
      only non-letters follow it. */
  lemma ScansCoverTrail(word: string)
    requires |Run(word, true)| + |Run(word[|Run(word, true)|..], false)| == |word|
    ensures PunctuationTrails(word)
  {
    var bef := Run(word, true);
    var mid := Run(word[|bef|..], false);
    RunShape(word, true);
    RunShape(word[|bef|..], false);
    var p := |bef|;
    forall i, j | 0 <= i < j < |word| && !IsLetter(word[i]) ensures !IsLetter(word[j]) {
      assert i >= p;
      assert word[j] == mid[j - p];
    }
  }

  /** When the two scans stop early, they stop at a letter that follows a non-letter. */
  lemma ScansStopAtLetter(word: string)
    requires |Run(word, true)| + |Run(word[|Run(word, true)|..], false)| < |word|
    ensures !PunctuationTrails(word)
  {
    var bef := Run(word, true);
    var rest := word[|bef|..];
    var mid := Run(rest, false);
    RunShape(word, true);
    RunShape(rest, false);
    var p, q := |bef|, |bef| + |mid|;
    assert word[q] == rest[|mid|];
    assert p < |word| && !IsLetter(word[p]) && word[p] == rest[0];
    assert IsLetter(word[q]);
  }

  /** What getKeyWord returns, stated without its three scans: a keyword exactly when
      punctuation only trails the letters, the letter prefix is not empty and its
      lower-case form is not a noise word; null otherwise (a letter after punctuation
      as in "don't", a noise word, or no leading letter as in "" and "!!!"). */
  lemma GetKeyWordExactly(word: string, noiseWords: set<string>)
    ensures var bef := Run(word, true);
            GetKeyWord(word, noiseWords) ==
              if PunctuationTrails(word) && bef != [] && Lower(bef) !in noiseWords
              then Some(Lower(bef)) else None
  {
    var bef := Run(word, true);
    NothingAfterPunctuation(word);
    RunShape(word, true);
    assert bef != [] <==> !IsBlank(bef) by {
      if bef != [] { assert IsLetter(bef[0]); }
    }
    if !CheckPunct(word) {
      NoPunctuationAllLetters(word);
      CheckPunctFinds(word);
      assert PunctuationTrails(word);
    }
  }

  /** "Apple." yields the keyword "apple": the trailing period is dropped. */
  lemma TrailingPunctuationDropped()
    ensures GetKeyWord("Apple.", {}) == Some("apple")
  {
    assert CheckPunct("Apple.") by {
      CheckPunctFinds("Apple.");
      assert !IsLetter("Apple."[5]);
    }
    assert Run(".", true) == "";
    assert Run("e.", true) == "e" by { assert "e."[1..] == "."; }
    assert Run("le.", true) == "le" by { assert "le."[1..] == "e."; }
    assert Run("ple.", true) == "ple" by { assert "ple."[1..] == "le."; }
    assert Run("pple.", true) == "pple" by { assert "pple."[1..] == "ple."; }
    assert Run("Apple.", true) == "Apple" by { assert "Apple."[1..] == "pple."; }
    assert "Apple."[5..] == ".";
    assert Run(".", false) == ".";
    assert Lower("Apple") == "apple";
  }

  /** "mp3" yields the keyword "mp": a digit counts as trailing punctuation, like any
      other character that is not a letter. */
  lemma TrailingDigitDropped()
    ensures GetKeyWord("mp3", {}) == Some("mp")
  {
    assert CheckPunct("mp3") by {
      CheckPunctFinds("mp3");
      assert !IsLetter("mp3"[2]);
    }
    assert Run("3", true) == "";
    assert Run("p3", true) == "p" by { assert "p3"[1..] == "3"; }
    assert Run("mp3", true) == "mp" by { assert "mp3"[1..] == "p3"; }
    assert "mp3"[2..] == "3";
    assert Run("3", false) == "3";
    assert Lower("mp") == "mp";
  }

  /** "don't" yields no keyword: a letter follows the apostrophe. */
  lemma EmbeddedPunctuationRejected()
    ensures GetKeyWord("don't", {}) == None
  {
    assert !PunctuationTrails("don't") by {
      assert !IsLetter("don't"[3]) && IsLetter("don't"[4]);
    }
    GetKeyWordExactly("don't", {});
  }

  /** Neither "!!!" nor the empty token yields a keyword: there is no leading letter. */
  lemma NoLeadingLetterRejected()
    ensures GetKeyWord("!!!", {}) == None
    ensures GetKeyWord("", {}) == None
  {
    assert Run("!!!", true) == "";
  }

  /** "The" yields no keyword when "the" is a noise word. */
  lemma NoiseWordRejected()
    ensures GetKeyWord("The", {"the", "a"}) == None
  {
    assert Run("The", true) == "The";
    assert Lower("The") == "the";
  }
}
