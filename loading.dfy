/** Counting the keywords of one document (the counting part of `loadKeyWords`). */
module Loading {
  import opened Wrappers
  import opened Occurrences
  import opened Keywords

  /** The pieces of `line` between single spaces, as `line.split(" ")` yields them,
      except that empty trailing pieces are kept (an empty piece is never a keyword). */
  function SplitOnSpace(line: string): (tokens: seq<string>)
    ensures |tokens| >= 1
    ensures forall t :: t in tokens ==> ' ' !in t
    ensures JoinWithSpace(tokens) == line
  {
    if line == [] then [""]
    else
      var rest := SplitOnSpace(line[1..]);
      if line[0] == ' ' then
        assert [' '] + line[1..] == line;
        [""] + rest
      else
        JoinConsChar(line[0], rest[0], rest[1..]);
        assert [rest[0]] + rest[1..] == rest;
        assert [line[0]] + line[1..] == line;
        [[line[0]] + rest[0]] + rest[1..]
  }

  /** The pieces glued back together with one space between neighbours. */
  function JoinWithSpace(tokens: seq<string>): string
    requires |tokens| >= 1
  {
    if |tokens| == 1 then tokens[0] else tokens[0] + " " + JoinWithSpace(tokens[1..])
  }

  /** Prefixing the first piece prefixes the joined line. */
  lemma JoinConsChar(c: char, first: string, rest: seq<string>)
    ensures JoinWithSpace([[c] + first] + rest) == [c] + JoinWithSpace([first] + rest)
  {
    var t, u := [[c] + first] + rest, [first] + rest;
    if rest != [] {
      assert t[1..] == rest && u[1..] == rest;
      var j := JoinWithSpace(rest);
      calc {
        JoinWithSpace(t);
        ([c] + first) + " " + j;
        [c] + (first + " " + j);
        [c] + JoinWithSpace(u);
      }
    }
  }

  /** The tokens one line contributes: none when the line is blank. */
  function LineTokens(line: string): seq<string>
  {
    if IsBlank(line) then [] else SplitOnSpace(line)
  }

  /** All tokens of a document, line by line. */
  function DocumentTokens(lines: seq<string>): seq<string>
  {
    if lines == [] then [] else DocumentTokens(lines[..|lines| - 1]) + LineTokens(lines[|lines| - 1])
  }

  /** The number of tokens whose keyword is `k`. */
  function Frequency(tokens: seq<string>, noiseWords: set<string>, k: string): nat
  {
    if tokens == [] then 0
    else
      Frequency(tokens[..|tokens| - 1], noiseWords, k) +
      (if GetKeyWord(tokens[|tokens| - 1], noiseWords) == Some(k) then 1 else 0)
  }

  /** A keyword is counted at least once exactly when some token yields it. */
  lemma {:induction false} FrequencyPositive(tokens: seq<string>, noiseWords: set<string>, k: string)
    ensures Frequency(tokens, noiseWords, k) > 0 <==>
              exists i :: 0 <= i < |tokens| && GetKeyWord(tokens[i], noiseWords) == Some(k)
  {
    if tokens != [] {
      var init := tokens[..|tokens| - 1];
      FrequencyPositive(init, noiseWords, k);
      assert forall i :: 0 <= i < |init| ==> init[i] == tokens[i];
    }
  }

  /** One step of loadKeyWords' table for a token whose keyword is `word`: no keyword
      changes nothing; a keyword already in the table has its count raised by one; a
      new keyword enters with count 1. */
  function Count(docFile: string, counts: map<string, Occurrence>, word: Option<string>): map<string, Occurrence>
  {
    match word
    case None => counts
    case Some(w) => counts[w := Occurrence(docFile, if w in counts then counts[w].frequency + 1 else 1)]
  }

  /** What loadKeyWords returns for a document, built token by token as it builds its
      table. */
  function KeywordCounts(docFile: string, tokens: seq<string>, noiseWords: set<string>): map<string, Occurrence>
  {
    if tokens == [] then map[]
    else Count(docFile, KeywordCounts(docFile, tokens[..|tokens| - 1], noiseWords), GetKeyWord(tokens[|tokens| - 1], noiseWords))
  }

  /** The table holds a word exactly when some token yields it, and then maps it to an
      occurrence in this document whose frequency is the number of tokens yielding it. */
  lemma {:induction false} KeywordCountsAt(docFile: string, tokens: seq<string>, noiseWords: set<string>, k: string)
    ensures var kws := KeywordCounts(docFile, tokens, noiseWords);
            (k in kws <==> Frequency(tokens, noiseWords, k) > 0) &&
            (k in kws ==> kws[k] == Occurrence(docFile, Frequency(tokens, noiseWords, k)))
  {
    if tokens != [] {
      KeywordCountsAt(docFile, tokens[..|tokens| - 1], noiseWords, k);
    }
  }

  /** The keys of loadKeyWords' table are exactly the keywords its tokens yield, and
      each maps to an occurrence in this document counting the tokens that yield it,
      at least one. */
  lemma KeywordCountsKeys(docFile: string, tokens: seq<string>, noiseWords: set<string>, k: string)
    ensures var kws := KeywordCounts(docFile, tokens, noiseWords);
            (k in kws <==> exists i :: 0 <= i < |tokens| && GetKeyWord(tokens[i], noiseWords) == Some(k)) &&
            (k in kws ==> kws[k].document == docFile && kws[k].frequency == Frequency(tokens, noiseWords, k) &&
                          kws[k].frequency >= 1)
  {
    KeywordCountsAt(docFile, tokens, noiseWords, k);
    FrequencyPositive(tokens, noiseWords, k);
  }

  /** Every occurrence in the table names the document and counts at least one token. */
  lemma {:induction false} KeywordCountsDocument(docFile: string, tokens: seq<string>, noiseWords: set<string>, w: string)
    ensures var kws := KeywordCounts(docFile, tokens, noiseWords);
            w in kws ==> kws[w].document == docFile && kws[w].frequency >= 1
  {
    if tokens != [] {
      KeywordCountsDocument(docFile, tokens[..|tokens| - 1], noiseWords, w);
    }
  }

  /** One more token changes the table by one Count step: KeywordCounts unfolded once
      at the end of a longer token sequence, which the token loop of loadKeyWords
      needs as it extends its table. */
  lemma KeywordCountsSnoc(docFile: string, tokens: seq<string>, t: string, noiseWords: set<string>)
    ensures KeywordCounts(docFile, tokens + [t], noiseWords) ==
              Count(docFile, KeywordCounts(docFile, tokens, noiseWords), GetKeyWord(t, noiseWords))
  {
    assert (tokens + [t])[..|tokens|] == tokens;
  }

  /** The tokens of the first `n + 1` lines are those of the first `n` lines, followed
      by the pieces of line `n` unless it is blank. */
  lemma DocumentTokensSnoc(lines: seq<string>, n: nat)
    requires n < |lines|
    ensures DocumentTokens(lines[..n + 1]) ==
              if IsBlank(lines[n]) then DocumentTokens(lines[..n])
              else DocumentTokens(lines[..n]) + SplitOnSpace(lines[n])
  {
    assert lines[..n + 1][..n] == lines[..n];
    if IsBlank(lines[n]) {
      assert DocumentTokens(lines[..n]) + [] == DocumentTokens(lines[..n]);
    }
  }
}
