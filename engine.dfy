/** The search engine object: its keyword index and noise-word table, and the
    operations that fill and query them. */
module Engine {
  import opened Wrappers
  import opened Occurrences
  import opened Keywords
  import opened Loading
  import opened Merging
  import opened TopSearch
  import opened Indexing

  class SearchEngine {
    /** Each keyword mapped to its occurrences, most frequent first. */
    var keywordsIndex: map<string, seq<Occurrence>>
    /** The words never treated as keywords. */
    var noiseWords: set<string>

    /** Every indexed keyword has at least one occurrence. */
    ghost predicate Valid()
      reads this
    {
      NonEmptyLists(keywordsIndex)
    }

    /** A new engine knows no keywords and no noise words. */
    constructor()
      ensures Valid()
      ensures keywordsIndex == map[] && noiseWords == {}
    {
      keywordsIndex := map[];
      noiseWords := {};
    }

    /** `makeIndex`: records every token of the noise-word file as a noise word, then
        loads and merges each document named in the document list, in order. The two
        list files arrive already split into tokens; the documents on disk are `files`.
        The first document that cannot be found ends the run, with the documents
        before it already merged. */
    method MakeIndex(noiseWordTokens: seq<string>, docNames: seq<string>, files: map<string, seq<string>>)
      returns (outcome: Outcome)
      requires Valid()
      modifies this
      ensures Valid()
      ensures noiseWords == old(noiseWords) + set w | w in noiseWordTokens
      ensures Indexed(keywordsIndex, outcome) == IndexDocuments(old(keywordsIndex), docNames, files, noiseWords)
    {
      var n := 0;
      while n < |noiseWordTokens|
        invariant 0 <= n <= |noiseWordTokens|
        invariant noiseWords == old(noiseWords) + set w | w in noiseWordTokens[..n]
        invariant keywordsIndex == old(keywordsIndex)
      {
        assert noiseWordTokens[..n + 1] == noiseWordTokens[..n] + [noiseWordTokens[n]];
        noiseWords := noiseWords + {noiseWordTokens[n]};
        n := n + 1;
      }
      assert noiseWordTokens[..n] == noiseWordTokens;
      var d := 0;
      while d < |docNames|
        invariant 0 <= d <= |docNames|
        invariant Valid()
        invariant noiseWords == old(noiseWords) + set w | w in noiseWordTokens
        invariant IndexDocuments(keywordsIndex, docNames[d..], files, noiseWords) ==
                  IndexDocuments(old(keywordsIndex), docNames, files, noiseWords)
      {
        var kws := LoadKeyWords(docNames[d], files);
        assert docNames[d..][1..] == docNames[d + 1..];
        if kws.Failure? {
          return Fail(kws.error);
        }
        MergeKeyWords(kws.value);
        d := d + 1;
      }
      outcome := Pass;
    }

    /** `loadKeyWords`: reads the document line by line, skips blank lines, splits the
        others on spaces and counts each token's keyword in a table. The documents on
        disk are `files` (name to lines); a missing one is reported. */
    method LoadKeyWords(docFile: string, files: map<string, seq<string>>) returns (r: Result<map<string, Occurrence>>)
      ensures r == LoadedKeywords(docFile, files, noiseWords)
    {
      if docFile !in files {
        return Failure(DocumentNotFound(docFile));
      }
      var lines := files[docFile];
      var docHash: map<string, Occurrence> := map[];
      var li := 0;
      while li < |lines|
        invariant 0 <= li <= |lines|
        invariant docHash == KeywordCounts(docFile, DocumentTokens(lines[..li]), noiseWords)
      {
        var line := lines[li];
        DocumentTokensSnoc(lines, li);
        if !IsBlank(line) {
          var token := SplitOnSpace(line);
          docHash := CountTokens(docFile, docHash, DocumentTokens(lines[..li]), token);
        }
        li := li + 1;
      }
      assert lines[..|lines|] == lines;
      r := Success(docHash);
    }

    /** The token loop of loadKeyWords for one line: each token's keyword, if any, has
        its count in `docHash` raised by one in place, or enters with count 1. */
    method CountTokens(docFile: string, docHash: map<string, Occurrence>, ghost before: seq<string>, token: seq<string>)
      returns (counted: map<string, Occurrence>)
      requires docHash == KeywordCounts(docFile, before, noiseWords)
      ensures counted == KeywordCounts(docFile, before + token, noiseWords)
    {
      counted := docHash;
      ghost var seen := before;
      var ti := 0;
      while ti < |token|
        invariant 0 <= ti <= |token|
        invariant seen == before + token[..ti]
        invariant counted == KeywordCounts(docFile, seen, noiseWords)
      {
        KeywordCountsSnoc(docFile, seen, token[ti], noiseWords);
        var word := GetKeyWord(token[ti], noiseWords);
        if word.Some? {
          if word.value in counted {
            KeywordCountsDocument(docFile, seen, noiseWords, word.value);
            var temp := counted[word.value];
            temp := temp.(frequency := temp.frequency + 1);
            counted := counted[word.value := temp];
          } else {
            counted := counted[word.value := Occurrence(docFile, 1)];
          }
        }
        seen := seen + [token[ti]];
        ti := ti + 1;
      }
      assert token[..|token|] == token;
    }

    /** `mergeKeyWords`: folds one document's keyword table into the index, keyword
        by keyword; the order in which the keywords are taken does not matter. */
    method MergeKeyWords(kws: map<string, Occurrence>)
      requires Valid()
      modifies this
      ensures Valid()
      ensures keywordsIndex == MergedIndex(old(keywordsIndex), kws)
      ensures noiseWords == old(noiseWords)
    {
      var index := keywordsIndex;
      var remaining := kws.Keys;
      ghost var done: set<string> := {};
      while remaining != {}
        invariant remaining !! done && remaining + done == kws.Keys
        invariant PartlyMerged(old(keywordsIndex), kws, done, index)
        modifies {}
        decreases remaining
      {
        var key :| key in remaining;
        var occurrence := kws[key];
        var entry;
        if key in index {
          entry := MergeOccurrence(index[key], occurrence);
        } else {
          entry := [occurrence];
        }
        PartlyMergedStep(old(keywordsIndex), kws, done, index, key);
        index := index[key := entry];
        remaining := remaining - {key};
        done := done + {key};
      }
      PartlyMergedAll(old(keywordsIndex), kws, index);
      keywordsIndex := index;
    }

    /** `top5search`: the documents holding kw1 or kw2, at most five, merged from the
        two occurrence lists. */
    method Top5Search(kw1: string, kw2: string) returns (r: Result<seq<string>>)
      ensures r == Top5(keywordsIndex, kw1, kw2)
    {
      var result: seq<string> := [];
      var i, j, total := 0, 0, 0;
      if kw1 !in keywordsIndex && kw2 !in keywordsIndex {
        return Success(result);
      } else if kw1 !in keywordsIndex {
        var l2 := keywordsIndex[kw2];
        while j < |l2| && total < Limit
          invariant j <= |l2| && j <= Limit && total == j && |result| == j
          invariant forall k :: 0 <= k < j ==> result[k] == l2[k].document
        {
          result := result + [l2[j].document];
          j := j + 1;
          total := total + 1;
        }
        assert result == Docs(l2[..Min(Limit, |l2|)]);
      } else if kw2 !in keywordsIndex {
        var l1 := keywordsIndex[kw1];
        while i < |l1| && total < Limit
          invariant i <= |l1| && i <= Limit && total == i && |result| == i
          invariant forall k :: 0 <= k < i ==> result[k] == l1[k].document
        {
          result := result + [l1[i].document];
          i := i + 1;
          total := total + 1;
        }
        assert result == Docs(l1[..Min(Limit, |l1|)]);
      } else {
        r := MergeLists(keywordsIndex[kw1], keywordsIndex[kw2]);
        return;
      }
      r := Success(result);
    }
  }

  /** The loop of top5search over two occurrence lists: the head of each list is read
      on every pass, so a pass that starts with one list used up fails. */
  method MergeLists(arraylist1: seq<Occurrence>, arraylist2: seq<Occurrence>) returns (r: Result<seq<string>>)
    ensures r == Merge(arraylist1, arraylist2, Cursor(0, 0, []))
  {
    var result: seq<string> := [];
    var i, j, total := 0, 0, 0;
    while (i < |arraylist1| || j < |arraylist2|) && total < Limit
      invariant i <= |arraylist1| && j <= |arraylist2| && total == |result|
      invariant Merge(arraylist1, arraylist2, Cursor(i, j, result)) == Merge(arraylist1, arraylist2, Cursor(0, 0, []))
      decreases |arraylist1| + |arraylist2| - i - j
    {
      if i >= |arraylist1| || j >= |arraylist2| {
        return Failure(IndexOutOfBounds);
      }
      ghost var c := Cursor(i, j, result);
      var o1, o2 := arraylist1[i], arraylist2[j];
      if o1.frequency > o2.frequency && o1.document !in result {
        result := result + [o1.document];
        i := i + 1;
        total := total + 1;
      } else if o1.frequency < o2.frequency && o2.document !in result {
        result := result + [o2.document];
        j := j + 1;
        total := total + 1;
      } else {
        if o1.document !in result {
          result := result + [o1.document];
          total := total + 1;
          i := i + 1;
        } else {
          i := i + 1;
        }
        if o2.document !in result {
          if total < Limit {
            result := result + [o2.document];
            j := j + 1;
            total := total + 1;
          }
        } else {
          j := j + 1;
        }
      }
      assert Cursor(i, j, result) == Step(arraylist1, arraylist2, c);
    }
    r := Success(result);
  }
}
