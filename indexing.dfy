/** Indexing a list of documents one after another (`makeIndex`), as a fold of
    loadKeyWords and mergeKeyWords over the document names. */
module Indexing {
  import opened Wrappers
  import opened Occurrences
  import opened Keywords
  import opened Loading
  import opened Merging

  /** `loadKeyWords(docFile)` when the documents on disk are `files` (name to lines):
      a missing document is reported, any other is counted. */
  function LoadedKeywords(docFile: string, files: map<string, seq<string>>, noiseWords: set<string>): Result<map<string, Occurrence>>
  {
    if docFile !in files then Failure(DocumentNotFound(docFile))
    else Success(KeywordCounts(docFile, DocumentTokens(files[docFile]), noiseWords))
  }

  /** The index reached and whether every document was found. */
  datatype Indexed = Indexed(index: map<string, seq<Occurrence>>, outcome: Outcome)

  /** The loop of makeIndex over the document names: each document is loaded and
      merged in turn, and the first one missing stops the loop, leaving the documents
      before it merged. */
  function IndexDocuments(index: map<string, seq<Occurrence>>, docs: seq<string>,
                          files: map<string, seq<string>>, noiseWords: set<string>): Indexed
    requires NonEmptyLists(index)
    decreases |docs|
  {
    if docs == [] then Indexed(index, Pass)
    else
      match LoadedKeywords(docs[0], files, noiseWords)
      case Failure(e) => Indexed(index, Fail(e))
      case Success(kws) => IndexDocuments(MergedIndex(index, kws), docs[1..], files, noiseWords)
  }

  /** The occurrence document `doc` contributes to keyword `k`: one carrying its count
      when it yields `k`, none otherwise. */
  function Contribution(doc: string, files: map<string, seq<string>>, noiseWords: set<string>, k: string): seq<Occurrence>
    requires doc in files
  {
    var f := Frequency(DocumentTokens(files[doc]), noiseWords, k);
    if f > 0 then [Occurrence(doc, f)] else []
  }

  /** The occurrences the documents `docs` contribute to keyword `k`, in order. */
  function Contributions(docs: seq<string>, files: map<string, seq<string>>, noiseWords: set<string>, k: string): seq<Occurrence>
    requires forall d :: d in docs ==> d in files
  {
    if docs == [] then []
    else Contribution(docs[0], files, noiseWords, k) + Contributions(docs[1..], files, noiseWords, k)
  }

  /** Merging one document adds exactly its contribution to each keyword's list. */
  lemma MergeDocumentPostings(index: map<string, seq<Occurrence>>, doc: string,
                              files: map<string, seq<string>>, noiseWords: set<string>, k: string)
    requires NonEmptyLists(index) && doc in files
    ensures var kws := KeywordCounts(doc, DocumentTokens(files[doc]), noiseWords);
            multiset(Postings(MergedIndex(index, kws), k)) ==
              multiset(Postings(index, k)) + multiset(Contribution(doc, files, noiseWords, k))
  {
    var kws := KeywordCounts(doc, DocumentTokens(files[doc]), noiseWords);
    MergedIndexPostings(index, kws, k);
    KeywordCountsAt(doc, DocumentTokens(files[doc]), noiseWords, k);
    var head := Contribution(doc, files, noiseWords, k);
    assert multiset(head) == if k in kws then multiset{kws[k]} else multiset{};
  }

  /** Every list in the index stays non-empty. */
  lemma {:induction false} IndexDocumentsValid(index: map<string, seq<Occurrence>>, docs: seq<string>,
                                               files: map<string, seq<string>>, noiseWords: set<string>)
    requires NonEmptyLists(index)
    ensures NonEmptyLists(IndexDocuments(index, docs, files, noiseWords).index)
    decreases |docs|
  {
    if docs != [] && docs[0] in files {
      var kws := KeywordCounts(docs[0], DocumentTokens(files[docs[0]]), noiseWords);
      IndexDocumentsValid(MergedIndex(index, kws), docs[1..], files, noiseWords);
    }
  }

  /** Indexing succeeds exactly when every document exists; otherwise it reports the
      first missing one, and the documents before it are all present. */
  lemma {:induction false} IndexDocumentsOutcome(index: map<string, seq<Occurrence>>, docs: seq<string>,
                                                 files: map<string, seq<string>>, noiseWords: set<string>)
    requires NonEmptyLists(index)
    ensures var r := IndexDocuments(index, docs, files, noiseWords);
            (r.outcome == Pass <==> forall d :: d in docs ==> d in files) &&
            (r.outcome.Fail? ==>
               exists n :: 0 <= n < |docs| && docs[n] !in files &&
                           (forall m :: 0 <= m < n ==> docs[m] in files) &&
                           r.outcome == Fail(DocumentNotFound(docs[n])))
    decreases |docs|
  {
    if docs != [] {
      if docs[0] in files {
        var kws := KeywordCounts(docs[0], DocumentTokens(files[docs[0]]), noiseWords);
        var rest := docs[1..];
        IndexDocumentsOutcome(MergedIndex(index, kws), rest, files, noiseWords);
        assert forall d :: d in docs ==> d == docs[0] || d in rest;
        var r := IndexDocuments(index, docs, files, noiseWords);
        if r.outcome.Fail? {
          var n :| 0 <= n < |rest| && rest[n] !in files &&
                   (forall m :: 0 <= m < n ==> rest[m] in files) &&
                   r.outcome == Fail(DocumentNotFound(rest[n]));
          assert docs[n + 1] == rest[n];
          assert forall m :: 0 < m < n + 1 ==> docs[m] == rest[m - 1];
        }
      } else {
        assert docs[0] !in files;
      }
    }
  }

  /** When every document exists, indexing loses and invents nothing: a keyword's list
      afterwards holds its old occurrences plus one occurrence for each document that
      yields it, with that document's count. */
  lemma {:induction false} IndexDocumentsPostings(index: map<string, seq<Occurrence>>, docs: seq<string>,
                                                  files: map<string, seq<string>>, noiseWords: set<string>, k: string)
    requires NonEmptyLists(index)
    requires forall d :: d in docs ==> d in files
    ensures multiset(Postings(IndexDocuments(index, docs, files, noiseWords).index, k)) ==
              multiset(Postings(index, k)) + multiset(Contributions(docs, files, noiseWords, k))
    decreases |docs|
  {
    if docs != [] {
      var doc := docs[0];
      var kws := KeywordCounts(doc, DocumentTokens(files[doc]), noiseWords);
      assert forall d :: d in docs[1..] ==> d in docs;
      IndexDocumentsPostings(MergedIndex(index, kws), docs[1..], files, noiseWords, k);
      MergeDocumentPostings(index, doc, files, noiseWords, k);
    }
  }

  /** When every document exists, a keyword is indexed afterwards exactly when it was
      indexed before or some document yields it. */
  lemma IndexDocumentsKeys(index: map<string, seq<Occurrence>>, docs: seq<string>,
                           files: map<string, seq<string>>, noiseWords: set<string>, k: string)
    requires NonEmptyLists(index)
    requires forall d :: d in docs ==> d in files
    ensures k in IndexDocuments(index, docs, files, noiseWords).index <==>
              k in index || Contributions(docs, files, noiseWords, k) != []
  {
    var r := IndexDocuments(index, docs, files, noiseWords).index;
    IndexDocumentsValid(index, docs, files, noiseWords);
    IndexDocumentsPostings(index, docs, files, noiseWords, k);
    var c := Contributions(docs, files, noiseWords, k);
    assert k in r <==> |multiset(Postings(r, k))| > 0;
    if c != [] {
      assert c[0] in multiset(c);
    }
    if k in index {
      assert index[k][0] in multiset(Postings(index, k));
    }
  }
}
