# LittleSearchEngine in Dafny

A model of the keyword index behind LittleSearchEngine
(`src/search/LittleSearchEngine.java`), with proofs about it.

The engine works in two phases.

- **Indexing** (`makeIndex`).
  1. Read the noise words.
  2. For each document: `loadKeyWords` reads it line by line, splits the non-blank lines on
     single spaces and turns each token into a keyword with `getKeyWord` (or into none). It
     counts the keywords in a table of `Occurrence(document, frequency)`.
  3. `mergeKeyWords` folds that table into `keywordsIndex`. An existing keyword's list gets
     the new occurrence inserted at a position chosen from the midpoints visited by a binary
     search over the list's frequencies (`insertLastOccurrence` / `bnrySrch`), followed by
     four branch-specific adjustments.
- **Querying** (`top5search`). Answers "kw1 or kw2" by merging the two keywords' occurrence
  lists into at most five distinct document names.

## Layout

Each module gives a pure specification of one part of the engine, and the engine's loops
are methods proved equal to those specifications.

| file | module | contents |
|---|---|---|
| `wrappers.dfy` | `Wrappers` | `Option` (Java's `null`), `Result`/`Outcome`, and the two exceptions the code can raise |
| `occurrences.dfy` | `Occurrences` | `Occurrence`, `Descending`, `InsertAt` (`ArrayList.add(i, x)`) and its order lemmas |
| `keywords.dfy` | `Keywords` | `checkPunct` and `getKeyWord` as functions over the `bef`/`mid`/`aft` scans |
| `loading.dfy` | `Loading` | splitting lines, and `KeywordCounts`: the table loadKeyWords builds, as a token-by-token fold |
| `binary_search.dfy` | `BinarySearch` | the midpoint trace of `bnrySrch`, its bracket invariant, and the `BnrySrch` loop |
| `merging.dfy` | `Merging` | `insertLastOccurrence`, the four-branch placement and `MergedIndex` |
| `topsearch.dfy` | `TopSearch` | the `top5search` merge as a step function `Step` and its fold `Merge` |
| `indexing.dfy` | `Indexing` | the `makeIndex` document loop as the fold `IndexDocuments` |
| `engine.dfy` | `Engine` | class `SearchEngine`, with fields `keywordsIndex` and `noiseWords` and methods mirroring the Java ones |

## Where the code and its comments disagree

The model follows the code. Each difference below is proved.

- **The index is not always kept in descending order.** The comment at
  `LittleSearchEngine.java:52-57` promises a descending order. But the general branch of
  mergeKeyWords (`:227-230`) inserts at the last midpoint even when that midpoint held a
  higher frequency.
  - `Merging.MergedListDescending` proves order is kept exactly when this case does not arise.
  - `Merging.MergeBreaksOrder` shows that merging 7 into frequencies `[10, 8, 6, 4, 2]`
    gives `[10, 7, 8, 6, 4, 2]`.
- **top5search can throw.** Its loop reads the head of both lists on every pass (`:455`,
  `:462`, `:471`, `:483`). A pass that starts with one list used up, while fewer than five
  documents are gathered, reads past the end. The model returns `Failure(IndexOutOfBounds)`
  there.
  - `TopSearch.SinglesOfDifferentFrequencyFail` shows this for any two one-element lists
    with different frequencies, whether or not they name the same document.
  - `TopSearch.TwoPairsFail` shows it for `[(d1,5),(d2,3)]` and `[(d3,5),(d4,1)]`.
- **top5search does not always answer in descending order of frequency.** The comments
  at `:402-403` and `:411-412` promise that order. But when one document is in both
  lists, the else branch (`:469-496`: a tie, or the more frequent head already taken)
  skips the copy already gathered and takes the other list's head, even when it is less
  frequent than heads still waiting.
  - `TopSearch.SharedDocumentBreaksOrder`: kw1 with `[(a,5),(b,4),(e,1)]` and kw2 with
    `[(a,6),(c,2),(d,1)]` give `a, c, b, e, d` for any five distinct document names, so
    c (2) comes before b (4).
  - `TopSearch.Top5Ordered` proves where the promise does hold. If each indexed list is
    descending and no document appears twice across the two lists, a successful search
    returns documents in non-increasing frequency.
- **Ties are not always broken in favour of the first keyword.** The comment at
  `:404-406` promises that when kw1 is in doc1 and kw2 in doc2 with the same frequency,
  doc1 comes before doc2. But a tie (`:469-491`) takes kw1's head and then kw2's head in
  the same pass, so the two lists interleave.
  - `TopSearch.TiesInterleave`: kw1 with `[(x,1),(d1,1)]` and kw2 with `[(d2,1),(y,1)]`
    give `x, d2, d1, y` for any four distinct documents, so kw2's d2 comes before kw1's d1.
    Both lists are descending and share no document.
  - `TopSearch.Top5TiesBroken` proves where the promise does hold. If kw1's list strictly
    descends and no document is in both lists, every kw1 document of a kw2 document's
    frequency comes before it in a successful answer.
- **Any non-letter is punctuation.** The comment at `:250-254` names six punctuation
  characters (`. , ? : ; !`). The scans at `:270` and `:278` test `Character.isLetter`,
  so digits, brackets and every other non-letter are stripped as trailing punctuation
  too. The model follows the code: `Keywords.TrailingDigitDropped` shows that "mp3"
  yields the keyword "mp".
- **Empty lists, not `null`.** The comments at `:349` and `:407` promise `null`. The code
  returns an empty list, both for a one-element list in insertLastOccurrence and for a
  search with no matching keyword. The model returns `[]` in both cases
  (`Merging.InsertLastOccurrence`, `TopSearch.Top5Missing`).
- **insertLastOccurrence moves nothing.** Despite its comment (`:340-345`), it only reports
  midpoints. mergeKeyWords does the insertion.

## Model

| member | source | states |
|---|---|---|
| Keywords.CheckPunct | src/search/LittleSearchEngine.java:327-338 | checkPunct's scan: true at the first non-letter, false at the end of the word (its meaning is proved by CheckPunctFinds) |
| Keywords.Run | src/search/LittleSearchEngine.java:268-282 | the `bef` scan (letters) and the `mid` scan (non-letters): characters are taken while they are of the requested kind; never longer than the word |
| Keywords.GetKeyWord | src/search/LittleSearchEngine.java:259-322 | getKeyWord: with punctuation, the `bef`/`mid`/`aft` split and null unless `aft` is empty, `bef` is not a noise word and not blank; without, the whole word under the same two tests; the result lower-cased |
| Keywords.CheckPunctFinds | src/search/LittleSearchEngine.java:327-338 | checkPunct answers true exactly when some character of the word is not a letter |
| Keywords.RunShape | src/search/LittleSearchEngine.java:268-282 | the `bef` scan (and the `mid` scan) is the longest prefix of letters (of non-letters): a prefix of the word, all of that kind, ending at the end of the word or at a character of the other kind |
| Keywords.NothingAfterPunctuation | src/search/LittleSearchEngine.java:268-287 | `aft` is empty exactly when no letter comes after a non-letter anywhere in the token |
| Keywords.GetKeyWordIsLowerWord | src/search/LittleSearchEngine.java:266-322 | a non-null keyword is non-empty, all lower-case letters, and the lower-cased leading letter run of the token |
| Keywords.GetKeyWordExactly | src/search/LittleSearchEngine.java:259-322 | getKeyWord returns the lower-cased letter prefix exactly when punctuation only trails it, the prefix is non-empty and its lower-case form is not a noise word; null otherwise |
| Keywords.TrailingPunctuationDropped | src/search/LittleSearchEngine.java:266-297 | "Apple." yields "apple" |
| Keywords.TrailingDigitDropped | src/search/LittleSearchEngine.java:266-297 | "mp3" yields "mp": a digit is stripped like any trailing non-letter, beyond the six characters the comment at :254 lists |
| Keywords.EmbeddedPunctuationRejected | src/search/LittleSearchEngine.java:284-302 | "don't" yields null because a letter follows the apostrophe |
| Keywords.NoLeadingLetterRejected | src/search/LittleSearchEngine.java:266-322 | "!!!" and "" yield null: no leading letter |
| Keywords.NoiseWordRejected | src/search/LittleSearchEngine.java:305-310 | "The" yields null when "the" is a noise word |
| Loading.LineTokens | src/search/LittleSearchEngine.java:120-122 | a blank line contributes no tokens, any other its space-separated pieces |
| Loading.DocumentTokens | src/search/LittleSearchEngine.java:115-122 | a document's tokens are its lines' tokens, line after line |
| Loading.Count | src/search/LittleSearchEngine.java:128-141 | one token's step on the table: nothing for no keyword, frequency + 1 for a keyword present, a new (docFile, 1) otherwise |
| Loading.KeywordCounts | src/search/LittleSearchEngine.java:124-141 | the table after counting a token sequence, one Count step per token in order (proved equal to the token loop by CountTokens and characterised by KeywordCountsKeys) |
| Loading.SplitOnSpace | src/search/LittleSearchEngine.java:122 | the pieces of a line hold no space, there is at least one, and joining them with single spaces gives back the line |
| Loading.DocumentTokensSnoc | src/search/LittleSearchEngine.java:115-124 | reading one more line adds nothing when it is blank and its space-separated pieces otherwise |
| Loading.KeywordCountsSnoc | src/search/LittleSearchEngine.java:124-141 | one more token changes the table by one counting step: nothing for no keyword, +1 for a keyword already counted, 1 for a new one |
| Loading.FrequencyPositive | src/search/LittleSearchEngine.java:124-141 | a keyword's count is positive exactly when some token yields it |
| Loading.KeywordCountsAt | src/search/LittleSearchEngine.java:124-141 | the table holds a keyword exactly when its count is positive, and then maps it to (document, count) |
| Loading.KeywordCountsDocument | src/search/LittleSearchEngine.java:130-141 | every occurrence in the table names the document being loaded and has frequency at least 1 |
| Loading.KeywordCountsKeys | src/search/LittleSearchEngine.java:120-141 | the table's keys are exactly the keywords the tokens yield; each maps to an occurrence in this document whose frequency is the number of tokens yielding it, at least 1 |
| BinarySearch.Trace | src/search/LittleSearchEngine.java:375-395 | the loop as a recursion: while max >= min, record the midpoint, then lower max below it, raise min above it, or stop on the key |
| BinarySearch.Probes | src/search/LittleSearchEngine.java:371-398 | bnrySrch's result: the trace of the whole search from no recorded midpoints |
| BinarySearch.LastProbe | src/search/LittleSearchEngine.java:375-395 | the last midpoint of a search over a non-empty range, which lies in that range |
| BinarySearch.MidHalves | src/search/LittleSearchEngine.java:377 | the midpoint used in the proofs is Java's `(min + max) / 2` |
| BinarySearch.TraceExtends | src/search/LittleSearchEngine.java:375-395 | the search only appends midpoints, and appends some exactly when its range is non-empty |
| BinarySearch.TraceInRange | src/search/LittleSearchEngine.java:375-395 | every midpoint lies in the range, and every one but the last differs from the key |
| BinarySearch.TraceEndsAtLastProbe | src/search/LittleSearchEngine.java:375-395 | a search of a non-empty range ends at LastProbe |
| BinarySearch.ProbesShape | src/search/LittleSearchEngine.java:375-395 | the trace is empty exactly for an empty range, stays inside [min, max], stops at the first midpoint equal to the key, and ends at LastProbe |
| BinarySearch.BracketNarrows | src/search/LittleSearchEngine.java:381-389 | on a descending list, moving `max` below a midpoint holding less than the key, or `min` above one holding more, keeps every entry before `min` above the key and every entry after `max` below it |
| BinarySearch.BracketClosed | src/search/LittleSearchEngine.java:375 | when the bounds cross, the bracket says exactly where the key belongs |
| BinarySearch.LastProbeBrackets | src/search/LittleSearchEngine.java:375-395 | on a descending list, a last midpoint holding less than the key is where the key belongs, and one holding more is just before it |
| BinarySearch.BnrySrch | src/search/LittleSearchEngine.java:371-398 | the loop returns exactly the trace Probes, all midpoints lie in [min, max], and on a descending list the last midpoint places the key as LastProbeBrackets says |
| Merging.SampleProbes | src/search/LittleSearchEngine.java:371-398 | searching [10, 8, 6, 4, 2] for 7 visits midpoints 2, 0, 1 |
| Merging.SampleLastMid | src/search/LittleSearchEngine.java:352-398 | the last midpoint for frequency 7 in [10, 8, 6, 4, 2] is 1 |
| Merging.InsertLastOccurrence | src/search/LittleSearchEngine.java:352-369 | an empty list fails (`get(-1)`); otherwise the result is the midpoint trace of searching the first n-1 frequencies for the last one: empty (not null) for one element, and ending at LastMid for two or more |
| Merging.LastMid | src/search/LittleSearchEngine.java:172-176 | `result.get(result.size()-1)` after appending the occurrence: the last midpoint of searching the old list's frequencies for the new one, a position of the old list |
| Merging.MergeIndex | src/search/LittleSearchEngine.java:184-230 | the insertion position of the four branches: after a one-element list holding more, at the end after a last midpoint at the end holding at least as much, at 0 or 1 after a last midpoint at the front, at the last midpoint otherwise; always within 0..n |
| Merging.MergedList | src/search/LittleSearchEngine.java:170-235 | the stored list is the old list with the new occurrence at the chosen position and the old elements in their old order, one element longer, the same multiset plus the occurrence |
| Merging.PlaceOccurrence | src/search/LittleSearchEngine.java:184-235 | the four placement branches produce MergedList |
| Merging.MergeOccurrence | src/search/LittleSearchEngine.java:172-235 | append, search, copy back and place produce MergedList |
| Merging.MergeIndexFits | src/search/LittleSearchEngine.java:184-229 | on a descending list the chosen position fits the new frequency between its neighbours exactly unless the general branch follows a last midpoint holding more |
| Merging.MergedListDescending | src/search/LittleSearchEngine.java:184-229 | merging keeps a descending list descending exactly unless the general branch follows a last midpoint holding more |
| Merging.MergeBreaksOrder | src/search/LittleSearchEngine.java:227-230 | merging 7 into [10, 8, 6, 4, 2] gives [10, 7, 8, 6, 4, 2], which is not descending |
| Merging.MergedEntry | src/search/LittleSearchEngine.java:170-243 | the list left under one keyword: a one-element list for a new keyword, MergedList for an existing one, the old list for one the document lacks; never empty |
| Merging.MergedIndex | src/search/LittleSearchEngine.java:159-246 | the merged index has as keys the old keys and the document's keywords, and every list stays non-empty |
| Merging.MergedIndexEntries | src/search/LittleSearchEngine.java:170-243 | a keyword the document lacks keeps its list, a new one gets a one-element list, an existing one gets its list with the occurrence inserted at a single position |
| Merging.MergedIndexPostings | src/search/LittleSearchEngine.java:170-243 | merging loses and invents nothing: each keyword's occurrences are its old ones plus the document's, as multisets |
| TopSearch.Step | src/search/LittleSearchEngine.java:455-497 | one pass moves at least one position forward and at most one in each list, and never takes the result past five |
| TopSearch.StepAppendsNew | src/search/LittleSearchEngine.java:455-497 | a pass only appends documents not gathered yet |
| TopSearch.StepCovers | src/search/LittleSearchEngine.java:455-497 | a pass gathers only the two heads, and every head it moves past is gathered |
| TopSearch.Merge | src/search/LittleSearchEngine.java:453-498 | the merge loop from a cursor: stop with the result once both lists are used up or five are gathered, fail when a pass starts with one list used up, otherwise one more Step |
| TopSearch.MergeBounded | src/search/LittleSearchEngine.java:453-498 | the merge gathers at most five documents, none twice |
| TopSearch.MergeCovers | src/search/LittleSearchEngine.java:453-498 | the merge gathers only documents of the two lists, and all of them when it gathers fewer than five |
| TopSearch.Top5 | src/search/LittleSearchEngine.java:415-502 | top5search: empty when neither keyword is indexed, the first min(5, n) documents of the one indexed, the merge of both lists otherwise |
| TopSearch.Top5Bounded | src/search/LittleSearchEngine.java:415-502 | a search returns at most five names; with both keywords indexed, distinct names from their lists, and all of them when fewer than five |
| TopSearch.Top5Missing | src/search/LittleSearchEngine.java:425-449 | with neither keyword indexed the answer is empty; with one, the first min(5, n) documents of its list, in order |
| TopSearch.HigherFirst | src/search/LittleSearchEngine.java:455-467 | a strictly more frequent head not yet gathered is taken alone, from either list |
| TopSearch.TieFavoursFirst | src/search/LittleSearchEngine.java:469-491 | on equal frequencies with two new documents, kw1's is added before kw2's |
| TopSearch.TakenHeadSkipped | src/search/LittleSearchEngine.java:469-496 | when kw1's head is already gathered, kw2's new head is added next even with a lower frequency |
| TopSearch.SharedDocumentBreaksOrder | src/search/LittleSearchEngine.java:453-498 | for any five distinct documents, [(a,5),(b,4),(e,1)] with [(a,6),(c,2),(d,1)] gives a, c, b, e, d: c (frequency 2) before b (frequency 4) |
| TopSearch.StepOrdered | src/search/LittleSearchEngine.java:455-497 | on descending lists with separate documents, one pass keeps the gathered documents ranked in non-increasing frequency, none below a head still to come |
| TopSearch.MergeOrdered | src/search/LittleSearchEngine.java:453-498 | on descending lists with separate documents, a successful merge returns documents of the lists in non-increasing frequency |
| TopSearch.TiesInterleave | src/search/LittleSearchEngine.java:469-491 | for any four distinct documents, [(x,1),(d1,1)] with [(d2,1),(y,1)] gives x, d2, d1, y: kw2's d2 before kw1's d1 at the same frequency, against the comment at :404-406 |
| TopSearch.StepTiesBroken | src/search/LittleSearchEngine.java:455-491 | when kw1's list strictly descends and no document is shared, one pass keeps every kw2 document after all kw1 documents of its frequency |
| TopSearch.MergeTiesBroken | src/search/LittleSearchEngine.java:453-498 | under the same conditions, a successful merge keeps ties broken in favour of kw1 |
| TopSearch.Top5TiesBroken | src/search/LittleSearchEngine.java:415-502 | when kw1's list strictly descends and no document is in both lists, a successful search puts every kw1 document before the kw2 documents of the same frequency, as the comment at :404-406 promises |
| TopSearch.Top5Ordered | src/search/LittleSearchEngine.java:415-502 | with descending lists and no document in both, a successful search returns documents of the keywords' lists in non-increasing frequency, as the comment at :402-403 promises |
| TopSearch.SinglesOfDifferentFrequencyFail | src/search/LittleSearchEngine.java:453-467 | any two one-element lists with different frequencies make the search throw, whether or not they name the same document |
| TopSearch.TwoPairsFail | src/search/LittleSearchEngine.java:453-498 | [(d1,5),(d2,3)] with [(d3,5),(d4,1)] throws after gathering d1, d3, d2 |
| Indexing.LoadedKeywords | src/search/LittleSearchEngine.java:109-118 | loadKeyWords' result: DocumentNotFound for a document not on disk, otherwise the table KeywordCounts of its tokens |
| Indexing.IndexDocuments | src/search/LittleSearchEngine.java:93-97 | the document loop: load and merge each document in order, stopping at the first missing one with the documents before it merged |
| Indexing.MergeDocumentPostings | src/search/LittleSearchEngine.java:95-96 | loading and merging one document adds exactly its occurrence of each keyword |
| Indexing.IndexDocumentsValid | src/search/LittleSearchEngine.java:93-97 | indexing keeps every keyword's list non-empty |
| Indexing.IndexDocumentsOutcome | src/search/LittleSearchEngine.java:93-97 | indexing succeeds exactly when every document exists, and otherwise reports the first missing one |
| Indexing.IndexDocumentsPostings | src/search/LittleSearchEngine.java:93-97 | when all documents exist, each keyword's list is its old occurrences plus one per document yielding it, with that document's count |
| Indexing.IndexDocumentsKeys | src/search/LittleSearchEngine.java:93-97 | when all documents exist, a keyword is indexed afterwards exactly when it was before or some document yields it |
| Engine.SearchEngine.constructor | src/search/LittleSearchEngine.java:67-70 | a new engine has an empty index and no noise words |
| Engine.SearchEngine.MakeIndex | src/search/LittleSearchEngine.java:82-99 | the noise words become the old ones plus every noise-file token; the index and outcome are the document fold IndexDocuments |
| Engine.SearchEngine.LoadKeyWords | src/search/LittleSearchEngine.java:109-148 | the line loop returns the table KeywordCounts of the document's tokens, or reports the missing document |
| Engine.SearchEngine.CountTokens | src/search/LittleSearchEngine.java:124-143 | the token loop over one line extends the table by those tokens' counting steps |
| Engine.SearchEngine.MergeKeyWords | src/search/LittleSearchEngine.java:159-246 | the index becomes MergedIndex of the old index and the table, lists stay non-empty, noise words unchanged |
| Engine.SearchEngine.Top5Search | src/search/LittleSearchEngine.java:415-502 | the method returns Top5 of the index |
| Engine.MergeLists | src/search/LittleSearchEngine.java:451-499 | the two-list loop returns the fold Merge from an empty cursor, failing where the code reads past a list |

## Left out

- The console driver (`LittleSearchEngineDriver.java`) is not part of this model.
- File access is not modelled.
  - A document on disk is an entry of `files`, a map from name to lines.
  - `FileNotFoundException` for a document is `DocumentNotFound`.
  - The noise-word file and the document-list file arrive already split into tokens, so a
    missing list file is not modelled.
- Scanner's `hasNext`/`nextLine`: every line is read. The code stops once only whitespace
  remains, but such lines are blank and are skipped anyway.
- `Character.isLetter`, `toLowerCase` and `trim` are modelled on ASCII. Letters are `a`–`z`
  and `A`–`Z`; a blank string holds only characters up to the space character.
- SplitOnSpace keeps trailing empty pieces, which `String.split` drops. An empty piece never
  yields a keyword, so the counts are the same.
- The `HashMap` capacity and load factors are left out. So is the order in which
  mergeKeyWords visits keys: MergeKeyWords picks any remaining key, and its result does not
  depend on the choice.
- The in-place steps are modelled on values.
  - `temp.frequency++` in loadKeyWords replaces the table entry with an updated
    occurrence. The mutated occurrence is reachable only through that table.
  - `array.add(occurrence)` in mergeKeyWords is modelled as building the extended list.
    That list is the one stored in `keywordsIndex`, so the append does change the index
    in place. The effect is still the same, because every branch then replaces the
    keyword's entry with a freshly built list (`:218`, `:234`).
- Java's 32-bit `int` is not modelled: frequencies and positions are unbounded. Overflow
  needs more than 2^31 tokens.
- `Occurrence.toString` is left out.
- Module-level methods: `bnrySrch`, `insertLastOccurrence`, the copy-and-place part of
  mergeKeyWords and the two-list loop of top5search read no engine field. They are
  therefore methods on values (`BinarySearch.BnrySrch`, `Merging.InsertLastOccurrence`,
  `Merging.MergeOccurrence`, `Merging.PlaceOccurrence`, `Engine.MergeLists`).
- Engine.SearchEngine.MergeKeyWords requires every list in the index to be non-empty. The
  constructor and every method establish this. The Java code would throw on an empty list
  (`result.get(-1)`).
