/** Folding one document's keyword occurrences into the index (`mergeKeyWords`). */
module Merging {
  import opened Wrappers
  import opened Occurrences
  import opened BinarySearch

  /** The last midpoint insertLastOccurrence reports for `list + [occ]`: the search
      runs over the frequencies of `list` for the frequency of `occ`. */
  function LastMid(list: seq<Occurrence>, occ: Occurrence): (m: int)
    requires list != []
    ensures 0 <= m < |list|
  {
    LastProbe(Freqs(list), occ.frequency, 0, |list| - 1)
  }

  /** `insertLastOccurrence`: copies the frequencies of all but the last occurrence and
      searches them for the last one's frequency, returning the midpoints probed; it
      moves nothing. An empty list has no last occurrence, and Java's `get(-1)` fails. */
  method InsertLastOccurrence(occurrences: seq<Occurrence>) returns (r: Result<seq<int>>)
    ensures occurrences == [] <==> r == Failure(IndexOutOfBounds)
    ensures occurrences != [] ==>
              var n := |occurrences|;
              r == Success(Probes(Freqs(occurrences[..n - 1]), occurrences[n - 1].frequency, 0, n - 2))
    ensures |occurrences| == 1 ==> r == Success([])
    ensures |occurrences| >= 2 ==>
              var n := |occurrences|;
              r.Success? && r.value != [] &&
              r.value[|r.value| - 1] == LastMid(occurrences[..n - 1], occurrences[n - 1])
  {
    var arrayint: seq<int> := [];
    var i := 0;
    while i < |occurrences| - 1
      invariant 0 <= i && (i == 0 || i <= |occurrences| - 1)
      invariant |arrayint| == i
      invariant forall k :: 0 <= k < i ==> arrayint[k] == occurrences[k].frequency
    {
      arrayint := arrayint + [occurrences[i].frequency];
      i := i + 1;
    }
    if |occurrences| == 0 {
      return Failure(IndexOutOfBounds);
    }
    var n := |occurrences|;
    assert arrayint == Freqs(occurrences[..n - 1]);
    var val := occurrences[n - 1].frequency;
    var mids := BnrySrch(arrayint, val, 0, |arrayint| - 1);
    ProbesShape(arrayint, val, 0, |arrayint| - 1);
    r := Success(mids);
  }

  /** The position mergeKeyWords gives the new occurrence, from the last midpoint and
      four branch-specific adjustments: a one-element list, a last midpoint at the end,
      a last midpoint at the front, and the general case that uses the midpoint as is. */
  function MergeIndex(list: seq<Occurrence>, occ: Occurrence): (i: nat)
    requires list != []
    ensures i <= |list|
  {
    var n := |list|;
    var last := LastMid(list, occ);
    if n == 1 then
      if list[0].frequency > occ.frequency then n else last
    else if last == n - 1 then
      if occ.frequency <= list[n - 1].frequency then n else last
    else if last == 0 then
      if occ.frequency >= list[0].frequency then 0 else 1
    else last
  }

  /** The list mergeKeyWords stores for a keyword already in the index: the old list
      with the new occurrence inserted once and the old elements in their old order. */
  function MergedList(list: seq<Occurrence>, occ: Occurrence): (r: seq<Occurrence>)
    requires list != []
    ensures |r| == |list| + 1
    ensures r[MergeIndex(list, occ)] == occ
    ensures r[..MergeIndex(list, occ)] + r[MergeIndex(list, occ) + 1..] == list
    ensures multiset(r) == multiset(list) + multiset{occ}
  {
    var i := MergeIndex(list, occ);
    assert list == list[..i] + list[i..];
    InsertAt(list, i, occ)
  }

  /** The general branch: the last midpoint lies strictly inside a list of two or more. */
  predicate InGeneralBranch(list: seq<Occurrence>, occ: Occurrence)
    requires list != []
  {
    var last := LastMid(list, occ);
    |list| >= 2 && 0 < last < |list| - 1
  }

  /** The position mergeKeyWords chooses fits the new occurrence except in the general
      branch after a last midpoint with a higher frequency. */
  lemma MergeIndexFits(list: seq<Occurrence>, occ: Occurrence)
    requires list != [] && Descending(list)
    ensures FitsAt(list, MergeIndex(list, occ), occ) <==>
              !(InGeneralBranch(list, occ) && list[LastMid(list, occ)].frequency > occ.frequency)
  {
    var f := Freqs(list);
    var n := |list|;
    var last := LastMid(list, occ);
    var key := occ.frequency;
    assert DescendingOn(f, 0, n - 1) by {
      forall a, b | 0 <= a < b <= n - 1 ensures f[a] >= f[b] {
        assert list[a].frequency >= list[b].frequency;
      }
    }
    LastProbeBrackets(f, key, 0, n - 1, 0, n - 1, last);
    if f[last] < key {
      assert last > 0 ==> f[last - 1] > key;
    } else if f[last] > key {
      assert last + 1 < n ==> f[last + 1] < key;
    } else {
      assert last > 0 ==> f[last - 1] >= key;
      assert last + 1 < n ==> f[last + 1] <= key;
    }
  }

  /** Merging keeps a descending list descending in every branch but one: in the general
      branch, when the last midpoint held a higher frequency than the new occurrence,
      the occurrence lands one place too early. */
  lemma MergedListDescending(list: seq<Occurrence>, occ: Occurrence)
    requires list != [] && Descending(list)
    ensures Descending(MergedList(list, occ)) <==>
              !(InGeneralBranch(list, occ) && list[LastMid(list, occ)].frequency > occ.frequency)
  {
    MergeIndexFits(list, occ);
    InsertAtDescending(list, MergeIndex(list, occ), occ);
  }

  /** Searching [10, 8, 6, 4, 2] for 7 probes 2 (6 < 7), then 0 (10 > 7), then 1
      (8 > 7), and stops with the bounds crossed. */
  lemma SampleProbes()
    ensures Probes([10, 8, 6, 4, 2], 7, 0, 4) == [2, 0, 1]
  {
    var f := [10, 8, 6, 4, 2];
    assert Mid(0, 4) == 2 by { assert Mid(1, 3) == Mid(2, 2); }
    assert Trace(f, 7, 0, 4, []) == Trace(f, 7, 0, 1, [2]);
    assert Trace(f, 7, 0, 1, [2]) == Trace(f, 7, 1, 1, [2, 0]);
    assert Trace(f, 7, 1, 1, [2, 0]) == Trace(f, 7, 2, 1, [2, 0, 1]);
  }

  /** The last midpoint of that search is 1, the position of 8. */
  lemma SampleLastMid(a: string, b: string, c: string, d: string, e: string, x: string)
    ensures LastMid([Occurrence(a, 10), Occurrence(b, 8), Occurrence(c, 6),
                     Occurrence(d, 4), Occurrence(e, 2)], Occurrence(x, 7)) == 1
  {
    var f := Freqs([Occurrence(a, 10), Occurrence(b, 8), Occurrence(c, 6),
                    Occurrence(d, 4), Occurrence(e, 2)]);
    assert f == [10, 8, 6, 4, 2];
    assert Mid(0, 4) == 2 by { assert Mid(1, 3) == Mid(2, 2); }
    assert LastProbe(f, 7, 0, 4) == LastProbe(f, 7, 0, 1);
    assert LastProbe(f, 7, 0, 1) == LastProbe(f, 7, 1, 1);
  }

  /** The frequencies [10, 8, 6, 4, 2] are in descending order. */
  lemma SampleDescending(a: string, b: string, c: string, d: string, e: string)
    ensures Descending([Occurrence(a, 10), Occurrence(b, 8), Occurrence(c, 6),
                        Occurrence(d, 4), Occurrence(e, 2)])
  {
  }

  /** Inserting at position 1 of a five-element list. */
  lemma InsertSecond(list: seq<Occurrence>, x: Occurrence)
    requires |list| == 5
    ensures InsertAt(list, 1, x) == [list[0], x, list[1], list[2], list[3], list[4]]
  {
    var r := InsertAt(list, 1, x);
    forall k | 0 <= k < 6
      ensures r[k] == [list[0], x, list[1], list[2], list[3], list[4]][k]
    {
      InsertAtIndex(list, 1, x, k);
    }
  }

  /** Merging 7 into frequencies [10, 8, 6, 4, 2] puts 7 before 8, whatever the
      documents are called: the descending order is lost. */
  lemma MergeBreaksOrder(a: string, b: string, c: string, d: string, e: string, x: string)
    ensures var list := [Occurrence(a, 10), Occurrence(b, 8), Occurrence(c, 6),
                         Occurrence(d, 4), Occurrence(e, 2)];
            Descending(list) &&
            MergedList(list, Occurrence(x, 7)) ==
              [list[0], Occurrence(x, 7), list[1], list[2], list[3], list[4]] &&
            !Descending(MergedList(list, Occurrence(x, 7)))
  {
    var list := [Occurrence(a, 10), Occurrence(b, 8), Occurrence(c, 6),
                 Occurrence(d, 4), Occurrence(e, 2)];
    var occ := Occurrence(x, 7);
    SampleDescending(a, b, c, d, e);
    SampleLastMid(a, b, c, d, e, x);
    InsertSecond(list, occ);
    var r := MergedList(list, occ);
    assert r[1].frequency < r[2].frequency;
  }

  /** `mergeKeyWords` for a keyword already indexed: it appends the occurrence, asks
      insertLastOccurrence for the midpoints, copies the old list back out and inserts
      the occurrence where PlaceOccurrence says. */
  method MergeOccurrence(list: seq<Occurrence>, occurrence: Occurrence) returns (updated: seq<Occurrence>)
    requires list != []
    ensures updated == MergedList(list, occurrence)
  {
    var extended := list + [occurrence];
    var result := InsertLastOccurrence(extended);
    assert extended[..|extended| - 1] == list;
    var mids := result.value;
    var copy: seq<Occurrence> := [];
    var i := 0;
    while i < |extended| - 1
      invariant 0 <= i <= |extended| - 1
      invariant copy == extended[..i]
    {
      copy := copy + [extended[i]];
      i := i + 1;
    }
    updated := PlaceOccurrence(copy, occurrence, mids[|mids| - 1]);
  }

  /** The four branches of mergeKeyWords that place the new occurrence, given the last
      midpoint `last` of the search: after a one-element list holding more, at the end
      after a last midpoint at the end holding at least as much, at the front after a
      last midpoint at the front holding at most as much, just after the front for a
      last midpoint at the front holding more, and at the last midpoint otherwise. */
  method PlaceOccurrence(list: seq<Occurrence>, occurrence: Occurrence, last: int) returns (updated: seq<Occurrence>)
    requires list != [] && last == LastMid(list, occurrence)
    ensures updated == MergedList(list, occurrence)
  {
    updated := list;
    if |updated| == 1 {
      if updated[0].frequency > occurrence.frequency {
        AppendIsInsert(updated, occurrence);
        updated := updated + [occurrence];
      } else {
        updated := InsertAt(updated, last, occurrence);
      }
    } else if last == |updated| - 1 {
      if occurrence.frequency <= updated[|updated| - 1].frequency {
        AppendIsInsert(updated, occurrence);
        updated := updated + [occurrence];
      } else {
        updated := InsertAt(updated, last, occurrence);
      }
    } else if last == 0 {
      if occurrence.frequency >= updated[0].frequency {
        PrependIsInsert(updated, occurrence);
        updated := [occurrence] + updated;
      } else {
        updated := InsertAt(updated, 1, occurrence);
      }
    } else {
      updated := InsertAt(updated, last, occurrence);
    }
  }

  /** Appending is inserting at the end. */
  lemma AppendIsInsert(list: seq<Occurrence>, x: Occurrence)
    ensures list + [x] == InsertAt(list, |list|, x)
  {
  }

  /** Prepending is inserting at the front. */
  lemma PrependIsInsert(list: seq<Occurrence>, x: Occurrence)
    ensures [x] + list == InsertAt(list, 0, x)
  {
  }

  /** What mergeKeyWords leaves under keyword `k`: a keyword new to the index gets a
      one-element list, a keyword already there gets MergedList, and a keyword the
      document lacks keeps its list. */
  function MergedEntry(index: map<string, seq<Occurrence>>, kws: map<string, Occurrence>, k: string): (list: seq<Occurrence>)
    requires NonEmptyLists(index) && (k in index || k in kws)
    ensures list != []
  {
    if k in kws then (if k in index then MergedList(index[k], kws[k]) else [kws[k]])
    else index[k]
  }

  /** The index after mergeKeyWords. */
  function MergedIndex(index: map<string, seq<Occurrence>>, kws: map<string, Occurrence>): (r: map<string, seq<Occurrence>>)
    requires NonEmptyLists(index)
    ensures r.Keys == index.Keys + kws.Keys
    ensures NonEmptyLists(r)
  {
    map k | k in index.Keys + kws.Keys :: MergedEntry(index, kws, k)
  }

  /** `current` is `index` with the keywords in `done` merged and the others untouched:
      the state of mergeKeyWords' loop part-way through the document's keywords. */
  ghost predicate PartlyMerged(index: map<string, seq<Occurrence>>, kws: map<string, Occurrence>,
                               done: set<string>, current: map<string, seq<Occurrence>>)
    requires NonEmptyLists(index)
  {
    done <= kws.Keys &&
    current.Keys == index.Keys + done &&
    forall k :: k in current ==> current[k] == if k in done then MergedEntry(index, kws, k) else index[k]
  }

  /** Merging one more keyword extends the merged part by that keyword. */
  lemma PartlyMergedStep(index: map<string, seq<Occurrence>>, kws: map<string, Occurrence>,
                         done: set<string>, current: map<string, seq<Occurrence>>, key: string)
    requires NonEmptyLists(index) && PartlyMerged(index, kws, done, current)
    requires key in kws && key !in done
    ensures PartlyMerged(index, kws, done + {key}, current[key := MergedEntry(index, kws, key)])
  {
  }

  /** With every keyword merged, the state is MergedIndex. */
  lemma PartlyMergedAll(index: map<string, seq<Occurrence>>, kws: map<string, Occurrence>,
                        current: map<string, seq<Occurrence>>)
    requires NonEmptyLists(index) && PartlyMerged(index, kws, kws.Keys, current)
    ensures current == MergedIndex(index, kws)
  {
  }

  /** mergeKeyWords' effect on one keyword: one the document lacks keeps its list (or
      stays absent), one new to the index gets a one-element list, and one already
      there gets its old list with the new occurrence inserted at a single position. */
  lemma MergedIndexEntries(index: map<string, seq<Occurrence>>, kws: map<string, Occurrence>, k: string)
    requires NonEmptyLists(index)
    ensures var r := MergedIndex(index, kws);
            (k !in kws ==> (k in r <==> k in index) && (k in index ==> r[k] == index[k])) &&
            (k in kws && k !in index ==> r[k] == [kws[k]]) &&
            (k in kws && k in index ==>
               exists i :: 0 <= i <= |index[k]| && r[k] == InsertAt(index[k], i, kws[k]))
  {
    if k in kws && k in index {
      var i := MergeIndex(index[k], kws[k]);
      assert MergedIndex(index, kws)[k] == InsertAt(index[k], i, kws[k]);
    }
  }

  /** Merging loses and invents nothing: a keyword's list afterwards holds exactly its
      old occurrences plus the document's occurrence of it, if any. */
  lemma MergedIndexPostings(index: map<string, seq<Occurrence>>, kws: map<string, Occurrence>, k: string)
    requires NonEmptyLists(index)
    ensures multiset(Postings(MergedIndex(index, kws), k)) ==
              multiset(Postings(index, k)) + (if k in kws then multiset{kws[k]} else multiset{})
  {
    if k in kws && k !in index {
      assert multiset([kws[k]]) == multiset{kws[k]};
    }
  }
}
