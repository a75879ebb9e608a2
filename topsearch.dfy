/** The "kw1 or kw2" search of `top5search`, as a pure function of the index. */
module TopSearch {
  import opened Wrappers
  import opened Occurrences

  /** The most documents a search returns. */
  const Limit := 5

  /** The state of the two-list merge: the next position in each list and the
      document names gathered so far. */
  datatype Cursor = Cursor(i: nat, j: nat, result: seq<string>)

  /** No document name appears twice. */
  ghost predicate Distinct(names: seq<string>)
  {
    forall a, b :: 0 <= a < b < |names| ==> names[a] != names[b]
  }

  /** Every document among the first `n` occurrences of `list` has been gathered. */
  ghost predicate Covered(list: seq<Occurrence>, n: nat, result: seq<string>)
    requires n <= |list|
  {
    forall k :: 0 <= k < n ==> list[k].document in result
  }

  /** One pass of the merge loop with both positions inside their lists: the strictly
      more frequent head is taken if it is new; otherwise (a tie, or the more frequent
      head already taken) the kw1 head is taken if new and skipped if not, and then the
      kw2 head is taken if new and there is room, skipped if already taken, and kept
      for the next pass when the result is full. */
  function Step(l1: seq<Occurrence>, l2: seq<Occurrence>, c: Cursor): (d: Cursor)
    requires c.i < |l1| && c.j < |l2|
    ensures c.i <= d.i <= c.i + 1 && c.j <= d.j <= c.j + 1 && d.i + d.j > c.i + c.j
    ensures |c.result| < Limit ==> |d.result| <= Limit
  {
    var o1, o2 := l1[c.i], l2[c.j];
    if o1.frequency > o2.frequency && o1.document !in c.result then
      Cursor(c.i + 1, c.j, c.result + [o1.document])
    else if o1.frequency < o2.frequency && o2.document !in c.result then
      Cursor(c.i, c.j + 1, c.result + [o2.document])
    else
      var r1 := if o1.document !in c.result then c.result + [o1.document] else c.result;
      if o2.document !in r1 then
        if |r1| < Limit then Cursor(c.i + 1, c.j + 1, r1 + [o2.document])
        else Cursor(c.i + 1, c.j, r1)
      else Cursor(c.i + 1, c.j + 1, r1)
  }

  /** The merge loop from cursor `c`: it runs while either list has entries left and
      fewer than five documents are gathered, and fails as soon as it runs with one
      list already used up, because the loop body reads the head of both lists. */
  function Merge(l1: seq<Occurrence>, l2: seq<Occurrence>, c: Cursor): Result<seq<string>>
    requires c.i <= |l1| && c.j <= |l2|
    decreases |l1| + |l2| - c.i - c.j
  {
    if !((c.i < |l1| || c.j < |l2|) && |c.result| < Limit) then Success(c.result)
    else if c.i >= |l1| || c.j >= |l2| then Failure(IndexOutOfBounds)
    else Merge(l1, l2, Step(l1, l2, c))
  }

  /** The smaller of two numbers. */
  function Min(a: int, b: int): (m: int)
    ensures m <= a && m <= b && (m == a || m == b)
  {
    if a <= b then a else b
  }

  /** `top5search(kw1, kw2)`: nothing when neither keyword is indexed, the first five
      documents of the one that is when only one is, and the merge of both lists
      otherwise. */
  function Top5(index: map<string, seq<Occurrence>>, kw1: string, kw2: string): Result<seq<string>>
  {
    if kw1 !in index && kw2 !in index then Success([])
    else if kw1 !in index then Success(Docs(index[kw2][..Min(Limit, |index[kw2]|)]))
    else if kw2 !in index then Success(Docs(index[kw1][..Min(Limit, |index[kw1]|)]))
    else Merge(index[kw1], index[kw2], Cursor(0, 0, []))
  }

  /** A step only appends to the gathered documents, and only documents not gathered
      yet, so a duplicate-free result stays duplicate-free. */
  lemma StepAppendsNew(l1: seq<Occurrence>, l2: seq<Occurrence>, c: Cursor)
    requires c.i < |l1| && c.j < |l2|
    ensures var d := Step(l1, l2, c);
            |d.result| >= |c.result| && d.result[..|c.result|] == c.result &&
            (Distinct(c.result) ==> Distinct(d.result))
  {
  }

  /** A step gathers only the heads of the two lists, and every head it moves past
      is gathered. */
  lemma StepCovers(l1: seq<Occurrence>, l2: seq<Occurrence>, c: Cursor)
    requires c.i < |l1| && c.j < |l2|
    requires Covered(l1, c.i, c.result) && Covered(l2, c.j, c.result)
    ensures var d := Step(l1, l2, c);
            Covered(l1, d.i, d.result) && Covered(l2, d.j, d.result) &&
            forall x :: x in d.result ==> x in c.result || x == l1[c.i].document || x == l2[c.j].document
  {
  }

  /** The merge never gathers more than five documents, and never gathers one twice. */
  lemma {:induction false} MergeBounded(l1: seq<Occurrence>, l2: seq<Occurrence>, c: Cursor)
    requires c.i <= |l1| && c.j <= |l2| && |c.result| <= Limit && Distinct(c.result)
    ensures var r := Merge(l1, l2, c);
            r.Success? ==> |r.value| <= Limit && Distinct(r.value)
    decreases |l1| + |l2| - c.i - c.j
  {
    if (c.i < |l1| || c.j < |l2|) && |c.result| < Limit && c.i < |l1| && c.j < |l2| {
      StepAppendsNew(l1, l2, c);
      MergeBounded(l1, l2, Step(l1, l2, c));
    }
  }

  /** Every document the merge returns comes from one of the two lists, and when it
      returns fewer than five, every document of both lists is among them. */
  lemma {:induction false} MergeCovers(l1: seq<Occurrence>, l2: seq<Occurrence>, c: Cursor)
    requires c.i <= |l1| && c.j <= |l2|
    requires Covered(l1, c.i, c.result) && Covered(l2, c.j, c.result)
    ensures var r := Merge(l1, l2, c);
            r.Success? ==>
              (forall x :: x in r.value ==> x in c.result || x in Docs(l1) || x in Docs(l2)) &&
              (|r.value| < Limit ==> Covered(l1, |l1|, r.value) && Covered(l2, |l2|, r.value))
    decreases |l1| + |l2| - c.i - c.j
  {
    if (c.i < |l1| || c.j < |l2|) && |c.result| < Limit && c.i < |l1| && c.j < |l2| {
      var d := Step(l1, l2, c);
      StepCovers(l1, l2, c);
      MergeCovers(l1, l2, d);
      assert l1[c.i].document == Docs(l1)[c.i];
      assert l2[c.j].document == Docs(l2)[c.j];
    }
  }

  /** The answer to a search holds at most five documents; when both keywords are
      indexed it holds no document twice, only documents of their lists, and, when it
      holds fewer than five, every document of both lists. */
  lemma Top5Bounded(index: map<string, seq<Occurrence>>, kw1: string, kw2: string)
    ensures Top5(index, kw1, kw2).Success? ==> |Top5(index, kw1, kw2).value| <= Limit
    ensures kw1 in index && kw2 in index && Top5(index, kw1, kw2).Success? ==>
              var r := Top5(index, kw1, kw2).value;
              Distinct(r) &&
              (forall x :: x in r ==> x in Docs(index[kw1]) || x in Docs(index[kw2])) &&
              (|r| < Limit ==>
                 (forall x :: x in Docs(index[kw1]) ==> x in r) &&
                 (forall x :: x in Docs(index[kw2]) ==> x in r))
  {
    if kw1 in index && kw2 in index {
      var l1, l2 := index[kw1], index[kw2];
      MergeBounded(l1, l2, Cursor(0, 0, []));
      MergeCovers(l1, l2, Cursor(0, 0, []));
    }
  }

  /** A keyword that is not indexed contributes nothing: with neither indexed the
      answer is empty (not null), and with one indexed it is the first five documents
      of that keyword's list, in order. */
  lemma Top5Missing(index: map<string, seq<Occurrence>>, kw1: string, kw2: string)
    ensures kw1 !in index && kw2 !in index ==> Top5(index, kw1, kw2) == Success([])
    ensures kw1 !in index && kw2 in index ==>
              Top5(index, kw1, kw2).Success? &&
              var r := Top5(index, kw1, kw2).value;
              |r| == Min(Limit, |index[kw2]|) &&
              forall k :: 0 <= k < |r| ==> r[k] == index[kw2][k].document
    ensures kw1 in index && kw2 !in index ==>
              Top5(index, kw1, kw2).Success? &&
              var r := Top5(index, kw1, kw2).value;
              |r| == Min(Limit, |index[kw1]|) &&
              forall k :: 0 <= k < |r| ==> r[k] == index[kw1][k].document
  {
  }

  /** Ties go to kw1: with equal frequencies and two new, different documents, kw1's
      document is gathered first and kw2's right after it. A one-pass illustration
      of Step's tie branch, read off its definition; across passes the two lists can
      still interleave (TiesInterleave). */
  lemma TieFavoursFirst(l1: seq<Occurrence>, l2: seq<Occurrence>, c: Cursor)
    requires c.i < |l1| && c.j < |l2| && |c.result| + 2 <= Limit
    requires l1[c.i].frequency == l2[c.j].frequency
    requires l1[c.i].document != l2[c.j].document
    requires l1[c.i].document !in c.result && l2[c.j].document !in c.result
    ensures Step(l1, l2, c) == Cursor(c.i + 1, c.j + 1, c.result + [l1[c.i].document, l2[c.j].document])
  {
    assert c.result + [l1[c.i].document] + [l2[c.j].document] ==
           c.result + [l1[c.i].document, l2[c.j].document];
  }

  /** A strictly more frequent new head is gathered alone, whichever list it is in.
      A one-pass illustration of Step's first two branches, read off its definition. */
  lemma HigherFirst(l1: seq<Occurrence>, l2: seq<Occurrence>, c: Cursor)
    requires c.i < |l1| && c.j < |l2|
    ensures l1[c.i].frequency > l2[c.j].frequency && l1[c.i].document !in c.result ==>
              Step(l1, l2, c) == Cursor(c.i + 1, c.j, c.result + [l1[c.i].document])
    ensures l1[c.i].frequency < l2[c.j].frequency && l2[c.j].document !in c.result ==>
              Step(l1, l2, c) == Cursor(c.i, c.j + 1, c.result + [l2[c.j].document])
  {
  }

  /** A head already gathered does not block the other list: when kw1's head is taken
      already, kw2's head is gathered next even if its frequency is lower, with both
      positions moving on. A one-pass illustration of Step's last branch, read off its
      definition. */
  lemma TakenHeadSkipped(l1: seq<Occurrence>, l2: seq<Occurrence>, c: Cursor)
    requires c.i < |l1| && c.j < |l2| && |c.result| < Limit
    requires l1[c.i].document in c.result && l2[c.j].document !in c.result
    requires l1[c.i].frequency >= l2[c.j].frequency
    ensures Step(l1, l2, c) == Cursor(c.i + 1, c.j + 1, c.result + [l2[c.j].document])
  {
  }

  /** Two one-entry lists with different frequencies make the search fail, whether or
      not they name the same document: the more frequent document is gathered, and the
      next pass reads past the end of its list. */
  lemma SinglesOfDifferentFrequencyFail(index: map<string, seq<Occurrence>>, kw1: string, kw2: string)
    requires kw1 in index && kw2 in index && |index[kw1]| == 1 && |index[kw2]| == 1
    requires index[kw1][0].frequency != index[kw2][0].frequency
    ensures Top5(index, kw1, kw2) == Failure(IndexOutOfBounds)
  {
    var l1, l2 := index[kw1], index[kw2];
    var d := Step(l1, l2, Cursor(0, 0, []));
    assert d.i + d.j == 1;
    assert Merge(l1, l2, d) == Failure(IndexOutOfBounds);
  }

  /** Searching lists [(d1, 5), (d2, 3)] and [(d3, 5), (d4, 1)] gathers d1 and d3 on the
      tie, then d2, and then fails reading past the end of the first list. */
  lemma TwoPairsFail()
    ensures Top5(map["kw1" := [Occurrence("d1", 5), Occurrence("d2", 3)],
                     "kw2" := [Occurrence("d3", 5), Occurrence("d4", 1)]], "kw1", "kw2")
            == Failure(IndexOutOfBounds)
  {
    var l1 := [Occurrence("d1", 5), Occurrence("d2", 3)];
    var l2 := [Occurrence("d3", 5), Occurrence("d4", 1)];
    var index := map["kw1" := l1, "kw2" := l2];
    assert index["kw1"] == l1 && index["kw2"] == l2;
    var c1 := Step(l1, l2, Cursor(0, 0, []));
    assert c1 == Cursor(1, 1, ["d1", "d3"]);
    var c2 := Step(l1, l2, c1);
    assert c2 == Cursor(2, 1, ["d1", "d3", "d2"]);
    assert Merge(l1, l2, c2) == Failure(IndexOutOfBounds);
  }

  /** kw1 with [(a, 5), (b, 4), (e, 1)] and kw2 with [(a, 6), (c, 2), (d, 1)] give
      a, c, b, e, d, whatever the five documents are called: once a is gathered from
      kw2, the tie-breaking branch skips kw1's a and takes kw2's c (frequency 2) ahead
      of kw1's b (frequency 4), so the answer is not in descending order of frequency. */
  lemma SharedDocumentBreaksOrder(index: map<string, seq<Occurrence>>, kw1: string, kw2: string,
                                  a: string, b: string, c: string, d: string, e: string)
    requires kw1 in index && kw2 in index
    requires index[kw1] == [Occurrence(a, 5), Occurrence(b, 4), Occurrence(e, 1)]
    requires index[kw2] == [Occurrence(a, 6), Occurrence(c, 2), Occurrence(d, 1)]
    requires a != b && a != c && a != d && a != e && b != c && b != d && b != e
    requires c != d && c != e && d != e
    ensures Top5(index, kw1, kw2) == Success([a, c, b, e, d])
  {
    var l1, l2 := index[kw1], index[kw2];
    var c1 := Step(l1, l2, Cursor(0, 0, []));
    assert c1 == Cursor(0, 1, [a]);
    var c2 := Step(l1, l2, c1);
    assert c2 == Cursor(1, 2, [a, c]);
    var c3 := Step(l1, l2, c2);
    assert c3 == Cursor(2, 2, [a, c, b]);
    var c4 := Step(l1, l2, c3);
    assert c4 == Cursor(3, 3, [a, c, b, e, d]);
    assert Merge(l1, l2, c3) == Merge(l1, l2, c4) == Success(c4.result);
    assert Merge(l1, l2, c1) == Merge(l1, l2, c2) == Merge(l1, l2, c3);
  }

  /** kw1 with [(x, 1), (d1, 1)] and kw2 with [(d2, 1), (y, 1)] give x, d2, d1, y for
      any four distinct documents: a tie takes kw1's head and then kw2's in the same
      pass, so kw2's d2 comes before kw1's d1 at the same frequency, although ties are
      to be broken in favour of the first keyword. This happens with both lists
      descending and no document shared. */
  lemma TiesInterleave(index: map<string, seq<Occurrence>>, kw1: string, kw2: string,
                       x: string, d1: string, d2: string, y: string)
    requires kw1 in index && kw2 in index
    requires index[kw1] == [Occurrence(x, 1), Occurrence(d1, 1)]
    requires index[kw2] == [Occurrence(d2, 1), Occurrence(y, 1)]
    requires x != d1 && x != d2 && x != y && d1 != d2 && d1 != y && d2 != y
    ensures Top5(index, kw1, kw2) == Success([x, d2, d1, y])
  {
    var l1, l2 := index[kw1], index[kw2];
    var c1 := Step(l1, l2, Cursor(0, 0, []));
    assert c1 == Cursor(1, 1, [x, d2]);
    var c2 := Step(l1, l2, c1);
    assert c2 == Cursor(2, 2, [x, d2, d1, y]);
    assert Merge(l1, l2, c1) == Merge(l1, l2, c2) == Success(c2.result);
  }

  /** No document appears twice within either list or in both lists. */
  ghost predicate SeparateDocs(l1: seq<Occurrence>, l2: seq<Occurrence>)
  {
    (forall a, b :: 0 <= a < b < |l1| ==> l1[a].document != l1[b].document) &&
    (forall a, b :: 0 <= a < b < |l2| ==> l2[a].document != l2[b].document) &&
    (forall a, b :: 0 <= a < |l1| && 0 <= b < |l2| ==> l1[a].document != l2[b].document)
  }

  /** The names are those of the occurrences `taken`, which come from the two lists and
      have non-increasing frequencies. */
  ghost predicate Ranked(l1: seq<Occurrence>, l2: seq<Occurrence>, taken: seq<Occurrence>, names: seq<string>)
  {
    Docs(taken) == names && Descending(taken) &&
    forall k :: 0 <= k < |taken| ==> taken[k] in l1 || taken[k] in l2
  }

  /** Every gathered document sits at a position the cursor has already passed. */
  ghost predicate Gathered(l1: seq<Occurrence>, l2: seq<Occurrence>, c: Cursor)
    requires c.i <= |l1| && c.j <= |l2|
  {
    forall x :: x in c.result ==>
      (exists a :: 0 <= a < c.i && l1[a].document == x) ||
      (exists b :: 0 <= b < c.j && l2[b].document == x)
  }

  /** The state of the merge so far, ranked by `taken`, with no frequency still to come
      above the last one taken. */
  ghost predicate OrderedSoFar(l1: seq<Occurrence>, l2: seq<Occurrence>, c: Cursor, taken: seq<Occurrence>)
    requires c.i <= |l1| && c.j <= |l2|
  {
    Ranked(l1, l2, taken, c.result) && Gathered(l1, l2, c) &&
    (taken != [] && c.i < |l1| ==> taken[|taken| - 1].frequency >= l1[c.i].frequency) &&
    (taken != [] && c.j < |l2| ==> taken[|taken| - 1].frequency >= l2[c.j].frequency)
  }

  /** With separate documents neither head has been gathered yet. */
  lemma HeadsNew(l1: seq<Occurrence>, l2: seq<Occurrence>, c: Cursor)
    requires c.i < |l1| && c.j < |l2| && SeparateDocs(l1, l2) && Gathered(l1, l2, c)
    ensures l1[c.i].document !in c.result && l2[c.j].document !in c.result
    ensures l1[c.i].document != l2[c.j].document
  {
  }

  /** Taking one more occurrence, no more frequent than the last one taken, keeps the
      occurrences ranked. */
  lemma RankedSnoc(l1: seq<Occurrence>, l2: seq<Occurrence>, taken: seq<Occurrence>, names: seq<string>, o: Occurrence)
    requires Ranked(l1, l2, taken, names) && (o in l1 || o in l2)
    requires taken != [] ==> taken[|taken| - 1].frequency >= o.frequency
    ensures Ranked(l1, l2, taken + [o], names + [o.document])
  {
    var t := taken + [o];
    forall a, b | 0 <= a < b < |t| ensures t[a].frequency >= t[b].frequency {
      if b == |taken| {
        assert taken[a].frequency >= taken[|taken| - 1].frequency;
      }
    }
    assert Docs(t) == names + [o.document];
  }

  /** One pass over descending lists with separate documents keeps the merge ordered. */
  lemma StepOrdered(l1: seq<Occurrence>, l2: seq<Occurrence>, c: Cursor, taken: seq<Occurrence>)
    returns (next: seq<Occurrence>)
    requires c.i < |l1| && c.j < |l2|
    requires Descending(l1) && Descending(l2) && SeparateDocs(l1, l2)
    requires OrderedSoFar(l1, l2, c, taken)
    ensures var d := Step(l1, l2, c); d.i <= |l1| && d.j <= |l2| && OrderedSoFar(l1, l2, d, next)
  {
    var o1, o2 := l1[c.i], l2[c.j];
    HeadsNew(l1, l2, c);
    var d := Step(l1, l2, c);
    if o1.frequency > o2.frequency {
      RankedSnoc(l1, l2, taken, c.result, o1);
      next := taken + [o1];
    } else if o1.frequency < o2.frequency {
      RankedSnoc(l1, l2, taken, c.result, o2);
      next := taken + [o2];
    } else if |c.result| + 1 < Limit {
      RankedSnoc(l1, l2, taken, c.result, o1);
      RankedSnoc(l1, l2, taken + [o1], c.result + [o1.document], o2);
      next := taken + [o1] + [o2];
    } else {
      RankedSnoc(l1, l2, taken, c.result, o1);
      next := taken + [o1];
    }
    assert d.i < |l1| ==> l1[d.i].frequency <= l1[c.i].frequency;
    assert d.j < |l2| ==> l2[d.j].frequency <= l2[c.j].frequency;
    StepGathered(l1, l2, c);
  }

  /** A pass gathers only the heads it moves past. */
  lemma StepGathered(l1: seq<Occurrence>, l2: seq<Occurrence>, c: Cursor)
    requires c.i < |l1| && c.j < |l2| && Gathered(l1, l2, c)
    ensures var d := Step(l1, l2, c); d.i <= |l1| && d.j <= |l2| && Gathered(l1, l2, d)
  {
    var d := Step(l1, l2, c);
    assert forall x :: x in d.result ==>
             x in c.result || (x == l1[c.i].document && d.i == c.i + 1) ||
             (x == l2[c.j].document && d.j == c.j + 1);
    forall x | x in d.result
      ensures (exists a :: 0 <= a < d.i && l1[a].document == x) ||
              (exists b :: 0 <= b < d.j && l2[b].document == x)
    {
      if x in c.result {
      } else if x == l1[c.i].document && d.i == c.i + 1 {
        assert l1[c.i].document == x;
      } else {
        assert l2[c.j].document == x;
      }
    }
  }

  /** From an ordered state, a successful merge of descending lists with separate
      documents returns its documents in non-increasing frequency. */
  lemma {:induction false} MergeOrdered(l1: seq<Occurrence>, l2: seq<Occurrence>, c: Cursor, taken: seq<Occurrence>)
    requires c.i <= |l1| && c.j <= |l2|
    requires Descending(l1) && Descending(l2) && SeparateDocs(l1, l2)
    requires OrderedSoFar(l1, l2, c, taken)
    ensures Merge(l1, l2, c).Success? ==> exists t :: Ranked(l1, l2, t, Merge(l1, l2, c).value)
    decreases |l1| + |l2| - c.i - c.j
  {
    if (c.i < |l1| || c.j < |l2|) && |c.result| < Limit && c.i < |l1| && c.j < |l2| {
      var next := StepOrdered(l1, l2, c, taken);
      MergeOrdered(l1, l2, Step(l1, l2, c), next);
    } else if Merge(l1, l2, c).Success? {
      assert Ranked(l1, l2, taken, Merge(l1, l2, c).value);
    }
  }

  /** Where the promised order does hold: when each indexed list is descending and,
      with both keywords indexed, no document appears twice among their lists, a
      successful search returns documents of those lists in non-increasing frequency. */
  lemma Top5Ordered(index: map<string, seq<Occurrence>>, kw1: string, kw2: string)
    requires kw1 in index ==> Descending(index[kw1])
    requires kw2 in index ==> Descending(index[kw2])
    requires kw1 in index && kw2 in index ==> SeparateDocs(index[kw1], index[kw2])
    ensures Top5(index, kw1, kw2).Success? ==>
              exists t :: Ranked(Postings(index, kw1), Postings(index, kw2), t, Top5(index, kw1, kw2).value)
  {
    var p1, p2 := Postings(index, kw1), Postings(index, kw2);
    if kw1 in index && kw2 in index {
      MergeOrdered(p1, p2, Cursor(0, 0, []), []);
    } else if kw1 in index || kw2 in index {
      var l := if kw1 in index then p1 else p2;
      var t := l[..Min(Limit, |l|)];
      assert Docs(t) == Top5(index, kw1, kw2).value;
      assert Descending(t) by {
        forall a, b | 0 <= a < b < |t| ensures t[a].frequency >= t[b].frequency {
          assert t[a] == l[a] && t[b] == l[b];
        }
      }
      forall k | 0 <= k < |t| ensures t[k] in p1 || t[k] in p2 {
        assert t[k] == l[k];
      }
      assert Ranked(p1, p2, t, Top5(index, kw1, kw2).value);
    } else {
      assert Ranked(p1, p2, [], Top5(index, kw1, kw2).value);
    }
  }

  /** Frequencies strictly fall from one position of the list to a later one. */
  ghost predicate StrictlyDescending(occs: seq<Occurrence>)
  {
    forall i, j :: 0 <= i < j < |occs| ==> occs[i].frequency > occs[j].frequency
  }

  /** Ties are broken in favour of the first keyword: wherever a document of the second
      list appears among `names`, every document of the first list with the same
      frequency appears before it. */
  ghost predicate TiesBrokenForFirst(l1: seq<Occurrence>, l2: seq<Occurrence>, names: seq<string>)
  {
    forall q, a, b ::
      (0 <= q < |names| && 0 <= a < |l1| && 0 <= b < |l2| &&
       names[q] == l2[b].document && l1[a].frequency == l2[b].frequency) ==>
      l1[a].document in names[..q]
  }

  /** One pass keeps ties broken for the first keyword when the first list strictly
      descends and no document is shared: kw2's head is taken either because it is
      more frequent than kw1's head, so every kw1 occurrence of its frequency has been
      passed already, or on a tie, where kw1's head goes first. */
  lemma StepTiesBroken(l1: seq<Occurrence>, l2: seq<Occurrence>, c: Cursor)
    requires c.i < |l1| && c.j < |l2|
    requires StrictlyDescending(l1) && SeparateDocs(l1, l2)
    requires Gathered(l1, l2, c) && Covered(l1, c.i, c.result)
    requires TiesBrokenForFirst(l1, l2, c.result)
    ensures TiesBrokenForFirst(l1, l2, Step(l1, l2, c).result)
  {
    var o1, o2 := l1[c.i], l2[c.j];
    HeadsNew(l1, l2, c);
    StepAppendsNew(l1, l2, c);
    var d := Step(l1, l2, c);
    var n := |c.result|;
    forall q, a, b | 0 <= q < |d.result| && 0 <= a < |l1| && 0 <= b < |l2| &&
                     d.result[q] == l2[b].document && l1[a].frequency == l2[b].frequency
      ensures l1[a].document in d.result[..q]
    {
      if q < n {
        assert d.result[..q] == c.result[..q];
      } else {
        assert d.result[q] == o2.document;
        assert b == c.j;
        if a < c.i {
          assert l1[a].document in c.result;
          assert d.result[..q][..n] == c.result;
        } else {
          assert a == c.i && d.result[n] == o1.document;
        }
      }
    }
  }

  /** From a state with ties broken for the first keyword, a successful merge keeps
      them so. */
  lemma {:induction false} MergeTiesBroken(l1: seq<Occurrence>, l2: seq<Occurrence>, c: Cursor)
    requires c.i <= |l1| && c.j <= |l2|
    requires StrictlyDescending(l1) && SeparateDocs(l1, l2)
    requires Gathered(l1, l2, c) && Covered(l1, c.i, c.result) && Covered(l2, c.j, c.result)
    requires TiesBrokenForFirst(l1, l2, c.result)
    ensures Merge(l1, l2, c).Success? ==> TiesBrokenForFirst(l1, l2, Merge(l1, l2, c).value)
    decreases |l1| + |l2| - c.i - c.j
  {
    if (c.i < |l1| || c.j < |l2|) && |c.result| < Limit && c.i < |l1| && c.j < |l2| {
      StepTiesBroken(l1, l2, c);
      StepGathered(l1, l2, c);
      StepCovers(l1, l2, c);
      MergeTiesBroken(l1, l2, Step(l1, l2, c));
    }
  }

  /** Where the tie-breaking promise does hold: when kw1's list strictly descends and
      no document is in both lists, a kw2 document in the answer comes after every kw1
      document of the same frequency. With only one keyword indexed there is nothing
      to break. */
  lemma Top5TiesBroken(index: map<string, seq<Occurrence>>, kw1: string, kw2: string)
    requires kw1 in index && kw2 in index ==>
               StrictlyDescending(index[kw1]) && SeparateDocs(index[kw1], index[kw2])
    ensures Top5(index, kw1, kw2).Success? ==>
              TiesBrokenForFirst(Postings(index, kw1), Postings(index, kw2), Top5(index, kw1, kw2).value)
  {
    if kw1 in index && kw2 in index {
      MergeTiesBroken(index[kw1], index[kw2], Cursor(0, 0, []));
    }
  }
}
