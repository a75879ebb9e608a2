/** Occurrences of a keyword in documents, and the occurrence lists kept in the index. */
module Occurrences {

  /** One keyword's count in one document. */
  datatype Occurrence = Occurrence(document: string, frequency: int)

  /** The frequencies of a list of occurrences, position by position. */
  function Freqs(occs: seq<Occurrence>): (f: seq<int>)
    ensures |f| == |occs|
    ensures forall i :: 0 <= i < |occs| ==> f[i] == occs[i].frequency
  {
    seq(|occs|, i requires 0 <= i < |occs| => occs[i].frequency)
  }

  /** The document names of a list of occurrences, position by position. */
  function Docs(occs: seq<Occurrence>): (d: seq<string>)
    ensures |d| == |occs|
    ensures forall i :: 0 <= i < |occs| ==> d[i] == occs[i].document
  {
    seq(|occs|, i requires 0 <= i < |occs| => occs[i].document)
  }

  /** Frequencies never increase from one position of the list to a later one. */
  ghost predicate Descending(occs: seq<Occurrence>)
  {
    forall i, j :: 0 <= i < j < |occs| ==> occs[i].frequency >= occs[j].frequency
  }

  /** `s` with `x` inserted so that it ends up at position `i` (ArrayList.add(i, x)). */
  function InsertAt<T>(s: seq<T>, i: nat, x: T): (r: seq<T>)
    requires i <= |s|
    ensures |r| == |s| + 1 && r[i] == x
    ensures r[..i] + r[i + 1..] == s
  {
    s[..i] + [x] + s[i..]
  }

  /** Position `k` of InsertAt(s, i, x): an old element before `i`, the new one at
      `i`, and the old element one place back after `i`. */
  lemma InsertAtIndex(s: seq<Occurrence>, i: nat, x: Occurrence, k: nat)
    requires i <= |s| && k <= |s|
    ensures InsertAt(s, i, x)[k] == if k < i then s[k] else if k == i then x else s[k - 1]
  {
  }

  /** One pair of positions of a descending list with a fitting element inserted. */
  lemma InsertAtPair(s: seq<Occurrence>, i: nat, x: Occurrence, a: nat, b: nat)
    requires i <= |s| && Descending(s) && a < b <= |s|
    requires (i == 0 || s[i - 1].frequency >= x.frequency) && (i == |s| || x.frequency >= s[i].frequency)
    ensures InsertAt(s, i, x)[a].frequency >= InsertAt(s, i, x)[b].frequency
  {
    InsertAtIndex(s, i, x, a);
    InsertAtIndex(s, i, x, b);
    if a < i && b == i {
      assert s[a].frequency >= s[i - 1].frequency;
    } else if a == i && b > i {
      assert s[i].frequency >= s[b - 1].frequency;
    }
  }

  /** The new occurrence is no larger than its left neighbour and no smaller than its
      right one at position `i`. */
  ghost predicate FitsAt(list: seq<Occurrence>, i: nat, occ: Occurrence)
    requires i <= |list|
  {
    (i == 0 || list[i - 1].frequency >= occ.frequency) &&
    (i == |list| || occ.frequency >= list[i].frequency)
  }

  /** Inserting into a descending list keeps it descending exactly when the new
      element is no larger than its left neighbour and no smaller than its right one. */
  lemma InsertAtDescending(s: seq<Occurrence>, i: nat, x: Occurrence)
    requires i <= |s| && Descending(s)
    ensures Descending(InsertAt(s, i, x)) <==> FitsAt(s, i, x)
  {
    var r := InsertAt(s, i, x);
    if (i == 0 || s[i - 1].frequency >= x.frequency) && (i == |s| || x.frequency >= s[i].frequency) {
      forall a, b | 0 <= a < b < |r| ensures r[a].frequency >= r[b].frequency {
        InsertAtPair(s, i, x, a, b);
      }
    } else if i > 0 && s[i - 1].frequency < x.frequency {
      InsertAtIndex(s, i, x, i - 1);
      InsertAtIndex(s, i, x, i);
    } else {
      InsertAtIndex(s, i, x, i);
      InsertAtIndex(s, i, x, i + 1);
    }
  }

  /** The index is a map from keyword to a non-empty occurrence list. */
  ghost predicate NonEmptyLists(index: map<string, seq<Occurrence>>)
  {
    forall k :: k in index ==> index[k] != []
  }

  /** The occurrence list of `k`, empty when `k` is not indexed. */
  function Postings(index: map<string, seq<Occurrence>>, k: string): seq<Occurrence>
  {
    if k in index then index[k] else []
  }
}
