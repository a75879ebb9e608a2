/** The binary search of `bnrySrch`, as the sequence of midpoints it probes. */
module BinarySearch {

  /** Frequencies at positions lo..hi never increase. */
  ghost predicate DescendingOn(f: seq<int>, lo: int, hi: int)
    requires 0 <= lo && hi < |f|
  {
    forall i, j :: lo <= i < j <= hi ==> f[i] >= f[j]
  }

  /** Every position lo..hi before `p` holds more than `key`, every one from `p` on
      holds less: `p` is where `key` belongs in a descending f[lo..hi]. */
  ghost predicate SplitsAt(f: seq<int>, key: int, lo: int, hi: int, p: int)
    requires 0 <= lo && hi < |f|
  {
    lo <= p <= hi + 1 &&
    (forall i :: lo <= i < p ==> f[i] > key) &&
    (forall i :: p <= i <= hi ==> f[i] < key)
  }

  /** Entries of f[min..max] before `lo` hold more than the key and entries after `hi`
      hold less: the bracket `bnrySrch` keeps around the part still to search. */
  ghost predicate Bracketed(f: seq<int>, key: int, min: int, max: int, lo: int, hi: int)
    requires 0 <= min && max < |f|
  {
    (forall i :: min <= i <= max && i < lo ==> f[i] > key) &&
    (forall i :: min <= i <= max && hi < i ==> f[i] < key)
  }

  /** A proof device, not part of the search: the midpoint `(min + max) / 2` of a
      non-empty range of non-negative indices, found by moving both ends inward so
      that proofs about the search need no division. MidHalves shows it is the
      quotient Java computes, and the BnrySrch loop itself divides. */
  function Mid(lo: int, hi: int): (mid: int)
    requires 0 <= lo <= hi
    ensures lo <= mid <= hi
    decreases hi - lo
  {
    if hi - lo < 2 then lo else Mid(lo + 1, hi - 1)
  }

  /** Mid is the quotient (lo + hi) / 2, which truncates and floors alike here
      because both bounds are non-negative. */
  lemma {:induction false} MidHalves(lo: int, hi: int)
    requires 0 <= lo <= hi
    ensures Mid(lo, hi) == (lo + hi) / 2
    decreases hi - lo
  {
    if hi - lo >= 2 {
      MidHalves(lo + 1, hi - 1);
    }
  }

  /** The midpoints already `visited`, followed by those the search of f[lo..hi] for
      `key` visits: a midpoint holding less than `key` moves the upper bound below it,
      one holding more moves the lower bound above it, and one holding `key` ends the
      search. */
  function Trace(f: seq<int>, key: int, lo: int, hi: int, visited: seq<int>): seq<int>
    requires 0 <= lo && hi < |f|
    decreases hi + 1 - lo
  {
    if hi < lo then visited
    else
      var mid := Mid(lo, hi);
      if f[mid] < key then Trace(f, key, lo, mid - 1, visited + [mid])
      else if f[mid] > key then Trace(f, key, mid + 1, hi, visited + [mid])
      else visited + [mid]
  }

  /** The midpoints `bnrySrch(f, key, lo, hi)` visits, in order. */
  function Probes(f: seq<int>, key: int, lo: int, hi: int): seq<int>
    requires 0 <= lo && hi < |f|
  {
    Trace(f, key, lo, hi, [])
  }

  /** Where the search of a non-empty f[lo..hi] ends: its last midpoint. */
  function LastProbe(f: seq<int>, key: int, lo: int, hi: int): (m: int)
    requires 0 <= lo <= hi < |f|
    ensures lo <= m <= hi
    decreases hi - lo
  {
    var mid := Mid(lo, hi);
    if f[mid] < key && lo <= mid - 1 then LastProbe(f, key, lo, mid - 1)
    else if f[mid] > key && mid + 1 <= hi then LastProbe(f, key, mid + 1, hi)
    else mid
  }

  /** The search only appends to what was visited before it, and appends something
      exactly when its range is not empty. */
  lemma {:induction false} TraceExtends(f: seq<int>, key: int, lo: int, hi: int, visited: seq<int>)
    requires 0 <= lo && hi < |f|
    ensures var t := Trace(f, key, lo, hi, visited);
            |t| >= |visited| && t[..|visited|] == visited && (|t| == |visited| <==> hi < lo)
    decreases hi + 1 - lo
  {
    if lo <= hi {
      var mid := Mid(lo, hi);
      var v := visited + [mid];
      if f[mid] < key {
        TraceExtends(f, key, lo, mid - 1, v);
      } else if f[mid] > key {
        TraceExtends(f, key, mid + 1, hi, v);
      }
      var t := Trace(f, key, lo, hi, visited);
      assert t[..|v|] == v;
      assert t[..|visited|] == v[..|visited|];
    }
  }

  /** Every midpoint the search visits lies in its range, and every one but the last
      holds a value other than the key: the search stops at the first midpoint that
      equals the key. */
  lemma {:induction false} TraceInRange(f: seq<int>, key: int, lo: int, hi: int, visited: seq<int>)
    requires 0 <= lo && hi < |f|
    ensures var t := Trace(f, key, lo, hi, visited);
            forall k :: |visited| <= k < |t| ==> lo <= t[k] <= hi && (k < |t| - 1 ==> f[t[k]] != key)
    decreases hi + 1 - lo
  {
    if lo <= hi {
      var mid := Mid(lo, hi);
      var v := visited + [mid];
      var t := Trace(f, key, lo, hi, visited);
      if f[mid] < key {
        TraceInRange(f, key, lo, mid - 1, v);
        TraceExtends(f, key, lo, mid - 1, v);
        assert t[|visited|] == v[|visited|];
      } else if f[mid] > key {
        TraceInRange(f, key, mid + 1, hi, v);
        TraceExtends(f, key, mid + 1, hi, v);
        assert t[|visited|] == v[|visited|];
      }
    }
  }

  /** A search of a non-empty range visits at least one midpoint, and the last one it
      visits is LastProbe. */
  lemma {:induction false} TraceEndsAtLastProbe(f: seq<int>, key: int, lo: int, hi: int, visited: seq<int>)
    requires 0 <= lo <= hi < |f|
    ensures var t := Trace(f, key, lo, hi, visited);
            |t| > |visited| && t[|t| - 1] == LastProbe(f, key, lo, hi)
    decreases hi - lo
  {
    var mid := Mid(lo, hi);
    var v := visited + [mid];
    if f[mid] < key && lo <= mid - 1 {
      TraceEndsAtLastProbe(f, key, lo, mid - 1, v);
    } else if f[mid] > key && mid + 1 <= hi {
      TraceEndsAtLastProbe(f, key, mid + 1, hi, v);
    }
  }

  /** The trace of the whole search: empty exactly for an empty range, inside the
      range, stopping at the first midpoint equal to the key, and ending at LastProbe. */
  lemma ProbesShape(f: seq<int>, key: int, lo: int, hi: int)
    requires 0 <= lo && hi < |f|
    ensures var mids := Probes(f, key, lo, hi);
            (mids == [] <==> hi < lo) &&
            (forall k :: 0 <= k < |mids| ==> lo <= mids[k] <= hi) &&
            (forall k :: 0 <= k < |mids| - 1 ==> f[mids[k]] != key) &&
            (lo <= hi ==> mids[|mids| - 1] == LastProbe(f, key, lo, hi))
  {
    TraceExtends(f, key, lo, hi, []);
    TraceInRange(f, key, lo, hi, []);
    if lo <= hi {
      TraceEndsAtLastProbe(f, key, lo, hi, []);
    }
  }

  /** Moving a bound past a midpoint that holds too little or too much keeps the
      bracket on a descending range. */
  lemma BracketNarrows(f: seq<int>, key: int, min: int, max: int, lo: int, hi: int, mid: int)
    requires 0 <= min <= lo <= mid <= hi <= max < |f|
    requires DescendingOn(f, min, max) && Bracketed(f, key, min, max, lo, hi)
    ensures f[mid] < key ==> Bracketed(f, key, min, max, lo, mid - 1)
    ensures f[mid] > key ==> Bracketed(f, key, min, max, mid + 1, hi)
  {
    if f[mid] < key {
      forall i | mid <= i <= hi ensures f[i] < key {
        assert f[mid] >= f[i];
      }
    } else if f[mid] > key {
      forall i | lo <= i <= mid ensures f[i] > key {
        assert f[i] >= f[mid];
      }
    }
  }

  /** A bracket with nothing left inside it says where the key belongs. */
  lemma BracketClosed(f: seq<int>, key: int, min: int, max: int, p: int)
    requires 0 <= min <= p <= max + 1 && max < |f|
    requires Bracketed(f, key, min, max, p, p - 1)
    ensures SplitsAt(f, key, min, max, p)
  {
  }

  /** On a descending f[min..max], a search whose last midpoint `m` held less than the
      key places the key at that midpoint, and one whose last midpoint held more places
      it just after. (Stated from any bracketed sub-range lo..hi of the search.) */
  lemma {:induction false} LastProbeBrackets(f: seq<int>, key: int, min: int, max: int, lo: int, hi: int, m: int)
    requires 0 <= min <= lo <= hi <= max < |f|
    requires DescendingOn(f, min, max) && Bracketed(f, key, min, max, lo, hi)
    requires m == LastProbe(f, key, lo, hi)
    ensures f[m] < key ==> SplitsAt(f, key, min, max, m)
    ensures f[m] > key ==> SplitsAt(f, key, min, max, m + 1)
    decreases hi - lo
  {
    var mid := Mid(lo, hi);
    BracketNarrows(f, key, min, max, lo, hi, mid);
    if f[mid] < key && lo <= mid - 1 {
      LastProbeBrackets(f, key, min, max, lo, mid - 1, m);
    } else if f[mid] > key && mid + 1 <= hi {
      LastProbeBrackets(f, key, min, max, mid + 1, hi, m);
    } else if f[mid] < key {
      BracketClosed(f, key, min, max, m);
    } else if f[mid] > key {
      BracketClosed(f, key, min, max, m + 1);
    }
  }

  /** `bnrySrch`: the loop on `min`/`max`, recording each midpoint. It returns the
      trace Probes describes; on a descending range it keeps every entry before its
      lower bound above the key and every entry after its upper bound below it, so the
      last midpoint, unless it holds the key, is where the key belongs or just before. */
  method BnrySrch(arraylist: seq<int>, key: int, min: int, max: int) returns (mids: seq<int>)
    requires 0 <= min && max < |arraylist|
    ensures mids == Probes(arraylist, key, min, max)
    ensures forall k :: 0 <= k < |mids| ==> min <= mids[k] <= max
    ensures DescendingOn(arraylist, min, max) && mids != [] ==>
              var m := mids[|mids| - 1];
              (arraylist[m] < key ==> SplitsAt(arraylist, key, min, max, m)) &&
              (arraylist[m] > key ==> SplitsAt(arraylist, key, min, max, m + 1))
  {
    ProbesShape(arraylist, key, min, max);
    var lo, hi := min, max;
    mids := [];
    while hi >= lo
      invariant min <= lo && hi <= max
      invariant Trace(arraylist, key, lo, hi, mids) == Probes(arraylist, key, min, max)
      invariant mids != [] ==> min <= mids[|mids| - 1] <= max
      invariant mids != [] && arraylist[mids[|mids| - 1]] < key ==>
                  hi == mids[|mids| - 1] - 1 && lo <= mids[|mids| - 1]
      invariant mids != [] && arraylist[mids[|mids| - 1]] > key ==>
                  lo == mids[|mids| - 1] + 1 && hi >= mids[|mids| - 1]
      invariant DescendingOn(arraylist, min, max) ==> Bracketed(arraylist, key, min, max, lo, hi)
      decreases hi - lo
    {
      var mid := (lo + hi) / 2;
      MidHalves(lo, hi);
      if DescendingOn(arraylist, min, max) {
        BracketNarrows(arraylist, key, min, max, lo, hi, mid);
      }
      mids := mids + [mid];
      if arraylist[mid] < key {
        hi := mid - 1;
      } else if arraylist[mid] > key {
        lo := mid + 1;
      } else {
        break;
      }
    }
  }
}
