/**
 The filter inside `renderPromises` (script.js lines 107-114): a record is
 shown when the active tab admits its status and the lower-cased search
 query occurs in its lower-cased promise text, politician or state.
 */
module PromiseFilter {
  import opened Text
  import opened PromiseData

  /** `activeTab === 'all' || p.status === activeTab` */
  predicate MatchesTab(p: Record, activeTab: string)
  {
    activeTab == "all" || p.status == activeTab
  }

  /** The query, lower-cased, is included in one of the three lower-cased fields. */
  predicate MatchesSearch(p: Record, searchQuery: string)
  {
    var lowerQuery := Lower(searchQuery);
    Includes(Lower(p.promise), lowerQuery) ||
    Includes(Lower(p.politician), lowerQuery) ||
    Includes(Lower(p.state), lowerQuery)
  }

  /** The arrow function passed to `PROMISES.filter`. */
  predicate Keep(p: Record, activeTab: string, searchQuery: string)
  {
    MatchesTab(p, activeTab) && MatchesSearch(p, searchQuery)
  }

  /** `Array.prototype.filter`: the elements `keep` accepts, in their original order. */
  function FilterBy<T>(ps: seq<T>, keep: T -> bool): (r: seq<T>)
    ensures |r| <= |ps|
    ensures forall p :: p in r ==> p in ps && keep(p)
  {
    if ps == [] then []
    else (if keep(ps[0]) then [ps[0]] else []) + FilterBy(ps[1..], keep)
  }

  /** `r` is the sub-list of `ps` at the strictly increasing positions `idx`. */
  ghost predicate SelectedAt<T>(r: seq<T>, ps: seq<T>, idx: seq<int>)
  {
    && |idx| == |r|
    && (forall k :: 0 <= k < |idx| ==> 0 <= idx[k] < |ps| && r[k] == ps[idx[k]])
    && (forall k, l :: 0 <= k < l < |idx| ==> idx[k] < idx[l])
  }

  /** Putting the element at a position before all selected ones in front keeps the selection in order. */
  lemma SelectedAtPrepend<T>(r: seq<T>, ps: seq<T>, idx: seq<int>, lo: nat)
    requires SelectedAt(r, ps, idx) && lo < |ps|
    requires forall k :: 0 <= k < |idx| ==> lo < idx[k]
    ensures SelectedAt([ps[lo]] + r, ps, [lo] + idx)
  {
  }

  /**
   The result of `FilterBy` on the suffix `ps[lo..]` is the sub-list of `ps`
   at the increasing positions `idx`, which are exactly the positions from
   `lo` on whose element `keep` accepts.
   */
  lemma {:induction false} FilterBySuffixSelects<T>(ps: seq<T>, keep: T -> bool, lo: nat) returns (idx: seq<int>)
    requires lo <= |ps|
    ensures SelectedAt(FilterBy(ps[lo..], keep), ps, idx)
    ensures forall k :: 0 <= k < |idx| ==> lo <= idx[k]
    ensures forall i :: lo <= i < |ps| ==> (i in idx <==> keep(ps[i]))
    decreases |ps| - lo
  {
    if lo == |ps| {
      idx := [];
    } else {
      var rest := FilterBySuffixSelects(ps, keep, lo + 1);
      var tail := FilterBy(ps[lo + 1..], keep);
      assert ps[lo..][1..] == ps[lo + 1..];
      if keep(ps[lo]) {
        assert FilterBy(ps[lo..], keep) == [ps[lo]] + tail;
        SelectedAtPrepend(tail, ps, rest, lo);
        idx := [lo] + rest;
      } else {
        assert FilterBy(ps[lo..], keep) == tail;
        idx := rest;
      }
    }
  }

  /**
   The result of `FilterBy` is an order-preserving sub-list of the input,
   taken from exactly the positions whose element `keep` accepts.
   */
  lemma FilterBySelectsInOrder<T>(ps: seq<T>, keep: T -> bool) returns (idx: seq<int>)
    ensures SelectedAt(FilterBy(ps, keep), ps, idx)
    ensures forall i :: 0 <= i < |ps| ==> (i in idx <==> keep(ps[i]))
  {
    idx := FilterBySuffixSelects(ps, keep, 0);
    assert ps[0..] == ps;
  }

  /** An element is in the result of `FilterBy` exactly when it is in the input and `keep` accepts it. */
  lemma {:induction false} FilterByMembership<T>(ps: seq<T>, keep: T -> bool, x: T)
    ensures x in FilterBy(ps, keep) <==> x in ps && keep(x)
  {
    if ps != [] {
      FilterByMembership(ps[1..], keep, x);
      assert x in ps <==> x == ps[0] || x in ps[1..];
    }
  }

  /** When `keep` accepts every element, `FilterBy` returns the input unchanged. */
  lemma {:induction false} FilterByKeepsAll<T>(ps: seq<T>, keep: T -> bool)
    requires forall i :: 0 <= i < |ps| ==> keep(ps[i])
    ensures FilterBy(ps, keep) == ps
  {
    if ps != [] {
      FilterByKeepsAll(ps[1..], keep);
      assert ps == [ps[0]] + ps[1..];
    }
  }

  /** Two predicates that agree on every element select the same elements. */
  lemma {:induction false} FilterByAgreeing<T>(ps: seq<T>, keep1: T -> bool, keep2: T -> bool)
    requires forall i :: 0 <= i < |ps| ==> keep1(ps[i]) == keep2(ps[i])
    ensures FilterBy(ps, keep1) == FilterBy(ps, keep2)
  {
    if ps != [] {
      FilterByAgreeing(ps[1..], keep1, keep2);
    }
  }

  /** Filtering an already filtered list with the same predicate changes nothing. */
  lemma FilterByIdempotent<T>(ps: seq<T>, keep: T -> bool)
    ensures FilterBy(FilterBy(ps, keep), keep) == FilterBy(ps, keep)
  {
    var r := FilterBy(ps, keep);
    forall i | 0 <= i < |r|
      ensures keep(r[i])
    {
      assert r[i] in r;
    }
    FilterByKeepsAll(r, keep);
  }

  /** Filtering distributes over concatenation. */
  lemma {:induction false} FilterByConcat<T>(a: seq<T>, b: seq<T>, keep: T -> bool)
    ensures FilterBy(a + b, keep) == FilterBy(a, keep) + FilterBy(b, keep)
  {
    if a == [] {
      assert a + b == b;
    } else {
      var head := if keep(a[0]) then [a[0]] else [];
      assert (a + b)[0] == a[0];
      assert (a + b)[1..] == a[1..] + b;
      calc {
        FilterBy(a + b, keep);
        head + FilterBy(a[1..] + b, keep);
        { FilterByConcat(a[1..], b, keep); }
        head + (FilterBy(a[1..], keep) + FilterBy(b, keep));
        (head + FilterBy(a[1..], keep)) + FilterBy(b, keep);
      }
    }
  }

  /** Filtering a list of four elements keeps each one on its own merits, in order. */
  lemma FilterByFour<T>(a: T, b: T, c: T, d: T, keep: T -> bool)
    ensures FilterBy([a, b, c, d], keep) ==
      (if keep(a) then [a] else []) + (if keep(b) then [b] else []) +
      (if keep(c) then [c] else []) + (if keep(d) then [d] else [])
  {
    assert [a, b, c, d] == [a] + [b] + [c] + [d];
    FilterByConcat([a] + [b] + [c], [d], keep);
    FilterByConcat([a] + [b], [c], keep);
    FilterByConcat([a], [b], keep);
    FilterByOne(a, keep);
    FilterByOne(b, keep);
    FilterByOne(c, keep);
    FilterByOne(d, keep);
  }

  lemma FilterByOne<T>(x: T, keep: T -> bool)
    ensures FilterBy([x], keep) == if keep(x) then [x] else []
  {
    assert [x][1..] == [];
  }

  /** `PROMISES.filter(p => ...)` as `renderPromises` computes it. */
  function Filter(ps: seq<Record>, activeTab: string, searchQuery: string): (r: seq<Record>)
    ensures |r| <= |ps|
    ensures forall p :: p in r ==> p in ps && MatchesTab(p, activeTab) && MatchesSearch(p, searchQuery)
  {
    FilterBy(ps, p => Keep(p, activeTab, searchQuery))
  }

  /**
   The shown list is an order-preserving sub-list of the input, and the
   positions it is taken from are exactly those of the records that pass
   both the tab and the search condition.
   */
  lemma FilterSelectsInOrder(ps: seq<Record>, activeTab: string, searchQuery: string)
    returns (idx: seq<int>)
    ensures SelectedAt(Filter(ps, activeTab, searchQuery), ps, idx)
    ensures forall i :: 0 <= i < |ps| ==>
      (i in idx <==> MatchesTab(ps[i], activeTab) && MatchesSearch(ps[i], searchQuery))
  {
    idx := FilterBySelectsInOrder(ps, p => Keep(p, activeTab, searchQuery));
  }

  /** A record is shown exactly when it is in the input and passes both conditions. */
  lemma FilterMembership(ps: seq<Record>, activeTab: string, searchQuery: string, x: Record)
    ensures x in Filter(ps, activeTab, searchQuery) <==>
      x in ps && MatchesTab(x, activeTab) && MatchesSearch(x, searchQuery)
  {
    FilterByMembership(ps, p => Keep(p, activeTab, searchQuery), x);
  }

  /** With a specific tab, every shown record has that status. */
  lemma FilterTabCondition(ps: seq<Record>, activeTab: string, searchQuery: string)
    requires activeTab != "all"
    ensures forall p :: p in Filter(ps, activeTab, searchQuery) ==> p.status == activeTab
  {
  }

  /** Every shown record has the lower-cased query at some position of one of its three lower-cased fields. */
  lemma FilterSearchCondition(ps: seq<Record>, activeTab: string, searchQuery: string, p: Record)
    requires p in Filter(ps, activeTab, searchQuery)
    ensures exists i ::
      || OccursAt(Lower(p.promise), Lower(searchQuery), i)
      || OccursAt(Lower(p.politician), Lower(searchQuery), i)
      || OccursAt(Lower(p.state), Lower(searchQuery), i)
  {
    IncludesIffOccurs(Lower(p.promise), Lower(searchQuery));
    IncludesIffOccurs(Lower(p.politician), Lower(searchQuery));
    IncludesIffOccurs(Lower(p.state), Lower(searchQuery));
  }

  /** Tab `"all"` with an empty query shows every record, in the original order. */
  lemma FilterShowsEverything(ps: seq<Record>)
    ensures Filter(ps, "all", "") == ps
  {
    forall i | 0 <= i < |ps|
      ensures Keep(ps[i], "all", "")
    {
      IncludesEmpty(Lower(ps[i].promise));
    }
    FilterByKeepsAll(ps, p => Keep(p, "all", ""));
  }

  /** Queries with the same lower-cased form select the same records. */
  lemma FilterDependsOnLowerQuery(ps: seq<Record>, activeTab: string, q1: string, q2: string)
    requires Lower(q1) == Lower(q2)
    ensures Filter(ps, activeTab, q1) == Filter(ps, activeTab, q2)
  {
    FilterByAgreeing(ps, p => Keep(p, activeTab, q1), p => Keep(p, activeTab, q2));
  }

  /** Changing the case of the query never changes the result. */
  lemma FilterIgnoresQueryCase(ps: seq<Record>, activeTab: string, searchQuery: string)
    ensures Filter(ps, activeTab, Upper(searchQuery)) == Filter(ps, activeTab, searchQuery)
    ensures Filter(ps, activeTab, Lower(searchQuery)) == Filter(ps, activeTab, searchQuery)
  {
    LowerForgetsCase(searchQuery);
    FilterDependsOnLowerQuery(ps, activeTab, Upper(searchQuery), searchQuery);
    FilterDependsOnLowerQuery(ps, activeTab, Lower(searchQuery), searchQuery);
  }

  /** Re-running the filter on its own output with unchanged state changes nothing. */
  lemma FilterIdempotent(ps: seq<Record>, activeTab: string, searchQuery: string)
    ensures Filter(Filter(ps, activeTab, searchQuery), activeTab, searchQuery) == Filter(ps, activeTab, searchQuery)
  {
    FilterByIdempotent(ps, p => Keep(p, activeTab, searchQuery));
  }
}
