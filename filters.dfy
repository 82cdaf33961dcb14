/**
 * The two `filter` calls of the click handler (static/js/logic.js:202-221):
 * the records inside the clicked polygon and those outside it, among the
 * records that have a location and a score.
 */
module Filters {
  import opened GeoJson

  /**
   * The positions in `s` of the elements `keep` selects, in increasing order:
   * an independent description of what a `filter` call keeps, element by element.
   */
  function Selected<T>(s: seq<T>, keep: T -> bool): (r: seq<nat>)
    ensures forall k: nat {:trigger k in r} :: k in r <==> k < |s| && keep(s[k])
    ensures forall i :: 0 <= i < |r| ==> r[i] < |s|
    ensures forall i, j :: 0 <= i < j < |r| ==> r[i] < r[j]
  {
    if s == [] then []
    else
      var init := s[..|s| - 1];
      assert forall k :: 0 <= k < |init| ==> init[k] == s[k];
      Selected(init, keep) + (if keep(s[|s| - 1]) then [|s| - 1] else [])
  }

  /** `r` holds, one for one and in order, the elements of `s` at the positions `keep` selects. */
  ghost predicate FilterOf<T>(s: seq<T>, keep: T -> bool, r: seq<T>) {
    var idx := Selected(s, keep);
    |r| == |idx| && forall i :: 0 <= i < |r| ==> r[i] == s[idx[i]]
  }

  /** The records that pass `item.business_location && item.inspection_score !== undefined`, in input order. */
  function Passing(records: seq<InspectionRecord>): (r: seq<InspectionRecord>)
    ensures forall x {:trigger x in r} :: x in r <==> x in records && HasLocationAndScore(x)
    ensures FilterOf(records, HasLocationAndScore, r)
  {
    if records == [] then []
    else
      var init, last := records[..|records| - 1], records[|records| - 1];
      assert records == init + [last];
      Passing(init) + (if HasLocationAndScore(last) then [last] else [])
  }

  /** `businesses`: the passing records whose point lies in `polygon`, in input order. */
  function Businesses(records: seq<InspectionRecord>, polygon: MultiPolygon, contains: Containment): (r: seq<InspectionRecord>)
    ensures forall x {:trigger x in r} :: x in r <==> x in records && InPolygon(x, polygon, contains)
    ensures FilterOf(records, x => InPolygon(x, polygon, contains), r)
  {
    if records == [] then []
    else
      var init, last := records[..|records| - 1], records[|records| - 1];
      assert records == init + [last];
      Businesses(init, polygon, contains) + (if InPolygon(last, polygon, contains) then [last] else [])
  }

  /** `unmappedBusinesses`: the passing records whose point does not lie in `polygon`, in input order. */
  function UnmappedBusinesses(records: seq<InspectionRecord>, polygon: MultiPolygon, contains: Containment): (r: seq<InspectionRecord>)
    ensures forall x {:trigger x in r} :: x in r <==> x in records && HasLocationAndScore(x) && !contains(polygon, x.businessLocation.value)
    ensures FilterOf(records, x => HasLocationAndScore(x) && !contains(polygon, x.businessLocation.value), r)
  {
    if records == [] then []
    else
      var init, last := records[..|records| - 1], records[|records| - 1];
      assert records == init + [last];
      UnmappedBusinesses(init, polygon, contains)
        + (if HasLocationAndScore(last) && !contains(polygon, last.businessLocation.value) then [last] else [])
  }

  /** `c` is `a` and `b` merged: every element of `c` taken from the front of `a` or of `b`, in order. */
  ghost predicate Interleaving<T>(a: seq<T>, b: seq<T>, c: seq<T>)
    decreases |c|
  {
    if c == [] then a == [] && b == []
    else
      || (a != [] && a[|a| - 1] == c[|c| - 1] && Interleaving(a[..|a| - 1], b, c[..|c| - 1]))
      || (b != [] && b[|b| - 1] == c[|c| - 1] && Interleaving(a, b[..|b| - 1], c[..|c| - 1]))
  }

  /** Taking the last element off `a` or `b` and off `c` keeps the counts. */
  lemma DropLastKeepsElements<T>(a: seq<T>, b: seq<T>, c: seq<T>, a0: seq<T>, c0: seq<T>, x: T)
    requires a == a0 + [x] && c == c0 + [x]
    requires |a0| + |b| == |c0| && multiset(a0) + multiset(b) == multiset(c0)
    ensures |a| + |b| == |c| && multiset(a) + multiset(b) == multiset(c)
  {
    assert multiset(a) == multiset(a0) + multiset{x};
    assert multiset(c) == multiset(c0) + multiset{x};
  }

  /** A merge holds every element of its two parts, as many times as they do, and nothing else. */
  lemma {:induction false} InterleavingKeepsElements<T>(a: seq<T>, b: seq<T>, c: seq<T>)
    requires Interleaving(a, b, c)
    ensures |a| + |b| == |c|
    ensures multiset(a) + multiset(b) == multiset(c)
    decreases |c|
  {
    if c != [] {
      var c0, x := c[..|c| - 1], c[|c| - 1];
      assert c == c0 + [x];
      if a != [] && a[|a| - 1] == x && Interleaving(a[..|a| - 1], b, c0) {
        var a0 := a[..|a| - 1];
        InterleavingKeepsElements(a0, b, c0);
        assert a == a0 + [x];
        DropLastKeepsElements(a, b, c, a0, c0, x);
      } else {
        var b0 := b[..|b| - 1];
        InterleavingKeepsElements(a, b0, c0);
        assert b == b0 + [x];
        DropLastKeepsElements(b, a, c, b0, c0, x);
      }
    }
  }

  lemma ExtendLeft<T>(a: seq<T>, b: seq<T>, c: seq<T>, x: T)
    requires Interleaving(a, b, c)
    ensures Interleaving(a + [x], b, c + [x])
  {
    assert (a + [x])[..|a|] == a;
    assert (c + [x])[..|c|] == c;
  }

  lemma ExtendRight<T>(a: seq<T>, b: seq<T>, c: seq<T>, x: T)
    requires Interleaving(a, b, c)
    ensures Interleaving(a, b + [x], c + [x])
  {
    assert (b + [x])[..|b|] == b;
    assert (c + [x])[..|c|] == c;
  }

  /**
   * `businesses` and `unmappedBusinesses` together are exactly the passing
   * records, each in input order: the passing records are a merge of the two.
   */
  lemma {:induction false} ClickSplitsPassingRecords(records: seq<InspectionRecord>, polygon: MultiPolygon, contains: Containment)
    ensures Interleaving(Businesses(records, polygon, contains), UnmappedBusinesses(records, polygon, contains), Passing(records))
  {
    if records != [] {
      var init, last := records[..|records| - 1], records[|records| - 1];
      ClickSplitsPassingRecords(init, polygon, contains);
      var a, b, c := Businesses(init, polygon, contains), UnmappedBusinesses(init, polygon, contains), Passing(init);
      if InPolygon(last, polygon, contains) {
        assert Businesses(records, polygon, contains) == a + [last];
        assert UnmappedBusinesses(records, polygon, contains) == b;
        assert Passing(records) == c + [last];
        ExtendLeft(a, b, c, last);
      } else if HasLocationAndScore(last) {
        assert Businesses(records, polygon, contains) == a;
        assert UnmappedBusinesses(records, polygon, contains) == b + [last];
        assert Passing(records) == c + [last];
        ExtendRight(a, b, c, last);
      } else {
        assert Businesses(records, polygon, contains) == a;
        assert UnmappedBusinesses(records, polygon, contains) == b;
        assert Passing(records) == c;
      }
    }
  }

  /** No record is both inside and outside the clicked polygon. */
  lemma ClickListsDisjoint(records: seq<InspectionRecord>, polygon: MultiPolygon, contains: Containment)
    ensures forall x :: x in Businesses(records, polygon, contains) ==> x !in UnmappedBusinesses(records, polygon, contains)
  {
  }

  /** The two lists together are as long as the list of passing records. */
  lemma ClickListSizes(records: seq<InspectionRecord>, polygon: MultiPolygon, contains: Containment)
    ensures |Businesses(records, polygon, contains)| + |UnmappedBusinesses(records, polygon, contains)| == |Passing(records)|
  {
    ClickSplitsPassingRecords(records, polygon, contains);
    InterleavingKeepsElements(Businesses(records, polygon, contains), UnmappedBusinesses(records, polygon, contains), Passing(records));
  }
}
