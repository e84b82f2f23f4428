/**
 The received-index bookkeeping of a paged reply: half-open ranges that are appended, sorted and merged in
 place, and the length of the run covered from zero.
*/
module CoverageRanges {
  import opened FixedWidth

  datatype Range = Range(first: uint16, second: uint16)

  predicate Before(a: Range, b: Range) {
    if a.first == b.first then a.second <= b.second else a.first < b.first
  }

  ghost predicate Sorted(rs: seq<Range>) {
    forall i, j :: 0 <= i < j < |rs| ==> Before(rs[i], rs[j])
  }

  ghost predicate NonEmpty(rs: seq<Range>) {
    forall i :: 0 <= i < |rs| ==> rs[i].first < rs[i].second
  }

  /** Sorted, and with a gap of at least one index between neighbours. */
  ghost predicate Separated(rs: seq<Range>) {
    && NonEmpty(rs)
    && forall i, j :: 0 <= i < j < |rs| ==> rs[i].second < rs[j].first
  }

  predicate In(r: Range, n: int) {
    r.first <= n < r.second
  }

  ghost predicate Covers(rs: seq<Range>, n: int) {
    exists i :: 0 <= i < |rs| && In(rs[i], n)
  }

  ghost predicate SameCoverage(rs: seq<Range>, qs: seq<Range>) {
    forall n :: Covers(rs, n) <==> Covers(qs, n)
  }

  lemma CoversSplit(rs: seq<Range>, r: Range, n: int)
    ensures Covers(rs + [r], n) <==> Covers(rs, n) || In(r, n)
  {
    if Covers(rs, n) {
      var i :| 0 <= i < |rs| && In(rs[i], n);
      assert (rs + [r])[i] == rs[i];
    }
    if In(r, n) {
      assert (rs + [r])[|rs|] == r;
    }
  }

  /** Covering an index is a matter of which ranges there are, not of their order. */
  lemma CoverageOfPermutation(rs: seq<Range>, qs: seq<Range>)
    requires multiset(rs) == multiset(qs)
    ensures SameCoverage(rs, qs)
    ensures NonEmpty(rs) ==> NonEmpty(qs)
  {
    forall i | 0 <= i < |rs| ensures rs[i] in qs { assert rs[i] in multiset(qs); }
    forall i | 0 <= i < |qs| ensures qs[i] in rs { assert qs[i] in multiset(rs); }
  }

  class CoverageSet {
    var ranges: seq<Range>

    constructor ()
      ensures ranges == []
    {
      ranges := [];
    }

    /** Insertion sort of the vector by first, then second bound. */
    method SortRanges()
      modifies this
      ensures Sorted(ranges) && multiset(ranges) == multiset(old(ranges))
    {
      var rest := ranges;
      ranges := [];
      while rest != []
        invariant Sorted(ranges)
        invariant multiset(ranges) + multiset(rest) == multiset(old(ranges))
        decreases |rest|
      {
        assert rest == [rest[0]] + rest[1..];
        InsertedSorted(ranges, rest[0]);
        ranges := Inserted(ranges, rest[0]);
        rest := rest[1..];
      }
    }

    /** Adds `[start, end)` to the set. */
    method Merge(start: uint16, end: uint16)
      requires NonEmpty(ranges)
      modifies this
      ensures end > start ==> Separated(ranges)
      ensures end <= start ==> ranges == old(ranges)
      ensures forall n :: Covers(ranges, n) <==> Covers(old(ranges), n) || start <= n < end
    {
      if end <= start {
        return;
      }
      ranges := ranges + [Range(start, end)];
      forall n ensures Covers(ranges, n) <==> Covers(old(ranges), n) || start <= n < end {
        CoversSplit(old(ranges), Range(start, end), n);
      }
      ghost var appended := ranges;
      SortRanges();
      CoverageOfPermutation(appended, ranges);
      Compact();
    }

    /** Joins touching neighbours of the sorted vector, writing over its front. */
    method Compact()
      requires Sorted(ranges) && NonEmpty(ranges)
      modifies this
      ensures Separated(ranges) && SameCoverage(ranges, old(ranges))
    {
      hide Separated, SameCoverage, Sorted;
      var out := 0;
      var i := 0;
      ghost var sorted := ranges;
      assert Separated([]) && SameCoverage([], sorted[..0]) by { NothingCovered(); }
      assert ranges[..0] == [] && sorted[..0] == [];
      while i < |ranges|
        invariant 0 <= out <= i <= |ranges| == |sorted| && (i > 0 ==> out > 0)
        invariant ranges[i..] == sorted[i..]
        invariant Separated(ranges[..out]) && SameCoverage(ranges[..out], sorted[..i])
        invariant out > 0 && i < |sorted| ==> ranges[out - 1].first <= sorted[i].first
      {
        ghost var done := ranges[..out];
        var r := ranges[i];
        assert ranges[i..][0] == sorted[i..][0];
        assert ranges[i..][1..] == sorted[i..][1..] == sorted[i + 1..];
        if out == 0 {
          ranges := ranges[0 := r];
          out := 1;
        } else if r.first <= ranges[out - 1].second {
          if r.second > ranges[out - 1].second {
            ranges := ranges[out - 1 := ranges[out - 1].(second := r.second)];
          }
        } else {
          ranges := ranges[out := r];
          out := out + 1;
        }
        assert ranges[..out] == Pushed(done, r);
        assert ranges[i + 1..] == sorted[i + 1..];
        PushedKeeps(done, r);
        PushedCovers(done, sorted[..i], r);
        assert sorted[..i + 1] == sorted[..i] + [r];
        i := i + 1;
        if i < |sorted| { SortedAt(sorted, i - 1, i); }
      }
      assert sorted[..i] == sorted;
      ranges := ranges[..out];
    }

    /** The largest `n` such that every index below it is covered. */
    method ContiguousFromZero() returns (covered: uint16)
      requires Separated(ranges)
      ensures forall n :: 0 <= n < covered ==> Covers(ranges, n)
      ensures !Covers(ranges, covered)
    {
      covered := 0;
      var i := 0;
      while i < |ranges|
        invariant 0 <= i <= |ranges|
        invariant forall n :: 0 <= n < covered ==> Covers(ranges, n)
        invariant forall j :: 0 <= j < i ==> ranges[j].second <= covered
        invariant covered == if i == 0 then 0 else ranges[i - 1].second
      {
        if ranges[i].first > covered {
          break;
        }
        assert ranges[i].first < ranges[i].second;
        if ranges[i].second > covered {
          forall n | covered <= n < ranges[i].second ensures Covers(ranges, n) {
            assert In(ranges[i], n);
          }
          covered := ranges[i].second;
        }
        i := i + 1;
      }
    }
  }

  function Inserted(rs: seq<Range>, r: Range): (qs: seq<Range>)
    ensures multiset(qs) == multiset(rs) + multiset{r}
  {
    if rs == [] || Before(r, rs[0]) then [r] + rs
    else
      assert rs == [rs[0]] + rs[1..];
      [rs[0]] + Inserted(rs[1..], r)
  }

  lemma {:induction false} InsertedSorted(rs: seq<Range>, r: Range)
    requires Sorted(rs)
    ensures Sorted(Inserted(rs, r))
  {
    if rs != [] && !Before(r, rs[0]) {
      InsertedSorted(rs[1..], r);
      var tail := Inserted(rs[1..], r);
      forall j | 0 <= j < |tail| ensures Before(rs[0], tail[j]) {
        assert tail[j] in multiset(tail);
        assert tail[j] == r || tail[j] in rs[1..];
      }
    }
  }

  lemma NothingCovered()
    ensures Separated([]) && SameCoverage([], [])
  {
  }

  lemma SortedAt(rs: seq<Range>, i: nat, j: nat)
    requires Sorted(rs) && i < j < |rs|
    ensures rs[i].first <= rs[j].first
  {
    assert Before(rs[i], rs[j]);
  }

  /** The compacted front after one more range of the sorted vector. */
  ghost function Pushed(rs: seq<Range>, r: Range): seq<Range> {
    var k := |rs| - 1;
    if rs == [] || r.first > rs[k].second then rs + [r]
    else if r.second > rs[k].second then rs[k := rs[k].(second := r.second)]
    else rs
  }

  lemma PushedKeeps(rs: seq<Range>, r: Range)
    requires Separated(rs) && r.first < r.second && (rs != [] ==> rs[|rs| - 1].first <= r.first)
    ensures Separated(Pushed(rs, r)) && Pushed(rs, r)[|Pushed(rs, r)| - 1].first <= r.first
    ensures SameCoverage(Pushed(rs, r), rs + [r])
  {
    var k := |rs| - 1;
    var qs := Pushed(rs, r);
    if rs != [] && r.first <= rs[k].second {
      forall n ensures Covers(qs, n) <==> Covers(rs + [r], n) {
        CoversSplit(rs, r, n);
        CoversSplit(rs[..k], rs[k], n);
        CoversSplit(rs[..k], qs[k], n);
        assert rs == rs[..k] + [rs[k]] && qs == rs[..k] + [qs[k]];
      }
    }
  }

  lemma PushedCovers(rs: seq<Range>, qs: seq<Range>, r: Range)
    requires SameCoverage(rs, qs) && SameCoverage(Pushed(rs, r), rs + [r])
    ensures SameCoverage(Pushed(rs, r), qs + [r])
  {
    forall n ensures Covers(Pushed(rs, r), n) <==> Covers(qs + [r], n) {
      CoversSplit(rs, r, n);
      CoversSplit(qs, r, n);
    }
  }
}
