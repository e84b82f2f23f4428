/**
 Strict completion of a paged node-bundle pull: the request stays pending until the pages seen so far cover
 every index below the announced total and one of them carried the final marker.
*/
module NodeBundle {
  import opened FixedWidth
  import opened CoverageRanges

  /** The paging metadata of one settings reply; `OneShot` is a reply without paging. */
  datatype Page = OneShot(count: nat) | Paged(cursor: uint16, returned: uint16, total: uint16, done: bool)

  datatype Bundle = Bundle(covered: set<int>, doneSeen: bool, totalKnown: bool, total: uint16)

  const NO_BUNDLE := Bundle({}, false, false, 0)

  predicate Within(n: int, start: int, end: int) {
    start <= n < end
  }

  function Indices(start: int, end: int): set<int> {
    set n | start <= n < end && Within(n, start, end)
  }

  function PageEnd(p: Page): uint16
    requires p.Paged?
  {
    Min(p.cursor + p.returned, 0xFFFF)
  }

  function OnPage(b: Bundle, p: Page): Bundle {
    match p
    case OneShot(count) => Bundle(Indices(0, Min(count, 0xFFFF)), true, true, Min(count, 0xFFFF))
    case Paged(cursor, returned, total, done) =>
      var known := total > 0 || done;
      Bundle(b.covered + Indices(cursor, PageEnd(p)), b.doneSeen || done, b.totalKnown || known,
             if known then total else b.total)
  }

  predicate Complete(b: Bundle) {
    b.doneSeen && b.totalKnown && Indices(0, b.total) <= b.covered
  }

  // ---------------------------------------------------------------- the record updated in place

  class BundleProgress {
    const ranges: CoverageSet
    var doneSeen: bool
    var totalKnown: bool
    var total: uint16

    /** The record stands for the abstract bundle `b`. */
    ghost predicate Shows(b: Bundle)
      reads this, ranges
    {
      && Separated(ranges.ranges)
      && (forall n :: Covers(ranges.ranges, n) <==> n in b.covered)
      && doneSeen == b.doneSeen && totalKnown == b.totalKnown && total == b.total
    }

    constructor ()
      ensures Shows(NO_BUNDLE) && fresh(ranges)
    {
      ranges := new CoverageSet();
      doneSeen, totalKnown, total := false, false, 0;
    }

    method Receive(p: Page, ghost b: Bundle) returns (done: bool)
      requires Shows(b)
      modifies this, ranges
      ensures Shows(OnPage(b, p)) && (done <==> Complete(OnPage(b, p)))
    {
      match p {
        case OneShot(count) =>
          ranges.ranges := [];
          ranges.Merge(0, Min(count, 0xFFFF));
          doneSeen, totalKnown, total := true, true, Min(count, 0xFFFF);
          done := true;
        case Paged(cursor, returned, pageTotal, pageDone) =>
          ranges.Merge(cursor, Min(cursor + returned, 0xFFFF));
          if pageTotal > 0 || pageDone {
            totalKnown := true;
            total := pageTotal;
          }
          if pageDone {
            doneSeen := true;
          }
          var contiguous := ranges.ContiguousFromZero();
          done := doneSeen && totalKnown && (total == 0 || contiguous >= total);
          assert contiguous < total ==> contiguous in Indices(0, total);
      }
    }
  }

  // ---------------------------------------------------------------- arrival order does not matter

  /** The pages of one walk over `total` entries: each continues where the one before ended; only the last is marked. */
  ghost predicate Walk(pages: seq<Page>, total: uint16) {
    && pages != []
    && (forall i :: 0 <= i < |pages| ==> PageOfWalk(pages[i], total, i == |pages| - 1))
    && (total == 0 ==> |pages| == 1)
    && pages[0].cursor == 0
    && (forall i :: 0 < i < |pages| ==> pages[i].cursor == pages[i - 1].cursor + pages[i - 1].returned)
    && pages[|pages| - 1].cursor + pages[|pages| - 1].returned == total
  }

  ghost predicate PageOfWalk(p: Page, total: uint16, last: bool) {
    p.Paged? && p.total == total && (p.done <==> last) && (p.returned > 0 || total == 0)
  }

  ghost function After(pages: seq<Page>, arrivals: seq<nat>): Bundle
    requires forall i :: 0 <= i < |arrivals| ==> arrivals[i] < |pages|
  {
    if arrivals == [] then NO_BUNDLE
    else OnPage(After(pages, arrivals[..|arrivals| - 1]), pages[arrivals[|arrivals| - 1]])
  }

  lemma {:induction false} CursorsRise(pages: seq<Page>, total: uint16, i: nat, j: nat)
    requires Walk(pages, total) && i < j < |pages|
    ensures pages[i].cursor + pages[i].returned <= pages[j].cursor
    decreases j - i
  {
    if i + 1 < j {
      CursorsRise(pages, total, i + 1, j);
    }
  }

  lemma PageInside(pages: seq<Page>, total: uint16, i: nat)
    requires Walk(pages, total) && i < |pages|
    ensures PageEnd(pages[i]) == pages[i].cursor + pages[i].returned <= total
  {
    if i < |pages| - 1 {
      CursorsRise(pages, total, i, |pages| - 1);
    }
  }

  lemma {:induction false} PageOf(pages: seq<Page>, total: uint16, n: nat, k: nat) returns (i: nat)
    requires Walk(pages, total) && k < |pages| && n < pages[k].cursor + pages[k].returned
    ensures i <= k && pages[i].cursor <= n < pages[i].cursor + pages[i].returned
    decreases k
  {
    if pages[k].cursor <= n {
      i := k;
    } else {
      i := PageOf(pages, total, n, k - 1);
    }
  }

  /** What has been recorded is exactly what the arrived pages say, whatever their order and repetition. */
  lemma {:induction false} RecordOfArrivals(pages: seq<Page>, total: uint16, arrivals: seq<nat>)
    requires Walk(pages, total) && forall i :: 0 <= i < |arrivals| ==> arrivals[i] < |pages|
    ensures var b := After(pages, arrivals);
            && (b.doneSeen <==> |pages| - 1 in arrivals)
            && (arrivals != [] && (total > 0 || b.doneSeen) ==> b.totalKnown && b.total == total)
            && (b.totalKnown ==> b.total == total)
            && (forall n :: n in b.covered <==>
                  exists i :: i in arrivals && 0 <= i < |pages| && n in Indices(pages[i].cursor, PageEnd(pages[i])))
    decreases |arrivals|
  {
    if arrivals != [] {
      var last := |arrivals| - 1;
      RecordOfArrivals(pages, total, arrivals[..last]);
      assert arrivals == arrivals[..last] + [arrivals[last]];
      assert forall i :: i in arrivals <==> i in arrivals[..last] || i == arrivals[last];
    }
  }

  /** The request completes exactly when every page of the walk has arrived at least once. */
  lemma {:induction false} CompletesOnLastMissingPage(pages: seq<Page>, total: uint16, arrivals: seq<nat>)
    requires Walk(pages, total) && forall i :: 0 <= i < |arrivals| ==> arrivals[i] < |pages|
    ensures Complete(After(pages, arrivals)) <==> forall i :: 0 <= i < |pages| ==> i in arrivals
  {
    RecordOfArrivals(pages, total, arrivals);
    var b := After(pages, arrivals);
    if forall i :: 0 <= i < |pages| ==> i in arrivals {
      forall n | n in Indices(0, total) ensures n in b.covered {
        var i := PageOf(pages, total, n, |pages| - 1);
        PageInside(pages, total, i);
        assert n in Indices(pages[i].cursor, PageEnd(pages[i]));
      }
      assert |pages| - 1 in arrivals;
    } else {
      var i :| 0 <= i < |pages| && i !in arrivals;
      MissingPageLeavesGap(pages, total, arrivals, i);
    }
  }

  lemma {:induction false} MissingPageLeavesGap(pages: seq<Page>, total: uint16, arrivals: seq<nat>, i: nat)
    requires Walk(pages, total) && forall k :: 0 <= k < |arrivals| ==> arrivals[k] < |pages|
    requires i < |pages| && i !in arrivals
    ensures !Complete(After(pages, arrivals))
  {
    RecordOfArrivals(pages, total, arrivals);
    var b := After(pages, arrivals);
    var n := pages[i].cursor;
    PageInside(pages, total, i);
    if i < |pages| - 1 && total > 0 && b.totalKnown {
      forall k | k in arrivals && 0 <= k < |pages| ensures n !in Indices(pages[k].cursor, PageEnd(pages[k])) {
        if k < i { CursorsRise(pages, total, k, i); PageInside(pages, total, k); }
            else { CursorsRise(pages, total, i, k); }
      }
      assert n in Indices(0, total) && n !in b.covered;
    }
  }
}
