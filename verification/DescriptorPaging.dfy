/**
 Paged replies and the walk over them: following the next cursor from zero until the done marker yields the
 whole clipped list, each entry once and in order, exactly when every entry fits a page of its own.
*/
module DescriptorPaging {
  import opened FixedWidth
  import opened Options
  import opened Tlv
  import opened ResponseEncoding
  import opened ResponseDecoding
  import opened ResponseLists
  import opened ResponseTheorems
  import NodeBundle

  const DEFAULT_PAGE: nat := 6
  const MAX_PAGE: nat := 16

  /** The entries a page asks for; a request without paging has none. */
  function EffectivePageSize(paged: bool, pageable: bool, size: byte): (n: nat)
    ensures n <= MAX_PAGE && (n > 0 <==> paged && pageable)
    ensures paged && pageable ==> n == if size == 0 then 6 else if size < 16 then size else 16
  {
    if !paged || !pageable then 0 else if size == 0 then DEFAULT_PAGE else Min(size, MAX_PAGE)
  }

  function ClipText(t: Text, max: nat): (r: Text)
    ensures |r| <= max && (|t| <= max ==> r == t)
  {
    if |t| <= max then t else t[..max]
  }

  function ClipCapability(x: Capability): Capability {
    Capability(ClipText(x.key, 32), ClipText(x.description, 56))
  }

  function ClipSample(x: Sample): Sample {
    Sample(x.id, ClipText(x.key, 32), ClipText(x.value, 32), ClipText(x.unit, 8))
  }

  function ClipSetting(x: Setting): Setting {
    x.(key := ClipText(x.key, 32), nvsKey := ClipText(x.nvsKey, 20), current := ClipText(x.current, 40),
       default := ClipText(x.default, 40), description := ClipText(x.description, 56))
  }

  function ClipCapabilities(xs: seq<Capability>): (r: seq<Capability>)
    ensures |r| == |xs| && forall i :: 0 <= i < |xs| ==> r[i] == ClipCapability(xs[i])
  {
    if xs == [] then [] else [ClipCapability(xs[0])] + ClipCapabilities(xs[1..])
  }

  function ClipSamples(xs: seq<Sample>): (r: seq<Sample>)
    ensures |r| == |xs| && forall i :: 0 <= i < |xs| ==> r[i] == ClipSample(xs[i])
  {
    if xs == [] then [] else [ClipSample(xs[0])] + ClipSamples(xs[1..])
  }

  function ClipSettings(xs: seq<Setting>): (r: seq<Setting>)
    ensures |r| == |xs| && forall i :: 0 <= i < |xs| ==> r[i] == ClipSetting(xs[i])
  {
    if xs == [] then [] else [ClipSetting(xs[0])] + ClipSettings(xs[1..])
  }

  // ---------------------------------------------------------------- one page

  function PageEnd(total: nat, cursor: uint16, size: nat): nat {
    Min(total, Min(cursor, total) + size)
  }

  function Slice<T>(xs: seq<T>, cursor: uint16, size: nat): seq<T> {
    xs[Min(cursor, |xs|)..PageEnd(|xs|, cursor, size)]
  }

  /** The metadata of a page of `total` entries that returns `returned` of them. */
  function FinalMeta(total: nat, cursor: uint16, returned: nat, snapshotId: uint32): PageMeta {
    var start := Min(cursor, total);
    var next := start + returned;
    PageMeta(snapshotId, Min(total, 0xFFFF), Min(start, 0xFFFF), Min(returned, 0xFFFF), Wrap16(Min(next, total)),
             next >= total)
  }

  /** A list cut down to a page where it stands: the entries before it are erased, then those after it. */
  class PageList<T> {
    var list: seq<T>

    constructor (xs: seq<T>)
      ensures list == xs
    {
      list := xs;
    }

    method SlicePageInPlace(cursor: uint16, size: nat)
      modifies this
      ensures list == Slice(old(list), cursor, size)
    {
      var total := |list|;
      var start := Min(cursor, total);
      var end := Min(total, start + size);
      if start > 0 {
        list := list[start..];
      }
      var keep := end - start;
      if |list| > keep {
        list := list[..keep];
      }
    }
  }

  /** What stays the same over a walk: everything but the page. */
  datatype Frame = Frame(kind: byte, message: Text, mask: byte, scalars: seq<Tlv>, before: seq<Block>)

  function PageResponse(f: Frame, bs: seq<Block>, cursor: uint16, size: nat, snapshotId: uint32): Response {
    var page := Slice(bs, cursor, size);
    Response(f.kind, f.message, f.mask, f.scalars, f.before, page, Some(FinalMeta(|bs|, cursor, |page|, snapshotId)))
  }

  /** The bytes before the first entry of a page, and the reserve behind the last. */
  function Overhead(f: Frame): nat {
    var head := HeadTlvs(Response(f.kind, f.message, f.mask, f.scalars, f.before, [], None));
    Size(head) + Size(EmitBlocks(Size(head), f.before, META_RESERVE).tlvs) + META_RESERVE
  }

  /** The fixed part of every page fits. */
  predicate HeadFits(f: Frame) {
    Size(HeadTlvs(Response(f.kind, f.message, f.mask, f.scalars, f.before, [], None))) + META_RESERVE <= MAX_PAYLOAD
  }

  /** The entry fits on a page of its own. */
  predicate FitsAlone(f: Frame, b: Block) {
    Overhead(f) + Size(b.base) <= MAX_PAYLOAD
  }

  ghost predicate ProperFrame(f: Frame) {
    HeadFits(f) && ProperScalars(f.scalars) && CountsItems(f.kind) && Solid(f.before) && f.kind != 0
  }

  ghost predicate ProperList(bs: seq<Block>) {
    Solid(bs) && Tagged(bs) && |bs| <= 0xFFFF
  }

  /** How many entries the page at `cursor` really carries. */
  function Carried(f: Frame, bs: seq<Block>, cursor: uint16, size: nat, snapshotId: uint32): nat {
    match Write(PageResponse(f, bs, cursor, size, snapshotId))
    case None => 0
    case Some(o) => o.items.count
  }

  lemma SameHead(f: Frame, bs: seq<Block>, page: Option<PageMeta>)
    ensures HeadTlvs(Response(f.kind, f.message, f.mask, f.scalars, f.before, bs, page))
         == HeadTlvs(Response(f.kind, f.message, f.mask, f.scalars, f.before, [], None))
  {
  }

  /**
   A page within the list: it is written, carries a prefix of what was asked for, announces exactly that, and
   carries at least one entry if and only if the first one fits alone.
  */
  lemma PageFacts(f: Frame, bs: seq<Block>, cursor: uint16, size: nat, snapshotId: uint32)
    requires ProperFrame(f) && ProperList(bs) && cursor <= |bs| && 0 < size
    ensures var r, k := PageResponse(f, bs, cursor, size, snapshotId), Carried(f, bs, cursor, size, snapshotId);
            && Write(r).Some? && Write(r).value.items.count == k <= |r.items| <= |bs| - cursor
            && Repaired(f.kind, r.page.value, Wrap16(k))
                 == PageMeta(snapshotId, |bs|, cursor, k, cursor + k, cursor + k == |bs|)
            && (cursor < |bs| ==> (k > 0 <==> FitsAlone(f, bs[cursor])))
  {
    hide HeadTlvs, EmitBlocks, MetaTlvs, Repaired, Size, CountsItems, Slice, FinalMeta;
    var r := PageResponse(f, bs, cursor, size, snapshotId);
    SliceProper(bs, cursor, size);
    SameHead(f, r.items, r.page);
    PageWritten(r);
    PageCount(r);
    MetaAgrees(f.kind, |bs|, cursor, |r.items|, Carried(f, bs, cursor, size, snapshotId), snapshotId);
  }

  lemma SliceProper(bs: seq<Block>, cursor: uint16, size: nat)
    requires ProperList(bs) && cursor <= |bs| && 0 < size
    ensures var page := Slice(bs, cursor, size);
            && Solid(page) && Tagged(page) && |page| <= |bs| - cursor
            && page == bs[cursor..cursor + |page|]
            && (cursor < |bs| <==> page != []) && (page != [] ==> page[0] == bs[cursor])
  {
  }

  lemma PageWritten(r: Response)
    requires r.page.Some? && Size(HeadTlvs(r)) + META_RESERVE <= MAX_PAYLOAD
    ensures Write(r).Some?
    ensures var o := Write(r).value;
            && o.head == HeadTlvs(r) && o.before == EmitBlocks(Size(o.head), r.before, META_RESERVE)
            && o.items == EmitBlocks(Size(o.head) + Size(o.before.tlvs), r.items, META_RESERVE)
  {
    hide HeadTlvs, EmitBlocks, MetaTlvs, Repaired, CountsItems, Size;
  }

  lemma PageCount(r: Response)
    requires Write(r).Some? && r.page.Some? && Solid(r.before) && Solid(r.items) && Tagged(r.items)
    ensures var o := Write(r).value;
            && o.items.count <= |r.items| && o.items.count <= MAX_PAYLOAD
            && (r.items != [] ==>
                  (o.items.count > 0 <==>
                     Size(o.head) + Size(o.before.tlvs) + META_RESERVE + Size(r.items[0].base) <= MAX_PAYLOAD))
  {
    hide HeadTlvs, EmitBlocks, MetaTlvs, Repaired, CountsItems, Size;
    SolidAfter(r);
    CountIsExact(r);
    var o := Write(r).value;
    if r.items != [] {
      FirstBlock(Size(o.head) + Size(o.before.tlvs), r.items, META_RESERVE);
    }
  }

  lemma {:induction false} FirstBlock(size: nat, bs: seq<Block>, reserve: nat)
    requires bs != []
    ensures EmitBlocks(size, bs, reserve).count > 0 <==> CanFit(size, Size(bs[0].base), reserve)
  {
    hide Size, CanFit, EmitOne;
  }

  lemma MetaAgrees(kind: byte, total: nat, cursor: uint16, returned: nat, k: nat, snapshotId: uint32)
    requires CountsItems(kind) && cursor <= total <= 0xFFFF && k <= returned <= total - cursor
    ensures Repaired(kind, FinalMeta(total, cursor, returned, snapshotId), Wrap16(k))
         == PageMeta(snapshotId, total, cursor, k, cursor + k, cursor + k == total)
  {
    hide CountsItems;
  }

  // ---------------------------------------------------------------- the pages of a walk

  /** The pages a client sees, following the next cursor; `None` when a page leads nowhere. */
  function PagesFrom(f: Frame, bs: seq<Block>, cursor: uint16, size: nat,
                     snapshotId: uint32): Option<seq<NodeBundle.Page>>
    requires |bs| <= 0xFFFF && cursor <= |bs|
    decreases |bs| - cursor
  {
    var k := Carried(f, bs, cursor, size, snapshotId);
    if cursor + k == |bs| then Some([NodeBundle.Paged(cursor, k, |bs|, true)])
    else if k == 0 || cursor + k > |bs| then None
    else
      match PagesFrom(f, bs, cursor + k, size, snapshotId)
      case None => None
      case Some(rest) => Some([NodeBundle.Paged(cursor, k, |bs|, false)] + rest)
  }

  /** Every entry from `cursor` on fits a page of its own. */
  ghost predicate AllFitAlone(f: Frame, bs: seq<Block>, cursor: nat) {
    forall i :: cursor <= i < |bs| ==> FitsAlone(f, bs[i])
  }

  /** Consecutive pages from `cursor` on, the last one alone marked, that end at `total`. */
  ghost predicate Tiles(pages: seq<NodeBundle.Page>, cursor: nat, total: uint16) {
    && pages != []
    && (forall i :: 0 <= i < |pages| ==>
          pages[i].Paged? && pages[i].total == total && (pages[i].done <==> i == |pages| - 1))
    && (forall i :: 0 <= i < |pages| - 1 ==> pages[i].returned > 0)
    && pages[0].cursor == cursor
    && (forall i :: 0 < i < |pages| ==> pages[i].cursor == pages[i - 1].cursor + pages[i - 1].returned)
    && pages[|pages| - 1].cursor + pages[|pages| - 1].returned == total
  }

  lemma OnePage(cursor: uint16, k: uint16, total: uint16)
    requires cursor + k == total
    ensures Tiles([NodeBundle.Paged(cursor, k, total, true)], cursor, total)
  {
  }

  lemma PageBefore(cursor: uint16, k: uint16, total: uint16, rest: seq<NodeBundle.Page>)
    requires k > 0 && Tiles(rest, cursor + k, total)
    ensures Tiles([NodeBundle.Paged(cursor, k, total, false)] + rest, cursor, total)
  {
    var all := [NodeBundle.Paged(cursor, k, total, false)] + rest;
    assert forall i :: 0 < i < |all| ==> all[i] == rest[i - 1];
  }

  lemma {:induction false} PartOfSize(bs: seq<Block>, i: nat)
    requires i < |bs|
    ensures Size(BaseTlvs(bs)) >= Size(bs[i].base)
    decreases i
  {
    hide Size;
    SizeAppend(bs[0].base, BaseTlvs(bs[1..]));
    if i > 0 {
      PartOfSize(bs[1..], i - 1);
    }
  }

  /** A page never carries an entry that does not fit alone. */
  lemma StopsBefore(f: Frame, bs: seq<Block>, cursor: uint16, size: nat, snapshotId: uint32, j: nat)
    requires ProperFrame(f) && ProperList(bs) && cursor <= j < |bs| && 0 < size && !FitsAlone(f, bs[j])
    ensures cursor + Carried(f, bs, cursor, size, snapshotId) <= j
  {
    hide HeadTlvs, EmitBlocks, MetaTlvs, Repaired, Size, CountsItems, Slice, FinalMeta, BaseTlvs;
    var r := PageResponse(f, bs, cursor, size, snapshotId);
    var k := Carried(f, bs, cursor, size, snapshotId);
    SliceProper(bs, cursor, size);
    SameHead(f, r.items, r.page);
    PageWritten(r);
    SolidAfter(r);
    if j < cursor + k {
      assert r.items[..k][j - cursor] == bs[j];
      PartOfSize(r.items[..k], j - cursor);
    }
  }

  /** One step of the walk: progress exactly when the entry at the cursor fits alone, and only over such entries. */
  lemma PageStep(f: Frame, bs: seq<Block>, cursor: uint16, size: nat, snapshotId: uint32)
    requires ProperFrame(f) && ProperList(bs) && cursor <= |bs| && 0 < size
    ensures var k := Carried(f, bs, cursor, size, snapshotId);
            && cursor + k <= |bs| && (cursor < |bs| ==> (k > 0 <==> FitsAlone(f, bs[cursor])))
            && forall j :: cursor <= j < cursor + k ==> FitsAlone(f, bs[j])
  {
    hide ProperFrame, ProperList, FitsAlone, Carried, Write, Repaired, PageResponse;
    PageFacts(f, bs, cursor, size, snapshotId);
    forall j | cursor <= j < cursor + Carried(f, bs, cursor, size, snapshotId) ensures FitsAlone(f, bs[j]) {
      if !FitsAlone(f, bs[j]) {
        StopsBefore(f, bs, cursor, size, snapshotId, j);
      }
    }
  }

  /** The walk reaches the end exactly when every entry ahead fits alone, and then its pages tile the list. */
  lemma {:induction false} PagesTile(f: Frame, bs: seq<Block>, cursor: uint16, size: nat, snapshotId: uint32)
    requires ProperFrame(f) && ProperList(bs) && |bs| <= 0xFFFF && cursor <= |bs| && 0 < size
    ensures var pages := PagesFrom(f, bs, cursor, size, snapshotId);
            && (pages.Some? <==> AllFitAlone(f, bs, cursor)) && (pages.Some? ==> Tiles(pages.value, cursor, |bs|))
    decreases |bs| - cursor
  {
    hide ProperFrame, ProperList, FitsAlone, Carried, Tiles;
    var k := Carried(f, bs, cursor, size, snapshotId);
    PageStep(f, bs, cursor, size, snapshotId);
    if cursor + k == |bs| {
      OnePage(cursor, k, |bs|);
    } else if k > 0 {
      PagesTile(f, bs, cursor + k, size, snapshotId);
      var rest := PagesFrom(f, bs, cursor + k, size, snapshotId);
      if rest.Some? {
        PageBefore(cursor, k, |bs|, rest.value);
      }
    }
  }

  /**
   The pages of a walk from zero are exactly such a walk as the strict completion of a node bundle expects, in
   whatever order they then arrive.
  */
  lemma {:induction false} PagesFormWalk(f: Frame, bs: seq<Block>, size: nat, snapshotId: uint32)
    requires ProperFrame(f) && ProperList(bs) && 0 < size && AllFitAlone(f, bs, 0)
    ensures PagesFrom(f, bs, 0, size, snapshotId).Some?
    ensures NodeBundle.Walk(PagesFrom(f, bs, 0, size, snapshotId).value, |bs|)
  {
    hide ProperFrame, AllFitAlone, Carried, Solid, Tagged, Tiles, NodeBundle.Walk, PagesFrom;
    PagesTile(f, bs, 0, size, snapshotId);
    LastReturns(f, bs, 0, size, snapshotId);
    TilesWalk(PagesFrom(f, bs, 0, size, snapshotId).value, |bs|);
  }

  /** Only the page of an empty list is empty. */
  lemma {:induction false} LastReturns(f: Frame, bs: seq<Block>, cursor: uint16, size: nat, snapshotId: uint32)
    requires |bs| <= 0xFFFF && cursor <= |bs| && PagesFrom(f, bs, cursor, size, snapshotId).Some?
    ensures var pages := PagesFrom(f, bs, cursor, size, snapshotId).value;
            pages != [] && pages[|pages| - 1].Paged? && (cursor < |bs| ==> pages[|pages| - 1].returned > 0)
            && (cursor == |bs| ==> |pages| == 1)
    decreases |bs| - cursor
  {
    hide Carried;
    var k := Carried(f, bs, cursor, size, snapshotId);
    if cursor + k < |bs| && k > 0 {
      LastReturns(f, bs, cursor + k, size, snapshotId);
    }
  }

  lemma TilesWalk(pages: seq<NodeBundle.Page>, total: uint16)
    requires Tiles(pages, 0, total) && (total > 0 ==> pages[|pages| - 1].returned > 0) && (total == 0 ==> |pages| == 1)
    ensures NodeBundle.Walk(pages, total)
  {
  }

  // ---------------------------------------------------------------- what the client collects

  /** A page as the client sees it: its metadata and its entries. */
  function Reply(r: Response): Option<(PageMeta, Decoded)> {
    match Encode(r)
    case None => None
    case Some(b) =>
      match Decode(b)
      case None => None
      case Some(d) => match PageOf(d.fields) case None => None case Some(p) => Some((p, d))
  }

  lemma {:induction false} ReplyIs(r: Response)
    requires Encode(r).Some? && r.page.Some? && Decode(Encode(r).value).Some?
    requires FrameRead(r, Write(r).value, Decode(Encode(r).value).value.fields)
    ensures Reply(r) == Some((Repaired(r.kind, r.page.value, Wrap16(Write(r).value.items.count)),
                              Decode(Encode(r).value).value))
  {
    hide Encode, Decode, Write, Repaired, PageOf;
  }

  lemma SliceStart<T>(xs: seq<T>, cursor: uint16, size: nat, k: nat)
    requires cursor <= |xs| && k <= |Slice(xs, cursor, size)|
    ensures Slice(xs, cursor, size)[..k] == xs[cursor..cursor + k]
  {
  }

  function CapabilityPage(f: Frame, xs: seq<Capability>, cursor: uint16, size: nat, snapshotId: uint32): Response {
    PageResponse(f, CapabilityBlocks(ClipCapabilities(xs)), cursor, size, snapshotId)
  }

  /** The client's walk: collect, follow the next cursor, stop at the done marker, give up without progress. */
  function CollectCapabilities(f: Frame, xs: seq<Capability>, cursor: uint16, size: nat,
                               snapshotId: uint32): Option<seq<Capability>>
    requires cursor <= |xs|
    decreases |xs| - cursor
  {
    match Reply(CapabilityPage(f, xs, cursor, size, snapshotId))
    case None => None
    case Some((p, d)) =>
      if p.done then Some(d.capabilities)
      else if !(cursor < p.next <= |xs|) then None
      else
        match CollectCapabilities(f, xs, p.next, size, snapshotId)
        case None => None
        case Some(rest) => Some(d.capabilities + rest)
  }

  lemma {:induction false} CapabilitiesProper(xs: seq<Capability>)
    requires |xs| <= 0xFFFF
    ensures ProperList(CapabilityBlocks(xs))
  {
  }

  lemma {:induction false} SliceOfCapabilities(xs: seq<Capability>, cursor: uint16, size: nat)
    ensures Slice(CapabilityBlocks(xs), cursor, size) == CapabilityBlocks(Slice(xs, cursor, size))
  {
    hide CapabilityBlock;
  }

  lemma {:induction false} ClipCapabilitiesLength(xs: seq<Capability>)
    ensures |ClipCapabilities(xs)| == |xs|
  {
  }

  lemma {:induction false} CapabilityBlocksLength(xs: seq<Capability>)
    ensures |CapabilityBlocks(xs)| == |xs|
  {
  }

  lemma {:induction false} CapabilityReply(f: Frame, xs: seq<Capability>, cursor: uint16, size: nat, snapshotId: uint32)
    requires ProperFrame(f) && f.kind == CAPABILITIES && f.before == [] && |xs| <= 0xFFFF && cursor <= |xs| && 0 < size
    ensures var cs := ClipCapabilities(xs);
            var k := Carried(f, CapabilityBlocks(cs), cursor, size, snapshotId);
            var reply := Reply(CapabilityPage(f, xs, cursor, size, snapshotId));
            && cursor + k <= |xs| && reply.Some?
            && reply.value.0 == PageMeta(snapshotId, |xs|, cursor, k, cursor + k, cursor + k == |xs|)
            && reply.value.1.capabilities == cs[cursor..cursor + k]
  {
    hide Write, Repaired, Decode, Encode, Reply, FrameRead, LongestPrefix, Only, CapabilityBlocks, ClipCapability,
      ProperList, Slice, CountsItems, HeadFits;
    var cs := ClipCapabilities(xs);
    var r := CapabilityPage(f, xs, cursor, size, snapshotId);
    var page := Slice(cs, cursor, size);
    CapabilityBlocksLength(cs);
    CapabilityBlocksLength(page);
    CapabilitiesProper(cs);
    PageFacts(f, CapabilityBlocks(cs), cursor, size, snapshotId);
    SliceOfCapabilities(cs, cursor, size);
    WriteOf(r);
    CapabilitiesRoundTrip(r, page);
    ReplyIs(r);
    SliceStart(cs, cursor, size, Carried(f, CapabilityBlocks(cs), cursor, size, snapshotId));
  }

  /** The walk collects exactly the clipped list from the cursor on, or fails because an entry fits no page. */
  lemma {:induction false} CollectsCapabilities(f: Frame, xs: seq<Capability>, cursor: uint16, size: nat,
                                                snapshotId: uint32)
    requires ProperFrame(f) && f.kind == CAPABILITIES && f.before == [] && |xs| <= 0xFFFF && cursor <= |xs| && 0 < size
    ensures var cs := ClipCapabilities(xs);
            var all := PagesFrom(f, (CapabilityBlocksLength(cs); CapabilityBlocks(cs)), cursor, size, snapshotId);
            CollectCapabilities(f, xs, cursor, size, snapshotId) == if all.Some? then Some(cs[cursor..]) else None
    decreases |xs| - cursor
  {
    hide ProperFrame, CapabilityBlocks, Carried, Reply, CapabilityPage, ClipCapabilities;
    var cs := ClipCapabilities(xs);
    ClipCapabilitiesLength(xs);
    CapabilityBlocksLength(cs);
    var k := Carried(f, CapabilityBlocks(cs), cursor, size, snapshotId);
    CapabilityReply(f, xs, cursor, size, snapshotId);
    if k > 0 && cursor + k < |xs| {
      CollectsCapabilities(f, xs, cursor + k, size, snapshotId);
      assert cs[cursor..] == cs[cursor..cursor + k] + cs[cursor + k..];
    } else if cursor + k == |xs| {
      assert cs[cursor..] == cs[cursor..cursor + k];
    }
  }

  function SamplePage(f: Frame, xs: seq<Sample>, cursor: uint16, size: nat, snapshotId: uint32): Response {
    PageResponse(f, SampleBlocks(ClipSamples(xs)), cursor, size, snapshotId)
  }

  /** The client's walk: collect, follow the next cursor, stop at the done marker, give up without progress. */
  function CollectSamples(f: Frame, xs: seq<Sample>, cursor: uint16, size: nat, snapshotId: uint32): Option<seq<Sample>>
    requires cursor <= |xs|
    decreases |xs| - cursor
  {
    match Reply(SamplePage(f, xs, cursor, size, snapshotId))
    case None => None
    case Some((p, d)) =>
      if p.done then Some(d.samples)
      else if !(cursor < p.next <= |xs|) then None
      else
        match CollectSamples(f, xs, p.next, size, snapshotId)
        case None => None
        case Some(rest) => Some(d.samples + rest)
  }

  lemma {:induction false} SamplesProper(xs: seq<Sample>)
    requires |xs| <= 0xFFFF
    ensures ProperList(SampleBlocks(xs))
  {
  }

  lemma {:induction false} SliceOfSamples(xs: seq<Sample>, cursor: uint16, size: nat)
    ensures Slice(SampleBlocks(xs), cursor, size) == SampleBlocks(Slice(xs, cursor, size))
  {
    hide SampleBlock;
  }

  lemma {:induction false} ClipSamplesLength(xs: seq<Sample>)
    ensures |ClipSamples(xs)| == |xs|
  {
  }

  lemma {:induction false} SampleBlocksLength(xs: seq<Sample>)
    ensures |SampleBlocks(xs)| == |xs|
  {
  }

  lemma {:induction false} SampleReply(f: Frame, xs: seq<Sample>, cursor: uint16, size: nat, snapshotId: uint32)
    requires ProperFrame(f) && f.kind == TELEMETRY_SNAPSHOT && f.before == [] && |xs| <= 0xFFFF && cursor <= |xs|
        && 0 < size
    ensures var cs := ClipSamples(xs);
            var k := Carried(f, SampleBlocks(cs), cursor, size, snapshotId);
            var reply := Reply(SamplePage(f, xs, cursor, size, snapshotId));
            && cursor + k <= |xs| && reply.Some?
            && reply.value.0 == PageMeta(snapshotId, |xs|, cursor, k, cursor + k, cursor + k == |xs|)
            && reply.value.1.samples == cs[cursor..cursor + k]
  {
    hide Write, Repaired, Decode, Encode, Reply, FrameRead, LongestPrefix, Only, SampleBlocks, ClipSample, ProperList,
      Slice, CountsItems, HeadFits;
    var cs := ClipSamples(xs);
    var r := SamplePage(f, xs, cursor, size, snapshotId);
    var page := Slice(cs, cursor, size);
    SampleBlocksLength(cs);
    SampleBlocksLength(page);
    SamplesProper(cs);
    PageFacts(f, SampleBlocks(cs), cursor, size, snapshotId);
    SliceOfSamples(cs, cursor, size);
    WriteOf(r);
    SamplesRoundTrip(r, page);
    ReplyIs(r);
    SliceStart(cs, cursor, size, Carried(f, SampleBlocks(cs), cursor, size, snapshotId));
  }

  /** The walk collects exactly the clipped list from the cursor on, or fails because an entry fits no page. */
  lemma {:induction false} CollectsSamples(f: Frame, xs: seq<Sample>, cursor: uint16, size: nat, snapshotId: uint32)
    requires ProperFrame(f) && f.kind == TELEMETRY_SNAPSHOT && f.before == [] && |xs| <= 0xFFFF && cursor <= |xs|
        && 0 < size
    ensures var cs := ClipSamples(xs);
            var all := PagesFrom(f, (SampleBlocksLength(cs); SampleBlocks(cs)), cursor, size, snapshotId);
            CollectSamples(f, xs, cursor, size, snapshotId) == if all.Some? then Some(cs[cursor..]) else None
    decreases |xs| - cursor
  {
    hide ProperFrame, SampleBlocks, Carried, Reply, SamplePage, ClipSamples;
    var cs := ClipSamples(xs);
    ClipSamplesLength(xs);
    SampleBlocksLength(cs);
    var k := Carried(f, SampleBlocks(cs), cursor, size, snapshotId);
    SampleReply(f, xs, cursor, size, snapshotId);
    if k > 0 && cursor + k < |xs| {
      CollectsSamples(f, xs, cursor + k, size, snapshotId);
      assert cs[cursor..] == cs[cursor..cursor + k] + cs[cursor + k..];
    } else if cursor + k == |xs| {
      assert cs[cursor..] == cs[cursor..cursor + k];
    }
  }

  function SettingPage(f: Frame, xs: seq<Setting>, cursor: uint16, size: nat, snapshotId: uint32): Response {
    PageResponse(f, SettingBlocks(ClipSettings(xs)), cursor, size, snapshotId)
  }

  /** The client's walk: collect, follow the next cursor, stop at the done marker, give up without progress. */
  function CollectSettings(f: Frame, xs: seq<Setting>, cursor: uint16, size: nat,
                           snapshotId: uint32): Option<seq<Setting>>
    requires cursor <= |xs|
    decreases |xs| - cursor
  {
    match Reply(SettingPage(f, xs, cursor, size, snapshotId))
    case None => None
    case Some((p, d)) =>
      if p.done then Some(d.settings)
      else if !(cursor < p.next <= |xs|) then None
      else
        match CollectSettings(f, xs, p.next, size, snapshotId)
        case None => None
        case Some(rest) => Some(d.settings + rest)
  }

  lemma {:induction false} SettingsProper(xs: seq<Setting>)
    requires |xs| <= 0xFFFF
    ensures ProperList(SettingBlocks(xs))
  {
  }

  lemma {:induction false} SliceOfSettings(xs: seq<Setting>, cursor: uint16, size: nat)
    ensures Slice(SettingBlocks(xs), cursor, size) == SettingBlocks(Slice(xs, cursor, size))
  {
    hide SettingBlock;
  }

  lemma {:induction false} ClipSettingsLength(xs: seq<Setting>)
    ensures |ClipSettings(xs)| == |xs|
  {
  }

  lemma {:induction false} SettingBlocksLength(xs: seq<Setting>)
    ensures |SettingBlocks(xs)| == |xs|
  {
  }

  lemma {:induction false} SettingReply(f: Frame, xs: seq<Setting>, cursor: uint16, size: nat, snapshotId: uint32)
    requires ProperFrame(f) && f.kind == SETTINGS && f.before == [] && |xs| <= 0xFFFF && cursor <= |xs| && 0 < size
    ensures var cs := ClipSettings(xs);
            var k := Carried(f, SettingBlocks(cs), cursor, size, snapshotId);
            var reply := Reply(SettingPage(f, xs, cursor, size, snapshotId));
            && cursor + k <= |xs| && reply.Some?
            && reply.value.0 == PageMeta(snapshotId, |xs|, cursor, k, cursor + k, cursor + k == |xs|)
            && reply.value.1.settings == cs[cursor..cursor + k]
  {
    hide Write, Repaired, Decode, Encode, Reply, FrameRead, LongestPrefix, Only, SettingBlocks, ClipSetting, ProperList,
      Slice, CountsItems, HeadFits;
    var cs := ClipSettings(xs);
    var r := SettingPage(f, xs, cursor, size, snapshotId);
    var page := Slice(cs, cursor, size);
    SettingBlocksLength(cs);
    SettingBlocksLength(page);
    SettingsProper(cs);
    PageFacts(f, SettingBlocks(cs), cursor, size, snapshotId);
    SliceOfSettings(cs, cursor, size);
    WriteOf(r);
    SettingsRoundTrip(r, page);
    ReplyIs(r);
    SliceStart(cs, cursor, size, Carried(f, SettingBlocks(cs), cursor, size, snapshotId));
  }

  /** The walk collects exactly the clipped list from the cursor on, or fails because an entry fits no page. */
  lemma {:induction false} CollectsSettings(f: Frame, xs: seq<Setting>, cursor: uint16, size: nat, snapshotId: uint32)
    requires ProperFrame(f) && f.kind == SETTINGS && f.before == [] && |xs| <= 0xFFFF && cursor <= |xs| && 0 < size
    ensures var cs := ClipSettings(xs);
            var all := PagesFrom(f, (SettingBlocksLength(cs); SettingBlocks(cs)), cursor, size, snapshotId);
            CollectSettings(f, xs, cursor, size, snapshotId) == if all.Some? then Some(cs[cursor..]) else None
    decreases |xs| - cursor
  {
    hide ProperFrame, SettingBlocks, Carried, Reply, SettingPage, ClipSettings;
    var cs := ClipSettings(xs);
    ClipSettingsLength(xs);
    SettingBlocksLength(cs);
    var k := Carried(f, SettingBlocks(cs), cursor, size, snapshotId);
    SettingReply(f, xs, cursor, size, snapshotId);
    if k > 0 && cursor + k < |xs| {
      CollectsSettings(f, xs, cursor + k, size, snapshotId);
      assert cs[cursor..] == cs[cursor..cursor + k] + cs[cursor + k..];
    } else if cursor + k == |xs| {
      assert cs[cursor..] == cs[cursor..cursor + k];
    }
  }

  /** Without fixed fields the overhead is the version, the type, the message and the reserve. */
  lemma {:induction false} PlainOverhead(f: Frame)
    requires f.scalars == [] && f.before == [] && f.mask == 0 && f.kind != NODE_BUNDLE
    ensures Overhead(f) == 10 + (if f.message == [] then 0 else 4 + |f.message|) + META_RESERVE
    ensures HeadFits(f) <==> Overhead(f) <= MAX_PAYLOAD
  {
    hide EmitBlocks;
    NoBlocks(Size(HeadTlvs(Response(f.kind, f.message, f.mask, f.scalars, f.before, [], None))), META_RESERVE);
    PlainHead(f);
  }

  lemma {:induction false} PlainHead(f: Frame)
    requires f.scalars == [] && f.mask == 0 && f.kind != NODE_BUNDLE
    ensures Size(HeadTlvs(Response(f.kind, f.message, f.mask, f.scalars, f.before, [], None)))
         == 10 + if f.message == [] then 0 else 4 + |f.message|
  {
    var a, b := U8Of(0x01, 1), U8Of(0x10, f.kind);
    var ts := HeadTlvs(Response(f.kind, f.message, f.mask, f.scalars, f.before, [], None));
    SizeAppend([a], [b]);
    SizeOfSingle(a);
    SizeOfSingle(b);
    assert [a] + [b] == [a, b];
    if f.message != [] {
      assert ts == [a, b] + [Utf8Of(0x11, f.message)];
      SizeAppend([a, b], [Utf8Of(0x11, f.message)]);
      SizeOfSingle(Utf8Of(0x11, f.message));
    } else {
      assert ts == [a, b];
    }
  }

  lemma {:induction false} CapabilitySize(x: Capability)
    ensures Size(CapabilityBlock(x).base) == 8 + |x.key| + |x.description|
  {
    var a, b := Utf8Of(0x30, x.key), Utf8Of(0x31, x.description);
    SizeAppend([a], [b]);
    SizeOfSingle(a);
    SizeOfSingle(b);
    assert [a] + [b] == [a, b];
  }

  lemma {:induction false} SampleSize(x: Sample)
    ensures Size(SampleBlock(x).base) == 18 + |x.key| + |x.value| + |x.unit|
  {
    SizeOfFour(U16Of(0x4F, x.id), Utf8Of(0x50, x.key), Utf8Of(0x51, x.value), Utf8Of(0x52, x.unit));
  }

  lemma {:induction false} SettingSize(x: Setting)
    ensures Size(SettingBlock(x).base) == 36 + |x.key| + |x.nvsKey| + |x.current| + |x.default| + |x.description|
  {
    var a, b, c, d := U16Of(0x7F, x.id), Utf8Of(0x80, x.key), U8Of(0x81, x.valueType), BoolOf(0x82, x.writable);
    var e, f, g, h := Utf8Of(0x83, x.nvsKey), Utf8Of(0x84, x.current), Utf8Of(0x85, x.default),
        Utf8Of(0x86, x.description);
    SizeAppend([a, b, c, d], [e, f, g, h]);
    SizeOfFour(a, b, c, d);
    SizeOfFour(e, f, g, h);
  }

  /** The first `max` bytes of a text, or all of it. */
  predicate IsCut(cut: Text, t: Text, max: nat) {
    cut <= t && (cut == t || |cut| == max) && |cut| <= max
  }

  lemma ClipIsCut(t: Text, max: nat)
    ensures IsCut(ClipText(t, max), t, max)
  {
  }

  /** What a clipped entry keeps: the beginning of each text, and every number and flag. */
  lemma ClippedEntries(c: Capability, x: Sample, s: Setting)
    ensures IsCut(ClipCapability(c).key, c.key, 32) && IsCut(ClipCapability(c).description, c.description, 56)
    ensures var r := ClipSample(x);
            r.id == x.id && IsCut(r.key, x.key, 32) && IsCut(r.value, x.value, 32) && IsCut(r.unit, x.unit, 8)
    ensures var r := ClipSetting(s);
            && r.id == s.id && r.valueType == s.valueType && r.writable == s.writable
            && IsCut(r.key, s.key, 32) && IsCut(r.nvsKey, s.nvsKey, 20) && IsCut(r.description, s.description, 56)
            && IsCut(r.current, s.current, 40) && IsCut(r.default, s.default, 40)
  {
    hide IsCut, ClipText;
    ClipIsCut(c.key, 32);
    ClipIsCut(c.description, 56);
    ClipIsCut(x.key, 32);
    ClipIsCut(x.value, 32);
    ClipIsCut(x.unit, 8);
    ClipIsCut(s.key, 32);
    ClipIsCut(s.nvsKey, 20);
    ClipIsCut(s.description, 56);
    ClipIsCut(s.current, 40);
    ClipIsCut(s.default, 40);
  }

  /** A paged capability listing always arrives whole: each clipped entry once, in order, whatever the page size. */
  lemma {:induction false} CapabilityWalk(message: Text, xs: seq<Capability>, size: nat, snapshotId: uint32)
    requires |message| <= 24 && |xs| <= 0xFFFF && 0 < size
    ensures CollectCapabilities(Frame(CAPABILITIES, message, 0, [], []), xs, 0, size, snapshotId)
        == Some(ClipCapabilities(xs))
  {
    hide EmitBlocks, HeadFits, Overhead, CapabilityBlock, Size;
    var f := Frame(CAPABILITIES, message, 0, [], []);
    var cs := ClipCapabilities(xs);
    PlainOverhead(f);
    CapabilitiesProper(cs);
    CapabilityBlocksLength(cs);
    forall i | 0 <= i < |xs| ensures FitsAlone(f, CapabilityBlocks(cs)[i]) {
      CapabilitySize(cs[i]);
    }
    PagesTile(f, CapabilityBlocks(cs), 0, size, snapshotId);
    CollectsCapabilities(f, xs, 0, size, snapshotId);
    assert cs[0..] == cs;
  }

  /** Paged telemetry samples, which carry no message, always arrive whole too. */
  lemma {:induction false} SampleWalk(xs: seq<Sample>, size: nat, snapshotId: uint32)
    requires |xs| <= 0xFFFF && 0 < size
    ensures CollectSamples(Frame(TELEMETRY_SNAPSHOT, [], 0, [], []), xs, 0, size, snapshotId) == Some(ClipSamples(xs))
  {
    hide EmitBlocks, HeadFits, Overhead, SampleBlock, Size;
    var f := Frame(TELEMETRY_SNAPSHOT, [], 0, [], []);
    var cs := ClipSamples(xs);
    PlainOverhead(f);
    SamplesProper(cs);
    SampleBlocksLength(cs);
    forall i | 0 <= i < |xs| ensures FitsAlone(f, SampleBlocks(cs)[i]) {
      SampleSize(cs[i]);
    }
    PagesTile(f, SampleBlocks(cs), 0, size, snapshotId);
    CollectsSamples(f, xs, 0, size, snapshotId);
    assert cs[0..] == cs;
  }

  /** The bytes of a setting's texts after clipping. */
  function SettingText(x: Setting): nat {
    var c := ClipSetting(x);
    |c.key| + |c.nvsKey| + |c.current| + |c.default| + |c.description|
  }

  /**
   A paged settings listing arrives whole exactly when no setting's clipped texts and the message exceed what one
   page holds; otherwise the walk never gets past the first setting that does.
  */
  lemma {:induction false} SettingWalk(message: Text, xs: seq<Setting>, size: nat, snapshotId: uint32)
    requires |message| <= 24 && |xs| <= 0xFFFF && 0 < size
    ensures var room := 147 - if message == [] then 0 else 4 + |message|;
            CollectSettings(Frame(SETTINGS, message, 0, [], []), xs, 0, size, snapshotId)
              == if forall i :: 0 <= i < |xs| ==> SettingText(xs[i]) <= room then Some(ClipSettings(xs)) else None
  {
    hide EmitBlocks, HeadFits, Overhead, SettingBlock, Size, ClipSetting;
    var f := Frame(SETTINGS, message, 0, [], []);
    var cs := ClipSettings(xs);
    var room := 147 - if message == [] then 0 else 4 + |message|;
    PlainOverhead(f);
    SettingsProper(cs);
    SettingBlocksLength(cs);
    forall i | 0 <= i < |xs| ensures FitsAlone(f, SettingBlocks(cs)[i]) <==> SettingText(xs[i]) <= room {
      SettingSize(cs[i]);
    }
    PagesTile(f, SettingBlocks(cs), 0, size, snapshotId);
    CollectsSettings(f, xs, 0, size, snapshotId);
    assert cs[0..] == cs;
  }
}
