/**
 The walk over a paged OTA manifest. It gets through exactly when every image fits a page of its own, and then brings
 every image once and in order; but as the decoder moves ids to the entry before, they survive only where a page
 carries one image alone.
*/
module ManifestPaging {
  import opened FixedWidth
  import opened Options
  import opened Tlv
  import opened ResponseEncoding
  import opened ResponseDecoding
  import opened ResponseLists
  import opened ResponseRoundTrip
  import opened ResponseTheorems
  import opened DescriptorPaging

  /** What comes before the images on every page. */
  function ManifestFrame(message: Text): Frame {
    Frame(OTA_MANIFEST, message, 0, [], [])
  }

  function ManifestPage(message: Text, xs: seq<Image>, cursor: uint16, size: nat, snapshotId: uint32): Response {
    PageResponse(ManifestFrame(message), ImageBlocks(xs), cursor, size, snapshotId)
  }

  /** The client's walk: collect, follow the next cursor, stop at the done marker, give up without progress. */
  function CollectImages(message: Text, xs: seq<Image>, cursor: uint16, size: nat,
                         snapshotId: uint32): Option<seq<Image>>
    requires cursor <= |xs|
    decreases |xs| - cursor
  {
    match Reply(ManifestPage(message, xs, cursor, size, snapshotId))
    case None => None
    case Some((p, d)) =>
      if p.done then Some(d.images)
      else if !(cursor < p.next <= |xs|) then None
      else
        match CollectImages(message, xs, p.next, size, snapshotId)
        case None => None
        case Some(rest) => Some(d.images + rest)
  }

  // ---------------------------------------------------------------- one page

  lemma {:induction false} ImagesProper(xs: seq<Image>)
    requires |xs| <= 0xFFFF
    ensures |ImageBlocks(xs)| == |xs| && ProperList(ImageBlocks(xs))
  {
  }

  lemma {:induction false} SliceOfImages(xs: seq<Image>, cursor: uint16, size: nat)
    ensures Slice(ImageBlocks(xs), cursor, size) == ImageBlocks(Slice(xs, cursor, size))
  {
    hide ImageBlock;
  }

  lemma ProperManifest(message: Text)
    requires HeadFits(ManifestFrame(message))
    ensures ProperFrame(ManifestFrame(message))
  {
    hide HeadFits;
  }

  /** A reply tells the page it carries, and brings those images with their ids shifted. */
  lemma {:induction false} ManifestReply(message: Text, xs: seq<Image>, cursor: uint16, size: nat, snapshotId: uint32)
    requires HeadFits(ManifestFrame(message)) && |xs| <= 0xFFFF && cursor <= |xs| && 0 < size
    ensures var k := Carried(ManifestFrame(message), ImageBlocks(xs), cursor, size, snapshotId);
            var reply := Reply(ManifestPage(message, xs, cursor, size, snapshotId));
            && cursor + k <= |xs| && reply.Some?
            && reply.value.0 == PageMeta(snapshotId, |xs|, cursor, k, cursor + k, cursor + k == |xs|)
            && reply.value.1.images == ReadImages(xs[cursor..cursor + k])
  {
    hide Write, Repaired, Decode, Encode, Reply, FrameRead, LongestPrefix, Only, ImageBlocks, ReadImages, ProperList,
      Slice, CountsItems, HeadFits;
    var f := ManifestFrame(message);
    var r := ManifestPage(message, xs, cursor, size, snapshotId);
    var page := Slice(xs, cursor, size);
    ImagesProper(xs);
    ProperManifest(message);
    PageFacts(f, ImageBlocks(xs), cursor, size, snapshotId);
    SliceOfImages(xs, cursor, size);
    SliceLength(xs, cursor, size);
    ImagesProper(page);
    WriteOf(r);
    ManifestRoundTrip(r, page);
    ReplyIs(r);
    SliceStart(xs, cursor, size, Carried(f, ImageBlocks(xs), cursor, size, snapshotId));
  }

  lemma SliceLength<T>(xs: seq<T>, cursor: uint16, size: nat)
    ensures |Slice(xs, cursor, size)| <= |xs|
  {
  }

  /** With too long a message no page is written at all. */
  lemma {:induction false} NoReply(message: Text, xs: seq<Image>, cursor: uint16, size: nat, snapshotId: uint32)
    requires !HeadFits(ManifestFrame(message))
    ensures Reply(ManifestPage(message, xs, cursor, size, snapshotId)) == None
  {
    hide Encode, Decode, HeadTlvs, Size;
    var r := ManifestPage(message, xs, cursor, size, snapshotId);
    SameHead(ManifestFrame(message), r.items, r.page);
    EncodesWithinPayload(r);
  }

  // ---------------------------------------------------------------- the whole walk

  /** The page is one of those the walk over `total` entries makes. */
  predicate InList(p: NodeBundle.Page, total: nat) {
    p.Paged? && p.cursor + p.returned <= total
  }

  /** What the client reads from a page of the manifest. */
  function ReadPage(xs: seq<Image>, p: NodeBundle.Page): seq<Image>
    requires InList(p, |xs|)
  {
    ReadImages(xs[p.cursor..p.cursor + p.returned])
  }

  function ReadPages(xs: seq<Image>, pages: seq<NodeBundle.Page>): seq<Image>
    requires forall i :: 0 <= i < |pages| ==> InList(pages[i], |xs|)
  {
    if pages == [] then [] else ReadPage(xs, pages[0]) + ReadPages(xs, pages[1..])
  }

  lemma {:induction false} PagesInList(f: Frame, bs: seq<Block>, cursor: uint16, size: nat, snapshotId: uint32)
    requires |bs| <= 0xFFFF && cursor <= |bs|
    ensures var pages := PagesFrom(f, bs, cursor, size, snapshotId);
            pages.Some? ==> forall i :: 0 <= i < |pages.value| ==> InList(pages.value[i], |bs|)
    decreases |bs| - cursor
  {
    hide Carried;
    var k := Carried(f, bs, cursor, size, snapshotId);
    if k > 0 && cursor + k < |bs| {
      PagesInList(f, bs, cursor + k, size, snapshotId);
    }
  }

  /** The pages of the walk over the manifest from `cursor` on. */
  function ManifestPages(message: Text, xs: seq<Image>, cursor: uint16, size: nat, snapshotId: uint32)
    : (pages: Option<seq<NodeBundle.Page>>)
    requires |xs| <= 0xFFFF && cursor <= |xs|
    ensures pages.Some? ==> forall i :: 0 <= i < |pages.value| ==> InList(pages.value[i], |xs|)
  {
    PagesInList(ManifestFrame(message), ImageBlocks(xs), cursor, size, snapshotId);
    PagesFrom(ManifestFrame(message), ImageBlocks(xs), cursor, size, snapshotId)
  }

  /** The walk reads its pages one after the other. */
  lemma {:induction false} CollectsImages(message: Text, xs: seq<Image>, cursor: uint16, size: nat, snapshotId: uint32)
    requires HeadFits(ManifestFrame(message)) && |xs| <= 0xFFFF && cursor <= |xs| && 0 < size
    ensures var pages := ManifestPages(message, xs, cursor, size, snapshotId);
            CollectImages(message, xs, cursor, size, snapshotId)
              == if pages.Some? then Some(ReadPages(xs, pages.value)) else None
    decreases |xs| - cursor
  {
    hide HeadFits, ImageBlocks, Carried, Reply, ManifestPage, ReadImages;
    var f := ManifestFrame(message);
    ImagesProper(xs);
    PagesInList(f, ImageBlocks(xs), cursor, size, snapshotId);
    var k := Carried(f, ImageBlocks(xs), cursor, size, snapshotId);
    ManifestReply(message, xs, cursor, size, snapshotId);
    if k > 0 && cursor + k < |xs| {
      CollectsImages(message, xs, cursor + k, size, snapshotId);
      PagesInList(f, ImageBlocks(xs), cursor + k, size, snapshotId);
      var rest := PagesFrom(f, ImageBlocks(xs), cursor + k, size, snapshotId);
      if rest.Some? {
        var all := [NodeBundle.Paged(cursor, k, |xs|, false)] + rest.value;
        assert all[1..] == rest.value;
      }
    } else if cursor + k == |xs| {
      var all := [NodeBundle.Paged(cursor, k, |xs|, true)];
      assert all[1..] == [] && ReadPage(xs, all[0]) + [] == ReadPage(xs, all[0]);
    }
  }

  // ---------------------------------------------------------------- what arrives

  /** The images agree in everything but their ids. */
  predicate SameButId(a: seq<Image>, b: seq<Image>) {
    |a| == |b| && forall i :: 0 <= i < |a| ==> a[i] == b[i].(id := a[i].id)
  }

  lemma {:induction false} ReadImagesSame(xs: seq<Image>)
    ensures SameButId(ReadImages(xs), xs)
  {
    hide Shifted;
    if |xs| > 1 {
      forall i | 0 <= i < |xs| ensures ReadImages(xs)[i] == xs[i].(id := ReadImages(xs)[i].id) {
        ShiftedAt(xs, i);
      }
    }
  }

  /** The page carries one image at most, or images without ids. */
  ghost predicate IdsSafe(xs: seq<Image>, p: NodeBundle.Page)
    requires InList(p, |xs|)
  {
    p.returned <= 1 || forall i :: p.cursor <= i < p.cursor + p.returned ==> xs[i].id == 0
  }

  lemma {:induction false} PageExact(xs: seq<Image>, p: NodeBundle.Page)
    requires InList(p, |xs|)
    ensures SameButId(ReadPage(xs, p), xs[p.cursor..p.cursor + p.returned])
    ensures ReadPage(xs, p) == xs[p.cursor..p.cursor + p.returned] <==> IdsSafe(xs, p)
  {
    hide ReadImages;
    var part := xs[p.cursor..p.cursor + p.returned];
    ReadImagesSame(part);
    ManifestSurvives(part);
    assert forall i :: 0 <= i < |part| ==> part[i] == xs[p.cursor + i];
    if p.returned > 1 && forall i :: 0 <= i < |part| ==> part[i].id == 0 {
      assert forall i :: p.cursor <= i < p.cursor + p.returned ==> xs[i] == part[i - p.cursor];
    }
  }

  /**
   Pages that tile the list from `from` on bring each image once, in order, whole exactly where all pages are safe.
  */
  lemma {:induction false} PagesExact(xs: seq<Image>, pages: seq<NodeBundle.Page>, from: nat)
    requires |xs| <= 0xFFFF && Tiles(pages, from, |xs|) && forall i :: 0 <= i < |pages| ==> InList(pages[i], |xs|)
    ensures from <= |xs| && SameButId(ReadPages(xs, pages), xs[from..])
    ensures ReadPages(xs, pages) == xs[from..] <==> forall i :: 0 <= i < |pages| ==> IdsSafe(xs, pages[i])
    decreases |pages|
  {
    hide ReadPage, IdsSafe, SameButId;
    PageExact(xs, pages[0]);
    var next := from + pages[0].returned;
    var head, rest := ReadPage(xs, pages[0]), ReadPages(xs, pages[1..]);
    assert xs[from..] == xs[from..next] + xs[next..];
    if |pages| == 1 {
      assert pages[1..] == [] && xs[next..] == [] && head + [] == head && xs[from..next] + [] == xs[from..next];
    } else {
      assert pages[1..][0] == pages[1];
      TilesRest(pages, from, |xs|);
      PagesExact(xs, pages[1..], next);
      JoinSame(head, rest, xs[from..next], xs[next..]);
      AllSafe(xs, pages);
    }
  }

  lemma AllSafe(xs: seq<Image>, pages: seq<NodeBundle.Page>)
    requires pages != [] && forall i :: 0 <= i < |pages| ==> InList(pages[i], |xs|)
    ensures (forall i :: 0 <= i < |pages| ==> IdsSafe(xs, pages[i]))
       <==> IdsSafe(xs, pages[0]) && forall i :: 0 <= i < |pages[1..]| ==> IdsSafe(xs, pages[1..][i])
  {
    hide IdsSafe;
    assert forall i :: 0 <= i < |pages[1..]| ==> pages[1..][i] == pages[i + 1];
    assert forall i :: 0 < i < |pages| ==> pages[i] == pages[1..][i - 1];
  }

  lemma TilesRest(pages: seq<NodeBundle.Page>, from: nat, total: uint16)
    requires Tiles(pages, from, total) && |pages| > 1
    ensures Tiles(pages[1..], from + pages[0].returned, total)
  {
    var rest := pages[1..];
    assert forall i :: 0 <= i < |rest| ==> rest[i] == pages[i + 1];
  }

  lemma JoinSame(a: seq<Image>, b: seq<Image>, x: seq<Image>, y: seq<Image>)
    requires SameButId(a, x) && SameButId(b, y)
    ensures SameButId(a + b, x + y) && (a + b == x + y <==> a == x && b == y)
  {
    if a + b == x + y {
      assert (a + b)[..|a|] == a && (x + y)[..|a|] == x;
      assert (a + b)[|a|..] == b && (x + y)[|a|..] == y;
    }
  }

  // ---------------------------------------------------------------- the result

  /** The bytes of an image's texts. */
  function ImageText(x: Image): nat {
    |x.name| + |x.version| + |x.build| + |x.state|
  }

  lemma {:induction false} ImageSize(x: Image)
    ensures Size(ImageBlock(x).base) == 56 + ImageText(x)
  {
    var a, b := U32Of(0xE0, x.id), Utf8Of(0xE1, x.name);
    var c, d, e := U32Of(0xE2, x.size), U32Of(0xE3, x.crc), Utf8Of(0xE4, x.version);
    var g, h, i, j := Utf8Of(0xE5, x.build), U32Of(0xE6, x.created), Utf8Of(0xE7, x.state), U32Of(0xE8, x.required);
    SizeAppend([a, b], [c, d, e] + [g, h, i, j]);
    SizeAppend([a], [b]);
    SizeOfSingle(a);
    SizeOfSingle(b);
    assert [a] + [b] == [a, b];
    SizeAppend([c, d, e], [g, h, i, j]);
    SizeOfThree(c, d, e);
    SizeOfFour(g, h, i, j);
  }

  /** The room one page leaves for the texts of an image; none at all when the message is too long. */
  function ImageRoom(message: Text): int {
    127 - if message == [] then 0 else 4 + |message|
  }

  lemma {:induction false} ImageFits(message: Text, x: Image)
    ensures FitsAlone(ManifestFrame(message), ImageBlock(x)) <==> ImageText(x) <= ImageRoom(message)
    ensures HeadFits(ManifestFrame(message)) <==> ImageRoom(message) >= -56
  {
    hide Overhead, HeadFits, Size, ImageBlock;
    PlainOverhead(ManifestFrame(message));
    ImageSize(x);
  }

  /**
   A paged manifest arrives exactly when its pages can be written and every image's texts fit one page beside the
   message. Each image then comes once and in order, all of it but the id; and the ids are right exactly when every
   page of the walk carried one image at most, or images without ids.
  */
  lemma {:induction false} ManifestWalk(message: Text, xs: seq<Image>, asked: byte, snapshotId: uint32)
    requires |xs| <= 0xFFFF
    ensures var got := CollectImages(message, xs, 0, EffectivePageSize(true, true, asked), snapshotId);
            && (got.Some? <==>
                  && ImageRoom(message) >= -56
                  && forall i :: 0 <= i < |xs| ==> ImageText(xs[i]) <= ImageRoom(message))
            && (got.Some? ==>
                  var pages := ManifestPages(message, xs, 0, EffectivePageSize(true, true, asked), snapshotId);
                  && pages.Some? && Tiles(pages.value, 0, |xs|) && SameButId(got.value, xs)
                  && (got.value == xs <==> forall i :: 0 <= i < |pages.value| ==> IdsSafe(xs, pages.value[i])))
  {
    hide HeadFits, FitsAlone, Tiles, SameButId, IdsSafe, InList, PagesFrom, CollectImages, ImageText, ImageBlocks;
    var f, size := ManifestFrame(message), EffectivePageSize(true, true, asked);
    HeadAgrees(message);
    if !HeadFits(f) {
      NoneCollected(message, xs, size, snapshotId);
    } else {
      ImagesProper(xs);
      ProperManifest(message);
      CollectsImages(message, xs, 0, size, snapshotId);
      PagesTile(f, ImageBlocks(xs), 0, size, snapshotId);
      PagesInList(f, ImageBlocks(xs), 0, size, snapshotId);
      AllImagesFit(message, xs);
      var pages := PagesFrom(f, ImageBlocks(xs), 0, size, snapshotId);
      if pages.Some? {
        PagesExact(xs, pages.value, 0);
        assert xs[0..] == xs;
      }
    }
  }

  lemma HeadAgrees(message: Text)
    ensures HeadFits(ManifestFrame(message)) <==> ImageRoom(message) >= -56
  {
    ImageFits(message, NO_IMAGE);
  }

  lemma {:induction false} AllImagesFit(message: Text, xs: seq<Image>)
    ensures AllFitAlone(ManifestFrame(message), ImageBlocks(xs), 0)
       <==> forall i :: 0 <= i < |xs| ==> ImageText(xs[i]) <= ImageRoom(message)
  {
    hide FitsAlone, ImageText, ImageBlock;
    var bs := ImageBlocks(xs);
    forall i | 0 <= i < |xs| ensures FitsAlone(ManifestFrame(message), bs[i])
        <==> ImageText(xs[i]) <= ImageRoom(message) {
      ImageFits(message, xs[i]);
    }
  }

  lemma {:induction false} NoneCollected(message: Text, xs: seq<Image>, size: nat, snapshotId: uint32)
    requires !HeadFits(ManifestFrame(message))
    ensures CollectImages(message, xs, 0, size, snapshotId) == None
  {
    hide HeadFits, ManifestPage;
    NoReply(message, xs, 0, size, snapshotId);
  }

  /** Asked for one image a page, the walk brings the manifest whole, ids and all. */
  lemma {:induction false} OneByOne(message: Text, xs: seq<Image>, snapshotId: uint32)
    requires |xs| <= 0xFFFF && ImageRoom(message) >= -56
    requires forall i :: 0 <= i < |xs| ==> ImageText(xs[i]) <= ImageRoom(message)
    ensures CollectImages(message, xs, 0, EffectivePageSize(true, true, 1), snapshotId) == Some(xs)
  {
    hide HeadFits, FitsAlone, Tiles, SameButId, PagesFrom, CollectImages, ImageText, ImageBlocks;
    var f, size := ManifestFrame(message), EffectivePageSize(true, true, 1);
    HeadAgrees(message);
    ImagesProper(xs);
    ProperManifest(message);
    CollectsImages(message, xs, 0, size, snapshotId);
    PagesTile(f, ImageBlocks(xs), 0, size, snapshotId);
    PagesInList(f, ImageBlocks(xs), 0, size, snapshotId);
    AllImagesFit(message, xs);
    ShortPages(f, ImageBlocks(xs), 0, size, snapshotId);
    PagesExact(xs, PagesFrom(f, ImageBlocks(xs), 0, size, snapshotId).value, 0);
    assert xs[0..] == xs;
  }

  /** No page carries more than was asked for. */
  lemma {:induction false} ShortPages(f: Frame, bs: seq<Block>, cursor: uint16, size: nat, snapshotId: uint32)
    requires ProperFrame(f) && ProperList(bs) && cursor <= |bs| && 0 < size
    ensures var pages := PagesFrom(f, bs, cursor, size, snapshotId);
            pages.Some? ==> forall i :: 0 <= i < |pages.value| ==>
                pages.value[i].Paged? && pages.value[i].returned <= size
    decreases |bs| - cursor
  {
    hide Carried, ProperFrame, ProperList, PageResponse, Write;
    PageFacts(f, bs, cursor, size, snapshotId);
    SliceAtMost(bs, cursor, size);
    ItemsOfPage(f, bs, cursor, size, snapshotId);
    var k := Carried(f, bs, cursor, size, snapshotId);
    if k > 0 && cursor + k < |bs| {
      ShortPages(f, bs, cursor + k, size, snapshotId);
    }
  }

  lemma ItemsOfPage(f: Frame, bs: seq<Block>, cursor: uint16, size: nat, snapshotId: uint32)
    ensures PageResponse(f, bs, cursor, size, snapshotId).items == Slice(bs, cursor, size)
  {
    hide Slice;
  }

  lemma SliceAtMost<T>(xs: seq<T>, cursor: uint16, size: nat)
    ensures |Slice(xs, cursor, size)| <= size
  {
  }
}
