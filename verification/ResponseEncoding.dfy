/**
 Writing a descriptor response into one frame: fixed fields first, then as many list entries as fit, then the
 paging metadata repaired to what was really written. Everything stays within one payload.
*/
module ResponseEncoding {
  import opened FixedWidth
  import opened LittleEndian
  import opened Options
  import opened Tlv

  const MAX_PAYLOAD: nat := 235
  const META_RESERVE: nat := 42

  const CAPABILITIES: byte := 2
  const TELEMETRY: byte := 3
  const TELEMETRY_SNAPSHOT: byte := 4
  const NODE_BUNDLE: byte := 7
  const SETTINGS: byte := 8
  const STORAGE_LIST: byte := 13
  const OTA_MANIFEST: byte := 18
  const BUNDLE_ALL: byte := 0x1F

  const TRUNCATED: seq<byte> := [116, 114, 117, 110, 99, 97, 116, 101, 100]

  /** One list entry: its base tags are written together or not at all; each option only if there is room. */
  datatype Block = Block(base: seq<Tlv>, options: seq<seq<Tlv>>)

  datatype PageMeta = PageMeta(snapshotId: uint32, total: uint16, cursor: uint16, returned: uint16, next: uint16,
                               done: bool)

  /** `before` are entries whose number is not reported (the samples of a bundle, a directory's files); `items` are. */
  datatype Response = Response(
    kind: byte,
    message: seq<byte>,
    mask: byte,
    scalars: seq<Tlv>,
    before: seq<Block>,
    items: seq<Block>,
    page: Option<PageMeta>)

  // ---------------------------------------------------------------- sizes

  function Size(ts: seq<Tlv>): nat {
    if ts == [] then 0 else 4 + |ts[0].value| + Size(ts[1..])
  }

  lemma {:induction false} SizeAppend(a: seq<Tlv>, b: seq<Tlv>)
    ensures Size(a + b) == Size(a) + Size(b)
    decreases |a|
  {
    if a == [] {
      assert a + b == b;
    } else {
      assert (a + b)[0] == a[0] && (a + b)[1..] == a[1..] + b;
      SizeAppend(a[1..], b);
    }
  }

  lemma {:induction false} SizeIsBytes(ts: seq<Tlv>)
    requires Size(ts) <= MAX_VALUE
    ensures AllFit(ts) && |AllBytes(ts)| == Size(ts)
    decreases |ts|
  {
    hide Bytes;
    if ts != [] {
      SizeIsBytes(ts[1..]);
      assert forall i :: 0 < i < |ts| ==> ts[i] == ts[1..][i - 1];
    }
  }

  predicate CanFit(size: nat, more: nat, reserve: nat) {
    size + more + reserve <= MAX_PAYLOAD
  }

  // ---------------------------------------------------------------- entries

  function EmitOptions(size: nat, os: seq<seq<Tlv>>, reserve: nat): (seq<Tlv>, bool)
    decreases |os|
  {
    if os == [] then ([], false)
    else if CanFit(size, Size(os[0]), reserve) then
      var rest := EmitOptions(size + Size(os[0]), os[1..], reserve);
      (os[0] + rest.0, rest.1)
    else
      var rest := EmitOptions(size, os[1..], reserve);
      (rest.0, true)
  }

  datatype Emitted = Emitted(tlvs: seq<Tlv>, count: nat, truncated: bool)

  function EmitOne(size: nat, b: Block, reserve: nat): (seq<Tlv>, bool) {
    var os := EmitOptions(size + Size(b.base), b.options, reserve);
    (b.base + os.0, os.1)
  }

  function EmitBlocks(size: nat, bs: seq<Block>, reserve: nat): Emitted
    decreases |bs|
  {
    if bs == [] then Emitted([], 0, false)
    else if !CanFit(size, Size(bs[0].base), reserve) then Emitted([], 0, true)
    else
      var one := EmitOne(size, bs[0], reserve);
      var rest := EmitBlocks(size + Size(one.0), bs[1..], reserve);
      Emitted(one.0 + rest.tlvs, 1 + rest.count, one.1 || rest.truncated)
  }

  lemma {:induction false} OptionsFit(size: nat, os: seq<seq<Tlv>>, reserve: nat)
    requires CanFit(size, 0, reserve)
    ensures CanFit(size, Size(EmitOptions(size, os, reserve).0), reserve)
    decreases |os|
  {
    if os != [] {
      if CanFit(size, Size(os[0]), reserve) {
        OptionsFit(size + Size(os[0]), os[1..], reserve);
        SizeAppend(os[0], EmitOptions(size + Size(os[0]), os[1..], reserve).0);
      } else {
        OptionsFit(size, os[1..], reserve);
      }
    }
  }

  lemma OneFits(size: nat, b: Block, reserve: nat)
    requires CanFit(size, Size(b.base), reserve)
    ensures CanFit(size, Size(EmitOne(size, b, reserve).0), reserve)
  {
    hide EmitOptions;
    OptionsFit(size + Size(b.base), b.options, reserve);
    SizeAppend(b.base, EmitOptions(size + Size(b.base), b.options, reserve).0);
  }

  /** What is emitted fits, and the count is the entries written. */
  lemma {:induction false} BlocksFit(size: nat, bs: seq<Block>, reserve: nat)
    requires CanFit(size, 0, reserve)
    ensures var e := EmitBlocks(size, bs, reserve); CanFit(size, Size(e.tlvs), reserve) && e.count <= |bs|
    decreases |bs|
  {
    hide EmitOne, Size;
    SizeOfNothing();
    if bs != [] && CanFit(size, Size(bs[0].base), reserve) {
      var one := EmitOne(size, bs[0], reserve);
      OneFits(size, bs[0], reserve);
      BlocksFit(size + Size(one.0), bs[1..], reserve);
      SizeAppend(one.0, EmitBlocks(size + Size(one.0), bs[1..], reserve).tlvs);
    }
  }

  /** Blocks without options. */
  ghost predicate Solid(bs: seq<Block>) {
    forall i :: 0 <= i < |bs| ==> bs[i].options == []
  }

  function BaseTlvs(bs: seq<Block>): seq<Tlv> {
    if bs == [] then [] else bs[0].base + BaseTlvs(bs[1..])
  }

  lemma SolidOne(size: nat, b: Block, reserve: nat)
    requires b.options == []
    ensures EmitOne(size, b, reserve) == (b.base, false)
  {
    assert b.base + [] == b.base;
  }

  /**
   Without options, exactly the longest prefix of entries that fits is written, whole, and the response counts as
   truncated exactly when that is not all of them.
  */
  lemma {:induction false} SolidPrefix(size: nat, bs: seq<Block>, reserve: nat)
    requires Solid(bs) && CanFit(size, 0, reserve)
    ensures var e := EmitBlocks(size, bs, reserve);
            && e.count <= |bs| && e.tlvs == BaseTlvs(bs[..e.count]) && (e.truncated <==> e.count < |bs|)
            && (e.count < |bs| ==> !CanFit(size, Size(BaseTlvs(bs[..e.count])) + Size(bs[e.count].base), reserve))
    decreases |bs|
  {
    hide EmitOne, Size;
    if bs != [] && CanFit(size, Size(bs[0].base), reserve) {
      SolidOne(size, bs[0], reserve);
      var e := EmitBlocks(size + Size(bs[0].base), bs[1..], reserve);
      SolidPrefix(size + Size(bs[0].base), bs[1..], reserve);
      FirstAndRest(bs, e.count);
    } else {
      assert bs[..0] == [];
      SizeOfNothing();
    }
  }

  lemma SizeOfNothing()
    ensures Size([]) == 0
  {
  }

  lemma FirstAndRest(bs: seq<Block>, k: nat)
    requires bs != [] && k <= |bs[1..]|
    ensures BaseTlvs(bs[..k + 1]) == bs[0].base + BaseTlvs(bs[1..][..k])
    ensures Size(BaseTlvs(bs[..k + 1])) == Size(bs[0].base) + Size(BaseTlvs(bs[1..][..k]))
  {
    hide Size;
    assert bs[..k + 1][1..] == bs[1..][..k];
    SizeAppend(bs[0].base, BaseTlvs(bs[1..][..k]));
  }

  // ---------------------------------------------------------------- the whole response

  function HeadTlvs(r: Response): seq<Tlv> {
    [U8Of(0x01, 1), U8Of(0x10, r.kind)]
      + (if r.message == [] then [] else [Utf8Of(0x11, r.message)])
      + (if r.kind == NODE_BUNDLE || r.mask != 0 then [U8Of(0x59, if r.mask == 0 then BUNDLE_ALL else r.mask)] else [])
      + r.scalars
  }

  predicate CountsItems(kind: byte) {
    || kind == CAPABILITIES || kind == TELEMETRY || kind == TELEMETRY_SNAPSHOT
    || kind == NODE_BUNDLE || kind == SETTINGS || kind == OTA_MANIFEST
  }

  /** The response types as the wire numbers them, and the message that tells of a cut list. */
  lemma ResponseNumbers()
    ensures CAPABILITIES == 2 && TELEMETRY == 3 && TELEMETRY_SNAPSHOT == 4 && NODE_BUNDLE == 7 && SETTINGS == 8
    ensures STORAGE_LIST == 13 && OTA_MANIFEST == 18 && BUNDLE_ALL == 31
    ensures forall kind: byte :: CountsItems(kind) <==> kind in {2, 3, 4, 7, 8, 18}
  {
  }

  /** The metadata as written: corrected when fewer (or more) entries went out than announced. */
  function Repaired(kind: byte, p: PageMeta, count: uint16): PageMeta {
    if !CountsItems(kind) || count == p.returned then p
    else
      var next := Min(p.cursor + count, p.total);
      p.(returned := count, next := next, done := next >= p.total)
  }

  function MetaTlvs(p: PageMeta): seq<Tlv> {
    [BoolOf(0x18, true), U32Of(0x19, p.snapshotId), U16Of(0x1A, p.total), U16Of(0x1B, p.cursor)]
      + [U16Of(0x1C, p.returned), U16Of(0x1D, p.next), BoolOf(0x1E, p.done)]
  }

  lemma MetaSize(p: PageMeta)
    ensures Size(MetaTlvs(p)) == META_RESERVE
  {
    hide U32Bytes, U16Bytes;
    var a := [BoolOf(0x18, true), U32Of(0x19, p.snapshotId), U16Of(0x1A, p.total), U16Of(0x1B, p.cursor)];
    var b := [U16Of(0x1C, p.returned), U16Of(0x1D, p.next), BoolOf(0x1E, p.done)];
    SizeAppend(a, b);
    SizeOfFour(a[0], a[1], a[2], a[3]);
    SizeOfThree(b[0], b[1], b[2]);
  }

  lemma SizeOfThree(a: Tlv, b: Tlv, c: Tlv)
    ensures Size([a, b, c]) == 12 + |a.value| + |b.value| + |c.value|
  {
    assert [a, b, c][1..] == [b, c] && [b, c][1..] == [c] && [c][1..] == [];
    assert Size([c]) == 4 + |c.value| && Size([b, c]) == 4 + |b.value| + Size([c]);
  }

  lemma SizeOfFour(a: Tlv, b: Tlv, c: Tlv, d: Tlv)
    ensures Size([a, b, c, d]) == 16 + |a.value| + |b.value| + |c.value| + |d.value|
  {
    assert [a, b, c, d][1..] == [b, c, d];
    SizeOfThree(b, c, d);
  }

  function Reserve(r: Response): nat {
    if r.page.Some? then META_RESERVE else 0
  }

  /** What went out: the pieces of the payload in order. */
  datatype Output = Output(head: seq<Tlv>, before: Emitted, items: Emitted, meta: seq<Tlv>, tail: seq<Tlv>,
                           truncated: bool)

  function OutputTlvs(o: Output): seq<Tlv> {
    o.head + o.before.tlvs + o.items.tlvs + o.meta + o.tail
  }

  function Write(r: Response): Option<Output> {
    var head, reserve := HeadTlvs(r), Reserve(r);
    if !CanFit(0, Size(head), reserve) then None
    else
      var before := EmitBlocks(Size(head), r.before, reserve);
      var size := Size(head) + Size(before.tlvs);
      var items := EmitBlocks(size, r.items, reserve);
      var count := Wrap16(items.count);
      var repaired := r.page.Some? && CountsItems(r.kind) && count != r.page.value.returned;
      var meta := if r.page.Some? then MetaTlvs(Repaired(r.kind, r.page.value, count)) else [];
      var truncated := before.truncated || items.truncated || repaired;
      var room := CanFit(size + Size(items.tlvs) + Size(meta), 4 + |TRUNCATED|, 0);
      Some(Output(head, before, items, meta, if truncated && room then [Utf8Of(0x11, TRUNCATED)] else [], truncated))
  }

  /** Every response that is written at all fits one payload, metadata and all. */
  lemma WrittenFits(r: Response)
    ensures Write(r).Some? ==> Size(OutputTlvs(Write(r).value)) <= MAX_PAYLOAD && AllFit(OutputTlvs(Write(r).value))
  {
    hide HeadTlvs, EmitBlocks, MetaTlvs, Repaired, CountsItems;
    if Write(r).Some? {
      var o := Write(r).value;
      var reserve := Reserve(r);
      BlocksFit(Size(o.head), r.before, reserve);
      BlocksFit(Size(o.head) + Size(o.before.tlvs), r.items, reserve);
      SizeAppend(o.head, o.before.tlvs);
      SizeAppend(o.head + o.before.tlvs, o.items.tlvs);
      SizeAppend(o.head + o.before.tlvs + o.items.tlvs, o.meta);
      SizeAppend(o.head + o.before.tlvs + o.items.tlvs + o.meta, o.tail);
      if r.page.Some? {
        MetaSize(Repaired(r.kind, r.page.value, Wrap16(o.items.count)));
      }
      TailSize(o.tail);
      SizeIsBytes(OutputTlvs(o));
    }
  }

  /**
   A response says that it was truncated exactly when something was left out, or when its page announces another number
   of entries than the list carries; the message goes in if there is still room for it, at the end.
  */
  lemma TruncatedExactly(r: Response)
    requires Write(r).Some?
    ensures var o := Write(r).value;
            var announced := r.page.Some? && r.kind in {2, 3, 4, 7, 8, 18}
                             && r.page.value.returned != o.items.count % 0x1_0000;
            var size := Size(o.head) + Size(o.before.tlvs) + Size(o.items.tlvs) + Size(o.meta);
            && (o.truncated <==> o.before.truncated || o.items.truncated || announced)
            && o.tail == if o.truncated && size + 13 <= MAX_PAYLOAD then [Utf8Of(0x11, TRUNCATED)] else []
  {
    hide HeadTlvs, EmitBlocks, MetaTlvs, Repaired;
  }

  /**
   The paging metadata of a response: what its page announces, unless the list carries another number of entries; then
   that number, the cursor behind them, no further than the total, and whether this is the end. Without a page there is
   none.
  */
  lemma MetadataExactly(r: Response)
    requires Write(r).Some?
    ensures r.page.None? ==> Write(r).value.meta == []
    ensures r.page.Some? ==>
              var (p, n) := (r.page.value, Write(r).value.items.count % 0x1_0000);
              var reached := p.cursor + n >= p.total;
              Write(r).value.meta
                == MetaTlvs(if r.kind !in {2, 3, 4, 7, 8, 18} || n == p.returned then p
                            else PageMeta(p.snapshotId, p.total, p.cursor, n, if reached then p.total else p.cursor + n,
                                          reached))
  {
    hide HeadTlvs, EmitBlocks, MetaTlvs;
  }

  lemma {:induction false} TailSize(tail: seq<Tlv>)
    requires tail == [] || tail == [Utf8Of(0x11, TRUNCATED)]
    ensures Size(tail) == if tail == [] then 0 else 13
  {
    if tail != [] {
      assert tail[1..] == [];
    }
  }

  function Encode(r: Response): Option<seq<byte>> {
    match Write(r)
    case None => None
    case Some(o) => WrittenFits(r); Some(AllBytes(OutputTlvs(o)))
  }

  /** A response is refused exactly when its fixed fields do not fit beside the reserve; otherwise it is one payload. */
  lemma EncodesWithinPayload(r: Response)
    ensures Encode(r).Some? <==> Size(HeadTlvs(r)) + (if r.page.Some? then 42 else 0) <= 235
    ensures Encode(r).Some? ==> |Encode(r).value| <= MAX_PAYLOAD
  {
    hide HeadTlvs, EmitBlocks, MetaTlvs, Repaired;
    WrittenFits(r);
    if Encode(r).Some? {
      SizeIsBytes(OutputTlvs(Write(r).value));
    }
  }

  ghost predicate Tagged(bs: seq<Block>) {
    forall i :: 0 <= i < |bs| ==> bs[i].base != []
  }

  lemma {:induction false} CountBySize(size: nat, bs: seq<Block>, reserve: nat)
    requires Tagged(bs)
    ensures var e := EmitBlocks(size, bs, reserve); 4 * e.count <= Size(e.tlvs)
    decreases |bs|
  {
    hide EmitOptions;
    if bs != [] && CanFit(size, Size(bs[0].base), reserve) {
      var one := EmitOne(size, bs[0], reserve);
      CountBySize(size + Size(one.0), bs[1..], reserve);
      SizeAppend(one.0, EmitBlocks(size + Size(one.0), bs[1..], reserve).tlvs);
      SizeAppend(bs[0].base, EmitOptions(size + Size(bs[0].base), bs[0].options, reserve).0);
    }
  }

  /** The reported count is the number of entries in the payload, never wrapped. */
  lemma CountIsExact(r: Response)
    requires Write(r).Some? && Tagged(r.items)
    ensures Wrap16(Write(r).value.items.count) == Write(r).value.items.count <= MAX_PAYLOAD
  {
    hide HeadTlvs, EmitBlocks, MetaTlvs, Repaired;
    var o := Write(r).value;
    CountBySize(Size(o.head) + Size(o.before.tlvs), r.items, Reserve(r));
    BlocksFit(Size(o.head), r.before, Reserve(r));
    BlocksFit(Size(o.head) + Size(o.before.tlvs), r.items, Reserve(r));
  }

  // ---------------------------------------------------------------- the encoder over its output vector

  /** The entry loop: stops at the first entry that does not fit. */
  method AppendBlocks(out: seq<byte>, bs: seq<Block>, reserve: nat) returns (r: seq<byte>, count: nat, truncated: bool)
    requires CanFit(|out|, 0, reserve)
    ensures var e := EmitBlocks(|out|, bs, reserve);
            Size(e.tlvs) <= MAX_VALUE && AllFit(e.tlvs) && r == out + AllBytes(e.tlvs) && count == e.count
                && truncated == e.truncated
  {
    hide EmitBlocks, EmitOne, AllBytes, Ends, Size;
    ghost var done: seq<Tlv> := [];
    r, count, truncated := out, 0, false;
    var i := 0;
    EndsFromStart(EmitBlocks(|out|, bs, reserve));
    BlocksFit(|out|, bs, reserve);
    SizeIsBytes(EmitBlocks(|out|, bs, reserve).tlvs);
    assert bs[0..] == bs;
    Nothing();
    var stopped := false;
    while i < |bs| && !stopped
      invariant 0 <= i <= |bs| && count == i && CanFit(|r|, 0, reserve)
      invariant AllFit(done) && r == out + AllBytes(done)
      invariant Ends(done, count, truncated,
                     if stopped then Emitted([], 0, false) else EmitBlocks(|r|, bs[i..], reserve))
             == EmitBlocks(|out|, bs, reserve)
      decreases |bs| - i, if stopped then 0 else 1
    {
      BlocksUnfold(done, count, truncated, |r|, bs[i..], reserve);
      assert bs[i..][0] == bs[i] && bs[i..][1..] == bs[i + 1..];
      SizeOfBase(bs[i].base);
      if !CanFit(|r|, Size(bs[i].base), reserve) {
        truncated := true;
        stopped := true;
      } else {
        OneFits(|r|, bs[i], reserve);
        ghost var one := EmitOne(|r|, bs[i], reserve);
        SizeIsBytes(one.0);
        AllBytesAppend(done, one.0);
        var dropped;
        r, dropped := AppendOne(r, bs[i], reserve);
        done := done + one.0;
        truncated := truncated || dropped;
        count := count + 1;
        i := i + 1;
      }
    }
    if stopped {
      EndsHere(done, count, truncated);
    } else {
      BlocksUnfold(done, count, truncated, |r|, bs[i..], reserve);
    }
  }

  lemma EndsHere(done: seq<Tlv>, count: nat, truncated: bool)
    ensures Ends(done, count, truncated, Emitted([], 0, false)) == Emitted(done, count, truncated)
  {
    assert done + [] == done;
  }

  lemma EndsFromStart(e: Emitted)
    ensures Ends([], 0, false, e) == e
  {
    assert [] + e.tlvs == e.tlvs;
  }

  lemma Nothing()
    ensures AllBytes([]) == []
  {
  }

  lemma {:induction false} SizeOfBase(ts: seq<Tlv>)
    ensures Size(ts) >= 0
  {
  }

  ghost function Ends(done: seq<Tlv>, count: nat, truncated: bool, e: Emitted): Emitted {
    Emitted(done + e.tlvs, count + e.count, truncated || e.truncated)
  }

  lemma BlocksUnfold(done: seq<Tlv>, count: nat, truncated: bool, size: nat, bs: seq<Block>, reserve: nat)
    ensures bs == [] ==> Ends(done, count, truncated, EmitBlocks(size, bs, reserve)) == Emitted(done, count, truncated)
    ensures bs != [] && !CanFit(size, Size(bs[0].base), reserve) ==>
              Ends(done, count, truncated, EmitBlocks(size, bs, reserve))
                  == Ends(done, count, true, Emitted([], 0, false))
    ensures bs != [] && CanFit(size, Size(bs[0].base), reserve) ==>
              var one := EmitOne(size, bs[0], reserve);
              Ends(done, count, truncated, EmitBlocks(size, bs, reserve))
                == Ends(done + one.0, count + 1, truncated || one.1, EmitBlocks(size + Size(one.0), bs[1..], reserve))
  {
    hide EmitOne;
    assert done + [] == done;
    if bs != [] && CanFit(size, Size(bs[0].base), reserve) {
      var one := EmitOne(size, bs[0], reserve);
      var rest := EmitBlocks(size + Size(one.0), bs[1..], reserve);
      assert done + (one.0 + rest.tlvs) == done + one.0 + rest.tlvs;
    }
  }

  /** One entry: its base, then whichever options fit. */
  method AppendOne(out: seq<byte>, b: Block, reserve: nat) returns (r: seq<byte>, dropped: bool)
    requires CanFit(|out|, Size(b.base), reserve)
    ensures var one := EmitOne(|out|, b, reserve);
            Size(one.0) <= MAX_VALUE && AllFit(one.0) && r == out + AllBytes(one.0) && |r| == |out| + Size(one.0)
                && dropped == one.1
  {
    hide EmitOptions, AllBytes;
    OneFits(|out|, b, reserve);
    SizeIsBytes(EmitOne(|out|, b, reserve).0);
    SizeIsBytes(b.base);
    r := out + AllBytes(b.base);
    dropped := false;
    ghost var done := b.base;
    var k := 0;
    assert b.options[0..] == b.options;
    while k < |b.options|
      invariant 0 <= k <= |b.options| && CanFit(|r|, 0, reserve)
      invariant AllFit(done) && r == out + AllBytes(done)
      invariant var rest := EmitOptions(|r|, b.options[k..], reserve);
                (done + rest.0, dropped || rest.1) == EmitOne(|out|, b, reserve)
    {
      OptionsUnfold(done, dropped, |r|, b.options[k..], reserve);
      assert b.options[k..][0] == b.options[k] && b.options[k..][1..] == b.options[k + 1..];
      if CanFit(|r|, Size(b.options[k]), reserve) {
        SizeIsBytes(b.options[k]);
        AllBytesAppend(done, b.options[k]);
        r := r + AllBytes(b.options[k]);
        done := done + b.options[k];
      } else {
        dropped := true;
      }
      k := k + 1;
    }
    OptionsUnfold(done, dropped, |r|, b.options[k..], reserve);
    assert done + [] == done;
  }

  lemma OptionsUnfold(done: seq<Tlv>, dropped: bool, size: nat, os: seq<seq<Tlv>>, reserve: nat)
    ensures os == [] ==> EmitOptions(size, os, reserve) == ([], false)
    ensures os != [] && CanFit(size, Size(os[0]), reserve) ==>
              var e, rest := EmitOptions(size, os, reserve), EmitOptions(size + Size(os[0]), os[1..], reserve);
              done + e.0 == done + os[0] + rest.0 && e.1 == rest.1
    ensures os != [] && !CanFit(size, Size(os[0]), reserve) ==>
              EmitOptions(size, os, reserve) == (EmitOptions(size, os[1..], reserve).0, true)
  {
    if os != [] && CanFit(size, Size(os[0]), reserve) {
      var rest := EmitOptions(size + Size(os[0]), os[1..], reserve);
      assert done + (os[0] + rest.0) == done + os[0] + rest.0;
    }
  }

  /** The fixed fields, one at a time; gives up at the first that does not fit. */
  method AppendFixed(ts: seq<Tlv>, reserve: nat) returns (out: Option<seq<byte>>)
    ensures out == if CanFit(0, Size(ts), reserve) then (SizeIsBytes(ts); Some(AllBytes(ts))) else None
  {
    hide AllBytes, Bytes;
    var b: seq<byte> := [];
    var i := 0;
    Nothing();
    assert ts[..0] == [];
    while i < |ts|
      invariant 0 <= i <= |ts|
      invariant AllFit(ts[..i]) && b == AllBytes(ts[..i]) && |b| == Size(ts[..i])
      invariant i > 0 ==> CanFit(|b|, 0, reserve)
    {
      assert ts[..i + 1] == ts[..i] + [ts[i]] && ts == ts[..i + 1] + ts[i + 1..];
      SizeAppend(ts[..i], [ts[i]]);
      SizeAppend(ts[..i + 1], ts[i + 1..]);
      SizeOfSingle(ts[i]);
      if !CanFit(|b|, 4 + |ts[i].value|, reserve) {
        return None;
      }
      BytesOfOne(ts[i]);
      AllBytesAppend(ts[..i], [ts[i]]);
      b := b + Bytes(ts[i]);
      i := i + 1;
    }
    assert ts[..i] == ts;
    if i == 0 && !CanFit(0, 0, reserve) {
      return None;
    }
    return Some(b);
  }

  lemma SizeOfSingle(t: Tlv)
    ensures Size([t]) == 4 + |t.value|
  {
    assert [t][1..] == [];
  }

  method EncodeDescriptorResponse(r: Response) returns (payload: Option<seq<byte>>)
    ensures payload == Encode(r)
  {
    hide HeadTlvs, EmitBlocks, MetaTlvs, Repaired, AllBytes, CountsItems, Size;
    var reserve := Reserve(r);
    var fixed := AppendFixed(HeadTlvs(r), reserve);
    if fixed.None? {
      return None;
    }
    ghost var o := Write(r).value;
    WrittenFits(r);
    SizeIsBytes(HeadTlvs(r));
    var out, beforeCount, truncated := AppendBlocks(fixed.value, r.before, reserve);
    BlocksFit(|fixed.value|, r.before, reserve);
    SizeIsBytes(o.before.tlvs);
    AllBytesAppend(o.head, o.before.tlvs);
    var count, cut;
    out, count, cut := AppendBlocks(out, r.items, reserve);
    BlocksFit(Size(o.head) + Size(o.before.tlvs), r.items, reserve);
    SizeIsBytes(o.items.tlvs);
    AllBytesAppend(o.head + o.before.tlvs, o.items.tlvs);
    truncated := truncated || cut;
    ghost var written := o.head + o.before.tlvs + o.items.tlvs;
    if r.page.Some? {
      if CountsItems(r.kind) && Wrap16(count) != r.page.value.returned {
        truncated := true;
      }
      MetaSize(Repaired(r.kind, r.page.value, Wrap16(count)));
      SizeIsBytes(o.meta);
      AllBytesAppend(written, o.meta);
      out := out + AllBytes(MetaTlvs(Repaired(r.kind, r.page.value, Wrap16(count))));
    } else {
      NothingMore(written);
    }
    TailSize(o.tail);
    SizeIsBytes(o.tail);
    AllBytesAppend(written + o.meta, o.tail);
    NothingMore(written + o.meta);
    if truncated && CanFit(|out|, 4 + |TRUNCATED|, 0) {
      out := out + AllBytes([Utf8Of(0x11, TRUNCATED)]);
    }
    return Some(out);
  }

  lemma NothingMore(ts: seq<Tlv>)
    ensures ts + [] == ts && Size([]) == 0
  {
  }
}
