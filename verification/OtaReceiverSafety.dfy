/**
 What the receive session keeps: every marked chunk holds the image's own bytes, and the reported prefix is
 exactly the run of marked chunks from offset zero.
*/
module OtaReceiverSafety {
  import opened FixedWidth
  import opened OtaSender
  import opened OtaSenderSafety
  import opened OtaReceiver

  // ---------------------------------------------------------------- chunk indices

  /** The index of the chunk that holds byte `b`, counted down chunk by chunk. */
  ghost function Index(c: nat, b: nat): nat
    requires c > 0
    decreases b
  {
    if b < c then 0 else 1 + Index(c, b - c)
  }

  lemma {:induction false} IndexIsQuotient(c: nat, b: nat)
    requires c > 0
    ensures Index(c, b) == b / c
  {
    if b >= c {
      IndexIsQuotient(c, b - c);
      QuotientStep(c, b);
    }
  }

  lemma QuotientStep(c: nat, b: nat)
    requires 0 < c <= b
    ensures b / c == (b - c) / c + 1
  {
    var q := (b - c) / c;
    var r := (b - c) % c;
    assert b - c == c * q + r;
    assert c * (q + 1) == c * q + c;
    QuotientUnique(c, b, q + 1, r);
  }

  lemma QuotientUnique(c: nat, b: nat, q: nat, r: nat)
    requires c > 0 && r < c && b == c * q + r
    ensures b / c == q
  {
    var d := b / c;
    var s := b % c;
    assert b == c * d + s;
    assert c * (d - q) == r - s;
    if d > q {
      MulAtLeast(c, d - q);
    }
    if d < q {
      MulAtLeast(c, q - d);
    }
  }

  lemma MulAtLeast(c: nat, k: nat)
    requires k >= 1
    ensures c * k >= c
  {
    assert c * k == c * (k - 1) + c;
  }

  lemma {:induction false} IndexRange(c: nat, o: nat, b: nat)
    requires c > 0 && Multiple(c, o)
    ensures Index(c, b) == Index(c, o) <==> o <= b < o + c
    ensures b >= o + c ==> Index(c, b) > Index(c, o)
    decreases o + b
  {
    if o >= c && b >= c {
      IndexRange(c, o - c, b - c);
    }
  }

  lemma {:induction false} IndexMonotone(c: nat, b: nat, b': nat)
    requires c > 0 && b <= b'
    ensures Index(c, b) <= Index(c, b')
    decreases b
  {
    if b >= c {
      IndexMonotone(c, b - c, b' - c);
    }
  }

  ghost function ChunkCount(x: Transfer): nat
    requires TransferOk(x)
  {
    Index(x.chunkBytes, x.totalSize - 1) + 1
  }

  lemma CountIsCeiling(x: Transfer)
    requires TransferOk(x)
    ensures (x.totalSize + x.chunkBytes - 1) / x.chunkBytes == ChunkCount(x)
  {
    IndexIsQuotient(x.chunkBytes, x.totalSize - 1 + x.chunkBytes);
  }

  lemma {:induction false} IndexTimes(c: nat, o: nat)
    requires c > 0 && Multiple(c, o)
    ensures Index(c, o) * c == o
  {
    if o >= c {
      IndexTimes(c, o - c);
      assert (Index(c, o - c) + 1) * c == Index(c, o - c) * c + c;
    }
  }

  /** On a chunk boundary the slave expects exactly the bytes the master cuts there. */
  lemma {:induction false} SizeAtBoundary(x: Transfer, rx: RxSession, o: nat)
    requires TransferOk(x) && o < x.totalSize && Multiple(x.chunkBytes, o)
    requires |rx.marks| == ChunkCount(x) && rx.chunkSize == x.chunkBytes && rx.expectedSize == x.totalSize
    ensures Index(x.chunkBytes, o) < |rx.marks|
    ensures ChunkSizeAt(rx, Index(x.chunkBytes, o)) == ChunkLen(x, o)
  {
    var c := x.chunkBytes;
    IndexRange(c, o, x.totalSize - 1);
    IndexMonotone(c, o, x.totalSize - 1);
    IndexTimes(c, o);
  }

  // ---------------------------------------------------------------- the session invariant

  /** Byte `b` lies in a chunk marked as received. */
  ghost predicate MarkedAt(c: nat, marks: seq<bool>, b: nat)
    requires c > 0
  {
    Index(c, b) < |marks| && marks[Index(c, b)]
  }

  ghost predicate ForTransfer(x: Transfer, rx: RxSession) {
    rx.active && rx.corr == x.reqId
  }

  ghost predicate Shape(x: Transfer, rx: RxSession)
    requires TransferOk(x)
  {
    && rx.expectedSize == x.totalSize && rx.chunkSize == x.chunkBytes && rx.expectedCrc == x.imageCrc
    && |rx.marks| == ChunkCount(x)
  }

  ghost predicate PoolMatches(file: seq<byte>, x: Transfer, marks: seq<bool>, pool: seq<byte>)
    requires TransferOk(x) && |file| == x.totalSize <= |pool|
  {
    forall b :: 0 <= b < x.totalSize && MarkedAt(x.chunkBytes, marks, b) ==> pool[b] == file[b]
  }

  /** `r` is the end of the marked run from offset zero. */
  ghost predicate IsPrefixEnd(x: Transfer, marks: seq<bool>, r: nat)
    requires TransferOk(x)
  {
    && PrefixMarked(x, marks, r)
    && (r < x.totalSize ==> !MarkedAt(x.chunkBytes, marks, r))
  }

  ghost predicate PrefixMarked(x: Transfer, marks: seq<bool>, r: nat)
    requires TransferOk(x)
  {
    && r <= x.totalSize && Aligned(x, r)
    && forall b :: 0 <= b < r ==> MarkedAt(x.chunkBytes, marks, b)
  }

  ghost predicate RxOk(file: seq<byte>, x: Transfer, rx: RxSession, pool: seq<byte>)
    requires TransferOk(x) && |file| == x.totalSize
  {
    ForTransfer(x, rx) ==>
      && Shape(x, rx)
      && |pool| >= x.totalSize && PoolMatches(file, x, rx.marks, pool)
      && IsPrefixEnd(x, rx.marks, rx.receivedSize)
  }

  lemma {:induction false} ContiguousReachesPrefixEnd(x: Transfer, rx: RxSession, from: nat)
    requires TransferOk(x) && Shape(x, rx) && PrefixMarked(x, rx.marks, from)
    ensures var r := Contiguous(rx, from);
            from <= r && IsPrefixEnd(x, rx.marks, r)
    decreases x.totalSize - from
  {
    if from < x.totalSize {
      IndexIsQuotient(x.chunkBytes, from);
      SizeAtBoundary(x, rx, from);
      if MarkedAt(x.chunkBytes, rx.marks, from) {
        var n := ChunkLen(x, from);
        forall b | 0 <= b < from + n ensures MarkedAt(x.chunkBytes, rx.marks, b) {
          IndexRange(x.chunkBytes, from, b);
        }
        ContiguousReachesPrefixEnd(x, rx, from + n);
      }
    }
  }

  lemma {:induction false} RemainderZero(c: nat, o: nat)
    requires c > 0 && Multiple(c, o)
    ensures o % c == 0
  {
    IndexIsQuotient(c, o);
    IndexTimes(c, o);
  }

  lemma MarkedPrefixStays(x: Transfer, marks: seq<bool>, k: nat, r: nat)
    requires TransferOk(x) && PrefixMarked(x, marks, r) && k < |marks|
    ensures PrefixMarked(x, marks[k := true], r)
  {
    var marks' := marks[k := true];
    forall b | 0 <= b < r ensures MarkedAt(x.chunkBytes, marks', b) {
      assert MarkedAt(x.chunkBytes, marks, b);
    }
  }

  lemma {:induction false} OverlayMatches(file: seq<byte>, x: Transfer, marks: seq<bool>, pool: seq<byte>, o: nat)
    requires TransferOk(x) && |file| == x.totalSize <= |pool| && PoolMatches(file, x, marks, pool)
    requires o < x.totalSize && Multiple(x.chunkBytes, o) && Index(x.chunkBytes, o) < |marks|
    ensures var data := file[o..o + ChunkLen(x, o)];
            PoolMatches(file, x, marks[Index(x.chunkBytes, o) := true], Overlay(pool, o, data))
  {
    var c, k := x.chunkBytes, Index(x.chunkBytes, o);
    var pool' := Overlay(pool, o, file[o..o + ChunkLen(x, o)]);
    forall b | 0 <= b < x.totalSize && MarkedAt(c, marks[k := true], b)
      ensures pool'[b] == file[b]
    {
      IndexRange(c, o, b);
      assert Index(c, b) == k || MarkedAt(c, marks, b);
    }
  }

  /** The slave's checks all pass for a chunk the master cut from the image. */
  lemma ImageChunkAcceptable(file: seq<byte>, x: Transfer, rx: RxSession, pool: seq<byte>, f: Frame)
    requires TransferOk(x) && |file| == x.totalSize && ImageChunk(file, x, f)
    requires ForTransfer(x, rx) && Shape(x, rx) && |pool| >= x.totalSize
    ensures Acceptable(rx, pool, f.corr, f.offset, f.data) && f.offset + |f.data| <= x.totalSize
    ensures f.offset / rx.chunkSize == Index(x.chunkBytes, f.offset) < |rx.marks|
  {
    IndexIsQuotient(x.chunkBytes, f.offset);
    SizeAtBoundary(x, rx, f.offset);
    RemainderZero(x.chunkBytes, f.offset);
  }

  lemma PrefixGrows(x: Transfer, rx: RxSession, k: nat, n: nat)
    requires TransferOk(x) && Shape(x, rx) && k < |rx.marks| && IsPrefixEnd(x, rx.marks, rx.receivedSize)
    ensures var marked := Mark(rx, k, n);
            var r := Contiguous(marked, marked.receivedSize);
            && marked == rx.(marks := rx.marks[k := true], uniqueSize := marked.uniqueSize)
            && rx.receivedSize <= r <= x.totalSize && IsPrefixEnd(x, rx.marks[k := true], r)
  {
    var marked := Mark(rx, k, n);
    assert marked.marks == rx.marks[k := true];
    MarkedPrefixStays(x, rx.marks, k, rx.receivedSize);
    ContiguousReachesPrefixEnd(x, marked, rx.receivedSize);
  }

  /** The session after one of the image's chunks. */
  ghost function Received(x: Transfer, rx: RxSession, f: Frame): RxSession
    requires TransferOk(x) && Shape(x, rx) && f.Chunk? && Index(x.chunkBytes, f.offset) < |rx.marks|
  {
    var marked := Mark(rx, Index(x.chunkBytes, f.offset), |f.data|);
    marked.(receivedSize := Wrap32(Contiguous(marked, marked.receivedSize)))
  }

  /** Receiving one of the image's chunks: it is always accepted. */
  lemma WriteAccepted(file: seq<byte>, x: Transfer, rx: RxSession, pool: seq<byte>, f: Frame)
    requires TransferOk(x) && |file| == x.totalSize && ImageChunk(file, x, f)
    requires ForTransfer(x, rx) && Shape(x, rx) && |pool| >= x.totalSize
    ensures Index(x.chunkBytes, f.offset) < |rx.marks| && f.offset + |f.data| <= |pool|
    ensures WriteChunk(rx, pool, f.corr, f.offset, f.data)
        == (Received(x, rx, f), Overlay(pool, f.offset, f.data), true)
  {
    ImageChunkAcceptable(file, x, rx, pool, f);
  }

  /** And the session stays truthful: what it marks, the pool holds; what it reports, is marked. */
  lemma WriteImageChunk(file: seq<byte>, x: Transfer, rx: RxSession, pool: seq<byte>, f: Frame)
    requires TransferOk(x) && |file| == x.totalSize && ImageChunk(file, x, f)
    requires ForTransfer(x, rx) && RxOk(file, x, rx, pool)
    ensures var (rx', pool', ok) := WriteChunk(rx, pool, f.corr, f.offset, f.data);
            && ok && ForTransfer(x, rx') && RxOk(file, x, rx', pool')
            && rx.receivedSize <= rx'.receivedSize
  {
    hide PoolMatches, IsPrefixEnd, Contiguous, Index, MarkedAt, WriteChunk;
    WriteAccepted(file, x, rx, pool, f);
    PrefixGrows(x, rx, Index(x.chunkBytes, f.offset), |f.data|);
    OverlayMatches(file, x, rx.marks, pool, f.offset);
  }

  // ---------------------------------------------------------------- the byte count beside the bitmap

  /** The bytes of all marked chunks from offset `o` on. */
  ghost function MarkedBytes(x: Transfer, marks: seq<bool>, o: nat): (n: nat)
    requires TransferOk(x) && o <= x.totalSize
    ensures n <= x.totalSize - o
    decreases x.totalSize - o
  {
    if o == x.totalSize then 0
    else (if MarkedAt(x.chunkBytes, marks, o) then ChunkLen(x, o) else 0) + MarkedBytes(x, marks, o + ChunkLen(x, o))
  }

  lemma {:induction false} MarkAddsOnce(x: Transfer, marks: seq<bool>, f: nat, o: nat)
    requires TransferOk(x) && f < x.totalSize && Multiple(x.chunkBytes, f) && o <= x.totalSize && Aligned(x, o)
    requires Index(x.chunkBytes, f) < |marks| && !MarkedAt(x.chunkBytes, marks, f)
    ensures MarkedBytes(x, marks[Index(x.chunkBytes, f) := true], o)
         == MarkedBytes(x, marks, o) + (if o <= f then ChunkLen(x, f) else 0)
    decreases x.totalSize - o
  {
    if o < x.totalSize {
      MarkAddsOnce(x, marks, f, o + ChunkLen(x, o));
      IndexRange(x.chunkBytes, f, o);
      IndexRange(x.chunkBytes, o, f);
    }
  }

  lemma {:induction false} AllMarkedIsEverything(x: Transfer, marks: seq<bool>, o: nat)
    requires TransferOk(x) && o <= x.totalSize && PrefixMarked(x, marks, x.totalSize)
    ensures MarkedBytes(x, marks, o) == x.totalSize - o
    decreases x.totalSize - o
  {
    if o < x.totalSize {
      AllMarkedIsEverything(x, marks, o + ChunkLen(x, o));
    }
  }

  ghost predicate CountOk(x: Transfer, rx: RxSession)
    requires TransferOk(x)
  {
    ForTransfer(x, rx) ==> rx.uniqueSize == MarkedBytes(x, rx.marks, 0)
  }

  lemma ImageChunkParts(file: seq<byte>, x: Transfer, f: Frame)
    requires TransferOk(x) && |file| == x.totalSize && ImageChunk(file, x, f)
    ensures f.Chunk? && f.offset < x.totalSize && Multiple(x.chunkBytes, f.offset) && |f.data| == ChunkLen(x, f.offset)
  {
  }

  lemma WriteKeepsCount(file: seq<byte>, x: Transfer, rx: RxSession, pool: seq<byte>, f: Frame)
    requires TransferOk(x) && |file| == x.totalSize && ImageChunk(file, x, f)
    requires ForTransfer(x, rx) && RxOk(file, x, rx, pool) && CountOk(x, rx)
    ensures CountOk(x, WriteChunk(rx, pool, f.corr, f.offset, f.data).0)
  {
    hide PoolMatches, IsPrefixEnd, Contiguous, WriteChunk, Overlay, ImageChunk, MarkedBytes;
    assert f.Chunk? && f.offset < x.totalSize && Multiple(x.chunkBytes, f.offset)
        && |f.data| == ChunkLen(x, f.offset) by {
      ImageChunkParts(file, x, f);
    }
    WriteAccepted(file, x, rx, pool, f);
    var k := Index(x.chunkBytes, f.offset);
    if rx.marks[k] {
      assert rx.marks[k := true] == rx.marks;
    } else {
      MarkAddsOnce(x, rx.marks, f.offset, 0);
    }
  }
}
