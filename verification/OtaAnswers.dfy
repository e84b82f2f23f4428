/**
 What the slave answers to each frame, in whatever state it is: which report with which offset and code, and what
 becomes of the session, the books and the stored image.
*/
module OtaAnswers {
  import opened FixedWidth
  import opened Options
  import opened OtaSender
  import opened OtaReceiver

  /** Everything but the session, the books and the reports is as it was. */
  predicate KeepsImages(s: Slave, s': Slave) {
    s'.pool == s.pool && s'.stored == s.stored && s'.images == s.images
  }

  /**
   A begin frame opens a fresh session, and fresh books with an acknowledgement due every sixteen chunks or 1024 bytes,
   if its sizes are positive, the pool holds the image and nothing bars it; it is then acknowledged at zero. Otherwise
   it is refused at zero, and the open session is given up only if the file probe was reached.
  */
  lemma BeginAnsweredExactly(s: Slave, corr: uint32, total: uint32, chunkSize: uint32, crc: uint32, opening: Opening)
    ensures var s' := HandleBegin(s, corr, total, chunkSize, crc, opening);
            var sizes := 0 < total <= |s.pool| && chunkSize > 0;
            && KeepsImages(s, s')
            && (sizes && opening == Granted ==>
                  && s'.reports == s.reports + [StatusReport(corr, ChunkAck, 0, 0x0000)]
                  && s'.rx.active && s'.rx.corr == corr && s'.rx.expectedSize == total && s'.rx.expectedCrc == crc
                  && s'.rx.chunkSize == chunkSize && s'.rx.receivedSize == 0 == s'.rx.uniqueSize
                  && (forall k :: 0 <= k < |s'.rx.marks| ==> !s'.rx.marks[k])
                  && (total + chunkSize <= TWO_TO_THE_32 ==> |s'.rx.marks| == (total + chunkSize - 1) / chunkSize)
                  && (chunkSize < 0x1000_0000 ==>
                        var step := Max(1024, 16 * chunkSize);
                        s'.track == Track(corr, total, 0, 0, step, step, 0, 0)))
            && (!(sizes && opening == Granted) ==>
                  && s'.reports == s.reports + [StatusReport(corr, ChunkNack, 0, 0x0006)]
                  && s'.track == s.track.(expectedSize := 0, lastAcked := 0)
                  && s'.rx == if sizes && opening == ProbeFails then NO_RX else s.rx)
  {
    hide Wrap32, BeginReceive;
    if chunkSize > 0 { SessionOpened(s.pool, corr, total, chunkSize, crc); }
    if chunkSize < 0x1000_0000 { NoWrap(chunkSize * 16); }
  }

  lemma SessionOpened(pool: seq<byte>, corr: uint32, total: uint32, chunkSize: uint32, crc: uint32)
    requires chunkSize > 0
    ensures var rx := BeginReceive(pool, corr, total, chunkSize, crc);
            && rx.active && rx.corr == corr && rx.expectedSize == total && rx.expectedCrc == crc
            && rx.chunkSize == chunkSize && rx.receivedSize == 0 == rx.uniqueSize
            && (forall k :: 0 <= k < |rx.marks| ==> !rx.marks[k])
            && (total + chunkSize <= TWO_TO_THE_32 ==> |rx.marks| == (total + chunkSize - 1) / chunkSize)
  {
    hide Wrap32;
    if total + chunkSize <= TWO_TO_THE_32 { NoWrap(total + chunkSize - 1); }
  }

  lemma NoWrap(x: int)
    requires 0 <= x < TWO_TO_THE_32
    ensures Wrap32(x) == x
  {
  }

  /** A chunk of a transfer the books are not kept of is answered by nothing. */
  lemma StrangerUnanswered(s: Slave, corr: uint32, offset: uint32, data: seq<byte>, now: uint32)
    requires corr != s.track.corr
    ensures var s' := HandleChunk(s, corr, offset, data, now); s'.reports == s.reports && s'.track == s.track
  {
    hide WriteChunk;
  }

  /** What the slave has of the transfer after the chunk, as its books will tell. */
  function Told(s: Slave, corr: uint32, offset: uint32, data: seq<byte>): uint32 {
    var rx := WriteChunk(s.rx, s.pool, corr, offset, data).0;
    Max(s.track.lastReceived, if rx.active then rx.receivedSize else 0)
  }

  /**
   An accepted chunk is acknowledged, with the prefix received, exactly when that prefix has reached the next step or
   the end of the image, or is still empty, and was not the one acknowledged last; the next step is then beyond it.
  */
  lemma ChunkAcknowledgedExactly(s: Slave, corr: uint32, offset: uint32, data: seq<byte>, now: uint32)
    requires corr == s.track.corr && WriteChunk(s.rx, s.pool, corr, offset, data).2
    ensures var (s', prefix) := (HandleChunk(s, corr, offset, data, now), Told(s, corr, offset, data));
            var due := prefix >= s.track.nextAck || prefix == 0 || prefix == s.track.expectedSize;
            && s'.track.lastReceived == prefix && s'.track.lastNack == s.track.lastNack && s'.track.corr == corr
            && (due && prefix != s.track.lastAcked ==>
                  && s'.reports == s.reports + [StatusReport(corr, ChunkAck, prefix, 0x0000)]
                  && s'.track.lastAcked == prefix)
            && (!(due && prefix != s.track.lastAcked) ==>
                  s'.reports == s.reports && s'.track == s.track.(lastReceived := prefix))
  {
    hide WriteChunk, NextThreshold;
  }

  /** The next step is the first of a row of steps beyond what is reached. */
  lemma {:induction false} NextStepBeyond(next: nat, step: nat, reached: nat) returns (k: nat)
    requires step > 0
    ensures var n := NextThreshold(next, step, reached);
            n == next + k * step && n > reached && (k > 0 ==> n - step <= reached)
    decreases reached + step - next
  {
    if next <= reached {
      var j := NextStepBeyond(next + step, step, reached);
      k := j + 1;
      assert k * step == j * step + step;
    } else {
      k := 0;
    }
  }

  /** A refused chunk is answered with the prefix received, unless the same answer went out in the last 60 ms. */
  lemma ChunkRefused(s: Slave, corr: uint32, offset: uint32, data: seq<byte>, now: uint32)
    requires corr == s.track.corr && !WriteChunk(s.rx, s.pool, corr, offset, data).2
    ensures var (s', prefix) := (HandleChunk(s, corr, offset, data, now), Told(s, corr, offset, data));
            var recent := prefix == s.track.lastNack && Elapsed(now, s.track.lastNackMs) < 60;
            && s'.rx == s.rx && KeepsImages(s, s')
            && s'.reports == s.reports + (if recent then [] else [StatusReport(corr, ChunkNack, prefix, 0x0008)])
            && s'.track == s.track.(lastReceived := prefix,
                                    lastNack := prefix,
                                    lastNackMs := if recent then s.track.lastNackMs else now)
  {
    hide Acceptable, Elapsed;
  }

  /** Which frames are accepted: the next one or any other whole chunk of the open session, inside the image. */
  lemma AcceptedExactly(s: Slave, corr: uint32, offset: uint32, data: seq<byte>)
    requires s.rx.expectedSize < TWO_TO_THE_31 && |data| < 0x1_0000 && s.rx.chunkSize > 0
    requires |s.rx.marks| == (s.rx.expectedSize + s.rx.chunkSize - 1) / s.rx.chunkSize && s.rx.expectedSize > 0
    ensures WriteChunk(s.rx, s.pool, corr, offset, data).2 <==>
              && s.rx.active && s.rx.corr == corr && s.rx.expectedSize <= |s.pool|
              && offset % s.rx.chunkSize == 0 && offset < s.rx.expectedSize
              && |data| == Min(s.rx.chunkSize, s.rx.expectedSize - offset)
  {
    var c, n, k := s.rx.chunkSize, s.rx.expectedSize, offset / s.rx.chunkSize;
    if offset % c == 0 && offset < n {
      ChunkPlace(c, n, offset, k);
    }
    hide Mark, Contiguous, Overlay;
  }

  lemma Positive(c: nat, d: int)
    requires c * d > 0
    ensures d > 0
  {
  }

  lemma ChunkPlace(c: nat, n: nat, offset: nat, k: nat)
    requires c > 0 && offset % c == 0 && offset < n && k == offset / c
    ensures var count := (n + c - 1) / c;
            k < count && offset == k * c && (k + 1 < count ==> offset + c <= n) && (k + 1 == count ==> n <= offset + c)
  {
    var count := (n + c - 1) / c;
    assert offset == c * k;
    assert n + c - 1 == c * count + (n + c - 1) % c;
    assert c * (count - k) == c * count - c * k;
    Positive(c, count - k);
    MoreChunks(c, n, k, count);
  }

  lemma MoreIsMore(c: nat, i: nat, j: nat)
    requires i <= j
    ensures c * i <= c * j
  {
  }

  lemma MoreChunks(c: nat, n: nat, k: nat, count: nat)
    requires n <= c * count < n + c && k < count
    ensures k + 1 < count ==> k * c + c <= n
    ensures k + 1 == count ==> n <= k * c + c
  {
    assert c * (k + 1) == k * c + c;
    if k + 1 < count {
      MoreIsMore(c, k + 2, count);
      assert c * (k + 2) == k * c + c + c;
    }
  }

  /**
   The code of a failure report: no session, other sizes or checksum, no pool, a wrong image, or a flash that
   failed.
  */
  lemma EndAnsweredWith(s: Slave, corr: uint32, total: uint32, crc: uint32, crcOf: seq<byte> -> uint32, flushOk: bool)
    ensures var (s', rx) := (HandleEnd(s, corr, total, crc, crcOf, flushOk), s.rx);
            var open := rx.active && rx.corr == corr;
            var fits := total == rx.expectedSize && crc == rx.expectedCrc;
            var held := rx.expectedSize <= |s.pool|;
            var whole := rx.receivedSize == rx.expectedSize == rx.uniqueSize;
            var fail := (code: uint16) => [StatusReport(corr, FinalizeFail, s.track.lastReceived, code)];
            var told := s'.reports;
            && s'.track == (if s.track.corr == corr then NO_TRACK else s.track)
            && (!open ==> told == s.reports + fail(0x0006) && s'.rx == rx && KeepsImages(s, s'))
            && (open && !fits ==> told == s.reports + fail(0x0009) && s'.rx == rx && KeepsImages(s, s'))
            && (open && fits && !held ==> told == s.reports + fail(0x0001) && s'.rx == rx && KeepsImages(s, s'))
            && (open && fits && held && !whole ==>
                  told == s.reports + fail(0x0009) && s'.rx == rx && KeepsImages(s, s'))
            && (open && fits && held && whole ==>
                  var image := s.pool[..total];
                  && s'.rx == NO_RX && s'.pool == s.pool
                  && (crcOf(image) != crc ==> told == s.reports + fail(0x000A) && KeepsImages(s, s'))
                  && (crcOf(image) == crc && !flushOk ==>
                        told == s.reports + fail(0x0001) && s'.stored == None && s'.images == s.images)
                  && (crcOf(image) == crc && flushOk ==>
                        && told == s.reports + [StatusReport(corr, FinalizeOk, total, 0x0000), ReadyReport(corr)]
                        && s'.stored == Some(image) && s'.images == s.images + [image]))
  {
  }
}
