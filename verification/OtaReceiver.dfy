/**
 The slave's half of a firmware push: the receive session with its chunk bitmap and memory pool, and the
 acknowledgement policy around it.
*/
module OtaReceiver {
  import opened FixedWidth
  import opened Options
  import opened OtaSender

  const CODE_OFFSET_MISMATCH: uint16 := 0x0008
  const CODE_SIZE_MISMATCH: uint16 := 0x0009
  const CODE_CRC_MISMATCH: uint16 := 0x000A

  datatype RxSession = RxSession(
    active: bool,
    corr: uint32,
    expectedSize: uint32,
    expectedCrc: uint32,
    chunkSize: uint32,
    receivedSize: uint32,
    uniqueSize: uint32,
    marks: seq<bool>)

  const NO_RX := RxSession(false, 0, 0, 0, 0, 0, 0, [])

  /** The acknowledgement bookkeeping of the link layer above the receive session. */
  datatype Track = Track(
    corr: uint32,
    expectedSize: uint32,
    lastReceived: uint32,
    lastAcked: uint32,
    ackStep: uint32,
    nextAck: uint32,
    lastNack: uint32,
    lastNackMs: uint32)

  const NO_TRACK := Track(0, 0, 0, 0, 0, 0, 0, 0)

  datatype Report =
    | StatusReport(corr: uint32, kind: StatusKind, offset: uint32, code: uint16)
    | ReadyReport(corr: uint32)

  /** `stored` is the image file on the slave's flash; `images` logs every image it ever promoted. */
  datatype Slave = Slave(
    rx: RxSession,
    pool: seq<byte>,
    track: Track,
    stored: Option<seq<byte>>,
    images: seq<seq<byte>>,
    reports: seq<Report>)

  // ---------------------------------------------------------------- the receive session

  function BeginReceive(pool: seq<byte>, corr: uint32, total: uint32, chunkSize: uint32, crc: uint32): RxSession
    requires chunkSize > 0
  {
    RxSession(true, corr, total, crc, chunkSize, 0, 0, seq(Wrap32(total + chunkSize - 1) / chunkSize, _ => false))
  }

  function ChunkSizeAt(rx: RxSession, k: nat): int {
    if k >= |rx.marks| || rx.chunkSize == 0 then 0
    else if k + 1 < |rx.marks| then rx.chunkSize
    else rx.expectedSize - k * rx.chunkSize
  }

  /** The contiguous prefix, extended from `from` over every marked chunk that follows. */
  function Contiguous(rx: RxSession, from: nat): nat
    requires rx.chunkSize > 0
    decreases rx.expectedSize - from
  {
    if from < rx.expectedSize && from / rx.chunkSize < |rx.marks| && rx.marks[from / rx.chunkSize]
       && ChunkSizeAt(rx, from / rx.chunkSize) > 0
    then Contiguous(rx, from + ChunkSizeAt(rx, from / rx.chunkSize))
    else from
  }

  predicate Acceptable(rx: RxSession, pool: seq<byte>, corr: uint32, offset: uint32, data: seq<byte>) {
    && rx.active && rx.corr == corr
    && data != []
    && |pool| >= rx.expectedSize
    && offset < rx.expectedSize
    && Wrap32(offset + |data|) <= rx.expectedSize
    && rx.chunkSize != 0 && offset % rx.chunkSize == 0
    && offset / rx.chunkSize < |rx.marks|
    && |data| == ChunkSizeAt(rx, offset / rx.chunkSize)
  }

  function Overlay(pool: seq<byte>, offset: nat, data: seq<byte>): seq<byte>
    requires offset + |data| <= |pool|
  {
    pool[..offset] + data + pool[offset + |data|..]
  }

  function Mark(rx: RxSession, k: nat, n: nat): RxSession
    requires k < |rx.marks|
  {
    if rx.marks[k] then rx else rx.(marks := rx.marks[k := true], uniqueSize := Wrap32(rx.uniqueSize + n))
  }

  /** `writeReceiveChunk`: the new session and pool, and whether the chunk was accepted. */
  function WriteChunk(rx: RxSession, pool: seq<byte>, corr: uint32, offset: uint32,
                      data: seq<byte>): (r: (RxSession, seq<byte>, bool)) {
    if Acceptable(rx, pool, corr, offset, data) && offset + |data| <= |pool| then
      var marked := Mark(rx, offset / rx.chunkSize, |data|);
      (marked.(receivedSize := Wrap32(Contiguous(marked, marked.receivedSize))), Overlay(pool, offset, data), true)
    else (rx, pool, false)
  }

  // ---------------------------------------------------------------- frame handlers

  function Tell(s: Slave, r: Report): Slave {
    s.(reports := s.reports + [r])
  }

  /**
   How the environment meets a begin frame: the update gate, the folders or the pool refuse it, or the file probe
   fails once the open session has been given up, or all is well.
  */
  datatype Opening = Barred | ProbeFails | Granted

  function RefuseBegin(s: Slave, corr: uint32): Slave {
    Tell(s.(track := s.track.(expectedSize := 0, lastAcked := 0)), StatusReport(corr, ChunkNack, 0, CODE_INVALID_STATE))
  }

  function HandleBegin(s: Slave, corr: uint32, total: uint32, chunkSize: uint32, crc: uint32, opening: Opening): Slave {
    if total == 0 || chunkSize == 0 || opening == Barred || |s.pool| < total then RefuseBegin(s, corr)
    else if opening == ProbeFails then RefuseBegin(s.(rx := NO_RX), corr)
    else
      var step := Max(1024, Wrap32(chunkSize * 16));
      Tell(s.(rx := BeginReceive(s.pool, corr, total, chunkSize, crc),
              track := Track(corr, total, 0, 0, step, step, 0, 0)),
           StatusReport(corr, ChunkAck, 0, CODE_OK))
  }

  /** The next acknowledgement threshold above `reached`. */
  function NextThreshold(next: nat, step: nat, reached: nat): nat
    requires step > 0
    decreases reached + step - next
  {
    if next <= reached then NextThreshold(next + step, step, reached) else next
  }

  function ContiguousReceiveSize(rx: RxSession): uint32 {
    if rx.active then rx.receivedSize else 0
  }

  function AckChunk(s: Slave, corr: uint32, prefix: uint32): Slave {
    var t := s.track.(lastReceived := prefix);
    var due := prefix >= t.nextAck || (t.expectedSize != 0 && prefix == t.expectedSize) || prefix == 0;
    if due && prefix != t.lastAcked then
      Tell(s.(track := t.(lastAcked := prefix,
                          nextAck := if t.ackStep == 0 then t.nextAck
                              else Wrap32(NextThreshold(t.nextAck, t.ackStep, prefix)))),
           StatusReport(corr, ChunkAck, prefix, CODE_OK))
    else s.(track := t)
  }

  function NackChunk(s: Slave, corr: uint32, prefix: uint32, now: uint32): Slave {
    var t := s.track.(lastReceived := prefix);
    if prefix == t.lastNack && Elapsed(now, t.lastNackMs) < 60 then s.(track := t)
    else Tell(s.(track := t.(lastNack := prefix, lastNackMs := now)),
              StatusReport(corr, ChunkNack, prefix, CODE_OFFSET_MISMATCH))
  }

  function HandleChunk(s: Slave, corr: uint32, offset: uint32, data: seq<byte>, now: uint32): Slave {
    var (rx, pool, ok) := WriteChunk(s.rx, s.pool, corr, offset, data);
    var s1 := s.(rx := rx, pool := pool);
    var prefix := Max(s.track.lastReceived, ContiguousReceiveSize(rx));
    if s.track.corr != corr then s1
    else if ok then AckChunk(s1, corr, prefix)
    else NackChunk(s1, corr, prefix, now)
  }

  /** How an end frame is judged: kept sessions may still complete, dropped ones are gone. */
  datatype EndVerdict = Accept | RejectKeep(code: uint16) | RejectDrop | FlushFailed

  /** `endReceive`; `flushOk` stands for writing the pool out and promoting the file. */
  function JudgeEnd(rx: RxSession, pool: seq<byte>, corr: uint32, total: uint32, crc: uint32,
                    crcOf: seq<byte> -> uint32, flushOk: bool): (v: EndVerdict)
    ensures v.Accept? ==> rx.expectedSize <= |pool|
  {
    if !rx.active || rx.corr != corr then RejectKeep(CODE_INVALID_STATE)
    else if total != rx.expectedSize || crc != rx.expectedCrc then RejectKeep(CODE_SIZE_MISMATCH)
    else if |pool| < rx.expectedSize then RejectKeep(CODE_STORAGE_NOT_READY)
    else if rx.receivedSize != rx.expectedSize || rx.uniqueSize != rx.expectedSize then RejectKeep(CODE_SIZE_MISMATCH)
    else if crcOf(pool[..rx.expectedSize]) != rx.expectedCrc then RejectDrop
    else if !flushOk then FlushFailed
    else Accept
  }

  /** What the slave keeps after the verdict; the flush removes the previous image before it writes the new one. */
  function SettleEnd(s: Slave, v: EndVerdict): Slave
    requires v.Accept? ==> s.rx.expectedSize <= |s.pool|
  {
    match v
    case Accept =>
      var image := s.pool[..s.rx.expectedSize];
      s.(rx := NO_RX, stored := Some(image), images := s.images + [image])
    case RejectKeep(_) => s
    case RejectDrop => s.(rx := NO_RX)
    case FlushFailed => s.(rx := NO_RX, stored := None)
  }

  function FinalizeCode(v: EndVerdict): uint16 {
    match v
    case Accept => CODE_OK
    case RejectKeep(code) => code
    case RejectDrop => CODE_CRC_MISMATCH
    case FlushFailed => CODE_STORAGE_NOT_READY
  }

  function HandleEnd(s: Slave, corr: uint32, total: uint32, crc: uint32, crcOf: seq<byte> -> uint32,
                     flushOk: bool): Slave {
    var v := JudgeEnd(s.rx, s.pool, corr, total, crc, crcOf, flushOk);
    var s1 := SettleEnd(s, v).(track := if s.track.corr == corr then NO_TRACK else s.track);
    if v.Accept? then Tell(Tell(s1, StatusReport(corr, FinalizeOk, total, CODE_OK)), ReadyReport(corr))
    else Tell(s1, StatusReport(corr, FinalizeFail, s.track.lastReceived, FinalizeCode(v)))
  }

  /** `opening` and `flushOk` are the environment's answers, `now` the slave's clock. */
  function HandleFrame(s: Slave, f: Frame, crcOf: seq<byte> -> uint32, now: uint32, opening: Opening,
                       flushOk: bool): Slave {
    match f
    case Begin(corr, total, chunkSize, crc) => HandleBegin(s, corr, total, chunkSize, crc, opening)
    case Chunk(corr, offset, data) => HandleChunk(s, corr, offset, data, now)
    case End(corr, total, crc) => HandleEnd(s, corr, total, crc, crcOf, flushOk)
    case _ => s
  }

  /** A receive session left alone for too long is dropped. */
  function Expire(s: Slave): Slave {
    s.(rx := NO_RX)
  }
}
