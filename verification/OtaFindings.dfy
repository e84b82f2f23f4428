/**
 Where the firmware push does less than one would hope: two short runs of the general results.
*/
module OtaFindings {
  import opened FixedWidth
  import opened Options
  import opened OtaSender
  import opened OtaSenderSafety
  import opened OtaReceiver
  import opened OtaSystem

  const FILE: seq<byte> := [7]
  const PUSH := Transfer(0, 5, 32, 1, 0, true)
  const CHUNK_READ := Read(FILE, true)
  const ENV := PumpEnv(true, true, true, true,
                       [CHUNK_READ, CHUNK_READ, CHUNK_READ, CHUNK_READ, CHUNK_READ, CHUNK_READ, CHUNK_READ, CHUNK_READ])

  function Crc(data: seq<byte>): uint32 { 0 }

  function Start(): System {
    System(Master(StartPush(0, PUSH), NO_UPDATE, [BeginFrame(PUSH)], []),
           Slave(NO_RX, [0], NO_TRACK, None, [], []))
  }

  function Deliver(n: nat): SystemStep { DeliverFrame(n, 0, Granted, true) }
  function Answer(n: nat): SystemStep { DeliverReport(n, 0, ENV) }
  function Tock(): SystemStep { MasterInput(Tick(0, ENV)) }

  function Then(a: System, st: SystemStep): System
    requires st.MasterInput? && st.i.Tick? ==> |st.i.env.io| == CHUNK_BUDGET_PER_TICK
  {
    Apply(a, st, PUSH, Crc)
  }

  /** Begin is answered, the one chunk goes out, arrives and is acknowledged. */
  function OneChunkDone(): System {
    Then(Then(Then(Then(Then(Start(), Deliver(0)), Answer(0)), Tock()), Deliver(1)), Answer(1))
  }

  lemma OneChunkAcked() returns (a: System)
    ensures a == OneChunkDone()
    ensures a.m.push.active && a.m.push.phase == Streaming && !a.m.push.w.waiting && a.m.push.beginAcked
    ensures a.m.push.w.next == 1 == a.m.push.w.remoteAcked && a.m.push.x == PUSH
    ensures a.m.sent == [BeginFrame(PUSH), Chunk(5, 0, FILE)] && a.m.events == [] && a.m.update == NO_UPDATE
    ensures a.s.rx.active && a.s.rx.corr == 5 && a.s.rx.receivedSize == 1 == a.s.rx.uniqueSize
    ensures a.s.rx.expectedSize == 1 && a.s.rx.expectedCrc == 0 && a.s.pool == FILE && a.s.stored == None
    ensures |a.s.reports| == 2
  {
    var a1 := Then(Start(), Deliver(0));
    assert a1.s.reports == [StatusReport(5, ChunkAck, 0, 0)];
    assert a1.s.rx == RxSession(true, 5, 1, 0, 32, 0, 0, [false]);
    var a2 := Then(a1, Answer(0));
    assert a2.m.push.phase == Streaming && a2.m.push.w == NO_WINDOW;
    var a3 := Then(a2, Tock());
    OneChunkLoop(OpenWindow(a2.m.push));
    assert a3.m.sent == [BeginFrame(PUSH), Chunk(5, 0, FILE)];
    assert a3.m.push.w == Window(1, 1, true, 0, 16, 0, 0);
    a := ChunkArrives(a3);
  }

  lemma ChunkArrives(a3: System) returns (a: System)
    requires a3.s == Then(Start(), Deliver(0)).s && a3.m.sent == [BeginFrame(PUSH), Chunk(5, 0, FILE)]
    requires a3.m.push.active && a3.m.push.phase == Streaming && a3.m.push.beginAcked && a3.m.push.x == PUSH
    requires a3.m.push.w == Window(1, 1, true, 0, 16, 0, 0) && a3.m.events == [] && a3.m.update == NO_UPDATE
    ensures a == Then(Then(a3, Deliver(1)), Answer(1))
    ensures a.m.push.active && a.m.push.phase == Streaming && !a.m.push.w.waiting && a.m.push.beginAcked
    ensures a.m.push.w.next == 1 == a.m.push.w.remoteAcked && a.m.push.x == PUSH
    ensures a.m.sent == a3.m.sent && a.m.events == [] && a.m.update == NO_UPDATE
    ensures a.s.rx.active && a.s.rx.corr == 5 && a.s.rx.receivedSize == 1 == a.s.rx.uniqueSize
    ensures a.s.rx.expectedSize == 1 && a.s.rx.expectedCrc == 0 && a.s.pool == FILE && a.s.stored == None
    ensures |a.s.reports| == 2
  {
    hide SendLoop, PumpPush;
    assert a3.s.rx == RxSession(true, 5, 1, 0, 32, 0, 0, [false]);
    var a4 := Then(a3, Deliver(1));
    FirstChunkArrives(a3.s.rx);
    assert a4.s.reports == [StatusReport(5, ChunkAck, 0, 0), StatusReport(5, ChunkAck, 1, 0)];
    a := Then(a4, Answer(1));
  }

  lemma {:induction false} OneChunkLoop(p: PushSession)
    requires p.x == PUSH && p.w.next == 0 && p.w.pendingEnd == 1
    ensures SendLoop(p, 0, ENV.io, 0) == (AfterChunk(p, 1), [Chunk(5, 0, FILE)], Drained)
  {
    var p1 := AfterChunk(p, 1);
    assert p1.w.next == 1;
    assert SendLoop(p1, 0, ENV.io, 1) == (p1, [], Drained);
    assert ChunkData(p, FILE) == FILE;
    assert ENV.io[0] == CHUNK_READ;
    assert [Chunk(5, 0, FILE)] + [] == [Chunk(5, 0, FILE)];
  }

  lemma FirstChunkArrives(rx: RxSession)
    requires rx == RxSession(true, 5, 1, 0, 32, 0, 0, [false])
    ensures WriteChunk(rx, [0], 5, 0, FILE) == (RxSession(true, 5, 1, 0, 32, 1, 1, [true]), FILE, true)
  {
    var marked := RxSession(true, 5, 1, 0, 32, 0, 1, [true]);
    assert Contiguous(marked, 1) == 1;
    assert Contiguous(marked, 0) == 1;
    assert Mark(rx, 0, 1) == marked;
    assert Overlay([0], 0, FILE) == FILE;
  }

  /** A begin frame the radio delivers twice restarts the session, and the end frame then goes out to an empty slave. */
  lemma RepeatedBeginLosesTheImage()
    ensures var a := Then(Then(OneChunkDone(), Deliver(0)), Tock());
            ThrowsAway(PUSH, OneChunkDone(), Deliver(0)) && EndSent(a.m) && Prefix(PUSH, a.s) == 0
  {
    var a := OneChunkAcked();
    hide OneChunkDone;
    var c := Then(a, Deliver(0));
    assert Prefix(PUSH, c.s) == 0 && c.m == a.m;
    var b := Then(c, Tock());
    assert b.m.sent == a.m.sent + [EndFrame(PUSH)];
    assert b.m.sent[2].End?;
  }

  lemma ImageStored() returns (d: System)
    ensures d == Then(Then(OneChunkDone(), Tock()), Deliver(2))
    ensures d.s.stored == Some(FILE) && d.s.rx == NO_RX && |d.s.reports| == 4
    ensures |d.m.sent| == 3 && d.m.sent[2] == EndFrame(PUSH)
    ensures d.m.push.active && d.m.push.phase == WaitEnd && d.m.push.x == PUSH && d.m.events == []
        && d.m.update == NO_UPDATE
  {
    var a := OneChunkAcked();
    hide OneChunkDone;
    var c := Then(a, Tock());
    assert c.m.sent == a.m.sent + [EndFrame(PUSH)] && c.m.push.phase == WaitEnd;
    assert a.s.pool[..1] == FILE;
    d := Then(c, Deliver(2));
  }

  /** An end frame delivered twice: the slave stores the image, and the master reports the push as failed. */
  lemma RepeatedEndReportsFailure()
    ensures var a := Then(Then(Then(Then(OneChunkDone(), Tock()), Deliver(2)), Deliver(2)), Answer(4));
            && a.s.stored == Some(FILE)
            && |a.m.events| == 1 && a.m.events[0].PushEnded? && !a.m.events[0].success
  {
    var d := ImageStored();
    hide OneChunkDone;
    var e := Then(d, Deliver(2));
    assert e.s.reports == d.s.reports + [StatusReport(5, FinalizeFail, d.s.track.lastReceived, CODE_INVALID_STATE)];
    var b := Then(e, Answer(4));
  }
}
