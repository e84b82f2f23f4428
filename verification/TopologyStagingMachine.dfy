/**
 The management service's pull bookkeeping as it works on its own vectors: the pending pulls and the deferred
 commits, scanned and rebuilt in place. Each method does exactly what the staging model says.
*/
module TopologyStagingMachine {
  import opened FixedWidth
  import opened TopologyTypes
  import opened TopologyStaging

  lemma {:induction false} ReplaceUnfold(done: seq<Pending>, rest: seq<Pending>, p: Pending)
    ensures rest == [] ==> done + Replace(rest, p) == done + [p]
    ensures rest != [] && SameKey(rest[0], p) ==> done + Replace(rest, p) == (done + rest)[|done| := p]
    ensures rest != [] && !SameKey(rest[0], p) ==> done + Replace(rest, p) == done + [rest[0]] + Replace(rest[1..], p)
  {
    hide SameKey;
  }

  lemma {:induction false} UnexpiredUnfold(done: seq<Pending>, rest: seq<Pending>, now: uint32)
    requires rest != []
    ensures done + Unexpired(rest, now)
              == if Elapsed(now, rest[0].deadline) >= 0 then done + Unexpired(rest[1..], now)
                 else done + [rest[0]] + Unexpired(rest[1..], now)
  {
    hide Elapsed;
  }

  class PullService {
    var pending: seq<Pending>
    var deferred: seq<DeferredCommit>
    var nextCorr: uint32
    var now: uint32
    var log: seq<Entry>

    ghost function State(): Service
      reads this
    {
      Service(pending, deferred, nextCorr, now, log)
    }

    constructor ()
      ensures State() == EMPTY_SERVICE
    {
      pending, deferred, nextCorr, now, log := [], [], FIRST_INTERNAL_CORR, 0, [];
    }

    method AllocateInternalCorrelation() returns (corr: uint32)
      modifies this`nextCorr
      ensures corr == AllocateCorr(old(nextCorr)) && nextCorr == NextCorr(corr)
    {
      if nextCorr < FIRST_INTERNAL_CORR {
        nextCorr := FIRST_INTERNAL_CORR;
      }
      corr := nextCorr;
      nextCorr := Wrap32(nextCorr + 1);
      if nextCorr < FIRST_INTERNAL_CORR {
        nextCorr := FIRST_INTERNAL_CORR;
      }
    }

    method TrackPendingDescriptorPull(p: Pending)
      modifies this`pending
      ensures pending == Track(old(pending), p)
    {
      if p.reqId == 0 {
        return;
      }
      hide Replace;
      var k := 0;
      assert pending[..0] + Replace(pending, p) == Replace(pending, p);
      assert pending[0..] == pending;
      while k < |pending|
        invariant 0 <= k <= |pending| && pending == old(pending)
        invariant Track(old(pending), p) == pending[..k] + Replace(pending[k..], p)
      {
        ReplaceUnfold(pending[..k], pending[k..], p);
        assert pending[..k] + pending[k..] == pending;
        if SameKey(pending[k], p) {
          pending := pending[k := p];
          return;
        }
        assert pending[..k] + [pending[k..][0]] == pending[..k + 1] && pending[k..][1..] == pending[k + 1..];
        k := k + 1;
      }
      ReplaceUnfold(pending[..k], pending[k..], p);
      assert pending[..k] == pending;
      pending := pending + [p];
    }

    /** The peer's stage has ended with `status`: answer or send its deferred commits, keep the others. */
    method DispatchDeferredTopologyCommitsForPeer(peer: nat, status: Status, sends: seq<bool>)
      modifies this
      ensures State() == ReleaseCommits(old(State()), old(deferred), [], peer, status, sends)
    {
      hide Track;
      var keep: seq<DeferredCommit> := [];
      var k := 0;
      assert deferred[0..] == deferred;
      while k < |deferred|
        invariant 0 <= k <= |deferred| && deferred == old(deferred)
        invariant ReleaseCommits(State(), deferred[k..], keep, peer, status, sends)
               == ReleaseCommits(old(State()), old(deferred), [], peer, status, sends)
      {
        var d := deferred[k];
        assert deferred[k..][0] == d && deferred[k..][1..] == deferred[k + 1..];
        if d.peer != peer {
          keep := keep + [d];
        } else {
          var left := |deferred| - k;
          var sendOk := if |sends| >= left then sends[|sends| - left] else true;
          ReleaseDeferred(d, status, sendOk);
        }
        k := k + 1;
      }
      deferred := keep;
    }

    method ReleaseDeferred(d: DeferredCommit, status: Status, sendOk: bool)
      modifies this`pending, this`log
      ensures State() == ReleaseOne(old(State()), d, status, sendOk)
    {
      hide Track;
      if status != Ok {
        log := log + [Left(d, StageFailed(status)), Respond(d.source, COMMIT, d.reqId, d.peer, status)];
        return;
      }
      if !sendOk {
        log := log + [Left(d, SendFailed), Respond(d.source, COMMIT, d.reqId, d.peer, InternalError)];
        return;
      }
      log := log + [Left(d, Dispatched), Sent(d.peer, d.reqId, Commit)];
      TrackPendingDescriptorPull(CommitPending(d, now));
    }

    method PrunePendingDescriptorPulls(at: uint32)
      modifies this
      ensures State() == Prune(old(State()), at)
    {
      now := at;
      PrunePulls();
      ghost var s1 := State();
      var keep: seq<DeferredCommit> := [];
      var k := 0;
      assert deferred[0..] == deferred;
      hide Elapsed;
      while k < |deferred|
        invariant 0 <= k <= |deferred| && deferred == s1.deferred && now == at
        invariant ExpireCommits(State(), deferred[k..], keep) == ExpireCommits(s1, s1.deferred, [])
      {
        var d := deferred[k];
        assert deferred[k..][0] == d && deferred[k..][1..] == deferred[k + 1..];
        if Elapsed(now, d.deadline) >= 0 {
          log := log + [Left(d, TimedOut), Respond(d.source, COMMIT, d.reqId, d.peer, Timeout)];
        } else {
          keep := keep + [d];
        }
        k := k + 1;
      }
      deferred := keep;
    }

    /** Erases expired pulls while walking the vector. */
    method PrunePulls()
      modifies this`pending
      ensures pending == Unexpired(old(pending), now)
    {
      hide Elapsed, Unexpired;
      var k := 0;
      assert pending[..0] + Unexpired(pending[0..], now)
          == Unexpired(pending, now) by { assert pending[0..] == pending; }
      while k < |pending|
        invariant 0 <= k <= |pending|
        invariant pending[..k] + Unexpired(pending[k..], now) == Unexpired(old(pending), now)
        decreases |pending| - k
      {
        UnexpiredUnfold(pending[..k], pending[k..], now);
        assert pending[k..][0] == pending[k] && pending[k..][1..] == pending[k + 1..];
        if Elapsed(now, pending[k].deadline) >= 0 {
          ghost var before := pending;
          pending := Without(pending, k);
          assert pending[..k] == before[..k] && pending[k..] == before[k + 1..];
        } else {
          assert pending[..k] + [pending[k]] == pending[..k + 1];
          k := k + 1;
        }
      }
      assert pending[k..] == [] && pending[..k] == pending;
      NothingUnexpired(now);
    }

    static lemma {:induction false} NothingUnexpired(at: uint32)
      ensures Unexpired([], at) == []
    {
    }

    method FindPull(from: nat, corr: uint32) returns (i: nat)
      ensures i == FindPending(pending, from, corr)
    {
      hide Matches;
      i := 0;
      while i < |pending| && !Matches(pending[i], from, corr)
        invariant 0 <= i <= |pending|
        invariant forall j :: 0 <= j < i ==> !Matches(pending[j], from, corr)
      {
        i := i + 1;
      }
    }

    method OnPull(from: nat, corr: uint32, reply: Reply, sendOk: bool, timeout: uint32, sends: seq<bool>)
      modifies this
      ensures State() == OnPullResponse(old(State()), from, corr, reply, sendOk, timeout, sends)
    {
      hide FindPending, OnStaging, OnOther;
      if corr == 0 {
        return;
      }
      var i := FindPull(from, corr);
      if i == |pending| {
        return;
      }
      if pending[i].mode.Staging? {
        OnStagePull(i, corr, reply, sendOk, timeout, sends);
      } else {
        OnOtherPull(i, reply, timeout);
      }
    }

    method OnOtherPull(i: nat, reply: Reply, timeout: uint32)
      requires i < |pending| && !pending[i].mode.Staging?
      modifies this`pending, this`log
      ensures State() == OnOther(old(State()), i, reply, timeout)
    {
      hide OnBundleReply, PlainStatus;
      var p := pending[i];
      var status, mode, keep := PlainStatus(reply), p.mode, false;
      if !p.mode.Plain? {
        var r := OnBundleReply(p.mode, reply);
        status, mode, keep := r.0, r.1, r.2;
      }
      if keep {
        pending := pending[i := p.(mode := mode, chunks := p.chunks + 1, deadline := Wrap32(now + timeout))];
      } else {
        pending := Without(pending, i);
      }
      log := log + [RespondFor(p, status)];
    }

    /** A reply to the stage request in flight: send the next frame, or end the request. */
    method OnStagePull(i: nat, corr: uint32, reply: Reply, sendOk: bool, timeout: uint32, sends: seq<bool>)
      requires i < |pending| && pending[i].mode.Staging?
      modifies this
      ensures State() == OnStaging(old(State()), i, corr, reply, sendOk, timeout, sends)
    {
      hide ReleaseCommits;
      var p := pending[i];
      var st := p.mode.stage;
      var status := InternalError;
      if reply.Descriptor? && reply.kind.ErrorKind? {
        status := Failure(reply.kind.code);
      } else if reply.Descriptor? && reply.kind.AckKind? {
        log := log + [Acked(p.peer, corr)];
        st := st.(seen := Min(st.seen + 1, 0xFFFF));
        if st.step == WaitFinalize {
          status := if st.finalizeCorr != 0 && corr != st.finalizeCorr then InternalError else Ok;
        } else if st.step != NoStep {
          var next := if st.step == WaitClear then WaitBegin else NextDataStep(st);
          var newCorr := AllocateInternalCorrelation();
          if sendOk {
            var frame := NextFrame(st, next);
            st := Advance(st, next, newCorr);
            pending := pending[i := p.(mode := Staging(st), corrFirst := newCorr, corrLast := newCorr,
                                       chunks := p.chunks + 1, deadline := Wrap32(now + timeout))];
            log := log + [Sent(p.peer, newCorr, frame), RespondFor(p, OkDeferred)];
            return;
          }
        }
      }
      pending := Without(pending, i);
      log := log + [RespondFor(p, status)];
      DispatchDeferredTopologyCommitsForPeer(p.peer, status, sends);
    }

    method HasPendingStage(peer: nat) returns (found: bool)
      ensures found == HasStage(pending, peer)
    {
      var k := 0;
      while k < |pending|
        invariant 0 <= k <= |pending|
        invariant forall j :: 0 <= j < k ==> !(pending[j].peer == peer && pending[j].cmd == STAGE_SET)
      {
        if pending[k].peer == peer && pending[k].cmd == STAGE_SET {
          return true;
        }
        k := k + 1;
      }
      return false;
    }

    method StageSet(reqId: uint32, source: nat, peer: nat, snapshot: Snapshot, sendOk: bool, timeout: uint32)
      modifies this
      ensures State() == StageCommand(old(State()), reqId, source, peer, snapshot, sendOk, timeout)
    {
      hide HasStage, Track;
      var busy := HasPendingStage(peer);
      if busy {
        log := log + [Respond(source, STAGE_SET, reqId, peer, QueueFull)];
        return;
      }
      var corr := AllocateInternalCorrelation();
      if !sendOk {
        log := log + [Respond(source, STAGE_SET, reqId, peer, InternalError)];
        return;
      }
      var p := Pending(reqId, STAGE_SET, source, peer, Wrap32(now + timeout), corr, corr,
                       Staging(Stage(WaitClear, 0, 0, corr, 0, snapshot, |log|)), 0);
      TrackPendingDescriptorPull(p);
      log := log + [Opened(peer, reqId, snapshot), Sent(peer, corr, Clear),
                    Respond(source, STAGE_SET, reqId, peer, OkDeferred)];
    }

    method CommitSet(reqId: uint32, source: nat, peer: nat, sendOk: bool, timeout: uint32)
      modifies this
      ensures State() == CommitCommand(old(State()), reqId, source, peer, sendOk, timeout)
    {
      hide HasStage, Track;
      var busy := HasPendingStage(peer);
      if busy {
        var duplicate := exists i :: 0 <= i < |deferred| && deferred[i].reqId == reqId
                                     && deferred[i].source == source && deferred[i].peer == peer;
        if !duplicate {
          var d := DeferredCommit(reqId, source, peer, Wrap32(now + timeout));
          deferred := deferred + [d];
          log := log + [Queued(d)];
        }
        log := log + [Respond(source, COMMIT, reqId, peer, OkDeferred)];
        return;
      }
      if !sendOk {
        log := log + [Respond(source, COMMIT, reqId, peer, InternalError)];
        return;
      }
      TrackPendingDescriptorPull(Pending(reqId, COMMIT, source, peer, Wrap32(now + timeout), reqId, reqId, Plain, 0));
      log := log + [Sent(peer, reqId, Commit), Respond(source, COMMIT, reqId, peer, OkDeferred)];
    }
  }
}
