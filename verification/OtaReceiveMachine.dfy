/**
 The slave's receive session over its memory pool, updated in place: the chunk is copied into the pool
 array, the bitmap is marked, and the contiguous prefix is walked forward.
*/
module OtaReceiveMachine {
  import opened FixedWidth
  import opened OtaReceiver

  /** The chunk an offset lies in. */
  function ChunkOf(rx: RxSession, offset: nat): nat
    requires rx.chunkSize > 0
  {
    offset / rx.chunkSize
  }

  lemma ContiguousStep(rx: RxSession, from: nat, k: nat, n: int)
    requires rx.chunkSize > 0 && k == ChunkOf(rx, from) && n == ChunkSizeAt(rx, k)
    ensures if from < rx.expectedSize && k < |rx.marks| && rx.marks[k] && n > 0
            then Contiguous(rx, from) == Contiguous(rx, from + n)
            else Contiguous(rx, from) == from
  {
    hide ChunkSizeAt;
  }

  class OtaReceiveService {
    var rx: RxSession
    const pool: array<byte>

    constructor (pool: array<byte>)
      ensures this.pool == pool && rx == NO_RX
    {
      this.pool := pool;
      rx := NO_RX;
    }

    method WriteReceiveChunk(corr: uint32, offset: uint32, data: seq<byte>) returns (ok: bool)
      modifies this, pool
      ensures (rx, pool[..], ok) == WriteChunk(old(rx), old(pool[..]), corr, offset, data)
    {
      if !rx.active || rx.corr != corr || data == [] || pool.Length < rx.expectedSize || offset >= rx.expectedSize
         || Wrap32(offset + |data|) > rx.expectedSize || rx.chunkSize == 0 || offset % rx.chunkSize != 0 {
        return false;
      }
      var k := offset / rx.chunkSize;
      if k >= |rx.marks| || |data| != ChunkSizeAt(rx, k) || offset + |data| > pool.Length {
        return false;
      }
      CopyIntoPool(offset, data);
      if !rx.marks[k] {
        rx := rx.(marks := rx.marks[k := true], uniqueSize := Wrap32(rx.uniqueSize + |data|));
      }
      RefreshContiguousReceived();
      return true;
    }

    method CopyIntoPool(offset: nat, data: seq<byte>)
      requires offset + |data| <= pool.Length
      modifies pool
      ensures pool[..] == Overlay(old(pool[..]), offset, data)
    {
      var i := 0;
      while i < |data|
        invariant 0 <= i <= |data|
        invariant forall j :: 0 <= j < pool.Length ==>
                    pool[j] == if offset <= j < offset + i then data[j - offset] else old(pool[j])
      {
        pool[offset + i] := data[i];
        i := i + 1;
      }
    }

    method RefreshContiguousReceived()
      modifies this
      ensures rx == old(rx).(receivedSize := if old(rx).chunkSize == 0 then 0
                             else Wrap32(Contiguous(old(rx), old(rx).receivedSize)))
    {
      hide Contiguous, ChunkSizeAt, ChunkOf;
      if rx.chunkSize == 0 {
        rx := rx.(receivedSize := 0);
        return;
      }
      var contiguous: nat := rx.receivedSize;
      while contiguous < rx.expectedSize
        invariant rx == old(rx)
        invariant Contiguous(rx, contiguous) == Contiguous(rx, rx.receivedSize)
        decreases rx.expectedSize - contiguous
      {
        var k := ChunkOf(rx, contiguous);
        ContiguousStep(rx, contiguous, k, ChunkSizeAt(rx, k));
        if k >= |rx.marks| || !rx.marks[k] {
          break;
        }
        var n := ChunkSizeAt(rx, k);
        if n <= 0 {
          break;
        }
        contiguous := contiguous + n;
      }
      var next := ChunkOf(rx, contiguous);
      ContiguousStep(rx, contiguous, next, ChunkSizeAt(rx, next));
      rx := rx.(receivedSize := Wrap32(contiguous));
    }
  }
}
