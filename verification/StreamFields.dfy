/** The stream fields that the readLoop thread and the dialling goroutine update in place: parked
    payloads under their mutex, and the credit counter.  Each method is one critical section, or the
    charge of one packet, and agrees with its step in StreamMachine. */
module StreamFields {
  import opened Wrappers
  import opened Bytes
  import opened Credit
  import BatchQueue
  import StreamMachine

  function Length(s: seq<byte>): nat { |s| }

  function ParkedBytes(data: seq<seq<byte>>): nat { BatchQueue.TotalSize(Length, data) }

  class Stream {
    const L: nat
    var pendingData: seq<seq<byte>>
    var pendingBytes: nat
    var bufferRemaining: nat
    // packets charged so far
    ghost var charged: nat

    ghost predicate Valid()
      reads this
    {
      && L > 0
      && pendingBytes == ParkedBytes(pendingData) <= StreamMachine.PARK_LIMIT
      && bufferRemaining == L - charged % L
    }

    constructor (L: nat)
      requires L > 0
      ensures Valid() && this.L == L && pendingData == [] && charged == 0
    {
      this.L, pendingData, pendingBytes, bufferRemaining, charged := L, [], 0, L, 0;
    }

    /** Parks a payload unless the limit would be passed. */
    method Park(payload: seq<byte>) returns (ok: bool)
      requires Valid()
      modifies this`pendingData, this`pendingBytes
      ensures Valid()
      ensures ok <==> ParkedBytes(old(pendingData)) + |payload| <= 16 * 1024 * 1024
      ensures pendingData == old(pendingData) + if ok then [payload] else []
      ensures forall s: StreamMachine.State, lease ::
        var t := StreamMachine.Park(s, StreamMachine.Job(payload, lease));
        s.stream.pendingData == old(pendingData) && s.stream.pendingBytes == old(pendingBytes) ==>
          t.stream.pendingData == pendingData && t.stream.pendingBytes == pendingBytes && (ok <==> !t.reader.Refusing?)
    {
      if pendingBytes + |payload| > StreamMachine.PARK_LIMIT {
        return false;
      }
      BatchQueue.TotalSizeAppend(Length, pendingData, [payload]);
      assert [payload][1..] == [];
      pendingData := pendingData + [payload];
      pendingBytes := pendingBytes + |payload|;
      return true;
    }

    /** The one snapshot, taken once the target is connected. */
    method Snapshot() returns (pending: seq<seq<byte>>)
      requires Valid()
      modifies this`pendingData, this`pendingBytes
      ensures Valid() && pending == old(pendingData) && pendingData == []
    {
      pending := pendingData;
      pendingData := [];
      pendingBytes := 0;
    }

    /** Charges one packet; a CONTINUE carrying a full counter goes out on every L-th. */
    method Charge() returns (credit: Option<nat>)
      requires Valid()
      modifies this`bufferRemaining, this`charged
      ensures Valid() && charged == old(charged) + 1
      ensures credit == if charged % L == 0 then Some(L) else None
      ensures (bufferRemaining, credit.Some?) == StreamMachine.Charge(L, old(bufferRemaining))
    {
      NextRemaining(L, charged);
      charged := charged + 1;
      credit := None;
      bufferRemaining := bufferRemaining - 1;
      if bufferRemaining == 0 {
        bufferRemaining := L;
        credit := Some(bufferRemaining);
      }
    }
  }

  lemma NextRemaining(L: nat, n: nat)
    requires L > 0
    ensures (n + 1) % L == if n % L == L - 1 then 0 else n % L + 1
  {
    ContinueEveryLPackets(L, n);
    ContinueEveryLPackets(L, n + 1);
  }
}
