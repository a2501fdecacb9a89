/** The wire vocabulary shared by the gateway and the agent: the limits both
    ends agree on and the frames of one file stream, already addressed to its
    channel. */
module Protocol {
  import opened Common

  newtype Byte = b: int | 0 <= b < 256
  type Bytes = seq<Byte>

  const STREAM_WINDOW_BYTES: nat := 1024 * 1024
  const MAX_DATA_FRAME_BYTES: nat := 1024 * 1024
  const MAX_CONTROL_FRAME_BYTES: nat := 256 * 1024
  const MAX_CREDIT_FRAME_BYTES: nat := 64 * 1024 * 1024
  const DATA_FRAME_HEADER_BYTES: nat := 4

  /** Frames of one file stream. `OpenRead` and `OpenWrite` are the rpc calls
      that name the channel, `RpcOk` and `RpcErr` their replies. */
  datatype Frame =
    | OpenRead
    | OpenWrite
    | RpcOk
    | RpcErr
    | Data(payload: Bytes)
    | Credit(bytes: int)
    | End
    | StreamError

  /** The schema bound on a credit frame; a frame outside it closes the connection. */
  predicate CreditInSchema(frame: Frame) {
    frame.Credit? ==> 1 <= frame.bytes <= MAX_CREDIT_FRAME_BYTES
  }

  /** All payload bytes travelling in a queue, in order. */
  function DataOf(queue: seq<Frame>): Bytes {
    if queue == [] then []
    else (if queue[0].Data? then queue[0].payload else []) + DataOf(queue[1..])
  }

  /** All credit travelling in a queue. */
  function CreditOf(queue: seq<Frame>): int {
    if queue == [] then 0
    else (if queue[0].Credit? then queue[0].bytes else 0) + CreditOf(queue[1..])
  }

  lemma {:induction false} DataOfAppend(queue: seq<Frame>, frame: Frame)
    ensures DataOf(queue + [frame]) == DataOf(queue) + (if frame.Data? then frame.payload else [])
  {
    if queue == [] {
      assert queue + [frame] == [frame];
    } else {
      assert (queue + [frame])[1..] == queue[1..] + [frame];
      DataOfAppend(queue[1..], frame);
      Associative(if queue[0].Data? then queue[0].payload else [], DataOf(queue[1..]),
                  if frame.Data? then frame.payload else []);
    }
  }

  lemma {:induction false} CreditOfAppend(queue: seq<Frame>, frame: Frame)
    ensures CreditOf(queue + [frame]) == CreditOf(queue) + (if frame.Credit? then frame.bytes else 0)
  {
    if queue == [] {
      assert queue + [frame] == [frame];
    } else {
      assert (queue + [frame])[1..] == queue[1..] + [frame];
      CreditOfAppend(queue[1..], frame);
    }
  }

  lemma {:induction false} NoData(queue: seq<Frame>)
    requires forall i :: 0 <= i < |queue| ==> !queue[i].Data?
    ensures DataOf(queue) == []
  {
    if queue != [] {
      NoData(queue[1..]);
    }
  }

  lemma {:induction false} NoCredit(queue: seq<Frame>)
    requires forall i :: 0 <= i < |queue| ==> !queue[i].Credit?
    ensures CreditOf(queue) == 0
  {
    if queue != [] {
      NoCredit(queue[1..]);
    }
  }

  lemma {:induction false} CreditOfIsNat(queue: seq<Frame>)
    requires forall i :: 0 <= i < |queue| ==> queue[i].Credit? ==> queue[i].bytes >= 1
    ensures CreditOf(queue) >= 0
    ensures forall i :: 0 <= i < |queue| && queue[i].Credit? ==> queue[i].bytes <= CreditOf(queue)
  {
    if queue != [] {
      CreditOfIsNat(queue[1..]);
      forall i | 0 <= i < |queue| && queue[i].Credit? ensures queue[i].bytes <= CreditOf(queue) {
        if i > 0 {
          assert queue[i] == queue[1..][i - 1];
        }
      }
    }
  }

  lemma AppendAccounts(queue: seq<Frame>, frame: Frame)
    ensures DataOf(queue + [frame]) == DataOf(queue) + (if frame.Data? then frame.payload else [])
    ensures CreditOf(queue + [frame]) == CreditOf(queue) + (if frame.Credit? then frame.bytes else 0)
  {
    DataOfAppend(queue, frame);
    CreditOfAppend(queue, frame);
  }
}
