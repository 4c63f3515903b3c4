/** How one message is cut into the frames of the Bluetooth transport. */
module BleFraming {
  import opened Base

  const MAX_PAYLOAD_BYTES := 4096
  const MAX_FRAMES := 255
  const FRAME_HEADER := 3

  /** The smallest negotiated length Bluetooth LE promises for a notification. */
  const LEAST_NEGOTIATED := 20

  datatype Message = Message(kind: byte, payload: Bytes)

  type Frame = Bytes

  type PeerId = nat

  /** A message as it was cut: the capacity is fixed when its transfer begins. */
  datatype Cut = Cut(message: Message, capacity: Capacity)

  type Capacity = n: nat | 0 < n witness 1

  /** What `sendMessage` and `startBroadcast` let through. */
  predicate Admitted(m: Message) {
    0 < |m.payload| <= MAX_PAYLOAD_BYTES
  }

  function CapacityFor(negotiated: int): Capacity {
    Max(negotiated - FRAME_HEADER, 1)
  }

  /** It is the largest at which header and piece fit the negotiated length, or the least there is. */
  lemma LargestCapacity(negotiated: int, capacity: Capacity)
    ensures FRAME_HEADER + capacity <= Max(negotiated, FRAME_HEADER + 1) <==> capacity <= CapacityFor(negotiated)
  {
  }

  function FrameCount(length: nat, capacity: Capacity): nat {
    (length + capacity - 1) / capacity
  }

  predicate Sendable(m: Message, capacity: Capacity) {
    0 < FrameCount(|m.payload|, capacity) <= MAX_FRAMES
  }

  lemma FrameCountBounds(length: nat, capacity: Capacity)
    ensures FrameCount(length, capacity) * capacity >= length
    ensures length > 0 ==> FrameCount(length, capacity) > 0
    ensures forall i: nat :: i < FrameCount(length, capacity) ==> i * capacity < length
  {
    var n := FrameCount(length, capacity);
    Euclid(length + capacity - 1, capacity);
    forall i: nat | i < n ensures i * capacity < length {
      Multiples(i, n, capacity);
    }
  }

  /** The slice of the payload that frame `index` carries; the last one may be shorter. */
  function Chunk(payload: Bytes, capacity: Capacity, index: nat): (chunk: Bytes)
    requires index < FrameCount(|payload|, capacity)
    ensures 0 < |chunk| <= capacity
  {
    FrameCountBounds(|payload|, capacity);
    payload[index * capacity..Min(index * capacity + capacity, |payload|)]
  }

  function FrameAt(m: Message, capacity: Capacity, index: nat): (frame: Frame)
    requires Sendable(m, capacity) && index < FrameCount(|m.payload|, capacity)
    ensures FRAME_HEADER < |frame| <= FRAME_HEADER + capacity
  {
    [m.kind, index, FrameCount(|m.payload|, capacity)] + Chunk(m.payload, capacity, index)
  }

  /** The frames of m from position `next` to the last. */
  function FramesFrom(m: Message, capacity: Capacity, next: nat): seq<Frame>
    requires Sendable(m, capacity) && next <= FrameCount(|m.payload|, capacity)
    decreases FrameCount(|m.payload|, capacity) - next
  {
    if next == FrameCount(|m.payload|, capacity) then []
    else [FrameAt(m, capacity, next)] + FramesFrom(m, capacity, next + 1)
  }

  /** A message that needs too many frames is skipped and puts nothing on the air. */
  function FramesOf(c: Cut): seq<Frame> {
    if Sendable(c.message, c.capacity) then FramesFrom(c.message, c.capacity, 0) else []
  }

  /** Everything these transfers put on the air, in order. */
  function Stream(cuts: seq<Cut>): seq<Frame> {
    if cuts == [] then [] else Stream(cuts[..|cuts| - 1]) + FramesOf(cuts[|cuts| - 1])
  }

  /** The messages that went out, in order. */
  function Delivered(cuts: seq<Cut>): seq<Message> {
    if cuts == [] then []
    else
      var c := cuts[|cuts| - 1];
      Delivered(cuts[..|cuts| - 1]) + if Sendable(c.message, c.capacity) then [c.message] else []
  }

  function Messages(cuts: seq<Cut>): (ms: seq<Message>)
    ensures |ms| == |cuts|
    ensures forall i :: 0 <= i < |cuts| ==> ms[i] == cuts[i].message
  {
    seq(|cuts|, i requires 0 <= i < |cuts| => cuts[i].message)
  }

  lemma StreamAppend(cuts: seq<Cut>, c: Cut)
    ensures Stream(cuts + [c]) == Stream(cuts) + FramesOf(c)
    ensures Delivered(cuts + [c]) == Delivered(cuts) + if Sendable(c.message, c.capacity) then [c.message] else []
    ensures Messages(cuts + [c]) == Messages(cuts) + [c.message]
  {
    assert (cuts + [c])[..|cuts|] == cuts;
  }

  /** With nothing skipped, what went out is what was begun. */
  lemma {:induction false} NothingSkipped(cuts: seq<Cut>)
    requires forall i :: 0 <= i < |cuts| ==> Sendable(cuts[i].message, cuts[i].capacity)
    ensures Delivered(cuts) == Messages(cuts)
  {
    if cuts != [] {
      var front := cuts[..|cuts| - 1];
      NothingSkipped(front);
      assert cuts == front + [cuts[|cuts| - 1]];
      StreamAppend(front, cuts[|cuts| - 1]);
    }
  }

  /** Gluing the first i chunks back together gives a prefix of the payload. */
  function Glue(payload: Bytes, capacity: Capacity, i: nat): (r: Bytes)
    requires i <= FrameCount(|payload|, capacity)
  {
    if i == 0 then [] else Glue(payload, capacity, i - 1) + Chunk(payload, capacity, i - 1)
  }

  lemma {:induction false} GlueIsPrefix(payload: Bytes, capacity: Capacity, i: nat)
    requires i <= FrameCount(|payload|, capacity)
    ensures Glue(payload, capacity, i) == payload[..Min(i * capacity, |payload|)]
  {
    if i == 0 {
    } else {
      GlueIsPrefix(payload, capacity, i - 1);
      FrameCountBounds(|payload|, capacity);
      assert (i - 1) * capacity < |payload|;
      assert i * capacity == (i - 1) * capacity + capacity;
    }
  }

  /** Cutting loses and repeats nothing. */
  lemma CutThenGlue(payload: Bytes, capacity: Capacity)
    ensures Glue(payload, capacity, FrameCount(|payload|, capacity)) == payload
  {
    var n := FrameCount(|payload|, capacity);
    GlueIsPrefix(payload, capacity, n);
    FrameCountBounds(|payload|, capacity);
    assert payload[..|payload|] == payload;
  }

  /** The frame count is the least number of frames that holds the payload. */
  lemma FrameCountLeast(length: nat, capacity: Capacity, n: nat)
    ensures FrameCount(length, capacity) <= n <==> length <= n * capacity
  {
    FrameCountBounds(length, capacity);
    var count := FrameCount(length, capacity);
    if count <= n {
      Multiples(count, n, capacity);
    } else {
      assert n * capacity < length;
    }
  }

  /**
   * 17 payload bytes a frame is exactly enough: a capacity serves every
   * admitted message if and only if it is at least 17.
   */
  lemma LeastCapacity(capacity: Capacity)
    ensures (forall m: Message :: Admitted(m) ==> Sendable(m, capacity)) <==> capacity >= 17
  {
    if capacity >= 17 {
      forall m: Message | Admitted(m) ensures Sendable(m, capacity) {
        FrameCountBounds(|m.payload|, capacity);
        FrameCountLeast(|m.payload|, capacity, MAX_FRAMES);
      }
    } else {
      var longest := Message(1, seq(MAX_PAYLOAD_BYTES, _ => 0));
      FrameCountLeast(MAX_PAYLOAD_BYTES, capacity, MAX_FRAMES);
      assert Admitted(longest) && !Sendable(longest, capacity);
    }
  }
}
