/**
 * The merchant's side of the Bluetooth transport: a queue a customer, behind a
 * radio that may refuse any frame.
 */
module BleSender {
  import opened Base
  import opened BleFraming

  const REQUEST_KIND: byte := 1

  datatype SendError = PayloadEmpty | PayloadTooLarge | PeerUnknown

  /** The guards of `sendMessage`, in order. */
  function Refusal(payload: Bytes, known: bool): Option<SendError> {
    if |payload| == 0 then Some(PayloadEmpty)
    else if |payload| > MAX_PAYLOAD_BYTES then Some(PayloadTooLarge)
    else if !known then Some(PeerUnknown)
    else None
  }

  /** A message in the middle of being sent: its cut, and the position of its next frame. */
  datatype Transfer = Transfer(message: Message, next: nat, capacity: Capacity, total: nat)

  /**
   * What has been with one customer: the frames the radio took, every message ever asked for, every
   * transfer begun with the capacity it was given, the length negotiated at each of these moments,
   * and what the radio said to each frame it was offered.
   */
  datatype Past = Past(
    air: seq<Frame>, asked: seq<Message>, begun: seq<Cut>, lengths: seq<int>, answers: seq<bool>)

  const NOTHING := Past([], [], [], [], [])

  /** One customer's link: the transfer in flight and the queue behind it. */
  datatype Link = Link(sending: Option<Transfer>, outbox: seq<Message>, past: Past)

  const IDLE := Link(None, [], NOTHING)

  ghost predicate TransferOk(t: Transfer) {
    && Sendable(t.message, t.capacity)
    && t.total == FrameCount(|t.message.payload|, t.capacity)
    && t.next <= t.total
  }

  /** The frames the transfer in flight still owes. */
  ghost function Owed(sending: Option<Transfer>): seq<Frame>
    requires sending.Some? ==> TransferOk(sending.value)
  {
    match sending
    case None => []
    case Some(t) => FramesFrom(t.message, t.capacity, t.next)
  }

  /** The transfer in flight is the last one begun. */
  ghost predicate InProgress(link: Link) {
    && link.sending.Some? && link.past.begun != []
    && link.past.begun[|link.past.begun| - 1] == Cut(link.sending.value.message, link.sending.value.capacity)
  }

  /**
   * Conservation: what the radio took and what is still owed are together the
   * frames of every transfer begun; every message asked for was begun, in order,
   * or is still queued; and each was cut for the length negotiated when it began.
   */
  ghost predicate Conserved(link: Link) {
    && (link.sending.Some? ==> TransferOk(link.sending.value) && InProgress(link))
    && link.past.air + Owed(link.sending) == Stream(link.past.begun)
    && Messages(link.past.begun) + link.outbox == link.past.asked
    && CutToLength(link)
  }

  ghost predicate CutToLength(link: Link) {
    && |link.past.lengths| == |link.past.begun|
    && forall i :: 0 <= i < |link.past.begun| ==> link.past.begun[i].capacity == CapacityFor(link.past.lengths[i])
  }

  /** The last frame offered to the radio was turned down. */
  predicate Refused(link: Link) {
    link.past.answers != [] && !link.past.answers[|link.past.answers| - 1]
  }

  /**
   * Between callbacks a link is still sending exactly when the radio turned down the last frame
   * it was offered, and one that is not sending has nothing left to send.
   */
  ghost predicate NoStall(link: Link) {
    && (link.sending.Some? <==> Refused(link))
    && (if link.sending.Some? then link.sending.value.next < link.sending.value.total else link.outbox == [])
  }

  /** Every frame on the air is of a transfer begun, and as short as the length negotiated for it demands. */
  lemma {:induction false} FramesFitTheLink(link: Link, k: nat)
    requires Conserved(link) && k < |link.past.air|
    ensures exists i :: 0 <= i < |link.past.begun| && link.past.air[k] in FramesOf(link.past.begun[i])
                        && |link.past.air[k]| <= Max(link.past.lengths[i], FRAME_HEADER + 1)
  {
    assert link.past.air[k] == Stream(link.past.begun)[k];
    var i := CarriedBy(link.past.begun, k);
    FramesShort(link.past.begun[i], link.past.air[k]);
  }

  lemma {:induction false} CarriedBy(cuts: seq<Cut>, k: nat) returns (i: nat)
    requires k < |Stream(cuts)|
    ensures i < |cuts| && Stream(cuts)[k] in FramesOf(cuts[i])
  {
    var n := |cuts| - 1;
    if k < |Stream(cuts[..n])| {
      i := CarriedBy(cuts[..n], k);
    } else {
      i := n;
    }
  }

  lemma FramesShort(c: Cut, frame: Frame)
    requires frame in FramesOf(c)
    ensures |frame| <= FRAME_HEADER + c.capacity
  {
    EachShort(c.message, c.capacity, 0, frame);
  }

  lemma {:induction false} EachShort(m: Message, capacity: Capacity, next: nat, frame: Frame)
    requires Sendable(m, capacity) && next <= FrameCount(|m.payload|, capacity)
    requires frame in FramesFrom(m, capacity, next)
    ensures |frame| <= FRAME_HEADER + capacity
    decreases FrameCount(|m.payload|, capacity) - next
  {
    if frame != FrameAt(m, capacity, next) {
      EachShort(m, capacity, next + 1, frame);
    }
  }

  // ---------------------------------------------------------------------
  // One step on a link
  // ---------------------------------------------------------------------

  /** One more message behind the others. */
  function Queued(link: Link, m: Message): Link {
    link.(outbox := link.outbox + [m], past := link.past.(asked := link.past.asked + [m]))
  }

  /** A length is read off the link. */
  function Measured(link: Link, negotiated: int): Link {
    link.(past := link.past.(lengths := link.past.lengths + [negotiated]))
  }

  /** The first message in line is begun. */
  function Taken(link: Link, capacity: Capacity): Link
    requires link.outbox != []
  {
    link.(outbox := link.outbox[1..], past := link.past.(begun := link.past.begun + [Cut(link.outbox[0], capacity)]))
  }

  /** A frame is offered to the radio. */
  function Offered(link: Link, frame: Frame, taken: bool): Link {
    link.(past := link.past.(air := link.past.air + (if taken then [frame] else []),
                             answers := link.past.answers + [taken]))
  }

  /** The first message in line is begun, and is under way unless it needs too many frames. */
  function Begun(link: Link, negotiated: int): Link
    requires link.outbox != []
  {
    var m, capacity := link.outbox[0], CapacityFor(negotiated);
    var total := FrameCount(|m.payload|, capacity);
    var rest := Taken(Measured(link, negotiated), capacity);
    if 0 < total <= MAX_FRAMES then rest.(sending := Some(Transfer(m, 0, capacity, total))) else rest
  }

  lemma {:induction false} AskedKeepsConserved(link: Link, m: Message)
    requires Conserved(link)
    ensures Conserved(Queued(link, m))
  {
    assert Messages(link.past.begun) + (link.outbox + [m]) == (Messages(link.past.begun) + link.outbox) + [m];
  }

  /** Beginning a transfer, whatever length is negotiated for it, loses and repeats nothing. */
  lemma {:induction false} BegunKeepsConserved(link: Link, negotiated: int)
    requires Conserved(link) && link.sending.None? && link.outbox != []
    ensures Conserved(Begun(link, negotiated))
  {
    var m, capacity := link.outbox[0], CapacityFor(negotiated);
    var past := link.past;
    StreamAppend(past.begun, Cut(m, capacity));
    assert past.air + [] == past.air;
    FirstInLine(past.begun, link.outbox, capacity);
    assert CutToLength(Begun(link, negotiated));
  }

  lemma FirstInLine(begun: seq<Cut>, outbox: seq<Message>, capacity: Capacity)
    requires outbox != []
    ensures Messages(begun + [Cut(outbox[0], capacity)]) + outbox[1..] == Messages(begun) + outbox
  {
    assert [outbox[0]] + outbox[1..] == outbox;
    StreamAppend(begun, Cut(outbox[0], capacity));
    Associates(Messages(begun), [outbox[0]], outbox[1..]);
  }

  /** These frames were offered one after the other and taken, and then perhaps one more that was not. */
  function Sent(past: Past, frames: seq<Frame>, refused: bool): Past {
    past.(air := past.air + frames,
          answers := past.answers + seq(|frames|, _ => true) + if refused then [false] else [])
  }

  lemma OneMoreSent(past: Past, sent: seq<Frame>, frame: Frame, owed: seq<Frame>)
    ensures Sent(past, sent, false).answers + [true] == Sent(past, sent + [frame], false).answers
    ensures Sent(past, sent, false).answers + [false] == Sent(past, sent, true).answers
    ensures Sent(past, sent, false).air + [frame] == Sent(past, sent + [frame], false).air
    ensures Sent(past, sent, false).air + [] == Sent(past, sent, true).air
    ensures owed != [] && owed[0] == frame ==> sent + owed == (sent + [frame]) + owed[1..]
  {
  }

  /** The frames the radio took move from what is owed to what is on the air. */
  lemma {:induction false} SentKeepsConserved(link: Link, progress: Transfer, sent: seq<Frame>)
    requires Conserved(link) && link.sending.Some? && TransferOk(progress)
    requires progress == link.sending.value.(next := progress.next)
    requires sent + Owed(Some(progress)) == Owed(link.sending)
    ensures
      Conserved(link.(sending := Some(progress), past := Sent(link.past, sent, progress.next < progress.total)))
  {
    Associates(link.past.air, sent, Owed(Some(progress)));
  }

  lemma {:induction false} DoneKeepsConserved(link: Link)
    requires Conserved(link) && link.sending.Some? && link.sending.value.next == link.sending.value.total
    ensures Conserved(link.(sending := None))
  {
  }

  /** What a ready callback does for one customer. */
  ghost predicate CarriedOn(before: Link, after: Link, subscribed: bool) {
    && after.past.asked == before.past.asked
    && before.past.answers <= after.past.answers
    && (subscribed && after.sending.Some? ==> before.past.answers < after.past.answers)
    && (!subscribed ==> after == before)
  }

  function Get<V>(m: map<PeerId, V>, id: PeerId, default: V): V {
    if id in m then m[id] else default
  }

  function Find<V>(m: map<PeerId, V>, id: PeerId): Option<V> {
    if id in m then Some(m[id]) else None
  }

  /** The peripheral role, with one entry a customer in every dictionary. */
  class Outlet {
    var subscribers: set<PeerId>
    var advertised: Option<Bytes>
    var sending: map<PeerId, Transfer>
    var outbox: map<PeerId, seq<Message>>
    ghost var past: map<PeerId, Past>

    constructor ()
      ensures Valid()
      ensures forall id :: View(id) == IDLE
      ensures subscribers == {} && advertised == None
    {
      subscribers, advertised := {}, None;
      sending, outbox, past := map[], map[], map[];
    }

    ghost function View(id: PeerId): Link
      reads this
    {
      Link(Find(sending, id), Get(outbox, id, []), Get(past, id, NOTHING))
    }

    ghost predicate Valid()
      reads this
    {
      forall id :: Conserved(View(id)) && NoStall(View(id))
    }

    twostate lemma StillValid(id: PeerId)
      requires old(Valid()) && Conserved(View(id)) && NoStall(View(id))
      requires forall other :: other != id ==> View(other) == old(View(other))
      ensures Valid()
    {
      forall other ensures Conserved(View(other)) && NoStall(View(other)) {
        if other != id {
          assert Conserved(old(View(other))) && NoStall(old(View(other)));
        }
      }
    }

    /** `updateValue`: the radio takes a frame, or turns it down. */
    method UpdateValue(id: PeerId, frame: Frame) returns (taken: bool)
      modifies this`past
      ensures View(id) == Offered(old(View(id)), frame, taken)
      ensures forall other :: other != id ==> View(other) == old(View(other))
    {
      taken := *;
      past := past[id := Offered(View(id), frame, taken).past];
    }

    /** `maximumUpdateValueLength`: whatever is negotiated by now. */
    method MaximumUpdateValueLength(id: PeerId) returns (negotiated: int)
      modifies this`past
      ensures View(id) == Measured(old(View(id)), negotiated)
      ensures forall other :: other != id ==> View(other) == old(View(other))
    {
      negotiated := *;
      past := past[id := Measured(View(id), negotiated).past];
    }

    /** The merchant's side of `sendMessage`: refused, or queued. */
    method SendMessage(id: PeerId, kind: byte, payload: Bytes) returns (refusal: Option<SendError>)
      requires Valid()
      modifies this
      ensures Valid()
      ensures refusal == Refusal(payload, id in old(subscribers))
      ensures View(id).past.asked == old(View(id).past.asked) + if refusal.None? then [Message(kind, payload)] else []
      ensures old(View(id).past.answers) <= View(id).past.answers
      ensures forall other :: other != id || refusal.Some? ==> View(other) == old(View(other))
      ensures subscribers == old(subscribers) && advertised == old(advertised)
    {
      if |payload| == 0 {
        return Some(PayloadEmpty);
      }
      if |payload| > MAX_PAYLOAD_BYTES {
        return Some(PayloadTooLarge);
      }
      if id !in subscribers {
        return Some(PeerUnknown);
      }
      Enqueue(Message(kind, payload), id);
      return None;
    }

    /** A customer subscribed; the advertised request is the first thing it is told. */
    method DidSubscribe(id: PeerId)
      requires Valid()
      modifies this
      ensures Valid() && advertised == old(advertised)
      ensures advertised.None? ==> subscribers == old(subscribers) && View(id) == old(View(id))
      ensures advertised.Some? ==>
                && subscribers == old(subscribers) + {id}
                && View(id).past.asked == old(View(id).past.asked) + [Message(1, advertised.value)]
      ensures old(View(id).past.answers) <= View(id).past.answers
      ensures forall other :: other != id ==> View(other) == old(View(other))
    {
      if advertised.None? {
        return;
      }
      subscribers := subscribers + {id};
      assert forall other :: View(other) == old(View(other));
      Enqueue(Message(REQUEST_KIND, advertised.value), id);
    }

    /**
     * The message is now the customer's last in line, and is begun at once on an idle link: it and
     * all before it are gone then, unless the radio turned a frame down during the call.
     */
    method Enqueue(m: Message, id: PeerId)
      requires Valid()
      modifies this`sending, this`outbox, this`past
      ensures Valid()
      ensures View(id).past.asked == old(View(id).past.asked) + [m]
      ensures old(View(id).past.answers) <= View(id).past.answers
      ensures old(View(id)).sending.Some? ==> View(id) == Queued(old(View(id)), m)
      ensures forall other :: other != id ==> View(other) == old(View(other))
    {
      ghost var link := View(id);
      assert Conserved(link) && NoStall(link);
      AskedKeepsConserved(link, m);
      Queue(m, id);
      if id !in sending {
        BeginSend(id);
      }
      StillValid(id);
    }

    method Queue(m: Message, id: PeerId)
      modifies this`outbox, this`past
      ensures View(id) == Queued(old(View(id)), m)
      ensures forall other :: other != id ==> View(other) == old(View(other))
    {
      past := past[id := Queued(View(id), m).past];
      outbox := outbox[id := Get(outbox, id, []) + [m]];
    }

    /** Begins transfers off the front of the line until the radio turns a frame down or the line is empty. */
    method BeginSend(id: PeerId)
      requires id !in sending
      requires Conserved(View(id)) && !Refused(View(id))
      modifies this`sending, this`outbox, this`past
      ensures Conserved(View(id)) && NoStall(View(id))
      ensures View(id).past.asked == old(View(id).past.asked)
      ensures old(View(id).past.answers) <= View(id).past.answers
      ensures forall other :: other != id ==> View(other) == old(View(other))
      decreases |Get(outbox, id, [])|, 1
    {
      var queue := Get(outbox, id, []);
      if queue == [] {
        return;
      }
      ghost var link := View(id);
      var negotiated := MaximumUpdateValueLength(id);
      var capacity := CapacityFor(negotiated);
      var total := FrameCount(|queue[0].payload|, capacity);
      BegunKeepsConserved(link, negotiated);
      Take(id, capacity);
      if !(0 < total <= MAX_FRAMES) {
        BeginSend(id);
        return;
      }
      sending := sending[id := Transfer(queue[0], 0, capacity, total)];
      assert View(id) == Begun(link, negotiated);
      Send(id);
    }

    /** Removes the first waiting message, recording how it will be cut. */
    method Take(id: PeerId, ghost capacity: Capacity)
      requires Get(outbox, id, []) != []
      modifies this`outbox, this`past
      ensures View(id) == Taken(old(View(id)), capacity)
      ensures forall other :: other != id ==> View(other) == old(View(other))
    {
      past := past[id := Taken(View(id), capacity).past];
      outbox := outbox[id := outbox[id][1..]];
    }

    /**
     * Carries the transfer on from its saved position; once it is done the line moves up. It is
     * paused again only if the radio turned a frame down.
     */
    method Send(id: PeerId)
      requires id in sending && sending[id].next < sending[id].total
      requires Conserved(View(id))
      modifies this`sending, this`outbox, this`past
      ensures Conserved(View(id)) && NoStall(View(id))
      ensures View(id).past.asked == old(View(id).past.asked)
      ensures old(View(id).past.answers) < View(id).past.answers
      ensures forall other :: other != id ==> View(other) == old(View(other))
      decreases |Get(outbox, id, [])|, 2
    {
      ghost var link := View(id);
      var progress, sent := Push(id, sending[id]);
      ghost var pushed := View(id).(sending := Some(progress));
      SentKeepsConserved(link, progress, sent);
      if progress.next < progress.total {
        sending := sending[id := progress];
        assert View(id) == pushed;
        return;
      }
      DoneKeepsConserved(pushed);
      sending := map other | other in sending && other != id :: sending[other];
      assert View(id) == pushed.(sending := None);
      BeginSend(id);
    }

    /** The loop of `send`: frames from the saved position until the radio turns one down or none is left. */
    method Push(id: PeerId, start: Transfer) returns (progress: Transfer, ghost sent: seq<Frame>)
      requires TransferOk(start)
      modifies this`past
      ensures progress == start.(next := progress.next) && TransferOk(progress)
      ensures sent + Owed(Some(progress)) == Owed(Some(start))
      ensures View(id) == old(View(id)).(past := Sent(old(View(id)).past, sent, progress.next < progress.total))
      ensures forall other :: other != id ==> View(other) == old(View(other))
    {
      progress := start;
      sent := [];
      ghost var link := View(id);
      while progress.next < progress.total
        invariant progress == start.(next := progress.next) && TransferOk(progress)
        invariant sent + Owed(Some(progress)) == Owed(Some(start))
        invariant View(id) == link.(past := Sent(link.past, sent, false))
        invariant forall other :: other != id ==> View(other) == old(View(other))
      {
        var frame := FrameAt(progress.message, progress.capacity, progress.next);
        var taken := UpdateValue(id, frame);
        OneMoreSent(link.past, sent, frame, Owed(Some(progress)));
        if !taken {
          return;
        }
        progress := progress.(next := progress.next + 1);
        sent := sent + [frame];
      }
    }

    method CarryOn(id: PeerId)
      requires Valid()
      modifies this`sending, this`outbox, this`past
      ensures Valid() && CarriedOn(old(View(id)), View(id), true)
      ensures forall other :: other != id ==> View(other) == old(View(other))
    {
      assert Conserved(View(id)) && NoStall(View(id));
      if id in sending {
        assert View(id).sending == Some(sending[id]);
        Send(id);
      }
      StillValid(id);
    }

    /**
     * The radio has room again; every paused transfer of a subscribed customer carries on, and is
     * paused once more only if the radio turned another frame down.
     */
    method ReadyToUpdate(subscribed: seq<PeerId>)
      requires Valid()
      modifies this`sending, this`outbox, this`past
      ensures Valid()
      ensures forall id :: View(id).past.asked == old(View(id).past.asked)
      ensures forall id :: old(View(id).past.answers) <= View(id).past.answers
      ensures forall id :: id in subscribed && View(id).sending.Some? ==>
                old(View(id).past.answers) < View(id).past.answers
      ensures forall id :: id !in subscribed ==> View(id) == old(View(id))
    {
      for i := 0 to |subscribed|
        invariant Valid()
        invariant forall id :: CarriedOn(old(View(id)), View(id), id in subscribed[..i])
      {
        assert subscribed[..i + 1] == subscribed[..i] + [subscribed[i]];
        CarryOn(subscribed[i]);
      }
      assert subscribed[..|subscribed|] == subscribed;
    }
  }

  /** The guards one by one: something to send, not more than 4096 bytes of it, and to a phone that is known. */
  lemma RefusedWhen(payload: Bytes, known: bool)
    ensures Refusal(payload, known) == Some(PayloadEmpty) <==> payload == []
    ensures Refusal(payload, known) == Some(PayloadTooLarge) <==> |payload| > 4096
    ensures Refusal(payload, known) == Some(PeerUnknown) <==> 0 < |payload| <= 4096 && !known
    ensures Refusal(payload, known) == None <==> 0 < |payload| <= 4096 && known
  {
  }
}
