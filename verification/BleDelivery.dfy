/** From one end of the Bluetooth link to the other. */
module BleDelivery {
  import opened Base
  import opened BleFraming
  import opened BleReceiver
  import Sender = BleSender

  const FRESH := Inbox(None, map[], [])

  function Heard(ms: seq<Message>): (es: seq<Event>)
    ensures |es| == |ms|
  {
    seq(|ms|, i requires 0 <= i < |ms| => Received(ms[i]))
  }

  lemma {:induction false} FramesFromAt(c: Cut, next: nat)
    requires Sendable(c.message, c.capacity) && next <= FrameCount(|c.message.payload|, c.capacity)
    ensures
      var frames := FramesFrom(c.message, c.capacity, next);
      && |frames| == FrameCount(|c.message.payload|, c.capacity) - next
      && forall i | 0 <= i < |frames| :: frames[i] == FrameAt(c.message, c.capacity, next + i)
    decreases FrameCount(|c.message.payload|, c.capacity) - next
  {
    if next < FrameCount(|c.message.payload|, c.capacity) {
      FramesFromAt(c, next + 1);
    }
  }

  /** The pieces a transfer cuts its message into. */
  ghost function PiecesOf(c: Cut): Pieces {
    Pieces(c.message.kind, seq(FrameCount(|c.message.payload|, c.capacity),
      i requires 0 <= i < FrameCount(|c.message.payload|, c.capacity) => Chunk(c.message.payload, c.capacity, i)))
  }

  lemma {:induction false} JoinedGlue(c: Cut, n: nat)
    requires n <= FrameCount(|c.message.payload|, c.capacity)
    ensures n <= |PiecesOf(c).chunks| && Joined(PiecesOf(c).chunks[..n]) == Glue(c.message.payload, c.capacity, n)
  {
    if n > 0 {
      JoinedGlue(c, n - 1);
      assert PiecesOf(c).chunks[..n][..n - 1] == PiecesOf(c).chunks[..n - 1];
    }
  }

  /** What the sender puts on the air for one message, in the receiver's terms. */
  lemma SameFrames(c: Cut)
    requires Sendable(c.message, c.capacity)
    ensures Regular(PiecesOf(c)) && InOrder(PiecesOf(c)) == FramesOf(c)
    ensures |PiecesOf(c).chunks| == FrameCount(|c.message.payload|, c.capacity)
    ensures Joined(PiecesOf(c).chunks) == c.message.payload
  {
    var p := PiecesOf(c);
    JoinedGlue(c, |p.chunks|);
    assert p.chunks[..|p.chunks|] == p.chunks;
    CutThenGlue(c.message.payload, c.capacity);
    SameFrameEach(c);
  }

  lemma SameFrameEach(c: Cut)
    requires Sendable(c.message, c.capacity)
    ensures Regular(PiecesOf(c)) && InOrder(PiecesOf(c)) == FramesOf(c)
  {
    var p := PiecesOf(c);
    FramesFromAt(c, 0);
    forall i | 0 <= i < |p.chunks| ensures InOrder(p)[i] == FramesOf(c)[i] {
      assert UpTo(|p.chunks|)[i] == i;
    }
  }

  /** A whole stream is heard as the messages that went out, each once and in order. */
  lemma {:induction false} WholeStream(s: Inbox, cuts: seq<Cut>, connected: bool)
    requires Idle(s)
    requires forall i :: 0 <= i < |cuts| ==> |cuts[i].message.payload| <= MAX_PAYLOAD_BYTES
    ensures
      var after := AfterFrames(s, Stream(cuts), connected);
      Idle(after) && after.heard == s.heard + Heard(Delivered(cuts))
  {
    if cuts == [] {
      assert s.heard + Heard(Delivered(cuts)) == s.heard;
    } else {
      var front, c := cuts[..|cuts| - 1], cuts[|cuts| - 1];
      WholeStream(s, front, connected);
      AfterConcat(s, Stream(front), FramesOf(c), connected);
      WholeTransfer(AfterFrames(s, Stream(front), connected), c, connected);
      HeardMore(Delivered(front), c);
      Associates(s.heard, Heard(Delivered(front)), HeardOf(c));
    }
  }

  /** What one transfer lets the peer hear. */
  function HeardOf(c: Cut): seq<Event> {
    if Sendable(c.message, c.capacity) then [Received(c.message)] else []
  }

  lemma HeardMore(ms: seq<Message>, c: Cut)
    ensures Heard(ms + if Sendable(c.message, c.capacity) then [c.message] else []) == Heard(ms) + HeardOf(c)
  {
  }

  lemma WholeTransfer(s: Inbox, c: Cut, connected: bool)
    requires Idle(s) && |c.message.payload| <= MAX_PAYLOAD_BYTES
    ensures
      var after := AfterFrames(s, FramesOf(c), connected);
      Idle(after) && after.heard == s.heard + HeardOf(c)
  {
    if Sendable(c.message, c.capacity) {
      SameFrames(c);
      WholeOne(s, PiecesOf(c), connected);
    } else {
      assert s.heard + [] == s.heard;
    }
  }

  /** Every message passed the payload guards, and every negotiated length was at least the least one. */
  ghost predicate Admissible(link: Sender.Link) {
    && (forall i :: 0 <= i < |link.past.asked| ==> Admitted(link.past.asked[i]))
    && (forall i :: 0 <= i < |link.past.lengths| ==> link.past.lengths[i] >= LEAST_NEGOTIATED)
  }

  lemma BegunWasAsked(link: Sender.Link)
    requires Sender.Conserved(link)
    ensures |link.past.begun| <= |link.past.asked|
    ensures forall i :: 0 <= i < |link.past.begun| ==> link.past.begun[i].message == link.past.asked[i]
  {
    var ms := Messages(link.past.begun);
    forall i | 0 <= i < |link.past.begun| ensures link.past.begun[i].message == link.past.asked[i] {
      assert ms[i] == (ms + link.outbox)[i];
    }
  }

  lemma NothingTooLarge(link: Sender.Link)
    requires Sender.Conserved(link) && Admissible(link)
    ensures AllFit(link.past.begun)
  {
    BegunWasAsked(link);
    forall i | 0 <= i < |link.past.begun| ensures Sendable(link.past.begun[i].message, link.past.begun[i].capacity) {
      LeastCapacity(link.past.begun[i].capacity);
      assert Admitted(link.past.begun[i].message);
    }
  }

  /**
   * End to end: whatever the radio turned down before, whenever it was ready again
   * and however the negotiated length moved at or above its least value, the peer has
   * heard exactly the messages asked for, in order, once each - unless the last frame
   * offered to the radio is one it turned down.
   */
  lemma EndToEnd(link: Sender.Link, connected: bool)
    requires Sender.Conserved(link) && Sender.NoStall(link) && !Sender.Refused(link)
    requires Admissible(link)
    ensures
      var after := AfterFrames(FRESH, link.past.air, connected);
      Idle(after) && after.heard == Heard(link.past.asked)
  {
    NothingTooLarge(link);
    NothingSkipped(link.past.begun);
    WholeStream(FRESH, link.past.begun, connected);
    assert link.past.air == link.past.air + [];
    assert Messages(link.past.begun) == Messages(link.past.begun) + [];
  }

  /** However a stream is cut short, what has been heard is a prefix of what it carries. */
  lemma {:induction false} PrefixHeard(s: Inbox, cuts: seq<Cut>, air: seq<Frame>, connected: bool)
    requires Idle(s) && air <= Stream(cuts) && AllFit(cuts)
    ensures AfterFrames(s, air, connected).heard <= s.heard + Heard(Messages(cuts))
  {
    if air == Stream(cuts) {
      WholeStream(s, cuts, connected);
      NothingSkipped(cuts);
    } else {
      var front, c := cuts[..|cuts| - 1], cuts[|cuts| - 1];
      assert cuts == front + [c];
      StreamAppend(front, c);
      assert Heard(Messages(cuts)) == Heard(Messages(front)) + [Received(c.message)];
      if |air| <= |Stream(front)| {
        PrefixHeard(s, front, air, connected);
      } else {
        var n := |air| - |Stream(front)|;
        assert air == Stream(front) + FramesOf(c)[..n];
        PartOfLast(s, front, c, n, connected);
      }
    }
  }

  /** Each transfer fits the payload limit and the frame limit. */
  ghost predicate AllFit(cuts: seq<Cut>) {
    forall i :: 0 <= i < |cuts| ==>
      Sendable(cuts[i].message, cuts[i].capacity) && |cuts[i].message.payload| <= MAX_PAYLOAD_BYTES
  }

  /** Part of one more message adds nothing to what has been heard. */
  lemma PartOfLast(s: Inbox, front: seq<Cut>, c: Cut, n: nat, connected: bool)
    requires Idle(s) && AllFit(front) && Sendable(c.message, c.capacity) && n < |FramesOf(c)|
    ensures AfterFrames(s, Stream(front) + FramesOf(c)[..n], connected).heard == s.heard + Heard(Messages(front))
  {
    WholeStream(s, front, connected);
    NothingSkipped(front);
    AfterConcat(s, Stream(front), FramesOf(c)[..n], connected);
    SameFrames(c);
    PartOfOne(AfterFrames(s, Stream(front), connected), PiecesOf(c), n, connected);
  }

  /** At every moment, what has been heard is a prefix of what was asked for. */
  lemma AnyMoment(link: Sender.Link, connected: bool)
    requires Sender.Conserved(link) && Admissible(link)
    ensures AfterFrames(FRESH, link.past.air, connected).heard <= Heard(link.past.asked)
  {
    NothingTooLarge(link);
    PrefixHeard(FRESH, link.past.begun, link.past.air, connected);
    BegunWasAsked(link);
    assert [] + Heard(Messages(link.past.begun)) == Heard(Messages(link.past.begun)) <= Heard(link.past.asked);
  }

  /** What can happen on the merchant's side, besides the radio's own choices. */
  datatype Step = Ask(id: PeerId, message: Message) | Ready(subscribed: seq<PeerId>)

  function AskedOf(steps: seq<Step>, id: PeerId): seq<Message> {
    if steps == [] then []
    else
      var step := steps[|steps| - 1];
      AskedOf(steps[..|steps| - 1], id) + if step.Ask? && step.id == id then [step.message] else []
  }

  /**
   * Any schedule of messages and ready callbacks, for any number of customers
   * at once, with the radio refusing frames and renegotiating as it likes.
   */
  method AnySchedule(steps: seq<Step>) returns (outlet: Sender.Outlet)
    ensures outlet.Valid()
    ensures forall id :: outlet.View(id).past.asked == AskedOf(steps, id)
    ensures forall id, connected :: Admissible(outlet.View(id)) ==>
              AfterFrames(FRESH, outlet.View(id).past.air, connected).heard <= Heard(AskedOf(steps, id))
    ensures forall id, connected :: Admissible(outlet.View(id)) && !Sender.Refused(outlet.View(id)) ==>
              AfterFrames(FRESH, outlet.View(id).past.air, connected).heard == Heard(AskedOf(steps, id))
  {
    outlet := new Sender.Outlet();
    for i := 0 to |steps|
      invariant fresh(outlet) && outlet.Valid()
      invariant forall id :: outlet.View(id).past.asked == AskedOf(steps[..i], id)
    {
      assert steps[..i + 1][..i] == steps[..i];
      match steps[i]
      case Ask(id, message) => outlet.Enqueue(message, id);
      case Ready(subscribed) => outlet.ReadyToUpdate(subscribed);
    }
    assert steps[..|steps|] == steps;
    forall id, connected | Admissible(outlet.View(id))
      ensures AfterFrames(FRESH, outlet.View(id).past.air, connected).heard <= Heard(AskedOf(steps, id))
    {
      AnyMoment(outlet.View(id), connected);
    }
    forall id, connected | Admissible(outlet.View(id)) && !Sender.Refused(outlet.View(id))
      ensures AfterFrames(FRESH, outlet.View(id).past.air, connected).heard == Heard(AskedOf(steps, id))
    {
      EndToEnd(outlet.View(id), connected);
    }
  }

  /** The radio took every frame it was offered since. */
  predicate AllTaken(before: seq<bool>, after: seq<bool>) {
    before <= after && forall i | |before| <= i < |after| :: after[i]
  }

  /**
   * After any schedule, one ready callback in which the radio takes what it is offered
   * lets every subscribed customer hear everything asked for it.
   */
  method ReadyAtLast(outlet: Sender.Outlet, steps: seq<Step>, subscribed: seq<PeerId>)
    requires outlet.Valid() && forall id :: outlet.View(id).past.asked == AskedOf(steps, id)
    modifies outlet`sending, outlet`outbox, outlet`past
    ensures outlet.Valid() && forall id :: outlet.View(id).past.asked == AskedOf(steps, id)
    ensures forall id, connected ::
              id in subscribed && AllTaken(old(outlet.View(id)).past.answers, outlet.View(id).past.answers)
              && Admissible(outlet.View(id)) ==>
                AfterFrames(FRESH, outlet.View(id).past.air, connected).heard == Heard(AskedOf(steps, id))
  {
    outlet.ReadyToUpdate(subscribed);
    forall id, connected |
      id in subscribed && AllTaken(old(outlet.View(id)).past.answers, outlet.View(id).past.answers)
      && Admissible(outlet.View(id))
      ensures AfterFrames(FRESH, outlet.View(id).past.air, connected).heard == Heard(AskedOf(steps, id))
    {
      assert Sender.Conserved(outlet.View(id)) && Sender.NoStall(outlet.View(id));
      EndToEnd(outlet.View(id), connected);
    }
  }
}
