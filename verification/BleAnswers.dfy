/**
 * The customer's side of the Bluetooth transport: answers to a merchant go out as
 * writes, the next one leaving when one comes back. A write that comes back with an
 * error abandons whatever still waited.
 */
module BleAnswers {
  import opened Base
  import opened BleFraming
  import opened BleReceiver
  import opened BleDelivery
  import Sender = BleSender

  /**
   * One merchant's line: frames that wait, writes on their way, and frames the merchant
   * took. A write that failed may or may not have been taken.
   */
  datatype Line = Line(waiting: seq<Frame>, flying: seq<Frame>, landed: seq<Frame>)

  const UNUSED := Line([], [], [])

  predicate Quiet(l: Line) {
    l.waiting == [] && l.flying == []
  }

  function Next(l: Line): Line {
    if l.waiting == [] then l else l.(waiting := l.waiting[1..], flying := l.flying + [l.waiting[0]])
  }

  function AfterWrite(l: Line, c: Cut): Line {
    var joined := l.(waiting := l.waiting + FramesOf(c));
    if l.waiting == [] && FramesOf(c) != [] then Next(joined) else joined
  }

  /** The oldest write on its way comes back. */
  function AfterAck(l: Line, failed: bool, taken: bool): Line {
    var back := if l.flying == [] then l
                else l.(flying := l.flying[1..], landed := l.landed + if !failed || taken then [l.flying[0]] else []);
    if failed then back.(waiting := []) else Next(back)
  }

  class Answers {
    var connected: set<PeerId>
    var replyTo: set<PeerId>
    var writing: map<PeerId, seq<Frame>>
    var flying: map<PeerId, seq<Frame>>
    var landed: map<PeerId, seq<Frame>>
    ghost var lengths: map<PeerId, seq<int>>

    constructor (merchants: set<PeerId>)
      ensures replyTo == connected == merchants
      ensures forall id :: View(id) == UNUSED && Lengths(id) == []
    {
      replyTo, connected := merchants, merchants;
      writing, flying, landed, lengths := map[], map[], map[], map[];
    }

    function View(id: PeerId): Line
      reads this
    {
      Line(Sender.Get(writing, id, []), Sender.Get(flying, id, []), Sender.Get(landed, id, []))
    }

    /** The length negotiated with this merchant each time an answer was cut for it. */
    ghost function Lengths(id: PeerId): seq<int>
      reads this`lengths
    {
      Sender.Get(lengths, id, [])
    }

    /** `maximumWriteValueLength`: whatever is negotiated by now. */
    method MaximumWriteValueLength(id: PeerId) returns (negotiated: int)
      modifies this`lengths
      ensures Lengths(id) == old(Lengths(id)) + [negotiated]
      ensures forall other :: other != id ==> Lengths(other) == old(Lengths(other))
    {
      negotiated := *;
      lengths := lengths[id := Lengths(id) + [negotiated]];
    }

    /** The customer's side of `sendMessage`: refused, or cut and queued for writing. */
    method SendMessage(id: PeerId, kind: byte, payload: Bytes)
      returns (refusal: Option<Sender.SendError>, ghost negotiated: int)
      modifies this`writing, this`flying, this`lengths
      ensures refusal == Sender.Refusal(payload, id in connected)
      ensures
        if refusal.None? && id in replyTo
        then View(id) == AfterWrite(old(View(id)), Cut(Message(kind, payload), CapacityFor(negotiated)))
             && Lengths(id) == old(Lengths(id)) + [negotiated]
        else View(id) == old(View(id)) && Lengths(id) == old(Lengths(id))
      ensures forall other :: other != id ==> View(other) == old(View(other)) && Lengths(other) == old(Lengths(other))
    {
      negotiated := 0;
      if |payload| == 0 {
        return Some(Sender.PayloadEmpty), negotiated;
      }
      if |payload| > MAX_PAYLOAD_BYTES {
        return Some(Sender.PayloadTooLarge), negotiated;
      }
      if id !in connected {
        return Some(Sender.PeerUnknown), negotiated;
      }
      negotiated := Write(Message(kind, payload), id);
      return None, negotiated;
    }

    /** Cuts the whole answer at once and starts writing unless frames already wait. */
    method Write(m: Message, id: PeerId) returns (ghost negotiated: int)
      modifies this`writing, this`flying, this`lengths
      ensures
        if id in replyTo
        then View(id) == AfterWrite(old(View(id)), Cut(m, CapacityFor(negotiated)))
             && Lengths(id) == old(Lengths(id)) + [negotiated]
        else View(id) == old(View(id)) && Lengths(id) == old(Lengths(id))
      ensures forall other :: other != id ==> View(other) == old(View(other)) && Lengths(other) == old(Lengths(other))
    {
      negotiated := 0;
      if id !in replyTo {
        return;
      }
      var length := MaximumWriteValueLength(id);
      negotiated := length;
      var capacity := CapacityFor(length);
      var total := FrameCount(|m.payload|, capacity);
      if !(0 < total <= MAX_FRAMES) {
        return;
      }
      var frames := CutAll(m, capacity);
      var idle := Sender.Get(writing, id, []) == [];
      writing := writing[id := Sender.Get(writing, id, []) + frames];
      if idle {
        WriteNext(id);
      }
    }

    static method CutAll(m: Message, capacity: Capacity) returns (frames: seq<Frame>)
      requires Sendable(m, capacity)
      ensures frames == FramesOf(Cut(m, capacity))
      ensures |frames| == FrameCount(|m.payload|, capacity)
    {
      frames := [];
      for index := 0 to FrameCount(|m.payload|, capacity)
        invariant |frames| == index
        invariant frames + FramesFrom(m, capacity, index) == FramesFrom(m, capacity, 0)
      {
        frames := frames + [FrameAt(m, capacity, index)];
      }
    }

    method WriteNext(id: PeerId)
      modifies this`writing, this`flying
      ensures View(id) == Next(old(View(id)))
      ensures forall other :: other != id ==> View(other) == old(View(other))
    {
      var queue := Sender.Get(writing, id, []);
      if queue == [] {
        return;
      }
      writing := writing[id := queue[1..]];
      flying := flying[id := Sender.Get(flying, id, []) + [queue[0]]];
    }

    /** A write came back; after an error nothing that waited is sent. */
    method DidWrite(id: PeerId, failed: bool) returns (ghost taken: bool)
      modifies this`writing, this`flying, this`landed
      ensures View(id) == AfterAck(old(View(id)), failed, taken)
      ensures forall other :: other != id ==> View(other) == old(View(other))
    {
      var took: bool := *;
      taken := took;
      var sent := Sender.Get(flying, id, []);
      if sent != [] {
        flying := flying[id := sent[1..]];
        if !failed || took {
          landed := landed[id := Sender.Get(landed, id, []) + [sent[0]]];
        }
      }
      if failed {
        writing := writing - {id};
        return;
      }
      WriteNext(id);
    }
  }

  // ---------------------------------------------------------------------
  // Runs
  // ---------------------------------------------------------------------

  datatype Step = Wrote(cut: Cut) | Acked(failed: bool, taken: bool)

  function AfterStep(l: Line, s: Step): Line {
    match s
    case Wrote(c) => AfterWrite(l, c)
    case Acked(failed, taken) => AfterAck(l, failed, taken)
  }

  function AfterSteps(l: Line, steps: seq<Step>): Line {
    if steps == [] then l else AfterStep(AfterSteps(l, steps[..|steps| - 1]), steps[|steps| - 1])
  }

  function CutsOf(steps: seq<Step>): seq<Cut> {
    if steps == [] then []
    else
      var s := steps[|steps| - 1];
      CutsOf(steps[..|steps| - 1]) + if s.Wrote? then [s.cut] else []
  }

  lemma OneStepMore(l: Line, steps: seq<Step>, s: Step)
    ensures AfterSteps(l, steps + [s]) == AfterStep(AfterSteps(l, steps), s)
    ensures CutsOf(steps + [s]) == CutsOf(steps) + if s.Wrote? then [s.cut] else []
  {
    assert (steps + [s])[..|steps|] == steps;
  }

  lemma {:induction false} StepsAppend(l: Line, a: seq<Step>, b: seq<Step>)
    ensures AfterSteps(l, a + b) == AfterSteps(AfterSteps(l, a), b)
  {
    if b == [] {
      assert a + b == a;
    } else {
      var front, last := b[..|b| - 1], b[|b| - 1];
      StepsAppend(l, a, front);
      assert a + b == (a + front) + [last];
      OneStepMore(l, a + front, last);
    }
  }

  // ---------------------------------------------------------------------
  // How many writes are on their way
  // ---------------------------------------------------------------------

  /** An answer is written while the last frame of the one before is still on its way. */
  predicate Overlaps(l: Line, s: Step) {
    s.Wrote? && |l.flying| == 1 && l.waiting == [] && Sendable(s.cut.message, s.cut.capacity)
  }

  lemma NoFrames(c: Cut)
    ensures FramesOf(c) == [] <==> !Sendable(c.message, c.capacity)
  {
  }

  /** One write at a time survives a step exactly when the step is no such overlap. */
  lemma OneAtATime(l: Line, s: Step)
    requires |l.flying| <= 1
    ensures |AfterStep(l, s).flying| <= 1 <==> !Overlaps(l, s)
  {
    if s.Wrote? {
      NoFrames(s.cut);
    }
  }

  /** At every point of the run at most one write is on its way. */
  predicate OneThroughout(steps: seq<Step>) {
    |AfterSteps(UNUSED, steps).flying| <= 1 && (steps != [] ==> OneThroughout(steps[..|steps| - 1]))
  }

  predicate NeverOverlaps(steps: seq<Step>) {
    steps != [] ==>
      var front := steps[..|steps| - 1];
      NeverOverlaps(front) && !Overlaps(AfterSteps(UNUSED, front), steps[|steps| - 1])
  }

  /** A run keeps one write at a time throughout exactly when no answer in it is written at such a moment. */
  lemma {:induction false} OneWriteInFlight(steps: seq<Step>)
    ensures OneThroughout(steps) <==> NeverOverlaps(steps)
  {
    if steps != [] {
      var front, last := steps[..|steps| - 1], steps[|steps| - 1];
      OneWriteInFlight(front);
      if OneThroughout(front) {
        OneAtATime(AfterSteps(UNUSED, front), last);
      }
    }
  }

  /** And it does happen: two one-frame answers in a row are both on their way. */
  method TwoWritesInFlight(m: Message, n: Message) returns (inFlight: int)
    requires |m.payload| == 1 && |n.payload| == 1
    ensures inFlight == 2
  {
    var answers := new Answers({0});
    ghost var first := answers.Write(m, 0);
    OneFrame(m, CapacityFor(first));
    assert |answers.View(0).flying| == 1 && answers.View(0).waiting == [];
    ghost var second := answers.Write(n, 0);
    OneFrame(n, CapacityFor(second));
    inFlight := |Sender.Get(answers.flying, 0, [])|;
  }

  lemma OneFrame(m: Message, capacity: Capacity)
    requires |m.payload| == 1
    ensures FramesOf(Cut(m, capacity)) == [FrameAt(m, capacity, 0)]
  {
    FrameCountLeast(1, capacity, 1);
    FrameCountBounds(1, capacity);
    assert FramesFrom(m, capacity, 1) == [];
  }

  // ---------------------------------------------------------------------
  // While no write fails
  // ---------------------------------------------------------------------

  predicate NoFailure(steps: seq<Step>) {
    forall s | s in steps :: s.Acked? ==> !s.failed
  }

  /** Every frame of the line, in the order it leaves. */
  function Whole(l: Line): seq<Frame> {
    l.landed + l.flying + l.waiting
  }

  lemma StepKeepsOrder(l: Line, s: Step)
    requires s.Acked? ==> !s.failed
    ensures Whole(AfterStep(l, s)) == Whole(l) + if s.Wrote? then FramesOf(s.cut) else []
  {
  }

  lemma {:induction false} StepsKeepOrder(l: Line, steps: seq<Step>)
    requires NoFailure(steps)
    ensures Whole(AfterSteps(l, steps)) == Whole(l) + Stream(CutsOf(steps))
  {
    if steps == [] {
      assert Whole(l) + [] == Whole(l);
    } else {
      var front, last := steps[..|steps| - 1], steps[|steps| - 1];
      assert last in steps && forall s | s in front :: s in steps;
      StepsKeepOrder(l, front);
      StepKeepsOrder(AfterSteps(l, front), last);
      MoreStream(Whole(l), CutsOf(front), last);
    }
  }

  lemma MoreStream(whole: seq<Frame>, cuts: seq<Cut>, s: Step)
    ensures
      whole + Stream(if s.Wrote? then cuts + [s.cut] else cuts)
        == (whole + Stream(cuts)) + if s.Wrote? then FramesOf(s.cut) else []
    ensures cuts + [] == cuts
  {
    if s.Wrote? {
      StreamAppend(cuts, s.cut);
      Associates(whole, Stream(cuts), FramesOf(s.cut));
    } else {
      assert (whole + Stream(cuts)) + [] == whole + Stream(cuts);
    }
  }

  /** What the merchant's inbox has made of everything it took. */
  function InboxOf(l: Line, connected: bool): Inbox {
    AfterFrames(FRESH, l.landed, connected)
  }

  /** Each answer passed the payload guard and was cut for a length of at least the least one. */
  ghost predicate AllAdmitted(cuts: seq<Cut>) {
    forall i :: 0 <= i < |cuts| ==> Admitted(cuts[i].message) && cuts[i].capacity >= CapacityFor(LEAST_NEGOTIATED)
  }

  /**
   * From any quiet moment at which nothing is half read, and until a write fails: the
   * merchant has heard a prefix of the answers written since, and all of them once the
   * line is quiet again.
   */
  lemma AnswersHeard(l: Line, steps: seq<Step>, connected: bool)
    requires Quiet(l) && Idle(InboxOf(l, connected)) && NoFailure(steps) && AllAdmitted(CutsOf(steps))
    ensures
      var m := AfterSteps(l, steps);
      var expected := InboxOf(l, connected).heard + Heard(Messages(CutsOf(steps)));
      && InboxOf(m, connected).heard <= expected
      && (Quiet(m) ==> InboxOf(m, connected).heard == expected && Idle(InboxOf(m, connected)))
  {
    var m, cuts := AfterSteps(l, steps), CutsOf(steps);
    var s := InboxOf(l, connected);
    var air := LandedSince(l, steps);
    AdmittedFit(cuts);
    AfterConcat(FRESH, l.landed, air, connected);
    PrefixHeard(s, cuts, air, connected);
    if Quiet(m) {
      assert air + [] == air;
      WholeStream(s, cuts, connected);
      NothingSkipped(cuts);
    }
  }

  /** What the merchant took since, beside what is still to come, is all that was written since. */
  lemma LandedSince(l: Line, steps: seq<Step>) returns (air: seq<Frame>)
    requires Quiet(l) && NoFailure(steps)
    ensures
      var m := AfterSteps(l, steps);
      && m.landed == l.landed + air && air + (m.flying + m.waiting) == Stream(CutsOf(steps))
      && air <= Stream(CutsOf(steps))
  {
    var m := AfterSteps(l, steps);
    StepsKeepOrder(l, steps);
    LandedGrows(l, steps);
    air := m.landed[|l.landed|..];
    assert Whole(l) == l.landed;
    Remainder(l.landed, m, Stream(CutsOf(steps)), air);
  }

  lemma Remainder(head: seq<Frame>, m: Line, stream: seq<Frame>, air: seq<Frame>)
    requires m.landed == head + air && Whole(m) == head + stream
    ensures air + (m.flying + m.waiting) == stream && air <= stream
  {
    Associates(m.landed, m.flying, m.waiting);
    Associates(head, air, m.flying + m.waiting);
    SameHead(head, air + (m.flying + m.waiting), stream);
  }

  lemma SameHead<T>(head: seq<T>, a: seq<T>, b: seq<T>)
    requires head + a == head + b
    ensures a == b
  {
    assert a == (head + a)[|head|..];
    assert b == (head + b)[|head|..];
  }

  lemma AdmittedFit(cuts: seq<Cut>)
    requires AllAdmitted(cuts)
    ensures AllFit(cuts)
  {
    forall i | 0 <= i < |cuts| ensures Sendable(cuts[i].message, cuts[i].capacity) {
      LeastCapacity(cuts[i].capacity);
      assert Admitted(cuts[i].message);
    }
  }

  lemma {:induction false} LandedGrows(l: Line, steps: seq<Step>)
    ensures l.landed <= AfterSteps(l, steps).landed
  {
    if steps != [] {
      LandedGrows(l, steps[..|steps| - 1]);
    }
  }

  // ---------------------------------------------------------------------
  // Abandoned tails
  // ---------------------------------------------------------------------

  /** What was written between two failures, and how much of it left. */
  datatype Try = Try(cuts: seq<Cut>, sent: seq<Frame>)

  /** The tries a failure ended, and the one that is open. */
  datatype Book = Book(closed: seq<Try>, now: Try)

  /** The frame a step sends on its way, if it sends one. */
  function Leaves(l: Line, s: Step): seq<Frame> {
    match s
    case Wrote(c) => if l.waiting == [] && FramesOf(c) != [] then [FramesOf(c)[0]] else []
    case Acked(failed, _) => if !failed && l.waiting != [] then [l.waiting[0]] else []
  }

  function BookOf(steps: seq<Step>): Book {
    if steps == [] then Book([], Try([], []))
    else
      var front, s := steps[..|steps| - 1], steps[|steps| - 1];
      NextPage(BookOf(front), AfterSteps(UNUSED, front), s)
  }

  function NextPage(b: Book, l: Line, s: Step): Book {
    var sent := b.now.sent + Leaves(l, s);
    match s
    case Wrote(c) => b.(now := Try(b.now.cuts + [c], sent))
    case Acked(failed, _) => if failed then Book(b.closed + [b.now], Try([], [])) else b.(now := b.now.(sent := sent))
  }

  ghost predicate Cutoff(t: Try) {
    t.sent <= Stream(t.cuts)
  }

  function CutsIn(tries: seq<Try>): seq<Cut> {
    if tries == [] then [] else CutsIn(tries[..|tries| - 1]) + tries[|tries| - 1].cuts
  }

  lemma CutsInMore(tries: seq<Try>, t: Try)
    ensures CutsIn(tries + [t]) == CutsIn(tries) + t.cuts
  {
    assert (tries + [t])[..|tries|] == tries;
  }

  /**
   * Over any run at all: the answers written fall into tries, in order; each ended one sent
   * a first part of its frames and dropped the rest, and what the open one sent and what
   * waits are together all its frames.
   */
  lemma {:induction false} AbandonedTails(steps: seq<Step>)
    ensures
      var b, l := BookOf(steps), AfterSteps(UNUSED, steps);
      && b.now.sent + l.waiting == Stream(b.now.cuts)
      && (forall t | t in b.closed :: Cutoff(t))
      && CutsIn(b.closed) + b.now.cuts == CutsOf(steps)
  {
    if steps != [] {
      var front, s := steps[..|steps| - 1], steps[|steps| - 1];
      AbandonedTails(front);
      var b, l := BookOf(front), AfterSteps(UNUSED, front);
      if s.Wrote? || !s.failed {
        LeavesInOrder(l, s);
      }
      match s
      case Wrote(c) =>
        StreamAppend(b.now.cuts, c);
        Shift(b.now.sent, l.waiting, FramesOf(c), Leaves(l, s), AfterWrite(l, c).waiting);
        Associates(CutsIn(b.closed), b.now.cuts, [c]);
      case Acked(failed, taken) =>
        if failed {
          CutsInMore(b.closed, b.now);
          assert CutsIn(b.closed + [b.now]) + [] == CutsOf(steps);
        } else {
          assert l.waiting + [] == l.waiting && Stream(b.now.cuts) + [] == Stream(b.now.cuts);
          Shift(b.now.sent, l.waiting, [], Leaves(l, s), AfterAck(l, failed, taken).waiting);
        }
    }
  }

  /** What leaves is the front of what waits, the step's own frames included. */
  lemma LeavesInOrder(l: Line, s: Step)
    requires s.Acked? ==> !s.failed
    ensures Leaves(l, s) + AfterStep(l, s).waiting == l.waiting + if s.Wrote? then FramesOf(s.cut) else []
  {
  }

  lemma Shift<T>(sent: seq<T>, waiting: seq<T>, more: seq<T>, leaves: seq<T>, left: seq<T>)
    requires leaves + left == waiting + more
    ensures (sent + leaves) + left == (sent + waiting) + more
  {
    Associates(sent, leaves, left);
    Associates(sent, waiting, more);
  }

  /** The frames the tries sent, in order. */
  function SentIn(tries: seq<Try>): seq<Frame> {
    if tries == [] then [] else SentIn(tries[..|tries| - 1]) + tries[|tries| - 1].sent
  }

  /** What comes back with a step, if a write does: whether its frame was taken. */
  function Taking(l: Line, s: Step): seq<bool> {
    if s.Acked? && l.flying != [] then [!s.failed || s.taken] else []
  }

  /** The same for every write that came back, in order. */
  function Takings(steps: seq<Step>): seq<bool> {
    if steps == [] then []
    else
      var front, s := steps[..|steps| - 1], steps[|steps| - 1];
      Takings(front) + Taking(AfterSteps(UNUSED, front), s)
  }

  function Kept<T>(s: seq<T>, keep: seq<bool>): seq<T>
    requires |s| == |keep|
  {
    if s == [] then []
    else Kept(s[..|s| - 1], keep[..|s| - 1]) + if keep[|s| - 1] then [s[|s| - 1]] else []
  }

  /** What was sent is settled up to what is on its way, and what was taken of it has landed. */
  ghost predicate Accounted(sent: seq<Frame>, takings: seq<bool>, l: Line) {
    && |takings| + |l.flying| == |sent| && sent[|takings|..] == l.flying
    && l.landed == Kept(sent[..|takings|], takings)
  }

  function Lost(keep: seq<bool>): nat {
    if keep == [] then 0 else Lost(keep[..|keep| - 1]) + if keep[|keep| - 1] then 0 else 1
  }

  /** A step adds just what leaves to what was sent. */
  lemma SentOn(b: Book, l: Line, s: Step)
    ensures
      var after := NextPage(b, l, s);
      SentIn(after.closed) + after.now.sent == (SentIn(b.closed) + b.now.sent) + Leaves(l, s)
  {
    if s.Acked? && s.failed {
      assert (b.closed + [b.now])[..|b.closed|] == b.closed;
    } else {
      Associates(SentIn(b.closed), b.now.sent, Leaves(l, s));
    }
  }

  lemma OneBack<T>(sent: seq<T>, takings: seq<bool>, flying: seq<T>, leaves: seq<T>, taken: bool)
    requires |takings| <= |sent| && sent[|takings|..] == flying && flying != []
    ensures
      var more, n := sent + leaves, |takings| + 1;
      && n <= |more| && more[n..] == flying[1..] + leaves
      && Kept(more[..n], takings + [taken]) == Kept(sent[..|takings|], takings) + if taken then [flying[0]] else []
  {
    var more, n := sent + leaves, |takings| + 1;
    assert more[..n][..n - 1] == sent[..n - 1] && (takings + [taken])[..n - 1] == takings;
    assert more[n - 1] == flying[0];
  }

  lemma NoneBack<T>(sent: seq<T>, takings: seq<bool>, flying: seq<T>, leaves: seq<T>)
    requires |takings| <= |sent| && sent[|takings|..] == flying
    ensures (sent + leaves)[|takings|..] == flying + leaves
    ensures (sent + leaves)[..|takings|] == sent[..|takings|]
  {
  }

  lemma OneLost(takings: seq<bool>, taken: bool)
    ensures Lost(takings + [taken]) == Lost(takings) + if taken then 0 else 1
  {
    assert (takings + [taken])[..|takings|] == takings;
  }

  lemma StepAccounted(sent: seq<Frame>, takings: seq<bool>, l: Line, s: Step)
    requires Accounted(sent, takings, l)
    ensures Accounted(sent + Leaves(l, s), takings + Taking(l, s), AfterStep(l, s))
  {
    if Taking(l, s) != [] {
      OneBack(sent, takings, l.flying, Leaves(l, s), !s.failed || s.taken);
    } else {
      NoneBack(sent, takings, l.flying, Leaves(l, s));
      assert takings + [] == takings;
    }
  }

  /**
   * Over any run at all, what the merchant took is what the tries sent, in order, less what is
   * still on its way and less the frames that came back untaken - one for each ended try at most.
   */
  lemma {:induction false} TakenFromTries(steps: seq<Step>)
    ensures
      var b, l, takings := BookOf(steps), AfterSteps(UNUSED, steps), Takings(steps);
      Accounted(SentIn(b.closed) + b.now.sent, takings, l) && Lost(takings) <= |b.closed|
  {
    if steps != [] {
      var front, s := steps[..|steps| - 1], steps[|steps| - 1];
      TakenFromTries(front);
      var b, l, takings := BookOf(front), AfterSteps(UNUSED, front), Takings(front);
      SentOn(b, l, s);
      StepAccounted(SentIn(b.closed) + b.now.sent, takings, l, s);
      if Taking(l, s) != [] {
        OneLost(takings, Taking(l, s)[0]);
      } else {
        assert takings + [] == takings;
      }
    }
  }

  // ---------------------------------------------------------------------
  // The answer after a failed write
  // ---------------------------------------------------------------------

  function Acks(n: nat): (steps: seq<Step>)
    ensures |steps| == n
  {
    seq(n, _ => Acked(false, false))
  }

  /** One answer on a quiet line, j of its writes back. */
  lemma {:induction false} PartWay(l: Line, c: Cut, j: nat)
    requires Quiet(l) && Sendable(c.message, c.capacity) && j <= |FramesOf(c)|
    ensures
      var frames := FramesOf(c);
      AfterSteps(AfterWrite(l, c), Acks(j)) == Along(frames, l.landed, j)
  {
    var frames := FramesOf(c);
    NoFrames(c);
    if j == 0 {
      assert [] + frames == frames && l.landed + frames[..0] == l.landed;
    } else {
      PartWay(l, c, j - 1);
      assert Acks(j) == Acks(j - 1) + [Acked(false, false)];
      OneStepMore(AfterWrite(l, c), Acks(j - 1), Acked(false, false));
      GoesOn(frames, l.landed, j - 1);
    }
  }

  /** j of the frames taken, the next on its way, the others waiting. */
  function Along(frames: seq<Frame>, landed: seq<Frame>, j: nat): Line
    requires j <= |frames|
  {
    Line(frames[Min(j + 1, |frames|)..], if j < |frames| then [frames[j]] else [], landed + frames[..j])
  }

  lemma GoesOn(frames: seq<Frame>, landed: seq<Frame>, j: nat)
    requires j < |frames|
    ensures AfterAck(Along(frames, landed, j), false, false) == Along(frames, landed, j + 1)
  {
    assert frames[..j + 1] == frames[..j] + [frames[j]];
    Associates(landed, frames[..j], [frames[j]]);
  }

  /** An answer written and acknowledged to the end. */
  function InFull(c: Cut): seq<Step> {
    [Wrote(c)] + Acks(|FramesOf(c)|)
  }

  lemma FullyLanded(l: Line, c: Cut)
    requires Quiet(l) && Sendable(c.message, c.capacity)
    ensures AfterSteps(l, InFull(c)) == l.(landed := l.landed + FramesOf(c))
  {
    StepsAppend(l, [Wrote(c)], Acks(|FramesOf(c)|));
    OneStepMore(l, [], Wrote(c));
    assert [] + [Wrote(c)] == [Wrote(c)];
    PartWay(l, c, |FramesOf(c)|);
    assert FramesOf(c)[..|FramesOf(c)|] == FramesOf(c);
  }

  /** The merchant hears this message whole, next, and has nothing left half read. */
  predicate HeardNext(before: Inbox, after: Inbox, m: Message) {
    Idle(after) && after.heard == before.heard + [Received(m)]
  }

  /** What was left of earlier answers does not stand in the way of n frames of this kind. */
  predicate NotInTheWay(s: Inbox, kind: byte, n: nat) {
    s.kind != Some(kind) || Clean(s.parts, n)
  }

  lemma {:induction false} PartsAreCounted(s: Inbox, frames: seq<Frame>, connected: bool)
    requires forall k | k in s.parts :: 0 <= k
    ensures forall k | k in AfterFrames(s, frames, connected).parts :: 0 <= k
  {
    if frames != [] {
      PartsAreCounted(s, frames[..|frames| - 1], connected);
    }
  }

  /**
   * After any run that has come to rest, failures and all: the next answer, written and
   * acknowledged to the end, is heard whole with nothing left half read exactly when the
   * leftovers are not in its way.
   */
  lemma NextAnswerHeard(steps: seq<Step>, c: Cut, connected: bool)
    requires Quiet(AfterSteps(UNUSED, steps))
    requires Sendable(c.message, c.capacity) && |c.message.payload| <= MAX_PAYLOAD_BYTES
    ensures
      var l, m := AfterSteps(UNUSED, steps), AfterSteps(UNUSED, steps + InFull(c));
      HeardNext(InboxOf(l, connected), InboxOf(m, connected), c.message)
      <==> NotInTheWay(InboxOf(l, connected), c.message.kind, |FramesOf(c)|)
  {
    var l := AfterSteps(UNUSED, steps);
    StepsAppend(UNUSED, steps, InFull(c));
    NextOnLine(l, c, connected);
  }

  lemma NextOnLine(l: Line, c: Cut, connected: bool)
    requires Quiet(l) && Sendable(c.message, c.capacity) && |c.message.payload| <= MAX_PAYLOAD_BYTES
    ensures
      HeardNext(InboxOf(l, connected), InboxOf(AfterSteps(l, InFull(c)), connected), c.message)
      <==> NotInTheWay(InboxOf(l, connected), c.message.kind, |FramesOf(c)|)
  {
    FullyLanded(l, c);
    SameFrames(c);
    AfterConcat(FRESH, l.landed, FramesOf(c), connected);
    PartsAreCounted(FRESH, l.landed, connected);
    Restart(InboxOf(l, connected), PiecesOf(c), connected);
    SamePieces(c);
  }

  lemma SamePieces(c: Cut)
    requires Sendable(c.message, c.capacity)
    ensures |PiecesOf(c).chunks| == |FramesOf(c)| && PiecesOf(c).kind == c.message.kind
  {
    FramesFromAt(c, 0);
  }

  /** An answer of which j writes come back well and the next comes back with an error. */
  function CutShort(c: Cut, j: nat, taken: bool): seq<Step> {
    [Wrote(c)] + Acks(j) + [Acked(true, taken)]
  }

  lemma ShortLanded(l: Line, c: Cut, j: nat, taken: bool)
    requires Quiet(l) && Sendable(c.message, c.capacity) && j < |FramesOf(c)|
    ensures
      var k := if taken then j + 1 else j;
      AfterSteps(l, CutShort(c, j, taken)) == l.(landed := l.landed + FramesOf(c)[..k])
  {
    OneStepMore(l, [Wrote(c)] + Acks(j), Acked(true, taken));
    StepsAppend(l, [Wrote(c)], Acks(j));
    OneStepMore(l, [], Wrote(c));
    assert [] + [Wrote(c)] == [Wrote(c)];
    PartWay(l, c, j);
    FailsHere(FramesOf(c), l.landed, j, taken);
  }

  lemma FailsHere(frames: seq<Frame>, landed: seq<Frame>, j: nat, taken: bool)
    requires j < |frames|
    ensures
      var k := if taken then j + 1 else j;
      AfterAck(Along(frames, landed, j), true, taken) == Line([], [], landed + frames[..k])
  {
    assert frames[..j + 1] == frames[..j] + [frames[j]];
    Associates(landed, frames[..j], [frames[j]]);
    assert (landed + frames[..j]) + [] == landed + frames[..j];
  }

  /** What k frames of an answer leave in an idle inbox. */
  lemma LeftBehind(s: Inbox, c: Cut, k: nat, connected: bool)
    requires Idle(s) && k <= |FramesOf(c)|
    requires Sendable(c.message, c.capacity) && |c.message.payload| <= MAX_PAYLOAD_BYTES
    ensures
      var after := AfterFrames(s, FramesOf(c)[..k], connected);
      if k == 0 || k == |FramesOf(c)| then Idle(after)
      else after.kind == Some(c.message.kind) && after.parts.Keys == Below(k)
  {
    var p := PiecesOf(c);
    SameFrames(c);
    SamePieces(c);
    if k == |FramesOf(c)| {
      assert FramesOf(c)[..k] == FramesOf(c);
      WholeOne(s, p, connected);
    } else {
      FirstFrames(p, k);
      assert k in Below(|p.chunks|) && k !in Below(k);
      Incomplete(s, p, UpTo(k), connected);
      if k > 0 {
        assert 0 in Below(k);
      }
    }
  }

  /**
   * One answer is cut short by an error after the merchant took k of its frames; the next,
   * of n frames, is heard whole with nothing left half read exactly when nothing or everything
   * of the first was taken, the kinds differ, or k comes to no more than n - 1 (or to one).
   */
  lemma AfterFailure(l: Line, c: Cut, j: nat, taken: bool, d: Cut, connected: bool)
    requires Quiet(l) && Idle(InboxOf(l, connected)) && j < |FramesOf(c)|
    requires Sendable(c.message, c.capacity) && |c.message.payload| <= MAX_PAYLOAD_BYTES
    requires Sendable(d.message, d.capacity) && |d.message.payload| <= MAX_PAYLOAD_BYTES
    ensures
      var k, n := if taken then j + 1 else j, |FramesOf(d)|;
      var m := AfterSteps(l, CutShort(c, j, taken));
      HeardNext(InboxOf(m, connected), InboxOf(AfterSteps(m, InFull(d)), connected), d.message)
      <==> (k == 0 || k == |FramesOf(c)| || c.message.kind != d.message.kind || k <= Max(n - 1, 1))
  {
    var k := if taken then j + 1 else j;
    var m := AfterSteps(l, CutShort(c, j, taken));
    ShortLanded(l, c, j, taken);
    AfterConcat(FRESH, l.landed, FramesOf(c)[..k], connected);
    LeftBehind(InboxOf(l, connected), c, k, connected);
    NextOnLine(m, d, connected);
    var s, n := InboxOf(m, connected), |FramesOf(d)|;
    if 0 < k < |FramesOf(c)| {
      if k <= Max(n - 1, 1) {
        assert Clean(s.parts, n);
      } else {
        assert k - 1 in s.parts;
      }
    }
  }

  /**
   * The failing side: three one-byte frames of which two were taken, then two one-byte frames
   * of the same kind. After the first of these the merchant hears a message nobody sent.
   */
  lemma Splice(kind: byte, a: Bytes, b: Bytes, connected: bool)
    requires |a| == 3 && |b| == 2
    ensures
      var c, d := Cut(Message(kind, a), 1), Cut(Message(kind, b), 1);
      var steps := CutShort(c, 2, false) + [Wrote(d)] + Acks(1);
      InboxOf(AfterSteps(UNUSED, steps), connected).heard == [Received(Message(kind, [b[0], a[1]]))]
  {
    var c, d := Cut(Message(kind, a), 1), Cut(Message(kind, b), 1);
    var l := AfterSteps(UNUSED, CutShort(c, 2, false));
    OneByteFrames(c);
    OneByteFrames(d);
    ShortLanded(UNUSED, c, 2, false);
    StepsAppend(UNUSED, CutShort(c, 2, false) + [Wrote(d)], Acks(1));
    OneStepMore(UNUSED, CutShort(c, 2, false), Wrote(d));
    PartWay(l, d, 1);
    var frames := [[kind, 0, 3, a[0]], [kind, 1, 3, a[1]], [kind, 0, 2, b[0]]];
    assert l.landed + FramesOf(d)[..1] == frames;
    ThreeFrames(kind, a[0], a[1], b[0], connected);
  }

  /** With one byte a frame, frame i carries byte i. */
  lemma OneByteFrames(c: Cut)
    requires c.capacity == 1 && 0 < |c.message.payload| <= MAX_FRAMES
    ensures Sendable(c.message, 1) && |FramesOf(c)| == |c.message.payload|
    ensures forall i | 0 <= i < |FramesOf(c)| ::
              FramesOf(c)[i] == [c.message.kind, i, |c.message.payload|, c.message.payload[i]]
  {
    FramesFromAt(c, 0);
    forall i | 0 <= i < |FramesOf(c)|
      ensures FramesOf(c)[i] == [c.message.kind, i, |c.message.payload|, c.message.payload[i]]
    {
      assert Chunk(c.message.payload, 1, i) == [c.message.payload[i]];
    }
  }

  lemma ThreeFrames(kind: byte, x: byte, y: byte, z: byte, connected: bool)
    ensures
      AfterFrames(FRESH, [[kind, 0, 3, x], [kind, 1, 3, y], [kind, 0, 2, z]], connected).heard
        == [Received(Message(kind, [z, y]))]
  {
    TwoTaken(kind, x, y, connected);
    AfterOneMore(FRESH, [[kind, 0, 3, x], [kind, 1, 3, y]], [kind, 0, 2, z], connected);
    Spliced(kind, x, y, z, connected);
    assert [[kind, 0, 3, x], [kind, 1, 3, y]] + [[kind, 0, 2, z]]
        == [[kind, 0, 3, x], [kind, 1, 3, y], [kind, 0, 2, z]];
  }

  function TwoHeld(kind: byte, x: byte, y: byte): Inbox {
    Inbox(Some(kind), map[0 := [x], 1 := [y]], [])
  }

  lemma TwoTaken(kind: byte, x: byte, y: byte, connected: bool)
    ensures
      AfterFrames(FRESH, [[kind, 0, 3, x], [kind, 1, 3, y]], connected) == TwoHeld(kind, x, y)
  {
    assert AfterFrame(FRESH, [kind, 0, 3, x], connected) == Inbox(Some(kind), map[0 := [x]], []);
    AfterOneMore(FRESH, [], [kind, 0, 3, x], connected);
    AfterOneMore(FRESH, [[kind, 0, 3, x]], [kind, 1, 3, y], connected);
    assert [[kind, 0, 3, x]] + [[kind, 1, 3, y]] == [[kind, 0, 3, x], [kind, 1, 3, y]];
  }

  lemma Spliced(kind: byte, x: byte, y: byte, z: byte, connected: bool)
    ensures
      AfterFrame(TwoHeld(kind, x, y), [kind, 0, 2, z], connected).heard
        == [Received(Message(kind, [z, y]))]
  {
    var s, p := TwoHeld(kind, x, y), Pieces(kind, [[z], [z]]);
    var parts := WithPiece(s, p, 0);
    assert parts.Keys == {0, 1} && |parts| == |parts.Keys|;
    TwoParts(parts, z, y);
    assert PieceFrame(p, 0) == [kind, 0, 2, z];
    PieceTaken(s, p, 0, connected);
    assert [] + [EventOf(kind, [z, y])] == [Received(Message(kind, [z, y]))];
  }

  lemma TwoParts(parts: Parts, z: byte, y: byte)
    requires 0 in parts && 1 in parts && parts[0] == [z] && parts[1] == [y]
    ensures Assemble(parts, 2) == Some([z, y])
  {
    assert [] + [z] == [z] && [z] + [y] == [z, y];
    assert Assemble(parts, 0) == Some([]);
    assert Assemble(parts, 1) == Some([z]);
  }

  // ---------------------------------------------------------------------
  // Any schedule, any number of merchants
  // ---------------------------------------------------------------------

  datatype Happening = Say(id: PeerId, kind: byte, payload: Bytes) | Back(id: PeerId, failed: bool)

  /** A step without what the radio chose. */
  datatype Sight = Said(message: Message) | CameBack(failed: bool)

  function SightOf(s: Step): Sight {
    match s
    case Wrote(c) => Said(c.message)
    case Acked(failed, _) => CameBack(failed)
  }

  function Sights(steps: seq<Step>): (r: seq<Sight>)
    ensures |r| == |steps| && forall i | 0 <= i < |r| :: r[i] == SightOf(steps[i])
  {
    seq(|steps|, i requires 0 <= i < |steps| => SightOf(steps[i]))
  }

  /** What one merchant's line sees of a happening: a message that passes the guards, or a callback. */
  function SeenOf(e: Happening, merchants: set<PeerId>, id: PeerId): seq<Sight> {
    if e.id != id then []
    else if e.Back? then [CameBack(e.failed)]
    else if Sender.Refusal(e.payload, id in merchants).None? then [Said(Message(e.kind, e.payload))]
    else []
  }

  function Seen(events: seq<Happening>, merchants: set<PeerId>, id: PeerId): seq<Sight> {
    if events == [] then []
    else Seen(events[..|events| - 1], merchants, id) + SeenOf(events[|events| - 1], merchants, id)
  }

  /** The line is where a run takes it that shows just this and cuts its answers to these lengths. */
  ghost predicate Follows(l: Line, lengths: seq<int>, run: seq<Step>, seen: seq<Sight>) {
    && l == AfterSteps(UNUSED, run) && Sights(run) == seen
    && |CutsOf(run)| == |lengths|
    && forall i :: 0 <= i < |lengths| ==> CutsOf(run)[i].capacity == CapacityFor(lengths[i])
  }

  lemma FollowsOn(l: Line, lengths: seq<int>, run: seq<Step>, seen: seq<Sight>, s: Step, more: seq<int>)
    requires Follows(l, lengths, run, seen)
    requires if s.Wrote? then |more| == 1 && s.cut.capacity == CapacityFor(more[0]) else more == []
    ensures Follows(AfterStep(l, s), lengths + more, run + [s], seen + [SightOf(s)])
  {
    OneStepMore(UNUSED, run, s);
  }

  lemma SeenMore(events: seq<Happening>, e: Happening, merchants: set<PeerId>, id: PeerId)
    ensures Seen(events + [e], merchants, id) == Seen(events, merchants, id) + SeenOf(e, merchants, id)
  {
    assert (events + [e])[..|events|] == events;
  }

  /** One happening, the step it is for the line it concerns, if it is one, and the lengths read for it. */
  method Happen(answers: Answers, e: Happening) returns (ghost step: Option<Step>, ghost more: seq<int>)
    requires answers.connected == answers.replyTo
    modifies answers`writing, answers`flying, answers`landed, answers`lengths
    ensures
      var before := old(answers.View(e.id));
      answers.View(e.id) == if step.None? then before else AfterStep(before, step.value)
    ensures answers.Lengths(e.id) == old(answers.Lengths(e.id)) + more
    ensures
      if step.Some? && step.value.Wrote? then |more| == 1 && step.value.cut.capacity == CapacityFor(more[0])
      else more == []
    ensures SeenOf(e, answers.connected, e.id) == if step.None? then [] else [SightOf(step.value)]
    ensures forall other :: other != e.id ==>
              answers.View(other) == old(answers.View(other)) && answers.Lengths(other) == old(answers.Lengths(other))
  {
    step, more := None, [];
    match e {
      case Say(id, kind, payload) =>
        ghost var before := answers.Lengths(id);
        var refusal, negotiated := answers.SendMessage(id, kind, payload);
        if refusal.None? {
          step, more := Some(Wrote(Cut(Message(kind, payload), CapacityFor(negotiated)))), [negotiated];
        } else {
          assert before + [] == before;
        }
      case Back(id, failed) =>
        ghost var before := answers.Lengths(id);
        ghost var taken := answers.DidWrite(id, failed);
        step := Some(Acked(failed, taken));
        assert before + [] == before;
    }
  }

  /** One happening keeps every line where some run takes it. */
  method Turn(answers: Answers, events: seq<Happening>, e: Happening, ghost runs: map<PeerId, seq<Step>>)
    returns (ghost after: map<PeerId, seq<Step>>)
    requires answers.connected == answers.replyTo
    requires forall id ::
      Follows(answers.View(id), answers.Lengths(id), Sender.Get(runs, id, []), Seen(events, answers.connected, id))
    modifies answers`writing, answers`flying, answers`landed, answers`lengths
    ensures forall id ::
      Follows(answers.View(id), answers.Lengths(id), Sender.Get(after, id, []),
              Seen(events + [e], answers.connected, id))
  {
    ghost var merchants, before, run := answers.connected, answers.View(e.id), Sender.Get(runs, e.id, []);
    ghost var lengths, seen := answers.Lengths(e.id), Seen(events, merchants, e.id);
    assert Follows(before, lengths, run, seen);
    ghost var step, more := Happen(answers, e);
    after := runs;
    if step.Some? {
      FollowsOn(before, lengths, run, seen, step.value, more);
      after := runs[e.id := run + [step.value]];
    } else {
      assert lengths + [] == lengths;
    }
    forall id
      ensures Follows(answers.View(id), answers.Lengths(id), Sender.Get(after, id, []),
                      Seen(events + [e], merchants, id))
    {
      SeenMore(events, e, merchants, id);
      if id != e.id || step.None? {
        assert Follows(answers.View(id), answers.Lengths(id), Sender.Get(runs, id, []), Seen(events, merchants, id));
        assert Seen(events, merchants, id) + [] == Seen(events, merchants, id);
      }
    }
  }

  /** The messages among what a line saw. */
  function SaidIn(seen: seq<Sight>): seq<Message> {
    if seen == [] then []
    else
      var s := seen[|seen| - 1];
      SaidIn(seen[..|seen| - 1]) + if s.Said? then [s.message] else []
  }

  lemma SaidMore(seen: seq<Sight>, s: Sight)
    ensures SaidIn(seen + [s]) == SaidIn(seen) + if s.Said? then [s.message] else []
  {
    assert (seen + [s])[..|seen|] == seen;
  }

  lemma {:induction false} SaidAreCut(run: seq<Step>)
    ensures Messages(CutsOf(run)) == SaidIn(Sights(run))
  {
    if run != [] {
      var front, s := run[..|run| - 1], run[|run| - 1];
      SaidAreCut(front);
      assert Sights(run) == Sights(front) + [SightOf(s)];
      SaidMore(Sights(front), SightOf(s));
    }
  }

  lemma {:induction false} SaidAreAdmitted(events: seq<Happening>, merchants: set<PeerId>, id: PeerId)
    ensures forall m | m in SaidIn(Seen(events, merchants, id)) :: Admitted(m)
  {
    if events != [] {
      var front, e := events[..|events| - 1], events[|events| - 1];
      SaidAreAdmitted(front, merchants, id);
      var seen, more := Seen(front, merchants, id), SeenOf(e, merchants, id);
      if more == [] {
        assert seen + more == seen;
      } else {
        SaidMore(seen, more[0]);
        assert more == [more[0]];
      }
    }
  }

  /** Every length negotiated with this merchant was at least the least one. */
  ghost predicate FairLengths(lengths: seq<int>) {
    forall i :: 0 <= i < |lengths| ==> lengths[i] >= LEAST_NEGOTIATED
  }

  /** What the merchant has heard is a prefix of these messages, and all of them once the line is quiet. */
  ghost predicate HeardInOrder(l: Line, ms: seq<Message>, connected: bool) {
    var s := InboxOf(l, connected);
    s.heard <= Heard(ms) && (Quiet(l) ==> s.heard == Heard(ms) && Idle(s))
  }

  lemma ScheduleHeard(l: Line, lengths: seq<int>, run: seq<Step>, seen: seq<Sight>, connected: bool)
    requires Follows(l, lengths, run, seen) && FairLengths(lengths)
    requires CameBack(true) !in seen && forall m | m in SaidIn(seen) :: Admitted(m)
    ensures HeardInOrder(l, SaidIn(seen), connected)
  {
    SaidAreCut(run);
    forall s | s in run ensures s.Acked? ==> !s.failed {
      var i :| 0 <= i < |run| && run[i] == s;
      assert seen[i] == SightOf(s);
    }
    forall i | 0 <= i < |CutsOf(run)| ensures Admitted(CutsOf(run)[i].message) {
      assert Messages(CutsOf(run))[i] == CutsOf(run)[i].message;
    }
    AnswersHeard(UNUSED, run, connected);
    assert [] + Heard(SaidIn(seen)) == Heard(SaidIn(seen));
  }

  /**
   * Any schedule of answers and callbacks with any number of merchants: every line is where
   * some run with the same messages and callbacks takes it. A merchant none of whose writes
   * failed has heard a prefix of the answers accepted for it, and all of them once its line is quiet.
   */
  method AnyAnswers(merchants: set<PeerId>, events: seq<Happening>)
    returns (answers: Answers, ghost runs: map<PeerId, seq<Step>>)
    ensures forall id ::
              Follows(answers.View(id), answers.Lengths(id), Sender.Get(runs, id, []), Seen(events, merchants, id))
    ensures forall id, connected ::
              CameBack(true) !in Seen(events, merchants, id) && FairLengths(answers.Lengths(id)) ==>
                HeardInOrder(answers.View(id), SaidIn(Seen(events, merchants, id)), connected)
  {
    answers := new Answers(merchants);
    runs := map[];
    for i := 0 to |events|
      invariant fresh(answers) && answers.connected == answers.replyTo == merchants
      invariant forall id ::
        Follows(answers.View(id), answers.Lengths(id), Sender.Get(runs, id, []), Seen(events[..i], merchants, id))
    {
      runs := Turn(answers, events[..i], events[i], runs);
      assert events[..i + 1] == events[..i] + [events[i]];
    }
    assert events[..|events|] == events;
    forall id, connected | CameBack(true) !in Seen(events, merchants, id) && FairLengths(answers.Lengths(id))
      ensures HeardInOrder(answers.View(id), SaidIn(Seen(events, merchants, id)), connected)
    {
      SaidAreAdmitted(events, merchants, id);
      ScheduleHeard(answers.View(id), answers.Lengths(id), Sender.Get(runs, id, []),
                    Seen(events, merchants, id), connected);
    }
  }
}
