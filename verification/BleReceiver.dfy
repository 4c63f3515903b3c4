/** The receiving half of the Bluetooth transport: one reassembler for both roles. */
module BleReceiver {
  import opened Base
  import opened BleFraming

  type Parts = map<int, Bytes>

  /** What is reported about a peer. */
  datatype Event = Received(message: Message) | Unreadable

  /** What is held for one peer; `heard` is everything emitted so far. */
  datatype Inbox = Inbox(kind: Option<byte>, parts: Parts, heard: seq<Event>)

  /** Between messages: no kind is pending and nothing is half read. */
  predicate Idle(s: Inbox) {
    s.kind.None? && s.parts == map[]
  }

  /** The parts at positions 0..n glued together, or nothing if one is missing. */
  function Assemble(parts: Parts, n: nat): Option<Bytes> {
    if n == 0 then Some([])
    else if n - 1 !in parts then None
    else
      match Assemble(parts, n - 1)
      case None => None
      case Some(front) => Some(front + parts[n - 1])
  }

  predicate WellFormed(frame: Frame) {
    |frame| > FRAME_HEADER && 0 < frame[2] <= MAX_FRAMES && frame[1] < frame[2]
  }

  /** What taking one frame does to a peer's inbox; `connected` is whether this phone opened the link. */
  function AfterFrame(s: Inbox, frame: Frame, connected: bool): Inbox {
    if |frame| <= FRAME_HEADER then s
    else if !WellFormed(frame) then if connected then Inbox(None, map[], s.heard) else s
    else
      var kind, index, total := frame[0], frame[1], frame[2];
      var kept := if s.kind == Some(kind) then s.parts else map[];
      var parts := kept[index := frame[FRAME_HEADER..]];
      if |parts| != total then Inbox(Some(kind), parts, s.heard)
      else
        match Assemble(parts, total)
        case None => Inbox(Some(kind), parts, s.heard)
        case Some(payload) =>
          Inbox(None, map[], s.heard + [EventOf(kind, payload)])
  }

  /** A message over the limit is reported as unreadable. */
  function EventOf(kind: byte, payload: Bytes): Event {
    if |payload| <= MAX_PAYLOAD_BYTES then Received(Message(kind, payload)) else Unreadable
  }

  function AfterFrames(s: Inbox, frames: seq<Frame>, connected: bool): Inbox {
    if frames == [] then s
    else AfterFrame(AfterFrames(s, frames[..|frames| - 1], connected), frames[|frames| - 1], connected)
  }

  /** The reassembler, with one entry a peer in every dictionary. */
  class Reassembler {
    var connected: set<PeerId>
    var incomingKind: map<PeerId, byte>
    var assembling: map<PeerId, Parts>
    var heard: map<PeerId, seq<Event>>

    constructor ()
      ensures forall id :: View(id) == Inbox(None, map[], []) && id !in connected
    {
      connected, incomingKind, assembling, heard := {}, map[], map[], map[];
    }

    function PartsOf(id: PeerId): Parts
      reads this
    {
      if id in assembling then assembling[id] else map[]
    }

    function View(id: PeerId): Inbox
      reads this
    {
      Inbox(if id in incomingKind then Some(incomingKind[id]) else None,
            PartsOf(id),
            if id in heard then heard[id] else [])
    }

    /** `finish`, then `forget`: the next encounter with this phone is a new one. */
    method Finish(id: PeerId)
      modifies this
      ensures connected == old(connected) - {id} && heard == old(heard)
      ensures View(id) == Inbox(None, map[], old(View(id).heard))
      ensures forall other :: other != id ==> View(other) == old(View(other))
    {
      connected := connected - {id};
      assembling := assembling - {id};
      incomingKind := incomingKind - {id};
    }

    method Emit(id: PeerId, event: Event)
      modifies this`heard
      ensures View(id) == old(View(id)).(heard := old(View(id)).heard + [event])
      ensures forall other :: other != id ==> View(other) == old(View(other))
    {
      heard := heard[id := (if id in heard then heard[id] else []) + [event]];
    }

    /** Joins the parts in order, giving up if one is missing. */
    static method Join(frames: Parts, total: nat) returns (payload: Option<Bytes>)
      ensures payload == Assemble(frames, total)
    {
      var joined: Bytes := [];
      for position := 0 to total
        invariant Assemble(frames, position) == Some(joined)
      {
        if position !in frames {
          AssembleStops(frames, position, total);
          return None;
        }
        joined := joined + frames[position];
      }
      return Some(joined);
    }

    /** Files a frame, and reports a message whenever its parts turn out to be all there. */
    method Receive(frame: Frame, id: PeerId)
      modifies this
      ensures View(id) == AfterFrame(old(View(id)), frame, id in old(connected))
      ensures forall other :: other != id ==> View(other) == old(View(other))
      ensures connected == if |frame| > 3 && !(frame[1] < frame[2] < 256) then old(connected) - {id} else old(connected)
    {
      if |frame| <= FRAME_HEADER {
        return;
      }
      var kind, index, total := frame[0], frame[1], frame[2];
      if !(total > 0 && total <= MAX_FRAMES && index < total) {
        if id in connected {
          Finish(id);
        }
        return;
      }
      var frames := File(id, kind, index, frame[FRAME_HEADER..]);
      if |frames| != total {
        return;
      }
      var payload := Join(frames, total);
      if payload.None? {
        return;
      }
      Clear(id);
      Emit(id, EventOf(kind, payload.value));
    }

    /** Keeps one part, dropping a half-read message of another kind. */
    method File(id: PeerId, kind: byte, index: byte, part: Bytes) returns (frames: Parts)
      modifies this`incomingKind, this`assembling
      ensures
        var before := old(View(id));
        && frames == (if before.kind == Some(kind) then before.parts else map[])[index as int := part]
        && View(id) == Inbox(Some(kind), frames, before.heard)
      ensures forall other :: other != id ==> View(other) == old(View(other))
    {
      if id !in incomingKind || incomingKind[id] != kind {
        incomingKind := incomingKind[id := kind];
        assembling := assembling[id := map[]];
      }
      frames := PartsOf(id)[index as int := part];
      assembling := assembling[id := frames];
    }

    method Clear(id: PeerId)
      modifies this`incomingKind, this`assembling
      ensures View(id) == Inbox(None, map[], old(View(id)).heard)
      ensures forall other :: other != id ==> View(other) == old(View(other))
    {
      assembling := assembling[id := map[]];
      incomingKind := incomingKind - {id};
    }
  }

  lemma {:induction false} AssembleStops(parts: Parts, i: nat, n: nat)
    requires i < n && i !in parts
    ensures Assemble(parts, n) == None
    decreases n
  {
    if n - 1 != i && n - 1 in parts {
      AssembleStops(parts, i, n - 1);
    }
  }

  // ---------------------------------------------------------------------
  // Reassembly does not depend on the order frames arrive in
  // ---------------------------------------------------------------------

  /** A message already cut: a kind and its non-empty pieces, at most 255 of them. */
  datatype Pieces = Pieces(kind: byte, chunks: seq<Bytes>)

  ghost predicate Regular(p: Pieces) {
    0 < |p.chunks| <= MAX_FRAMES && forall i | 0 <= i < |p.chunks| :: p.chunks[i] != []
  }

  function Joined(chunks: seq<Bytes>): Bytes {
    if chunks == [] then [] else Joined(chunks[..|chunks| - 1]) + chunks[|chunks| - 1]
  }

  function Outcome(p: Pieces): Event {
    EventOf(p.kind, Joined(p.chunks))
  }

  function PieceFrame(p: Pieces, i: nat): (frame: Frame)
    requires Regular(p) && i < |p.chunks|
    ensures WellFormed(frame) && frame[FRAME_HEADER..] == p.chunks[i]
  {
    [p.kind, i, |p.chunks|] + p.chunks[i]
  }

  /** The positions named so far. */
  function Positions(order: seq<nat>): (s: set<int>)
    ensures forall i :: i in s <==> i in order
  {
    set i: int | i in order
  }

  ghost predicate OrderOf(p: Pieces, order: seq<nat>) {
    Regular(p) && forall k | 0 <= k < |order| :: order[k] < |p.chunks|
  }

  /** The frames of p in the given arrival order, repeats included. */
  ghost function Arrivals(p: Pieces, order: seq<nat>): seq<Frame>
    requires OrderOf(p, order)
  {
    seq(|order|, k requires 0 <= k < |order| => PieceFrame(p, order[k]))
  }

  ghost predicate Holds(parts: Parts, p: Pieces, positions: set<int>) {
    && parts.Keys == positions
    && forall i | i in parts :: 0 <= i < |p.chunks| && parts[i] == p.chunks[i]
  }

  lemma {:induction false} AssembleJoins(parts: Parts, p: Pieces, n: nat)
    requires n <= |p.chunks|
    requires forall i | 0 <= i < n :: i in parts && parts[i] == p.chunks[i]
    ensures Assemble(parts, n) == Some(Joined(p.chunks[..n]))
  {
    if n > 0 {
      AssembleJoins(parts, p, n - 1);
      assert p.chunks[..n][..n - 1] == p.chunks[..n - 1];
    }
  }

  /** A state that is idle, or part-way through p itself. */
  ghost predicate Midway(s: Inbox, p: Pieces, positions: set<int>) {
    if positions == {} then Idle(s) else s.kind == Some(p.kind) && Holds(s.parts, p, positions)
  }

  /** All the pieces: the count is right and they join to the whole. */
  lemma AllHeld(parts: Parts, p: Pieces)
    requires Holds(parts, p, Below(|p.chunks|))
    ensures |parts| == |p.chunks| && Assemble(parts, |p.chunks|) == Some(Joined(p.chunks))
  {
    assert |parts| == |parts.Keys|;
    BelowSize(|p.chunks|);
    AssembleJoins(parts, p, |p.chunks|);
    assert p.chunks[..|p.chunks|] == p.chunks;
  }

  /** What an inbox makes of one frame of p. */
  lemma PieceTaken(s: Inbox, p: Pieces, i: nat, connected: bool)
    requires Regular(p) && i < |p.chunks|
    ensures
      var parts := WithPiece(s, p, i);
      AfterFrame(s, PieceFrame(p, i), connected)
        == if |parts| == |p.chunks| && Assemble(parts, |p.chunks|).Some?
           then Inbox(None, map[], s.heard + [EventOf(p.kind, Assemble(parts, |p.chunks|).value)])
           else Inbox(Some(p.kind), parts, s.heard)
  {
  }

  /** The parts held once one more piece is filed. */
  ghost function WithPiece(s: Inbox, p: Pieces, i: nat): Parts
    requires i < |p.chunks|
  {
    (if s.kind == Some(p.kind) then s.parts else map[])[i as int := p.chunks[i]]
  }

  lemma WithPieceHolds(s: Inbox, p: Pieces, positions: set<int>, i: nat)
    requires Regular(p) && i < |p.chunks| && Midway(s, p, positions)
    ensures Holds(WithPiece(s, p, i), p, positions + {i})
    ensures |WithPiece(s, p, i)| == |positions + {i}|
  {
    assert |WithPiece(s, p, i)| == |WithPiece(s, p, i).Keys|;
  }

  /** One more frame of p: it completes the message exactly when its position was the last one missing. */
  lemma OneArrival(s: Inbox, p: Pieces, positions: set<int>, i: nat, connected: bool)
    requires Regular(p) && i < |p.chunks| && positions <= Below(|p.chunks|)
    requires Midway(s, p, positions)
    ensures
      var next := AfterFrame(s, PieceFrame(p, i), connected);
      if positions + {i} == Below(|p.chunks|)
      then Idle(next) && next.heard == s.heard + [Outcome(p)]
      else Midway(next, p, positions + {i}) && next.heard == s.heard
  {
    PieceTaken(s, p, i, connected);
    WithPieceHolds(s, p, positions, i);
    FullSet(positions + {i}, |p.chunks|);
    if positions + {i} == Below(|p.chunks|) {
      AllHeld(WithPiece(s, p, i), p);
    }
  }

  lemma {:induction false} OneMore(p: Pieces, order: seq<nat>, last: nat)
    requires OrderOf(p, order + [last])
    ensures OrderOf(p, order) && last < |p.chunks|
    ensures Positions(order) <= Below(|p.chunks|)
    ensures Positions(order + [last]) == Positions(order) + {last}
    ensures Arrivals(p, order + [last]) == Arrivals(p, order) + [PieceFrame(p, last)]
  {
    assert (order + [last])[|order|] == last;
    assert forall k | 0 <= k < |order| :: (order + [last])[k] == order[k];
  }

  lemma AfterOneMore(s: Inbox, frames: seq<Frame>, frame: Frame, connected: bool)
    ensures AfterFrames(s, frames + [frame], connected)
         == AfterFrame(AfterFrames(s, frames, connected), frame, connected)
  {
    assert (frames + [frame])[..|frames|] == frames;
  }

  /**
   * Frames of one message in any order, repeats and all: nothing is heard
   * while a position is missing.
   */
  lemma {:induction false} Incomplete(s: Inbox, p: Pieces, order: seq<nat>, connected: bool)
    requires OrderOf(p, order) && Idle(s)
    requires Positions(order) != Below(|p.chunks|)
    ensures Positions(order) <= Below(|p.chunks|)
    ensures Midway(AfterFrames(s, Arrivals(p, order), connected), p, Positions(order))
    ensures AfterFrames(s, Arrivals(p, order), connected).heard == s.heard
  {
    if order != [] {
      var front, last := order[..|order| - 1], order[|order| - 1];
      assert order == front + [last];
      OneMore(p, front, last);
      Incomplete(s, p, front, connected);
      OneArrival(AfterFrames(s, Arrivals(p, front), connected), p, Positions(front), last, connected);
      AfterOneMore(s, Arrivals(p, front), PieceFrame(p, last), connected);
    }
  }

  /** The last missing position completes the message: it is heard once, whole. */
  lemma {:induction false} AnyOrder(s: Inbox, p: Pieces, order: seq<nat>, last: nat, connected: bool)
    requires OrderOf(p, order + [last]) && Idle(s)
    requires Positions(order) != Below(|p.chunks|)
    requires Positions(order + [last]) == Below(|p.chunks|)
    ensures
      var after := AfterFrames(s, Arrivals(p, order + [last]), connected);
      Idle(after) && after.heard == s.heard + [Outcome(p)]
  {
    OneMore(p, order, last);
    Incomplete(s, p, order, connected);
    OneArrival(AfterFrames(s, Arrivals(p, order), connected), p, Positions(order), last, connected);
    AfterOneMore(s, Arrivals(p, order), PieceFrame(p, last), connected);
  }

  // ---------------------------------------------------------------------
  // The sender's own order, over whatever was left of an earlier message
  // ---------------------------------------------------------------------

  function UpTo(n: nat): (s: seq<nat>)
    ensures |s| == n && forall k | 0 <= k < n :: s[k] == k
  {
    seq(n, i requires 0 <= i < n => i)
  }

  /** Every frame of p, first to last. */
  ghost function InOrder(p: Pieces): seq<Frame>
    requires Regular(p)
  {
    Arrivals(p, UpTo(|p.chunks|))
  }

  lemma FirstFrames(p: Pieces, n: nat)
    requires Regular(p) && n <= |p.chunks|
    ensures |InOrder(p)| == |p.chunks| && OrderOf(p, UpTo(n)) && Positions(UpTo(n)) == Below(n)
    ensures InOrder(p)[..n] == Arrivals(p, UpTo(n))
  {
    forall i | i in Below(n) ensures i in UpTo(n) {
      assert UpTo(n)[i] == i;
    }
  }

  /** A partial transfer is heard as nothing. */
  lemma PartOfOne(s: Inbox, p: Pieces, n: nat, connected: bool)
    requires Idle(s) && Regular(p) && n < |p.chunks|
    ensures n <= |InOrder(p)| && AfterFrames(s, InOrder(p)[..n], connected).heard == s.heard
  {
    FirstFrames(p, n);
    assert n in Below(|p.chunks|) && n !in Below(n);
    Incomplete(s, p, UpTo(n), connected);
  }

  lemma WholeOne(s: Inbox, p: Pieces, connected: bool)
    requires Idle(s) && Regular(p)
    ensures
      var after := AfterFrames(s, InOrder(p), connected);
      Idle(after) && after.heard == s.heard + [Outcome(p)]
  {
    LastMissing(p);
    AnyOrder(s, p, UpTo(|p.chunks| - 1), |p.chunks| - 1, connected);
  }

  /** In the sender's own order it is the last position that is missing longest. */
  lemma LastMissing(p: Pieces)
    requires Regular(p)
    ensures
      var n := |p.chunks|;
      && UpTo(n) == UpTo(n - 1) + [n - 1] && OrderOf(p, UpTo(n))
      && Positions(UpTo(n - 1)) != Below(n) && Positions(UpTo(n)) == Below(n)
  {
    var n := |p.chunks|;
    FirstFrames(p, n);
    FirstFrames(p, n - 1);
    assert n - 1 in Below(n) && n - 1 !in Below(n - 1);
  }

  /**
   * A different kind replaces the half-read message cleanly, in any order and with any repeats:
   * nothing is heard while a position is missing, and the last missing one completes the message.
   */
  lemma NewKindReplaces(s: Inbox, p: Pieces, order: seq<nat>, last: nat, connected: bool)
    requires OrderOf(p, order + [last]) && s.kind != Some(p.kind)
    requires Positions(order) != Below(|p.chunks|)
    ensures
      var after := AfterFrames(s, Arrivals(p, order + [last]), connected);
      if Positions(order + [last]) == Below(|p.chunks|) then Idle(after) && after.heard == s.heard + [Outcome(p)]
      else Midway(after, p, Positions(order + [last])) && after.heard == s.heard
  {
    var idle := Inbox(None, map[], s.heard);
    var frames := Arrivals(p, order + [last]);
    assert frames[0] == PieceFrame(p, (order + [last])[0]);
    FirstFrameForgets(s, idle, frames, connected);
    if Positions(order + [last]) == Below(|p.chunks|) {
      AnyOrder(idle, p, order, last, connected);
    } else {
      Incomplete(idle, p, order + [last], connected);
    }
  }

  lemma {:induction false} FirstFrameForgets(s: Inbox, t: Inbox, frames: seq<Frame>, connected: bool)
    requires frames != [] && WellFormed(frames[0]) && s.kind != Some(frames[0][0]) && Idle(t) && s.heard == t.heard
    ensures AfterFrames(s, frames, connected) == AfterFrames(t, frames, connected)
  {
    if |frames| > 1 {
      FirstFrameForgets(s, t, frames[..|frames| - 1], connected);
    } else {
      assert frames[..0] == [];
    }
  }

  /** The parts held once the first n frames of p have arrived over leftovers. */
  ghost function Over(left: Parts, p: Pieces, n: nat): Parts
    requires n <= |p.chunks|
  {
    left + map i | 0 <= i < n :: p.chunks[i]
  }

  lemma {:induction false} AssembleNeedsAll(parts: Parts, n: nat)
    ensures Assemble(parts, n).Some? <==> Below(n) <= parts.Keys
  {
    if n > 0 {
      AssembleNeedsAll(parts, n - 1);
      assert Below(n) == Below(n - 1) + {n - 1};
    }
  }

  /** A count of `total` parts completes a message only when they are exactly the positions below it. */
  lemma CompleteWhen(parts: Parts, total: nat)
    ensures |parts| == total && Assemble(parts, total).Some? <==> parts.Keys == Below(total)
  {
    assert |parts| == |parts.Keys|;
    AssembleNeedsAll(parts, total);
    BelowSize(total);
    if |parts| == total && Assemble(parts, total).Some? {
      assert |parts.Keys - Below(total)| == |parts.Keys| - |Below(total)|;
    }
  }

  /** One frame of the kind already being read. */
  lemma SameKindFrame(s: Inbox, p: Pieces, n: nat, connected: bool)
    requires Regular(p) && n < |p.chunks| && s.kind == Some(p.kind)
    ensures
      var parts := s.parts[n as int := p.chunks[n]];
      var after := AfterFrame(s, PieceFrame(p, n), connected);
      if parts.Keys == Below(|p.chunks|) then Idle(after) else after == Inbox(s.kind, parts, s.heard)
  {
    CompleteWhen(s.parts[n as int := p.chunks[n]], |p.chunks|);
  }

  lemma OverNext(left: Parts, p: Pieces, n: nat)
    requires n < |p.chunks|
    ensures Over(left, p, n)[n as int := p.chunks[n]] == Over(left, p, n + 1)
    ensures Over(left, p, n + 1).Keys == left.Keys + Below(n + 1)
  {
  }

  lemma OneMoreInOrder(s: Inbox, p: Pieces, n: nat, connected: bool)
    requires Regular(p) && n < |p.chunks|
    ensures |InOrder(p)| == |p.chunks|
    ensures AfterFrames(s, InOrder(p)[..n + 1], connected)
         == AfterFrame(AfterFrames(s, InOrder(p)[..n], connected), PieceFrame(p, n), connected)
  {
    assert InOrder(p)[..n + 1] == InOrder(p)[..n] + [PieceFrame(p, n)];
    AfterOneMore(s, InOrder(p)[..n], PieceFrame(p, n), connected);
  }

  /** While the positions are not yet exactly those below the total, frames only pile up. */
  lemma {:induction false} PilesUp(s: Inbox, p: Pieces, n: nat, connected: bool)
    requires Regular(p) && n <= |p.chunks| && s.kind == Some(p.kind)
    requires forall j | 0 < j <= n :: s.parts.Keys + Below(j) != Below(|p.chunks|)
    ensures n <= |InOrder(p)|
    ensures AfterFrames(s, InOrder(p)[..n], connected) == Inbox(s.kind, Over(s.parts, p, n), s.heard)
  {
    if n == 0 {
      assert Over(s.parts, p, 0) == s.parts;
    } else {
      PilesUp(s, p, n - 1, connected);
      OneMoreInOrder(s, p, n - 1, connected);
      SameKindFrame(Inbox(s.kind, Over(s.parts, p, n - 1), s.heard), p, n - 1, connected);
      OverNext(s.parts, p, n - 1);
    }
  }

  /** What a message of the same kind must find for its own frames alone to complete it. */
  predicate Clean(left: Parts, total: nat) {
    forall k | k in left :: k < Max(total - 1, 1)
  }

  lemma NotYetFull(keys: set<int>, n: nat, j: nat)
    requires n !in keys && j <= n
    ensures keys + Below(j) != Below(n + 1)
  {
    assert n in Below(n + 1) && n !in keys + Below(j);
  }

  lemma NowFull(keys: set<int>, total: nat, j: nat)
    requires keys <= Below(total) && j <= total
    requires forall i | j <= i < total :: i in keys
    ensures keys + Below(j) == Below(total)
  {
    forall i | i in Below(total) ensures i in keys + Below(j) {
    }
  }

  lemma OverAll(left: Parts, p: Pieces)
    requires forall k | k in left :: 0 <= k < |p.chunks|
    ensures Holds(Over(left, p, |p.chunks|), p, Below(|p.chunks|))
  {
    NowFull(left.Keys, |p.chunks|, |p.chunks|);
  }

  lemma CleanPilesUp(s: Inbox, p: Pieces, connected: bool)
    requires Regular(p) && s.kind == Some(p.kind) && Clean(s.parts, |p.chunks|)
    ensures |p.chunks| - 1 <= |InOrder(p)|
    ensures AfterFrames(s, InOrder(p)[..|p.chunks| - 1], connected)
         == Inbox(s.kind, Over(s.parts, p, |p.chunks| - 1), s.heard)
  {
    var n := |p.chunks| - 1;
    forall j | 0 < j <= n ensures s.parts.Keys + Below(j) != Below(n + 1) {
      NotYetFull(s.parts.Keys, n, j);
    }
    PilesUp(s, p, n, connected);
  }

  lemma CleanRestart(s: Inbox, p: Pieces, connected: bool)
    requires Regular(p) && s.kind == Some(p.kind) && Clean(s.parts, |p.chunks|)
    requires forall k | k in s.parts :: 0 <= k
    ensures
      var after := AfterFrames(s, InOrder(p), connected);
      Idle(after) && after.heard == s.heard + [Outcome(p)]
  {
    var n := |p.chunks| - 1;
    CleanPilesUp(s, p, connected);
    OneMoreInOrder(s, p, n, connected);
    OverNext(s.parts, p, n);
    OverAll(s.parts, p);
    LastOne(Inbox(s.kind, Over(s.parts, p, n), s.heard), p, connected);
    TakeAll(InOrder(p));
  }

  lemma TakeAll<T>(s: seq<T>)
    ensures s[..|s|] == s
  {
  }

  lemma LastOne(s: Inbox, p: Pieces, connected: bool)
    requires Regular(p) && s.kind == Some(p.kind)
    requires Holds(s.parts[(|p.chunks| - 1) as int := p.chunks[|p.chunks| - 1]], p, Below(|p.chunks|))
    ensures
      var after := AfterFrame(s, PieceFrame(p, |p.chunks| - 1), connected);
      Idle(after) && after.heard == s.heard + [Outcome(p)]
  {
    AllHeld(s.parts[(|p.chunks| - 1) as int := p.chunks[|p.chunks| - 1]], p);
  }

  /** Leftovers that reach past the new message: no frame of it ever completes anything. */
  lemma NeverCompletes(s: Inbox, p: Pieces, k: int, connected: bool)
    requires Regular(p) && s.kind == Some(p.kind)
    requires k in s.parts && k >= |p.chunks|
    ensures !Idle(AfterFrames(s, InOrder(p), connected))
    ensures AfterFrames(s, InOrder(p), connected).heard == s.heard
  {
    forall j | 0 < j <= |p.chunks| ensures s.parts.Keys + Below(j) != Below(|p.chunks|) {
      assert k in s.parts.Keys + Below(j) && k !in Below(|p.chunks|);
    }
    PilesUp(s, p, |p.chunks|, connected);
    assert InOrder(p)[..|p.chunks|] == InOrder(p);
  }

  /** The first frame after which every position is held. */
  lemma {:induction false} FirstFull(keys: set<int>, total: nat, n: nat) returns (first: nat)
    requires 0 < n && keys + Below(n) == Below(total)
    ensures 0 < first <= n && keys + Below(first) == Below(total)
    ensures forall j | 0 < j < first :: keys + Below(j) != Below(total)
  {
    if j :| 0 < j < n && keys + Below(j) == Below(total) {
      first := FirstFull(keys, total, j);
    } else {
      first := n;
    }
  }

  /** A leftover last piece completes the message before its last frame arrives. */
  lemma CompletesEarly(s: Inbox, p: Pieces, connected: bool) returns (n: nat)
    requires Regular(p) && s.kind == Some(p.kind)
    requires |p.chunks| > 1 && |p.chunks| - 1 in s.parts
    requires s.parts.Keys <= Below(|p.chunks|)
    ensures 0 < n < |p.chunks| && n <= |InOrder(p)| && Idle(AfterFrames(s, InOrder(p)[..n], connected))
  {
    var total := |p.chunks|;
    NowFull(s.parts.Keys, total, total - 1);
    n := FirstFull(s.parts.Keys, total, total - 1);
    PilesUp(s, p, n - 1, connected);
    OneMoreInOrder(s, p, n - 1, connected);
    SameKindFrame(Inbox(s.kind, Over(s.parts, p, n - 1), s.heard), p, n - 1, connected);
    OverNext(s.parts, p, n - 1);
  }

  /** What is left of it then stays half read. */
  lemma EarlyLeavesTail(s: Inbox, p: Pieces, connected: bool)
    requires Regular(p) && s.kind == Some(p.kind)
    requires |p.chunks| > 1 && |p.chunks| - 1 in s.parts
    requires s.parts.Keys <= Below(|p.chunks|)
    ensures !Idle(AfterFrames(s, InOrder(p), connected))
  {
    var n := CompletesEarly(s, p, connected);
    TailLeft(AfterFrames(s, InOrder(p)[..n], connected), p, n, connected);
    assert InOrder(p) == InOrder(p)[..n] + InOrder(p)[n..];
    AfterConcat(s, InOrder(p)[..n], InOrder(p)[n..], connected);
  }

  /** The tail of a message, without its first frame, never completes. */
  lemma TailLeft(s: Inbox, p: Pieces, n: nat, connected: bool)
    requires Regular(p) && 0 < n < |p.chunks| && Idle(s)
    ensures n <= |InOrder(p)| && !Idle(AfterFrames(s, InOrder(p)[n..], connected))
  {
    var order := UpTo(|p.chunks|)[n..];
    assert InOrder(p)[n..] == Arrivals(p, order);
    assert order[0] == n;
    assert n in Positions(order);
    assert 0 !in Positions(order) && 0 in Below(|p.chunks|);
    Incomplete(s, p, order, connected);
  }

  lemma {:induction false} AfterConcat(s: Inbox, a: seq<Frame>, b: seq<Frame>, connected: bool)
    ensures AfterFrames(s, a + b, connected) == AfterFrames(AfterFrames(s, a, connected), b, connected)
  {
    if b == [] {
      assert a + b == a;
    } else {
      var front, last := b[..|b| - 1], b[|b| - 1];
      AfterConcat(s, a, front, connected);
      assert a + b == (a + front) + [last];
      AfterOneMore(s, a + front, last, connected);
    }
  }

  /**
   * A message over what another one left half read: it is heard whole and the
   * inbox ends idle exactly when the kind differs, or every leftover position
   * comes before the new message's last one (or is its only one).
   */
  lemma Restart(s: Inbox, p: Pieces, connected: bool)
    requires Regular(p)
    requires forall k | k in s.parts :: 0 <= k
    ensures
      var after := AfterFrames(s, InOrder(p), connected);
      var clean := s.kind != Some(p.kind) || Clean(s.parts, |p.chunks|);
      && (Idle(after) <==> clean)
      && (clean ==> after.heard == s.heard + [Outcome(p)])
  {
    if s.kind != Some(p.kind) {
      LastMissing(p);
      NewKindReplaces(s, p, UpTo(|p.chunks| - 1), |p.chunks| - 1, connected);
    } else if Clean(s.parts, |p.chunks|) {
      CleanRestart(s, p, connected);
    } else {
      var k :| k in s.parts && k >= Max(|p.chunks| - 1, 1);
      if j :| j in s.parts && j >= |p.chunks| {
        NeverCompletes(s, p, j, connected);
      } else {
        EarlyLeavesTail(s, p, connected);
      }
    }
  }

  // ---------------------------------------------------------------------
  // Frames that carry nothing, or nonsense
  // ---------------------------------------------------------------------

  /**
   * A frame without a piece is passed over. One whose position is not below its total ends the encounter
   * with a phone this one connected to, and is passed over from any other.
   */
  lemma BadFrames(s: Inbox, frame: Frame, connected: bool)
    requires |frame| <= 3 || frame[1] >= frame[2]
    ensures AfterFrame(s, frame, connected)
         == if |frame| <= 3 || !connected then s else Inbox(None, map[], s.heard)
  {
  }

  /** Any other frame files its piece under its position, and beside pieces of its own kind only. */
  lemma GoodFrames(s: Inbox, frame: Frame, connected: bool)
    requires |frame| > 3 && frame[1] < frame[2] < 256
    ensures
      var after := AfterFrame(s, frame, connected);
      var held := if s.kind == Some(frame[0]) then s.parts.Keys else {};
      if |held + {frame[1] as int}| < frame[2]
      then after.kind == Some(frame[0]) && after.parts.Keys == held + {frame[1] as int}
           && after.parts[frame[1]] == frame[3..] && after.heard == s.heard
           && (forall k | k in held && k != frame[1] :: after.parts[k] == s.parts[k])
      else s.heard <= after.heard
  {
    var kept: Parts := if s.kind == Some(frame[0]) then s.parts else map[];
    var parts := kept[frame[1] as int := frame[3..]];
    assert parts.Keys == kept.Keys + {frame[1] as int} && |parts| == |parts.Keys|;
  }

  /** A payload of more than 4096 bytes is told of as unreadable, any other as it is. */
  lemma EventMeans(kind: byte, payload: Bytes)
    ensures EventOf(kind, payload) == if |payload| > 4096 then Unreadable else Received(Message(kind, payload))
  {
  }
}
