/**
 * The calls on a settlement in the source's own shape: each runs step by step, and
 * wherever it waits the rest of the system does whatever it likes.
 */
module SettlementCalls {
  import opened Base
  import opened Formats
  import opened Payment
  import opened Reconciliation
  import opened Lifecycle

  datatype CallError = NotFound | BadInput | ConflictingHash | Transition | ChangedConcurrently

  /** Who authorized a payment; the hash and the expiry may be missing. */
  datatype Authorization = Authorization(authorizer: string, hash: Option<string>, expiresAtLedger: Option<int>)

  predicate AuthorizationProper(a: Authorization) {
    && Address(a.authorizer)
    && (Truthy(a.hash) ==> HexHash(a.hash.value))
    && (a.expiresAtLedger.Some? ==> SafePositive(a.expiresAtLedger.value))
  }

  /** An address, a hash unless it is missing or empty, and an expiry unless it is missing. */
  lemma AuthorizationMeans(a: Authorization)
    ensures
      AuthorizationProper(a) <==>
        && Matches(a.authorizer, [Part([Range('G', 'G'), Range('C', 'C')], 1), Part(STRKEY, 55)])
        && (a.hash.None? || a.hash.value == "" || Matches(a.hash.value, [Part(HEXADECIMAL, 64)]))
        && (a.expiresAtLedger.None? || 1 <= a.expiresAtLedger.value < Pow2(53))
  {
    AddressPattern(a.authorizer);
    if a.hash.Some? {
      HexHashPattern(a.hash.value);
    }
    if a.expiresAtLedger.Some? {
      WidthsAre(a.expiresAtLedger.value);
    }
  }

  /** A write of this caller's own: what was asked, over which record. */
  datatype Deed = Deed(id: string, ask: Ask, over: Record)

  /** This caller wrote nothing, or wrote just this to the row. */
  ghost predicate AtMostOneDeed(before: seq<Deed>, after: seq<Deed>, s: State, id: string, ask: Ask) {
    after == before || exists over :: WroteOver(before, after, s, id, ask, over)
  }

  ghost predicate WroteOver(before: seq<Deed>, after: seq<Deed>, s: State, id: string, ask: Ask, over: Record) {
    after == before + [Deed(id, ask, over)] && Exists(s, id) && over in s.log[id] && Patched(ask, over) in s.log[id]
  }

  /** The row's newest record when a call came in, or where its first one will be. */
  function Floor(before: State, id: string): nat {
    if Exists(before, id) then |before.log[id]| - 1 else 0
  }

  /** A record the row held at some moment of the call. */
  ghost predicate Met(before: State, after: State, id: string, k: nat) {
    id in after.log && Floor(before, id) <= k < |after.log[id]|
  }

  /** The hash a call names is not the one the row carries. */
  predicate Conflicts(ask: Ask, p: Record) {
    || (ask.Submit? && p.status == Submitted && p.hash != Some(ask.hash))
    || (ask.Confirm? && Truthy(p.hash) && !SameHash(p.hash.value, ask.hash))
  }

  predicate MayMove(ask: Ask, p: Record) {
    p.status != Target(ask) && !Conflicts(ask, p) && Allowed(p.status, Target(ask))
  }

  /** What a call that met record p answers; for every p it is just one thing. */
  predicate Fitting(ask: Ask, p: Record, wrote: bool, r: Result<Record, CallError>) {
    match r
    case Ok(q) =>
      if wrote then MayMove(ask, p) && q == Patched(ask, p)
      else p.status == Target(ask) && !Conflicts(ask, p) && q == p
    case Err(ConflictingHash) => !wrote && Conflicts(ask, p)
    case Err(Transition) => !wrote && p.status != Target(ask) && !Conflicts(ask, p) && !Allowed(p.status, Target(ask))
    case _ => false
  }

  ghost predicate AnswersFor(before: State, after: State, id: string, ask: Ask, wrote: bool,
                             r: Result<Record, CallError>, k: nat) {
    && Met(before, after, id, k) && Fitting(ask, after.log[id][k], wrote, r)
    && (wrote ==> k + 1 < |after.log[id]| && after.log[id][k + 1] == Patched(ask, after.log[id][k]))
  }

  /**
   * What an answer means: that there was no row when the call came in, or else it is the one that
   * fits a record the row held at some moment of the call.
   */
  ghost predicate Answers(before: State, after: State, id: string, ask: Ask, wrote: bool,
                          r: Result<Record, CallError>) {
    match r
    case Err(NotFound) => !wrote && !Exists(before, id)
    case Err(BadInput) => false
    case Err(ChangedConcurrently) => !wrote && Overtaken(before, after, id, ask)
    case _ => exists k :: AnswersFor(before, after, id, ask, wrote, r, k)
  }

  /** The row has moved on at least three times since the call came in, and is final. */
  ghost predicate Overtaken(before: State, after: State, id: string, ask: Ask) {
    && ask.Fail? && Exists(after, id)
    && Floor(before, id) + ATTEMPTS < |after.log[id]| && IsTerminal(Row(after, id).status)
  }

  /** A record the call met and would have moved is no longer the newest. */
  ghost predicate MovedOn(before: State, after: State, id: string, ask: Ask, k: nat) {
    Met(before, after, id, k) && k + 1 < |after.log[id]| && MayMove(ask, after.log[id][k])
  }

  /** The same for the worker's calls, which have one turn and give no record back. */
  ghost predicate Reconciled(before: State, after: State, id: string, ask: Ask, wrote: bool, r: Result<(), CallError>) {
    match r
    case Err(ChangedConcurrently) =>
      !wrote && exists k :: MovedOn(before, after, id, ask, k)
    case Err(e) => Answers(before, after, id, ask, wrote, Err(e))
    case Ok(_) => exists q :: Answers(before, after, id, ask, wrote, Ok(q))
  }

  /** How a worker's call ended: its input was refused, or an answer to a record it met, or it came through. */
  ghost predicate Ended(before: State, after: State, id: string, ask: Ask, wrote: bool, error: Option<CallError>) {
    match error
    case Some(BadInput) => !Proper(ask) && !wrote
    case Some(e) => Proper(ask) && !wrote && Reconciled(before, after, id, ask, wrote, Err(e))
    case None => Proper(ask) && Reconciled(before, after, id, ask, wrote, Ok(()))
  }

  lemma ReconciledEarlier(before: State, later: State, after: State, id: string, ask: Ask, wrote: bool,
                          r: Result<(), CallError>)
    requires Grows(before, later) && Reconciled(later, after, id, ask, wrote, r)
    ensures Reconciled(before, after, id, ask, wrote, r)
  {
    match r
    case Err(e) =>
      if e == ChangedConcurrently {
        var k :| MovedOn(later, after, id, ask, k);
        assert MovedOn(before, after, id, ask, k);
      } else {
        SinceEarlier(before, later, after, id, ask, wrote, Err(e));
      }
    case Ok(_) =>
      var q :| Answers(later, after, id, ask, wrote, Ok(q));
      SinceEarlier(before, later, after, id, ask, wrote, Ok(q));
  }

  lemma EndedEarlier(before: State, later: State, after: State, id: string, ask: Ask, wrote: bool,
                     error: Option<CallError>)
    requires Grows(before, later) && Ended(later, after, id, ask, wrote, error)
    ensures Ended(before, after, id, ask, wrote, error)
  {
    match error
    case Some(BadInput) =>
    case Some(e) => ReconciledEarlier(before, later, after, id, ask, wrote, Err(e));
    case None => ReconciledEarlier(before, later, after, id, ask, wrote, Ok(()));
  }

  /** Nobody else moved the row during the call. */
  predicate LeftAlone(before: State, after: State, id: string, wrote: bool) {
    Exists(before, id) && id in after.log && |after.log[id]| == |before.log[id]| + if wrote then 1 else 0
  }

  /**
   * Left alone, a call is decided by the row it came upon: a move that is open to it is made, and
   * only a record that stands in the way is answered with a refusal.
   */
  lemma AnsweredAlone(before: State, after: State, id: string, ask: Ask, wrote: bool, r: Result<Record, CallError>)
    requires Grows(before, after) && LeftAlone(before, after, id, wrote) && Answers(before, after, id, ask, wrote, r)
    ensures Fitting(ask, Row(before, id), wrote, r)
    ensures MayMove(ask, Row(before, id)) <==> wrote
    ensures wrote ==> after.log[id] == before.log[id] + [Patched(ask, Row(before, id))]
  {
    var k :| AnswersFor(before, after, id, ask, wrote, r, k);
    assert k == |before.log[id]| - 1;
    assert before.log[id] <= after.log[id];
  }

  lemma ReconciledAlone(before: State, after: State, id: string, ask: Ask, wrote: bool, r: Result<(), CallError>)
    requires Grows(before, after) && LeftAlone(before, after, id, wrote) && Reconciled(before, after, id, ask, wrote, r)
    ensures MayMove(ask, Row(before, id)) <==> wrote
    ensures r.Ok? <==> wrote || (Row(before, id).status == Target(ask) && !Conflicts(ask, Row(before, id)))
    ensures r.Err? ==> Fitting(ask, Row(before, id), false, Err(r.error))
    ensures wrote ==> after.log[id] == before.log[id] + [Patched(ask, Row(before, id))]
  {
    match r
    case Err(e) =>
      if e != ChangedConcurrently {
        AnsweredAlone(before, after, id, ask, wrote, Err(e));
      }
    case Ok(_) =>
      var q :| Answers(before, after, id, ask, wrote, Ok(q));
      AnsweredAlone(before, after, id, ask, wrote, Ok(q));
  }

  /** What a call concludes from a record it may not move. */
  function AnswerTo(v: Verdict, p: Record): Result<Record, CallError>
    requires v != Proceed
  {
    match v
    case AlreadyThere => Ok(p)
    case HashConflict => Err(ConflictingHash)
    case Illegal => Err(Transition)
  }

  lemma VerdictFits(ask: Ask, p: Record)
    requires RecordSound(p)
    ensures Judge(ask, p) == Proceed <==> MayMove(ask, p)
    ensures Judge(ask, p) != Proceed ==> Fitting(ask, p, false, AnswerTo(Judge(ask, p), p))
  {
  }

  lemma ReadFits(before: State, after: State, id: string, ask: Ask, k: nat)
    requires Met(before, after, id, k) && RecordSound(after.log[id][k])
    ensures
      var p := after.log[id][k];
      Judge(ask, p) != Proceed ==> Answers(before, after, id, ask, false, AnswerTo(Judge(ask, p), p))
  {
    var p := after.log[id][k];
    VerdictFits(ask, p);
    if Judge(ask, p) != Proceed {
      assert AnswersFor(before, after, id, ask, false, AnswerTo(Judge(ask, p), p), k);
    }
  }

  lemma WriteFits(before: State, after: State, id: string, ask: Ask, p: Record)
    requires RecordSound(p) && Judge(ask, p) == Proceed
    requires id in after.log && Floor(before, id) + 1 < |after.log[id]|
    requires after.log[id][|after.log[id]| - 2..] == [p, Patched(ask, p)]
    ensures Answers(before, after, id, ask, true, Ok(Patched(ask, p)))
  {
    VerdictFits(ask, p);
    var k := |after.log[id]| - 2;
    assert after.log[id][k] == after.log[id][k..][0] && after.log[id][k + 1] == after.log[id][k..][1];
    assert AnswersFor(before, after, id, ask, true, Ok(Patched(ask, p)), k);
  }

  lemma StandsAlready(before: State, after: State, id: string, ask: Ask, p: Record)
    requires Answers(before, after, id, ask, false, Ok(p)) && Exists(after, id) && p in after.log[id]
    requires Judge(ask, p) == AlreadyThere && RecordSound(p)
    ensures CameTo(after, id, ask) && Reconciled(before, after, id, ask, false, Ok(()))
  {
    assert Fits(ask, p);
  }

  lemma StandsNow(before: State, after: State, id: string, ask: Ask, p: Record)
    requires Answers(before, after, id, ask, true, Ok(p)) && Exists(after, id) && p in after.log[id] && Fits(ask, p)
    ensures CameTo(after, id, ask) && Reconciled(before, after, id, ask, true, Ok(()))
  {
  }

  /** An answer about the later part of a call is one about the whole. */
  lemma SinceEarlier(before: State, later: State, after: State, id: string, ask: Ask, wrote: bool,
                     r: Result<Record, CallError>)
    requires Grows(before, later) && Answers(later, after, id, ask, wrote, r)
    ensures Answers(before, after, id, ask, wrote, r)
  {
    if r.Ok? || (r.error != NotFound && r.error != BadInput && r.error != ChangedConcurrently) {
      var k :| AnswersFor(later, after, id, ask, wrote, r, k);
      assert AnswersFor(before, after, id, ask, wrote, r, k);
    }
  }

  predicate HeldAt(s: State, id: string, at: nat, p: Record) {
    id in s.log && at < |s.log[id]| && s.log[id][at] == p && p in s.log[id]
  }

  /** The row has held a record with the status asked for, and for a confirmation with this hash. */
  ghost predicate CameTo(s: State, id: string, ask: Ask) {
    Exists(s, id) && exists p :: p in s.log[id] && Fits(ask, p)
  }

  predicate Fits(ask: Ask, p: Record) {
    p.status == Target(ask) && (ask.Confirm? ==> p.hash.Some? && SameHash(p.hash.value, ask.hash))
  }

  lemma CameToKept(s: State, t: State, id: string, ask: Ask)
    requires CameTo(s, id, ask) && Grows(s, t)
    ensures CameTo(t, id, ask)
  {
    var p :| p in s.log[id] && Fits(ask, p);
    assert p in t.log[id];
  }

  /**
   * Three reads that each allowed the move and were each overtaken before the write:
   * only `failed` can be allowed that often, and by then the row is terminal.
   */
  lemma ThriceOvertaken(h: seq<Record>, next: Status, i: nat, j: nat, k: nat)
    requires History(h) && i < j < k < |h| - 1
    requires Allowed(h[i].status, next) && Allowed(h[j].status, next) && Allowed(h[k].status, next)
    ensures next == Failed && IsTerminal(Last(h).status)
  {
    HistoryIsPath(h);
    PathAdvances(Statuses(h), 0, i + 1);
    PathAdvances(Statuses(h), i, j);
    PathAdvances(Statuses(h), j, k);
    PathAdvances(Statuses(h), k, |h| - 1);
  }

  /** Reads that each allowed the move and were each overtaken, one after the other. */
  ghost predicate LostTurns(before: State, s: State, id: string, ask: Ask, seen: seq<nat>) {
    && (seen != [] ==> id in s.log && seen[0] >= Floor(before, id))
    && (forall k | 0 <= k < |seen| :: seen[k] < |s.log[id]| - 1 && Allowed(s.log[id][seen[k]].status, Target(ask)))
    && (forall k | 0 < k < |seen| :: seen[k - 1] < seen[k])
  }

  lemma OneMoreLost(before: State, s: State, t: State, id: string, ask: Ask, seen: seq<nat>, at: nat)
    requires Grows(before, s) && Grows(s, t) && LostTurns(before, s, id, ask, seen)
    requires id in t.log && Floor(s, id) <= at < |t.log[id]| - 1 && Allowed(t.log[id][at].status, Target(ask))
    ensures LostTurns(before, t, id, ask, seen + [at])
  {
  }

  /** The state after a write of one's own over the row as it is. */
  function Appended(s: State, id: string, ask: Ask): State
    requires Exists(s, id)
  {
    s.(log := s.log[id := s.log[id] + [Patched(ask, Row(s, id))]])
  }

  lemma AppendedSound(s: State, id: string, ask: Ask)
    requires Sound(s) && Exists(s, id) && Proper(ask) && Judge(ask, Row(s, id)) == Proceed
    ensures Sound(Appended(s, id, ask)) && Grows(s, Appended(s, id, ask))
  {
    HistoryExtends(s.log[id], ask);
    AllCallsKept(s, Appended(s, id, ask));
  }

  /** What was read is still where it was, and is the newest record unless the row has moved on. */
  lemma StillHeld(before: State, now: State, id: string, at: nat, p: Record)
    requires HeldAt(before, id, at, p) && Grows(before, now)
    ensures HeldAt(now, id, at, p) && |before.log[id]| <= |now.log[id]|
    ensures Row(now, id) != p ==> at < |now.log[id]| - 1
  {
    assert now.log[id][at] == p;
  }

  /** A write shows at the end of the row's log, behind the record it went over. */
  lemma AppendedShows(s: State, id: string, ask: Ask, p: Record, own: seq<Deed>)
    requires Exists(s, id) && Row(s, id) == p
    ensures
      var h := Appended(s, id, ask).log[id];
      && |h| == |s.log[id]| + 1 && h[|h| - 2..] == [p, Patched(ask, p)]
      && WroteOver(own, own + [Deed(id, ask, p)], Appended(s, id, ask), id, ask, p)
  {
    var h := Appended(s, id, ask).log[id];
    assert h[|h| - 2] == p && h[|h| - 1] == Patched(ask, p);
  }

  lemma AppendedReceipted(s: State, id: string, ask: Ask)
    requires Receipted(s) && Exists(s, id) && Trusted(ask, s.receipts)
    ensures Receipted(Appended(s, id, ask))
  {
    PatchTrusted(ask, Row(s, id), s.receipts);
  }

  class Settlements {
    var state: State
    var authorizations: map<string, Authorization>
    ghost var own: seq<Deed>
    ghost var noted: seq<(string, Authorization)>

    ghost predicate Valid()
      reads this
    {
      Sound(state) && forall id | id in authorizations :: AuthorizationProper(authorizations[id])
    }

    constructor ()
      ensures Valid() && state == EMPTY && authorizations == map[] && own == [] && noted == []
    {
      state, authorizations, own, noted := EMPTY, map[], [], [];
    }

    /** Whatever the other calls do while this one waits. */
    method Others()
      requires Valid()
      modifies `state, `authorizations
      ensures Valid() && Grows(old(state), state) && old(authorizations.Keys) <= authorizations.Keys
      ensures Receipted(old(state)) ==> Receipted(state)
    {
      var actions: seq<Action> := *;
      RunSound(state, actions);
      if Receipted(state) {
        RunReceipted(state, actions);
      }
      state := Run(state, actions);
      var theirs: map<string, Authorization> := *;
      if forall id | id in theirs :: AuthorizationProper(theirs[id]) {
        authorizations := authorizations + theirs;
      }
    }

    /** The conditional write of a call that read an allowed record: it holds while the status is still that one. */
    method WriteIfUnchanged(id: string, ask: Ask, seen: Record) returns (won: bool)
      requires Valid() && Proper(ask) && Judge(ask, seen) == Proceed
      requires id in state.log && seen in state.log[id]
      modifies `state, `own
      ensures Valid() && Grows(old(state), state)
      ensures won <==> old(Row(state, id)) == seen
      ensures won ==> state == Appended(old(state), id, ask) && own == old(own) + [Deed(id, ask, seen)]
      ensures !won ==> state == old(state) && own == old(own) && Rank(seen.status) < Rank(Row(state, id).status)
      ensures Receipted(old(state)) && Trusted(ask, old(state).receipts) ==> Receipted(state)
    {
      SameStatusSameRecord(state.log[id], seen);
      if Row(state, id).status != seen.status {
        return false;
      }
      AppendedSound(state, id, ask);
      if Receipted(state) && Trusted(ask, state.receipts) {
        AppendedReceipted(state, id, ask);
      }
      state := state.(log := state.log[id := state.log[id] + [Patched(ask, seen)]]);
      own := own + [Deed(id, ask, seen)];
      return true;
    }

    /** Reads the row and judges it; None when there is no row. */
    method Read(id: string, ask: Ask) returns (verdict: Option<Verdict>, current: Record, ghost at: nat)
      requires Valid()
      modifies `state, `authorizations
      ensures Valid() && Grows(old(state), state) && old(authorizations.Keys) <= authorizations.Keys
      ensures Receipted(old(state)) ==> Receipted(state)
      ensures verdict.None? ==> id !in state.log
      ensures verdict.Some? ==>
                && HeldAt(state, id, at, current) && at == |state.log[id]| - 1 && at >= Floor(old(state), id)
                && verdict.value == Judge(ask, current) && RecordSound(current)
    {
      at, current := 0, FRESH;
      Others();
      if id !in state.log {
        return None, current, at;
      }
      at := |state.log[id]| - 1;
      current := Row(state, id);
      HistorySound(state.log[id], at, at);
      return Some(Judge(ask, current)), current, at;
    }

    /** Writes what was read and judged a moment ago. */
    method WriteSeen(id: string, ask: Ask, current: Record, ghost at: nat) returns (won: bool)
      requires Valid() && Proper(ask) && Judge(ask, current) == Proceed && HeldAt(state, id, at, current)
      modifies `state, `authorizations, `own
      ensures Valid() && Grows(old(state), state) && old(authorizations.Keys) <= authorizations.Keys
      ensures Receipted(old(state)) && Trusted(ask, old(state).receipts) ==> Receipted(state)
      ensures won ==> WroteOver(old(own), own, state, id, ask, current)
      ensures won ==>
                && |old(state).log[id]| < |state.log[id]|
                && state.log[id][|state.log[id]| - 2..] == [current, Patched(ask, current)]
      ensures !won ==>
                && own == old(own) && HeldAt(state, id, at, current) && at < |state.log[id]| - 1
                && Rank(current.status) < Rank(Row(state, id).status)
    {
      Others();
      ghost var met := state;
      StillHeld(old(state), met, id, at, current);
      won := WriteIfUnchanged(id, ask, current);
      GrowsFurther(old(state), met, state);
      if won {
        AppendedShows(met, id, ask, current, old(own));
      }
    }

    /** One turn of the loop: read, check, write; None when another call was quicker. */
    method Attempt(id: string, ask: Ask) returns (r: Option<Result<Record, CallError>>, ghost at: nat)
      requires Valid() && ByTheApi(ask) && Proper(ask)
      modifies `state, `authorizations, `own
      ensures Valid() && Grows(old(state), state) && old(authorizations.Keys) <= authorizations.Keys
      ensures Receipted(old(state)) ==> Receipted(state)
      ensures r.Some? ==>
                r.value != Err(ChangedConcurrently) && Answers(old(state), state, id, ask, own != old(own), r.value)
      ensures AtMostOneDeed(old(own), own, state, id, ask)
      ensures r.None? || r.value.Err? ==> own == old(own)
      ensures r.None? ==>
                && id in state.log && at < |state.log[id]| - 1 && Allowed(state.log[id][at].status, Target(ask))
                && at >= Floor(old(state), id)
    {
      var verdict, current;
      verdict, current, at := Read(id, ask);
      if verdict.Some? {
        ReadFits(old(state), state, id, ask, at);
      }
      match verdict {
        case None => return Some(Err(NotFound)), at;
        case Some(HashConflict) => return Some(Err(ConflictingHash)), at;
        case Some(AlreadyThere) => return Some(Ok(current)), at;
        case Some(Illegal) => return Some(Err(Transition)), at;
        case Some(Proceed) =>
      }
      var won := WriteSeen(id, ask, current, at);
      if won {
        WriteFits(old(state), state, id, ask, current);
      }
      r := if won then Some(Ok(Patched(ask, current))) else None;
    }

    /** Reads, checks and writes, reading again when another call was quicker, three times at most. */
    method TransitionSettlement(id: string, ask: Ask) returns (r: Result<Record, CallError>)
      requires Valid() && ByTheApi(ask) && Proper(ask)
      modifies `state, `authorizations, `own
      ensures Valid() && Grows(old(state), state) && old(authorizations.Keys) <= authorizations.Keys
      ensures Receipted(old(state)) ==> Receipted(state)
      ensures Answers(old(state), state, id, ask, own != old(own), r)
      ensures AtMostOneDeed(old(own), own, state, id, ask) && (r.Err? ==> own == old(own))
    {
      ghost var seen: seq<nat> := [];
      for attempt := 0 to ATTEMPTS
        invariant Valid() && Grows(old(state), state) && old(authorizations.Keys) <= authorizations.Keys
        invariant Receipted(old(state)) ==> Receipted(state)
        invariant own == old(own)
        invariant |seen| == attempt && LostTurns(old(state), state, id, ask, seen)
      {
        ghost var before := state;
        var turn, at := Attempt(id, ask);
        if turn.Some? {
          SinceEarlier(old(state), before, state, id, ask, own != old(own), turn.value);
          return turn.value;
        }
        OneMoreLost(old(state), before, state, id, ask, seen, at);
        seen := seen + [at];
      }
      ThriceOvertaken(state.log[id], Target(ask), seen[0], seen[1], seen[2]);
      return Err(ChangedConcurrently);
    }

    /** The repository's upsert: the last note stands. */
    method SaveAuthorization(id: string, a: Authorization)
      modifies `authorizations, `noted
      ensures authorizations == old(authorizations)[id := a] && noted == old(noted) + [(id, a)]
    {
      authorizations := authorizations[id := a];
      noted := noted + [(id, a)];
    }

    /** Notes who authorized the payment, then moves it on; the note stays even when the move is refused. */
    method Authorize(id: string, authorization: Option<Authorization>) returns (r: Result<Record, CallError>)
      requires Valid()
      modifies this
      ensures Valid() && Grows(old(state), state) && (Receipted(old(state)) ==> Receipted(state))
      ensures r == Err(BadInput) <==> authorization.Some? && !AuthorizationProper(authorization.value)
      ensures r == Err(BadInput) ==> state == old(state) && authorizations == old(authorizations) && own == old(own)
      ensures r != Err(BadInput) ==>
                Answers(old(state), state, id, Ask.Authorize, own != old(own), r) && r != Err(ChangedConcurrently)
      ensures r == Err(BadInput) || authorization.None? ==> noted == old(noted)
      ensures r != Err(BadInput) && authorization.Some? ==>
                id in authorizations && noted == old(noted) + [(id, authorization.value)]
      ensures AtMostOneDeed(old(own), own, state, id, Ask.Authorize)
    {
      if authorization.Some? {
        if !AuthorizationProper(authorization.value) {
          return Err(BadInput);
        }
        SaveAuthorization(id, authorization.value);
      }
      r := TransitionSettlement(id, Ask.Authorize);
    }

    method Submit(id: string, hash: string) returns (r: Result<Record, CallError>)
      requires Valid()
      modifies `state, `authorizations, `own
      ensures Valid() && Grows(old(state), state) && (Receipted(old(state)) ==> Receipted(state))
      ensures r == Err(BadInput) <==> !HexHash(hash)
      ensures r == Err(BadInput) ==> state == old(state) && own == old(own)
      ensures r != Err(BadInput) ==>
                Answers(old(state), state, id, Ask.Submit(hash), own != old(own), r) && r != Err(ChangedConcurrently)
      ensures AtMostOneDeed(old(own), own, state, id, Ask.Submit(hash))
    {
      if !HexHash(hash) {
        return Err(BadInput);
      }
      r := TransitionSettlement(id, Ask.Submit(hash));
    }

    /** The worker's way to write: read, judge, and update only a row that has not moved. */
    method Reconcile(id: string, ask: Ask) returns (r: Result<(), CallError>)
      requires Valid() && Proper(ask)
      requires ask.Confirm? || ask.Fail? || ask.Expire?
      modifies `state, `authorizations, `own
      ensures Valid() && Grows(old(state), state)
      ensures Receipted(old(state)) && Trusted(ask, old(state).receipts) ==> Receipted(state)
      ensures r.Ok? ==> CameTo(state, id, ask)
      ensures AtMostOneDeed(old(own), own, state, id, ask) && (r.Err? ==> own == old(own))
      ensures r != Err(BadInput) && Reconciled(old(state), state, id, ask, own != old(own), r)
    {
      var verdict, current;
      ghost var at;
      verdict, current, at := Read(id, ask);
      if verdict.Some? {
        ReadFits(old(state), state, id, ask, at);
      }
      match verdict {
        case None => return Err(NotFound);
        case Some(HashConflict) => return Err(ConflictingHash);
        case Some(AlreadyThere) =>
          StandsAlready(old(state), state, id, ask, current);
          return Ok(());
        case Some(Illegal) => return Err(Transition);
        case Some(Proceed) =>
      }
      var won := WriteSeen(id, ask, current, at);
      if !won {
        VerdictFits(ask, current);
        assert MovedOn(old(state), state, id, ask, at);
        return Err(ChangedConcurrently);
      }
      WriteFits(old(state), state, id, ask, current);
      assert Fits(ask, Patched(ask, current));
      StandsNow(old(state), state, id, ask, Patched(ask, current));
      return Ok(());
    }

    method Confirm(id: string, hash: string, ledger: int, at: string) returns (r: Result<(), CallError>)
      requires Valid()
      modifies `state, `authorizations, `own
      ensures Valid() && Grows(old(state), state)
      ensures Receipted(old(state)) && Backed(hash, ledger, old(state).receipts) ==> Receipted(state)
      ensures r == Err(BadInput) <==> !HexHash(hash) || !SafePositive(ledger)
      ensures r == Err(BadInput) ==> state == old(state)
      ensures r.Ok? ==> CameTo(state, id, Ask.Confirm(hash, ledger, at))
      ensures AtMostOneDeed(old(own), own, state, id, Ask.Confirm(hash, ledger, at)) && (r.Err? ==> own == old(own))
      ensures r != Err(BadInput) ==>
                Reconciled(old(state), state, id, Ask.Confirm(hash, ledger, at), own != old(own), r)
    {
      if !HexHash(hash) || !SafePositive(ledger) {
        return Err(BadInput);
      }
      r := Reconcile(id, Ask.Confirm(hash, ledger, at));
    }

    /** The code, trimmed, is the one stored if this call is the one that writes. */
    method Fail(id: string, failureCode: string) returns (r: Result<(), CallError>)
      requires Valid()
      modifies `state, `authorizations, `own
      ensures Valid() && Grows(old(state), state) && (Receipted(old(state)) ==> Receipted(state))
      ensures r == Err(BadInput) <==> forall c | c in failureCode :: Blank(c)
      ensures r == Err(BadInput) ==> state == old(state)
      ensures r.Ok? ==> CameTo(state, id, Ask.Fail(Trim(failureCode)))
      ensures AtMostOneDeed(old(own), own, state, id, Ask.Fail(Trim(failureCode))) && (r.Err? ==> own == old(own))
      ensures r != Err(BadInput) ==>
                Reconciled(old(state), state, id, Ask.Fail(Trim(failureCode)), own != old(own), r)
      ensures own != old(own) ==> exists p ::
                  Exists(state, id) && p in state.log[id] && p.failureCode == Some(Trim(failureCode))
    {
      var code := Trim(failureCode);
      TrimmedAway(failureCode);
      if code == "" {
        return Err(BadInput);
      }
      r := Reconcile(id, Ask.Fail(code));
      if own != old(own) {
        ghost var over :| WroteOver(old(own), own, state, id, Ask.Fail(code), over);
        assert Patched(Ask.Fail(code), over).failureCode == Some(code);
      }
    }

    method Expire(id: string) returns (r: Result<(), CallError>)
      requires Valid()
      modifies `state, `authorizations, `own
      ensures Valid() && Grows(old(state), state) && (Receipted(old(state)) ==> Receipted(state))
      ensures r.Ok? ==> CameTo(state, id, Ask.Expire)
      ensures Reconciled(old(state), state, id, Ask.Expire, own != old(own), r)
      ensures AtMostOneDeed(old(own), own, state, id, Ask.Expire) && (r.Err? ==> own == old(own))
    {
      r := Reconcile(id, Ask.Expire);
    }
  }
}
