/**
 * Settlement rows under concurrent API calls and worker passes. A row is guarded
 * only by a conditional write on its status; there is no version number.
 */
module Lifecycle {
  import opened Base
  import opened Formats
  import opened Payment
  import opened Reconciliation

  datatype Record = Record(
    status: Status,
    hash: Option<string>,
    ledger: Option<int>,
    failureCode: Option<string>,
    confirmedAt: Option<string>)

  const FRESH := Record(AwaitingApproval, None, None, None, None)

  const ATTEMPTS := 3

  // ---------------------------------------------------------------------
  // What a call asks of a row
  // ---------------------------------------------------------------------

  datatype Ask =
    | Authorize
    | Submit(hash: string)
    | Confirm(hash: string, ledger: int, at: string)
    | Fail(code: string)
    | Expire

  function Target(ask: Ask): Status {
    match ask
    case Authorize => Authorized
    case Submit(_) => Submitted
    case Confirm(_, _, _) => Confirmed
    case Fail(_) => Failed
    case Expire => Expired
  }

  /** Inputs a call accepts before it looks at any row. */
  predicate Proper(ask: Ask) {
    match ask
    case Submit(h) => HexHash(h)
    case Confirm(h, l, _) => HexHash(h) && SafePositive(l)
    case Fail(code) => code != ""
    case _ => true
  }

  /** The calls the service makes; the worker makes the others, and fails payments too. */
  predicate ByTheApi(ask: Ask) {
    ask.Authorize? || ask.Submit? || ask.Fail?
  }

  /** The record with the fields the call sets replaced. */
  function Patched(ask: Ask, r: Record): Record {
    match ask
    case Authorize => r.(status := Authorized)
    case Submit(h) => r.(status := Submitted, hash := Some(h))
    case Confirm(h, l, at) => r.(status := Confirmed, hash := Some(h), ledger := Some(l), confirmedAt := Some(at))
    case Fail(code) => r.(status := Failed, failureCode := Some(code))
    case Expire => r.(status := Expired)
  }

  datatype Verdict = Proceed | AlreadyThere | HashConflict | Illegal

  predicate OtherHash(r: Record, h: string) {
    Truthy(r.hash) && !SameHash(r.hash.value, h)
  }

  /** What a call concludes from the record it read. */
  function Judge(ask: Ask, r: Record): Verdict {
    if ask.Confirm? && OtherHash(r, ask.hash) then HashConflict
    else if r.status == Target(ask) then
      if ask.Submit? && Truthy(r.hash) && r.hash.value != ask.hash then HashConflict else AlreadyThere
    else if Allowed(r.status, Target(ask)) then Proceed
    else Illegal
  }

  // ---------------------------------------------------------------------
  // All the calls together
  // ---------------------------------------------------------------------


  /** The worker at work on one listed settlement, with the event that led it there, if one did. */
  datatype Pass = Pass(row: SubmittedRow, event: Option<Event>)

  /**
   * A call in flight: whether it is the service's or the worker's, what it read last, if it
   * is about to write, how many writes it has lost, and the pass it came out of, if it did.
   */
  datatype Call = Call(id: string, ask: Ask, api: bool, seen: Option<Record>, lost: nat, why: Option<Pass>)

  /** The service replaces the whole record by its own copy; the worker sets named columns of the row as it is. */
  function Written(c: Call, seen: Record, current: Record): Record {
    Patched(c.ask, if c.api then seen else current)
  }

  /** `log` keeps every record a row has held, newest last. */
  datatype State = State(
    log: map<string, seq<Record>>,
    calls: map<nat, Call>,
    passes: map<nat, Pass>,
    receipts: set<Receipt>)

  datatype Action =
    | Create(id: string)
    | Begin(n: nat, id: string, ask: Ask)
    | BeginExpiry(n: nat, id: string)
    | List(n: nat, id: string)
    | Report(n: nat, event: Event)
    | Reply(n: nat, answer: Result<(string, int), string>, at: string)
    | Look(n: nat)
    | Write(n: nat)

  const EMPTY := State(map[], map[], map[], {})

  function Last(h: seq<Record>): Record
    requires h != []
  {
    h[|h| - 1]
  }

  predicate Exists(s: State, id: string) {
    id in s.log && s.log[id] != []
  }

  function Row(s: State, id: string): Record
    requires Exists(s, id)
  {
    Last(s.log[id])
  }

  predicate IsSubmitted(s: State, id: string, hash: string) {
    Exists(s, id) && Row(s, id).status == Submitted && Row(s, id).hash == Some(hash)
  }

  predicate Unused(s: State, n: nat) {
    n !in s.calls && n !in s.passes
  }

  function Drop(s: State, n: nat): State {
    s.(calls := s.calls - {n})
  }

  /** The worker's pass turns into a call, or ends when there is nothing to call or the call refuses its input. */
  function Turned(s: State, n: nat, ask: Option<Ask>): State
    requires n in s.passes
  {
    var t := s.(passes := s.passes - {n});
    if ask.Some? && Proper(ask.value)
    then t.(calls := t.calls[n := Call(s.passes[n].row.id, ask.value, false, None, 0, Some(s.passes[n]))])
    else t
  }

  function Asked(p: Pass): string {
    if p.event.Some? then p.event.value.hash else p.row.hash
  }

  /** The call the worker makes once the RPC has answered. */
  function AskAfter(p: Pass, answer: Answer, at: string): Option<Ask> {
    match if p.event.Some? then FateOfReported(p.event.value, answer) else FateOfSubmitted(p.row.hash, answer)
    case Paid => if answer.Ok? then Some(Confirm(answer.value.hash, answer.value.ledger, at)) else None
    case Broken(code) => Some(Fail(Trim(code)))
    case _ => None
  }

  function DoReport(s: State, n: nat, e: Event): State
    requires n in s.passes
  {
    if SameHash(s.passes[n].row.hash, e.hash) then s.(passes := s.passes[n := s.passes[n].(event := Some(e))])
    else Turned(s, n, Some(Fail("STELLAR_EVENT_TX_MISMATCH")))
  }

  function DoReply(s: State, n: nat, answer: Result<(string, int), string>, at: string): State
    requires n in s.passes
  {
    match answer
    case Err(code) => Turned(s, n, AskAfter(s.passes[n], Err(code), at))
    case Ok((hash, ledger)) =>
      var receipt := Receipt(Asked(s.passes[n]), hash, ledger);
      Turned(s.(receipts := s.receipts + {receipt}), n, AskAfter(s.passes[n], Ok(receipt), at))
  }

  function DoLook(s: State, n: nat): State
    requires n in s.calls
  {
    var c := s.calls[n];
    if Exists(s, c.id) && Judge(c.ask, Row(s, c.id)) == Proceed then
      s.(calls := s.calls[n := c.(seen := Some(Row(s, c.id)))])
    else Drop(s, n)
  }

  function DoWrite(s: State, n: nat): State
    requires n in s.calls && s.calls[n].seen.Some?
  {
    var c := s.calls[n];
    var seen := c.seen.value;
    if Exists(s, c.id) && Row(s, c.id).status == seen.status then
      Drop(s, n).(log := s.log[c.id := s.log[c.id] + [Written(c, seen, Row(s, c.id))]])
    else if !c.api || c.lost + 1 >= ATTEMPTS then Drop(s, n)
    else s.(calls := s.calls[n := c.(seen := None, lost := c.lost + 1)])
  }

  /** One step of the whole system; a step that cannot happen changes nothing. */
  function Do(s: State, a: Action): State {
    match a
    case Create(id) => if id in s.log then s else s.(log := s.log[id := [FRESH]])
    case Begin(n, id, ask) =>
      if !Unused(s, n) || !ByTheApi(ask) || !Proper(ask) then s
      else s.(calls := s.calls[n := Call(id, ask, true, None, 0, None)])
    case BeginExpiry(n, id) =>
      if !Unused(s, n) then s else s.(calls := s.calls[n := Call(id, Expire, false, None, 0, None)])
    case List(n, id) =>
      if Unused(s, n) && Exists(s, id) && Row(s, id).status == Submitted && Row(s, id).hash.Some? then
        s.(passes := s.passes[n := Pass(SubmittedRow(id, Row(s, id).hash.value), None)])
      else s
    case Report(n, e) =>
      if n in s.passes && s.passes[n].event.None? && s.passes[n].row.id == e.id then DoReport(s, n, e) else s
    case Reply(n, answer, at) => if n in s.passes then DoReply(s, n, answer, at) else s
    case Look(n) => if n in s.calls && s.calls[n].seen.None? then DoLook(s, n) else s
    case Write(n) => if n in s.calls && s.calls[n].seen.Some? then DoWrite(s, n) else s
  }

  function Run(s: State, actions: seq<Action>): State
    decreases |actions|
  {
    if actions == [] then s else Run(Do(s, actions[0]), actions[1..])
  }

  // ---------------------------------------------------------------------
  // What every run keeps
  // ---------------------------------------------------------------------

  predicate MovedBy(ask: Ask, p: Record, q: Record) {
    Proper(ask) && Judge(ask, p) == Proceed && q == Patched(ask, p)
  }

  ghost predicate Move(p: Record, q: Record) {
    exists ask :: MovedBy(ask, p, q)
  }

  ghost predicate History(h: seq<Record>) {
    h != [] && h[0] == FRESH && forall i | 0 < i < |h| :: Move(h[i - 1], h[i])
  }

  /** The writes a call has lost show in how far the row has come since. */
  ghost predicate LostSound(s: State, c: Call) {
    && c.lost < ATTEMPTS && (c.lost > 0 ==> c.api && Exists(s, c.id) && Rank(Row(s, c.id).status) > c.lost)
    && (c.seen.Some? ==> Rank(c.seen.value.status) > c.lost)
    && (c.lost > 0 && !c.ask.Fail? ==> c.seen.None? && Rank(Row(s, c.id).status) >= Rank(Target(c.ask)))
  }

  ghost predicate CallSound(s: State, c: Call) {
    && Proper(c.ask) && (c.api ==> ByTheApi(c.ask))
    && (c.seen.Some? ==> c.id in s.log && c.seen.value in s.log[c.id] && Judge(c.ask, c.seen.value) == Proceed)
    && LostSound(s, c)
  }

  ghost predicate Sound(s: State) {
    && (forall id | id in s.log :: History(s.log[id]))
    && (forall n | n in s.calls :: CallSound(s, s.calls[n]))
  }

  /** Nothing recorded is ever rewritten. */
  ghost predicate Grows(s: State, t: State) {
    && s.receipts <= t.receipts
    && forall id | id in s.log :: id in t.log && s.log[id] <= t.log[id]
  }

  lemma MoveAdvances(p: Record, q: Record)
    requires Move(p, q)
    ensures Allowed(p.status, q.status) && Rank(p.status) < Rank(q.status)
  {
    var ask :| MovedBy(ask, p, q);
  }

  function Statuses(h: seq<Record>): (s: seq<Status>)
    ensures |s| == |h| && forall i | 0 <= i < |h| :: s[i] == h[i].status
  {
    seq(|h|, i requires 0 <= i < |h| => h[i].status)
  }

  lemma HistoryIsPath(h: seq<Record>)
    requires History(h)
    ensures Path(Statuses(h))
  {
    forall i | 0 < i < |h| ensures Allowed(h[i - 1].status, h[i].status) {
      MoveAdvances(h[i - 1], h[i]);
    }
  }

  /** Every record is at least waiting for approval. */
  lemma NeverJustCreated(h: seq<Record>, p: Record)
    requires History(h) && p in h
    ensures Rank(p.status) >= 1
  {
    HistoryIsPath(h);
    var i :| 0 <= i < |h| && h[i] == p;
    if i > 0 {
      PathAdvances(Statuses(h), 0, i);
    }
  }

  /** A record with the row's status that the row once held is the one it holds: there is no way back. */
  lemma SameStatusSameRecord(h: seq<Record>, p: Record)
    requires History(h) && p in h
    ensures p.status == Last(h).status ==> p == Last(h)
    ensures p.status != Last(h).status ==> Rank(p.status) < Rank(Last(h).status)
  {
    HistoryIsPath(h);
    var i :| 0 <= i < |h| && h[i] == p;
    if i < |h| - 1 {
      PathAdvances(Statuses(h), i, |h| - 1);
    }
  }

  lemma HistoryExtends(h: seq<Record>, ask: Ask)
    requires History(h) && Proper(ask) && Judge(ask, Last(h)) == Proceed
    ensures History(h + [Patched(ask, Last(h))])
  {
    var h' := h + [Patched(ask, Last(h))];
    assert MovedBy(ask, Last(h), Last(h'));
    forall i | 0 < i < |h'| ensures Move(h'[i - 1], h'[i]) {
      if i < |h| {
        assert Move(h[i - 1], h[i]);
      }
    }
  }

  /** Calls stay sound when rows only grow. */
  lemma CallKept(s: State, t: State, c: Call)
    requires Sound(s) && CallSound(s, c) && Grows(s, t)
    requires forall id | id in t.log :: History(t.log[id])
    ensures CallSound(t, c)
  {
    if c.lost > 0 {
      var h := t.log[c.id];
      assert Row(s, c.id) == h[|s.log[c.id]| - 1];
      SameStatusSameRecord(h, Row(s, c.id));
    }
  }

  lemma AllCallsKept(s: State, t: State)
    requires Sound(s) && Grows(s, t)
    requires forall id | id in t.log :: History(t.log[id])
    ensures forall n | n in s.calls :: CallSound(t, s.calls[n])
  {
    forall n | n in s.calls ensures CallSound(t, s.calls[n]) {
      CallKept(s, t, s.calls[n]);
    }
  }

  /** The service's other calls can be allowed from one status only, so a lost write means the target is passed. */
  lemma LostMeansPassed(ask: Ask, seen: Record, current: Record)
    requires ByTheApi(ask) && !ask.Fail? && Judge(ask, seen) == Proceed && Rank(seen.status) < Rank(current.status)
    ensures Rank(current.status) >= Rank(Target(ask))
  {
  }

  lemma DoSound(s: State, a: Action)
    requires Sound(s)
    ensures Sound(Do(s, a)) && Grows(s, Do(s, a))
  {
    match a
    case Create(id) => AllCallsKept(s, Do(s, a));
    case Begin(n, id, ask) =>
      if ByTheApi(ask) && Proper(ask) {
        NewCall(s, n, Call(id, ask, true, None, 0, None));
      }
    case BeginExpiry(n, id) => NewCall(s, n, Call(id, Expire, false, None, 0, None));
    case List(n, id) => SameCalls(s, Do(s, a));
    case Report(n, e) =>
      if n in s.passes {
        assert s.(receipts := s.receipts) == s;
        TurnedSound(s, n, s.receipts, Some(Fail("STELLAR_EVENT_TX_MISMATCH")));
        SameCalls(s, s.(passes := s.passes[n := s.passes[n].(event := Some(e))]));
      }
    case Reply(n, answer, at) =>
      if n in s.passes {
        ReplySound(s, n, answer, at);
      }
    case Look(n) =>
      if n in s.calls && s.calls[n].seen.None? {
        LookSound(s, n);
      }
    case Write(n) =>
      if n in s.calls && s.calls[n].seen.Some? {
        WriteSound(s, n);
      }
  }

  lemma SameCalls(s: State, t: State)
    requires Sound(s) && t.log == s.log && t.calls == s.calls && t.receipts == s.receipts
    ensures Sound(t) && Grows(s, t)
  {
    AllCallsKept(s, t);
  }

  lemma NewCall(s: State, n: nat, c: Call)
    requires Sound(s) && Proper(c.ask) && (c.api ==> ByTheApi(c.ask)) && c.seen.None? && c.lost == 0
    ensures Sound(s.(calls := s.calls[n := c])) && Grows(s, s.(calls := s.calls[n := c]))
  {
    AllCallsKept(s, s.(calls := s.calls[n := c]));
  }

  lemma TurnedSound(s: State, n: nat, receipts: set<Receipt>, ask: Option<Ask>)
    requires Sound(s) && n in s.passes && s.receipts <= receipts
    ensures
      var t := Turned(s.(receipts := receipts), n, ask);
      Sound(t) && Grows(s, t)
  {
    AllCallsKept(s, Turned(s.(receipts := receipts), n, ask));
  }

  lemma ReplySound(s: State, n: nat, answer: Result<(string, int), string>, at: string)
    requires Sound(s) && n in s.passes
    ensures Sound(DoReply(s, n, answer, at)) && Grows(s, DoReply(s, n, answer, at))
  {
    match answer
    case Err(code) =>
      assert s.(receipts := s.receipts) == s;
      TurnedSound(s, n, s.receipts, AskAfter(s.passes[n], Err(code), at));
    case Ok((hash, ledger)) =>
      var receipt := Receipt(Asked(s.passes[n]), hash, ledger);
      TurnedSound(s, n, s.receipts + {receipt}, AskAfter(s.passes[n], Ok(receipt), at));
  }

  lemma LookSound(s: State, n: nat)
    requires Sound(s) && n in s.calls && s.calls[n].seen.None?
    ensures Sound(DoLook(s, n)) && Grows(s, DoLook(s, n))
  {
    var c := s.calls[n];
    assert CallSound(s, c);
    if Exists(s, c.id) && Judge(c.ask, Row(s, c.id)) == Proceed {
      assert Row(s, c.id) in s.log[c.id];
      NeverJustCreated(s.log[c.id], Row(s, c.id));
      assert Rank(Row(s, c.id).status) < Rank(Target(c.ask));
    }
    var t := DoLook(s, n);
    forall m | m in t.calls ensures CallSound(t, t.calls[m]) {
      if m != n {
        assert CallSound(s, s.calls[m]);
      }
    }
  }

  lemma WriteSound(s: State, n: nat)
    requires Sound(s) && n in s.calls && s.calls[n].seen.Some?
    ensures Sound(DoWrite(s, n)) && Grows(s, DoWrite(s, n))
  {
    var c, t := s.calls[n], DoWrite(s, n);
    assert CallSound(s, c);
    var h := s.log[c.id];
    SameStatusSameRecord(h, c.seen.value);
    if Row(s, c.id).status == c.seen.value.status {
      HistoryExtends(h, c.ask);
    } else if c.api && !c.ask.Fail? {
      LostMeansPassed(c.ask, c.seen.value, Row(s, c.id));
    }
    AllCallsKept(s, t);
  }

  lemma {:induction false} RunSound(s: State, actions: seq<Action>)
    requires Sound(s)
    ensures Sound(Run(s, actions)) && Grows(s, Run(s, actions))
    decreases |actions|
  {
    if actions != [] {
      DoSound(s, actions[0]);
      RunSound(Do(s, actions[0]), actions[1..]);
      GrowsFurther(s, Do(s, actions[0]), Run(s, actions));
    }
  }

  lemma GrowsFurther(s: State, t: State, u: State)
    requires Grows(s, t) && Grows(t, u)
    ensures Grows(s, u)
  {
  }

  // ---------------------------------------------------------------------
  // Confirmations and receipts
  // ---------------------------------------------------------------------

  /** A confirmation that rests on a receipt. */
  predicate Trusted(ask: Ask, receipts: set<Receipt>) {
    ask.Confirm? ==> Backed(ask.hash, ask.ledger, receipts)
  }

  predicate RecordTrusted(r: Record, receipts: set<Receipt>) {
    r.status == Confirmed ==> r.hash.Some? && r.ledger.Some? && Backed(r.hash.value, r.ledger.value, receipts)
  }

  ghost predicate Receipted(s: State) {
    && (forall id | id in s.log :: forall r | r in s.log[id] :: RecordTrusted(r, s.receipts))
    && (forall n | n in s.calls :: Trusted(s.calls[n].ask, s.receipts))
  }

  lemma MoreReceipts(s: State, receipts: set<Receipt>)
    requires Receipted(s) && s.receipts <= receipts
    ensures Receipted(s.(receipts := receipts))
  {
    forall id, r | id in s.log && r in s.log[id] ensures RecordTrusted(r, receipts) {
      assert RecordTrusted(r, s.receipts);
    }
    forall n | n in s.calls ensures Trusted(s.calls[n].ask, receipts) {
      assert Trusted(s.calls[n].ask, s.receipts);
    }
  }

  /** The worker's own comparison is what makes its confirmation trustworthy. */
  lemma AskAfterTrusted(p: Pass, answer: Answer, at: string, receipts: set<Receipt>)
    requires answer.Ok? ==> answer.value in receipts && answer.value.asked == Asked(p)
    requires AskAfter(p, answer, at).Some?
    ensures Trusted(AskAfter(p, answer, at).value, receipts)
  {
    if p.event.Some? {
      if FateOfReported(p.event.value, answer).Paid? {
        ReportedIsBacked(p.event.value, answer, receipts);
      }
    } else if FateOfSubmitted(p.row.hash, answer).Paid? {
      PaidIsBacked(p.row.hash, answer, receipts);
    }
  }

  lemma ReplyReceipted(s: State, n: nat, answer: Result<(string, int), string>, at: string)
    requires Receipted(s) && n in s.passes
    ensures Receipted(DoReply(s, n, answer, at))
  {
    var p := s.passes[n];
    match answer
    case Err(code) =>
      if AskAfter(p, Err(code), at).Some? {
        AskAfterTrusted(p, Err(code), at, s.receipts);
      }
    case Ok((hash, ledger)) =>
      var receipt := Receipt(Asked(p), hash, ledger);
      MoreReceipts(s, s.receipts + {receipt});
      if AskAfter(p, Ok(receipt), at).Some? {
        AskAfterTrusted(p, Ok(receipt), at, s.receipts + {receipt});
      }
  }

  lemma PatchTrusted(ask: Ask, r: Record, receipts: set<Receipt>)
    requires Trusted(ask, receipts)
    ensures RecordTrusted(Patched(ask, r), receipts)
  {
  }

  lemma DoReceipted(s: State, a: Action)
    requires Receipted(s)
    ensures Receipted(Do(s, a))
  {
    match a
    case Reply(n, answer, at) =>
      if n in s.passes {
        ReplyReceipted(s, n, answer, at);
      }
    case Write(n) =>
      if n in s.calls && s.calls[n].seen.Some? {
        var c := s.calls[n];
        if Exists(s, c.id) {
          assert Trusted(c.ask, s.receipts);
          PatchTrusted(c.ask, if c.api then c.seen.value else Row(s, c.id), s.receipts);
        }
      }
    case _ =>
  }

  lemma {:induction false} RunReceipted(s: State, actions: seq<Action>)
    requires Receipted(s)
    ensures Receipted(Run(s, actions))
    decreases |actions|
  {
    if actions != [] {
      DoReceipted(s, actions[0]);
      RunReceipted(Do(s, actions[0]), actions[1..]);
    }
  }

  // ---------------------------------------------------------------------
  // Theorems over every interleaving
  // ---------------------------------------------------------------------

  function Reached(actions: seq<Action>): State {
    Run(EMPTY, actions)
  }

  /** A conditional write that succeeds overwrites exactly the record its caller read. */
  lemma NoLostUpdate(actions: seq<Action>, n: nat)
    requires
      var s := Reached(actions);
      && n in s.calls && s.calls[n].seen.Some? && Exists(s, s.calls[n].id)
      && Row(s, s.calls[n].id).status == s.calls[n].seen.value.status
    ensures
      var s := Reached(actions);
      var c := s.calls[n];
      && c.seen == Some(Row(s, c.id))
      && Do(s, Write(n)).log[c.id] == s.log[c.id] + [Patched(c.ask, Row(s, c.id))]
  {
    RunSound(EMPTY, actions);
    var s := Reached(actions);
    assert CallSound(s, s.calls[n]);
    SameStatusSameRecord(s.log[s.calls[n].id], s.calls[n].seen.value);
  }

  /** Every row's statuses, from its creation on, walk forward through the allowed transitions. */
  lemma RowsAdvance(actions: seq<Action>, id: string)
    requires id in Reached(actions).log
    ensures
      var h := Reached(actions).log[id];
      h != [] && h[0] == FRESH && Path(Statuses(h)) && |h| <= 4
  {
    RunSound(EMPTY, actions);
    var h := Reached(actions).log[id];
    HistoryIsPath(h);
    if |h| > 1 {
      PathAdvances(Statuses(h), 0, |h| - 1);
    }
  }

  lemma {:induction false} RunAppend(s: State, actions: seq<Action>, more: seq<Action>)
    ensures Run(s, actions + more) == Run(Run(s, actions), more)
    decreases |actions|
  {
    if actions == [] {
      assert actions + more == more;
    } else {
      assert (actions + more)[1..] == actions[1..] + more;
      RunAppend(Do(s, actions[0]), actions[1..], more);
    }
  }

  /** Whatever happens later, a terminal row stays as it is. */
  lemma TerminalForever(actions: seq<Action>, more: seq<Action>, id: string)
    requires Exists(Reached(actions), id) && IsTerminal(Row(Reached(actions), id).status)
    ensures Exists(Reached(actions + more), id)
    ensures Row(Reached(actions + more), id) == Row(Reached(actions), id)
  {
    RunAppend(EMPTY, actions, more);
    RunSound(EMPTY, actions);
    RunSound(Reached(actions), more);
    var h, h' := Reached(actions).log[id], Reached(actions + more).log[id];
    HistoryIsPath(h');
    assert h <= h';
    if |h| < |h'| {
      PathAdvances(Statuses(h'), |h| - 1, |h'| - 1);
    }
  }

  /** What each status says about the other fields. */
  predicate RecordSound(r: Record) {
    && r.status != Created && r.status != Rejected
    && (r.hash.Some? ==> HexHash(r.hash.value))
    && (r.status in {AwaitingApproval, Authorized, Expired} ==> r.hash.None?)
    && (r.status in {Submitted, Confirmed} ==> r.hash.Some?)
    && (r.status == Confirmed <==> r.ledger.Some?)
    && (r.ledger.Some? ==> SafePositive(r.ledger.value))
    && (r.status == Failed <==> r.failureCode.Some?)
  }

  predicate HashKept(p: Record, q: Record) {
    p.hash.Some? ==> q.hash.Some? && SameHash(p.hash.value, q.hash.value)
  }

  lemma MoveRecordSound(p: Record, q: Record)
    requires Move(p, q) && RecordSound(p)
    ensures RecordSound(q) && HashKept(p, q)
  {
    var ask :| MovedBy(ask, p, q);
  }

  lemma {:induction false} HistorySound(h: seq<Record>, i: nat, j: nat)
    requires History(h) && i <= j < |h|
    ensures RecordSound(h[j]) && HashKept(h[i], h[j])
  {
    if j > 0 {
      HistorySound(h, if i < j then i else j - 1, j - 1);
      assert Move(h[j - 1], h[j]);
      MoveRecordSound(h[j - 1], h[j]);
    }
  }

  /** A row's hash, once there, is well formed and changes in letter case only. */
  lemma HashFixed(actions: seq<Action>, id: string, i: nat, j: nat)
    requires id in Reached(actions).log && i <= j < |Reached(actions).log[id]|
    ensures
      var h := Reached(actions).log[id];
      && (h[i].status in {Submitted, Confirmed} ==> h[i].hash.Some? && HexHash(h[i].hash.value))
      && (h[i].hash.Some? ==> h[j].hash.Some? && SameHash(h[i].hash.value, h[j].hash.value))
  {
    RunSound(EMPTY, actions);
    HistorySound(Reached(actions).log[id], i, j);
    HistorySound(Reached(actions).log[id], i, i);
  }

  /**
   * Over every run of the service's calls and the worker's own steps - list, ask, compare,
   * confirm - a row is confirmed only with a hash and ledger the RPC returned for that very hash.
   */
  lemma ConfirmedIsBacked(actions: seq<Action>, id: string)
    requires Exists(Reached(actions), id) && Row(Reached(actions), id).status == Confirmed
    ensures
      var s := Reached(actions);
      var r := Row(s, id);
      && r.hash.Some? && r.ledger.Some?
      && exists receipt :: receipt in s.receipts && receipt.hash == r.hash.value && receipt.ledger == r.ledger.value
                           && SameHash(receipt.asked, r.hash.value)
  {
    RunReceipted(EMPTY, actions);
    var s := Reached(actions);
    assert Row(s, id) in s.log[id];
    assert RecordTrusted(Row(s, id), s.receipts);
  }

  // ---------------------------------------------------------------------
  // A confirmation goes back to the row the worker listed and the event it held
  // ---------------------------------------------------------------------

  /** The row was listed as it stood, and the event at hand names its hash. */
  ghost predicate PassSound(s: State, p: Pass) {
    && p.row.id in s.log
    && (exists r :: r in s.log[p.row.id] && r.status == Submitted && r.hash == Some(p.row.hash))
    && (p.event.Some? ==> p.event.value.id == p.row.id && SameHash(p.row.hash, p.event.value.hash))
  }

  /** With an event in hand a confirmation is for the event's own ledger. */
  ghost predicate CallReasoned(s: State, c: Call) {
    && (c.ask.Confirm? ==> c.why.Some?)
    && (c.why.Some? ==> PassSound(s, c.why.value) && c.id == c.why.value.row.id)
    && (c.why.Some? && c.ask.Confirm? ==>
          && SameHash(c.ask.hash, c.why.value.row.hash)
          && (c.why.value.event.Some? ==> c.ask.ledger == c.why.value.event.value.ledger))
  }

  ghost predicate Reasoned(s: State) {
    && (forall n | n in s.passes :: PassSound(s, s.passes[n]))
    && (forall n | n in s.calls :: CallReasoned(s, s.calls[n]))
  }

  lemma PassKept(s: State, t: State, p: Pass)
    requires PassSound(s, p) && Grows(s, t)
    ensures PassSound(t, p)
  {
    var r :| r in s.log[p.row.id] && r.status == Submitted && r.hash == Some(p.row.hash);
    assert r in t.log[p.row.id];
  }

  /** What stays of the passes and calls stays reasoned. */
  lemma ReasonedKept(s: State, t: State)
    requires Reasoned(s) && Grows(s, t)
    requires forall n | n in t.passes :: n in s.passes && t.passes[n] == s.passes[n]
    requires forall n | n in t.calls ::
      && n in s.calls && t.calls[n].why == s.calls[n].why
      && t.calls[n].ask == s.calls[n].ask && t.calls[n].id == s.calls[n].id
    ensures Reasoned(t)
  {
    forall n | n in t.passes ensures PassSound(t, t.passes[n]) {
      PassKept(s, t, s.passes[n]);
    }
    forall n | n in t.calls ensures CallReasoned(t, t.calls[n]) {
      assert CallReasoned(s, s.calls[n]);
      if s.calls[n].why.Some? {
        PassKept(s, t, s.calls[n].why.value);
      }
    }
  }

  lemma TurnedReasoned(s: State, n: nat, ask: Option<Ask>)
    requires Reasoned(s) && n in s.passes
    requires ask.Some? && ask.value.Confirm? ==>
      && SameHash(ask.value.hash, s.passes[n].row.hash)
      && (s.passes[n].event.Some? ==> ask.value.ledger == s.passes[n].event.value.ledger)
    ensures Reasoned(Turned(s, n, ask))
  {
    var t := Turned(s, n, ask);
    assert PassSound(s, s.passes[n]);
    forall m | m in t.calls ensures CallReasoned(t, t.calls[m]) {
      if m in s.calls && t.calls[m] == s.calls[m] {
        assert CallReasoned(s, s.calls[m]);
      } else {
        assert m == n && PassSound(t, s.passes[n]);
      }
    }
    forall m | m in t.passes ensures PassSound(t, t.passes[m]) {
      assert PassSound(s, s.passes[m]);
    }
  }

  lemma ReplyReasoned(s: State, n: nat, answer: Result<(string, int), string>, at: string)
    requires Reasoned(s) && n in s.passes
    ensures Reasoned(DoReply(s, n, answer, at))
  {
    assert PassSound(s, s.passes[n]);
    match answer
    case Err(code) => TurnedReasoned(s, n, AskAfter(s.passes[n], Err(code), at));
    case Ok((hash, ledger)) =>
      var receipt := Receipt(Asked(s.passes[n]), hash, ledger);
      var t := s.(receipts := s.receipts + {receipt});
      ReasonedKept(s, t);
      TurnedReasoned(t, n, AskAfter(s.passes[n], Ok(receipt), at));
  }

  lemma PassesReasoned(s: State, n: nat, p: Pass)
    requires Reasoned(s) && PassSound(s, p)
    ensures Reasoned(s.(passes := s.passes[n := p]))
  {
    var t := s.(passes := s.passes[n := p]);
    forall m | m in t.passes ensures PassSound(t, t.passes[m]) {
      assert PassSound(s, t.passes[m]);
    }
    forall m | m in t.calls ensures CallReasoned(t, t.calls[m]) {
      assert CallReasoned(s, s.calls[m]);
    }
  }

  lemma NewCallReasoned(s: State, n: nat, c: Call)
    requires Reasoned(s) && c.why.None? && !c.ask.Confirm?
    ensures Reasoned(s.(calls := s.calls[n := c]))
  {
    var t := s.(calls := s.calls[n := c]);
    forall m | m in t.passes ensures PassSound(t, t.passes[m]) {
      assert PassSound(s, s.passes[m]);
    }
    forall m | m in t.calls ensures CallReasoned(t, t.calls[m]) {
      assert m != n ==> CallReasoned(s, s.calls[m]);
    }
  }

  lemma ReportReasoned(s: State, n: nat, e: Event)
    requires Reasoned(s) && n in s.passes && s.passes[n].row.id == e.id
    ensures Reasoned(DoReport(s, n, e))
  {
    assert PassSound(s, s.passes[n]);
    if SameHash(s.passes[n].row.hash, e.hash) {
      PassesReasoned(s, n, s.passes[n].(event := Some(e)));
    } else {
      TurnedReasoned(s, n, Some(Fail("STELLAR_EVENT_TX_MISMATCH")));
    }
  }

  /** Reading and writing change no call's reasons. */
  lemma LookReasoned(s: State, n: nat)
    requires Sound(s) && Reasoned(s) && n in s.calls && s.calls[n].seen.None?
    ensures Reasoned(DoLook(s, n))
  {
    LookSound(s, n);
    ReasonedKept(s, DoLook(s, n));
  }

  lemma WriteReasoned(s: State, n: nat)
    requires Sound(s) && Reasoned(s) && n in s.calls && s.calls[n].seen.Some?
    ensures Reasoned(DoWrite(s, n))
  {
    WriteSound(s, n);
    ReasonedKept(s, DoWrite(s, n));
  }

  lemma DoReasoned(s: State, a: Action)
    requires Sound(s) && Reasoned(s)
    ensures Reasoned(Do(s, a))
  {
    match a
    case Begin(n, id, ask) =>
      if Do(s, a) != s {
        NewCallReasoned(s, n, Call(id, ask, true, None, 0, None));
      }
    case BeginExpiry(n, id) =>
      if Do(s, a) != s {
        NewCallReasoned(s, n, Call(id, Expire, false, None, 0, None));
      }
    case List(n, id) =>
      if Do(s, a) != s {
        assert Row(s, id) in s.log[id];
        PassesReasoned(s, n, Pass(SubmittedRow(id, Row(s, id).hash.value), None));
      }
    case Report(n, e) =>
      if Do(s, a) != s {
        ReportReasoned(s, n, e);
      }
    case Reply(n, answer, at) =>
      if n in s.passes {
        ReplyReasoned(s, n, answer, at);
      }
    case Look(n) =>
      if n in s.calls && s.calls[n].seen.None? {
        LookReasoned(s, n);
      }
    case Write(n) =>
      if n in s.calls && s.calls[n].seen.Some? {
        WriteReasoned(s, n);
      }
    case Create(_) =>
      DoSound(s, a);
      ReasonedKept(s, Do(s, a));
  }

  lemma {:induction false} RunReasoned(s: State, actions: seq<Action>)
    requires Sound(s) && Reasoned(s)
    ensures Reasoned(Run(s, actions))
    decreases |actions|
  {
    if actions != [] {
      DoSound(s, actions[0]);
      DoReasoned(s, actions[0]);
      RunReasoned(Do(s, actions[0]), actions[1..]);
    }
  }

  /**
   * Over every run, a call that confirms a row came out of a pass over that very row, is for the
   * hash the row was listed with up to letter case, and, if the pass held an event, for the event's
   * hash and ledger; and its write leaves just these on the row.
   */
  lemma ConfirmedAsReported(actions: seq<Action>, n: nat)
    requires n in Reached(actions).calls && Reached(actions).calls[n].ask.Confirm?
    ensures
      var s := Reached(actions);
      var c := s.calls[n];
      && c.why.Some? && c.why.value.row.id == c.id && SameHash(c.ask.hash, c.why.value.row.hash)
      && (c.why.value.event.Some? ==>
            c.why.value.event.value.id == c.id && c.ask.ledger == c.why.value.event.value.ledger
            && SameHash(c.why.value.row.hash, c.why.value.event.value.hash))
      && (n !in Do(s, Write(n)).calls && Do(s, Write(n)).log != s.log ==>
            && Exists(Do(s, Write(n)), c.id)
            && Row(Do(s, Write(n)), c.id).hash == Some(c.ask.hash)
            && Row(Do(s, Write(n)), c.id).ledger == Some(c.ask.ledger))
  {
    RunSound(EMPTY, actions);
    RunReasoned(EMPTY, actions);
    var s := Reached(actions);
    assert CallReasoned(s, s.calls[n]);
  }

  /** A call of the service that runs out of attempts is a failing one, and the row is terminal by then. */
  lemma GivingUpMeansTerminal(actions: seq<Action>, n: nat)
    requires n in Reached(actions).calls && Reached(actions).calls[n].api && Reached(actions).calls[n].seen.Some?
    requires
      var s := Reached(actions);
      var c := s.calls[n];
      Exists(s, c.id) && Row(s, c.id).status != c.seen.value.status && c.lost + 1 >= ATTEMPTS
    ensures
      var s := Reached(actions);
      s.calls[n].ask.Fail? && IsTerminal(Row(s, s.calls[n].id).status)
  {
    RunSound(EMPTY, actions);
    var s := Reached(actions);
    var c := s.calls[n];
    assert CallSound(s, c);
    SameStatusSameRecord(s.log[c.id], c.seen.value);
    assert Rank(Row(s, c.id).status) > 3;
  }

  /** An authorize or submit call that is about to write has lost no write before. */
  lemma NeverGivesUp(actions: seq<Action>, n: nat)
    requires n in Reached(actions).calls && Reached(actions).calls[n].seen.Some?
    requires Reached(actions).calls[n].ask.Authorize? || Reached(actions).calls[n].ask.Submit?
    ensures Reached(actions).calls[n].lost == 0
  {
    RunSound(EMPTY, actions);
    assert CallSound(Reached(actions), Reached(actions).calls[n]);
  }

  // ---------------------------------------------------------------------
  // Three attempts: no fewer would do, and a call can need them all
  // ---------------------------------------------------------------------

  /** Call n reads; the service's call m reads and writes in full; n's write comes too late. */
  function Overtaking(n: nat, m: nat, id: string, rival: Ask): seq<Action> {
    [Look(n), Begin(m, id, rival), Look(m), Write(m), Write(n)]
  }

  /** The same with the worker confirming, up to where n is about to write. */
  function OvertakenByWorker(n: nat, m: nat, id: string, hash: string, ledger: int, at: string): seq<Action> {
    [Look(n), List(m, id), Reply(m, Ok((hash, ledger)), at), Look(m), Write(m)]
  }

  lemma FirstStep(s: State, a: Action, rest: seq<Action>)
    ensures Run(s, [a] + rest) == Run(Do(s, a), rest)
  {
    assert ([a] + rest)[1..] == rest;
  }

  lemma FiveSteps(s: State, a: Action, b: Action, c: Action, d: Action, e: Action)
    ensures Run(s, [a, b, c, d, e]) == Do(Do(Do(Do(Do(s, a), b), c), d), e)
  {
    FirstStep(s, a, [b, c, d, e]);
    FirstStep(Do(s, a), b, [c, d, e]);
    FirstStep(Do(Do(s, a), b), c, [d, e]);
    FirstStep(Do(Do(Do(s, a), b), c), d, [e]);
    FirstStep(Do(Do(Do(Do(s, a), b), c), d), e, []);
    assert [a, b, c, d, e] == [a] + [b, c, d, e] && [b, c, d, e] == [b] + [c, d, e] && [c, d, e] == [c] + [d, e];
    assert [d, e] == [d] + [e] && [e] == [e] + [];
  }

  /** A call that reads and writes with nothing in between has its way. */
  lemma GoesThrough(s: State, m: nat)
    requires m in s.calls && s.calls[m].seen.None? && Exists(s, s.calls[m].id)
    requires Judge(s.calls[m].ask, Row(s, s.calls[m].id)) == Proceed
    ensures
      var c := s.calls[m];
      Do(Do(s, Look(m)), Write(m))
        == s.(log := s.log[c.id := s.log[c.id] + [Patched(c.ask, Row(s, c.id))]], calls := s.calls - {m})
  {
    var c := s.calls[m];
    assert Do(s, Look(m)) == s.(calls := s.calls[m := c.(seen := Some(Row(s, c.id)))]);
    assert s.calls[m := c.(seen := Some(Row(s, c.id)))] - {m} == s.calls - {m};
  }

  /** A failing call of the service, which none of its routes makes, waiting to read. */
  predicate Failing(s: State, n: nat, id: string, lost: nat) {
    && n in s.calls && s.calls[n].id == id && s.calls[n].ask.Fail? && s.calls[n].api
    && s.calls[n].seen.None? && s.calls[n].lost == lost
  }

  lemma LosesOnce(s: State, n: nat, m: nat, id: string, rival: Ask, lost: nat)
    requires Failing(s, n, id, lost) && lost + 1 < ATTEMPTS && Unused(s, m) && Exists(s, id)
    requires Allowed(Row(s, id).status, Failed)
    requires ByTheApi(rival) && Proper(rival) && Judge(rival, Row(s, id)) == Proceed
    ensures
      var t := Run(s, Overtaking(n, m, id, rival));
      && Failing(t, n, id, lost + 1) && Unused(t, m) && Exists(t, id)
      && Row(t, id) == Patched(rival, Row(s, id)) && t.passes == s.passes
  {
    FiveSteps(s, Look(n), Begin(m, id, rival), Look(m), Write(m), Write(n));
    var row, c := Row(s, id), Call(id, rival, true, None, 0, None);
    var s1 := Do(s, Look(n));
    assert s1 == s.(calls := s.calls[n := s.calls[n].(seen := Some(row))]);
    var s2 := Do(s1, Begin(m, id, rival));
    assert s2 == s1.(calls := s1.calls[m := c]);
    GoesThrough(s2, m);
    var s4 := Do(Do(s2, Look(m)), Write(m));
    assert s4.log[id] == s.log[id] + [Patched(rival, row)] && s4.calls[n] == s1.calls[n];
  }

  lemma LosesToWorker(s: State, n: nat, m: nat, id: string, hash: string, ledger: int, at: string, lost: nat)
    requires Failing(s, n, id, lost) && Unused(s, m)
    requires IsSubmitted(s, id, hash) && HexHash(hash) && SafePositive(ledger)
    ensures
      var t := Run(s, OvertakenByWorker(n, m, id, hash, ledger, at));
      && n in t.calls && t.calls[n] == s.calls[n].(seen := Some(Row(s, id))) && Exists(t, id)
      && Row(t, id) == Patched(Confirm(hash, ledger, at), Row(s, id))
  {
    FiveSteps(s, Look(n), List(m, id), Reply(m, Ok((hash, ledger)), at), Look(m), Write(m));
    var row, confirm := Row(s, id), Confirm(hash, ledger, at);
    var s1 := Do(s, Look(n));
    assert s1 == s.(calls := s.calls[n := s.calls[n].(seen := Some(row))]);
    ListsAndAsks(s1, m, id, hash, ledger, at);
    var s3 := Do(Do(s1, List(m, id)), Reply(m, Ok((hash, ledger)), at));
    GoesThrough(s3, m);
    var s5 := Do(Do(s3, Look(m)), Write(m));
    assert s5.log[id] == s.log[id] + [Patched(confirm, row)] && s5.calls[n] == s1.calls[n];
  }

  /** The worker lists a submitted row and its receipt turns up at once. */
  lemma ListsAndAsks(s: State, m: nat, id: string, hash: string, ledger: int, at: string)
    requires Unused(s, m) && IsSubmitted(s, id, hash) && HexHash(hash) && SafePositive(ledger)
    ensures
      var t := Do(Do(s, List(m, id)), Reply(m, Ok((hash, ledger)), at));
      && t.log == s.log
      && t.calls == s.calls[m := Call(id, Confirm(hash, ledger, at), false, None, 0,
                                      Some(Pass(SubmittedRow(id, hash), None)))]
  {
    var p := Pass(SubmittedRow(id, hash), None);
    assert Do(s, List(m, id)) == s.(passes := s.passes[m := p]);
    assert AskAfter(p, Ok(Receipt(hash, hash, ledger)), at) == Some(Confirm(hash, ledger, at));
  }

  function Hurried(id: string, hash: string): seq<Action> {
    [Create(id), Begin(0, id, Fail("x"))] + Overtaking(0, 1, id, Authorize) + Overtaking(0, 1, id, Submit(hash))
  }

  lemma TwoLost(id: string, hash: string)
    requires HexHash(hash)
    ensures
      var s := Reached(Hurried(id, hash));
      Failing(s, 0, id, 2) && Unused(s, 1) && IsSubmitted(s, id, hash)
  {
    var start := [Create(id), Begin(0, id, Fail("x"))];
    var one, two := Overtaking(0, 1, id, Authorize), Overtaking(0, 1, id, Submit(hash));
    RunAppend(EMPTY, start, one);
    RunAppend(EMPTY, start + one, two);
    Started(id);
    LosesOnce(Run(EMPTY, start), 0, 1, id, Authorize, 0);
    LosesOnce(Run(Run(EMPTY, start), one), 0, 1, id, Submit(hash), 1);
  }

  lemma GivesUp(s: State, n: nat)
    requires n in s.calls && s.calls[n].seen.Some? && s.calls[n].lost + 1 >= ATTEMPTS && Exists(s, s.calls[n].id)
    requires Row(s, s.calls[n].id).status != s.calls[n].seen.value.status
    ensures n !in Do(s, Write(n)).calls && Do(s, Write(n)).log == s.log
  {
  }

  /**
   * A run in which a failing call loses two writes with the row still open to it, so that two
   * attempts would have been too few; and one step of the worker later it loses the third.
   */
  lemma ThreeIsExact(id: string, hash: string, at: string)
    requires HexHash(hash)
    ensures
      var s := Reached(Hurried(id, hash));
      && Failing(s, 0, id, 2) && Exists(s, id) && !IsTerminal(Row(s, id).status) && Allowed(Row(s, id).status, Failed)
    ensures
      var t := Reached(Hurried(id, hash) + OvertakenByWorker(0, 1, id, hash, 1, at));
      && 0 in t.calls && t.calls[0].lost + 1 == ATTEMPTS && t.calls[0].seen.Some?
      && Exists(t, id) && Row(t, id).status == Confirmed
      && 0 !in Do(t, Write(0)).calls && Do(t, Write(0)).log == t.log
  {
    TwoLost(id, hash);
    RunAppend(EMPTY, Hurried(id, hash), OvertakenByWorker(0, 1, id, hash, 1, at));
    LosesToWorker(Reached(Hurried(id, hash)), 0, 1, id, hash, 1, at, 2);
    GivesUp(Reached(Hurried(id, hash) + OvertakenByWorker(0, 1, id, hash, 1, at)), 0);
  }

  lemma Started(id: string)
    ensures
      var s := Run(EMPTY, [Create(id), Begin(0, id, Fail("x"))]);
      Failing(s, 0, id, 0) && Unused(s, 1) && Exists(s, id) && Row(s, id) == FRESH
  {
    var a, b := Create(id), Begin(0, id, Fail("x"));
    FirstStep(EMPTY, a, [b]);
    FirstStep(Do(EMPTY, a), b, []);
    assert [a, b] == [a] + [b] && [b] == [b] + [];
  }

  // ---------------------------------------------------------------------
  // The parts of a step, said outright
  // ---------------------------------------------------------------------

  /** What each call leaves on a row: its own fields and no others. */
  lemma PatchMeans(ask: Ask, r: Record)
    ensures
      var q := Patched(ask, r);
      match ask
      case Authorize => q == Record(Authorized, r.hash, r.ledger, r.failureCode, r.confirmedAt)
      case Submit(h) => q == Record(Submitted, Some(h), r.ledger, r.failureCode, r.confirmedAt)
      case Confirm(h, l, at) => q == Record(Confirmed, Some(h), Some(l), r.failureCode, Some(at))
      case Fail(code) => q == Record(Failed, r.hash, r.ledger, Some(code), r.confirmedAt)
      case Expire => q == Record(Expired, r.hash, r.ledger, r.failureCode, r.confirmedAt)
  {
  }

  /** What input each call accepts. */
  lemma ProperMeans(ask: Ask)
    ensures
      Proper(ask) <==>
        match ask
        case Submit(h) => Matches(h, [Part(HEXADECIMAL, 64)])
        case Confirm(h, l, _) => Matches(h, [Part(HEXADECIMAL, 64)]) && 1 <= l < Pow2(53)
        case Fail(code) => |code| > 0
        case _ => true
  {
    match ask
    case Submit(h) => HexHashPattern(h);
    case Confirm(h, l, _) =>
      HexHashPattern(h);
      WidthsAre(l);
    case _ =>
  }

  /**
   * What the worker does once the RPC has answered: it confirms with the receipt when that pays, waits
   * while there is none, and fails the payment in every other case.
   */
  lemma AskAfterMeans(p: Pass, answer: Answer, at: string)
    ensures
      var asked := AskAfter(p, answer, at);
      var pays := if p.event.Some?
                  then answer.Ok? && SameHash(answer.value.hash, p.event.value.hash)
                       && answer.value.ledger == p.event.value.ledger
                  else answer.Ok? && SameHash(answer.value.hash, p.row.hash);
      if pays then asked == Some(Confirm(answer.value.hash, answer.value.ledger, at))
      else if answer == Err("NOT_FOUND") then asked == None
      else asked.Some? && asked.value.Fail?
  {
  }

  /** An event that names another hash than the listed one fails the payment; one that names it is kept. */
  lemma ReportMeans(s: State, n: nat, e: Event)
    requires n in s.passes && s.passes[n].event.None? && s.passes[n].row.id == e.id
    ensures
      var t := Do(s, Report(n, e));
      if SameHash(s.passes[n].row.hash, e.hash)
      then n in t.passes && t.passes[n] == Pass(s.passes[n].row, Some(e)) && t.calls == s.calls
      else n !in t.passes && n in t.calls && t.calls[n].ask == Fail("STELLAR_EVENT_TX_MISMATCH")
           && t.calls[n].id == e.id && !t.calls[n].api
  {
  }

  /** Over every run a confirmed row has a positive ledger that JavaScript holds exactly. */
  lemma LedgersAreSafe(actions: seq<Action>, id: string)
    requires Exists(Reached(actions), id) && Row(Reached(actions), id).status == Confirmed
    ensures
      var r := Row(Reached(actions), id);
      r.ledger.Some? && 1 <= r.ledger.value < Pow2(53)
  {
    RunSound(EMPTY, actions);
    var h := Reached(actions).log[id];
    HistorySound(h, |h| - 1, |h| - 1);
    WidthsAre(h[|h| - 1].ledger.value);
  }

  /** Every step that can be taken does something: rows are created, calls and passes begin. */
  lemma StepsHappen(s: State, n: nat, id: string, ask: Ask)
    ensures id !in s.log ==> Do(s, Create(id)) == s.(log := s.log[id := [FRESH]])
    ensures Unused(s, n) && (ask.Authorize? || ask.Submit? || ask.Fail?) && Proper(ask) ==>
              Do(s, Begin(n, id, ask)) == s.(calls := s.calls[n := Call(id, ask, true, None, 0, None)])
    ensures Unused(s, n) ==>
              Do(s, BeginExpiry(n, id)) == s.(calls := s.calls[n := Call(id, Expire, false, None, 0, None)])
    ensures Unused(s, n) && Exists(s, id) && Row(s, id).status == Submitted && Row(s, id).hash.Some? ==>
              Do(s, List(n, id)) == s.(passes := s.passes[n := Pass(SubmittedRow(id, Row(s, id).hash.value), None)])
  {
  }

  /** And a call that is begun and left alone makes its move, if the row is open to it. */
  lemma AloneInTurn(s: State, n: nat, id: string, ask: Ask)
    requires Unused(s, n) && Exists(s, id) && (ask.Authorize? || ask.Submit? || ask.Fail? || ask.Expire?) && Proper(ask)
    requires Judge(ask, Row(s, id)) == Proceed
    ensures
      var t := Do(s, if ask.Expire? then BeginExpiry(n, id) else Begin(n, id, ask));
      Do(Do(t, Look(n)), Write(n)) == s.(log := s.log[id := s.log[id] + [Patched(ask, Row(s, id))]])
  {
    StepsHappen(s, n, id, ask);
    var t := Do(s, if ask.Expire? then BeginExpiry(n, id) else Begin(n, id, ask));
    GoesThrough(t, n);
    assert t.calls - {n} == s.calls;
  }
}
