/** The worker's passes over submitted, reported and stale settlements. */
module ConfirmationLoops {
  import opened Base
  import opened Formats
  import opened Payment
  import opened Reconciliation
  import opened Lifecycle
  import opened SettlementCalls

  datatype Stale = Stale(id: string, expiresAtLedger: int)

  datatype Summary = Summary(scanned: nat, confirmed: nat, failed: nat, pending: nat, ignored: nat)

  datatype ExpirySummary = ExpirySummary(scanned: nat, expired: nat)

  const NOTHING_YET := Summary(0, 0, 0, 0, 0)

  // ---------------------------------------------------------------------
  // What becomes of one settlement, and of one event
  // ---------------------------------------------------------------------

  /** What has happened to a row by the time a pass calls it confirmed or failed. */
  ghost predicate Came(s: State, id: string, hash: string, fate: Fate) {
    match fate
    case Paid => CameTo(s, id, Ask.Confirm(hash, 0, ""))
    case Broken(code) => CameTo(s, id, Ask.Fail(Trim(code)))
    case _ => true
  }

  lemma CameKept(s: State, t: State, id: string, hash: string, fate: Fate)
    requires Came(s, id, hash, fate) && Grows(s, t)
    ensures Came(t, id, hash, fate)
  {
    match fate
    case Paid => CameToKept(s, t, id, Ask.Confirm(hash, 0, ""));
    case Broken(code) => CameToKept(s, t, id, Ask.Fail(Trim(code)));
    case _ =>
  }

  /** A confirmation with the receipt's spelling of the hash is one with the row's. */
  lemma PaidCame(s: State, id: string, receipt: Receipt, at: string, hash: string)
    requires CameTo(s, id, Ask.Confirm(receipt.hash, receipt.ledger, at)) && SameHash(receipt.hash, hash)
    ensures Came(s, id, hash, Paid)
  {
    var p :| p in s.log[id] && Fits(Ask.Confirm(receipt.hash, receipt.ledger, at), p);
    assert Fits(Ask.Confirm(hash, 0, ""), p);
  }

  /** The call a fate asks for. */
  function CallFor(fate: Fate, answer: Answer, at: string): Option<Ask> {
    match fate
    case Paid => if answer.Ok? then Some(Ask.Confirm(answer.value.hash, answer.value.ledger, at)) else None
    case Broken(code) => Some(Ask.Fail(Trim(code)))
    case _ => None
  }

  function ErrorOf<T>(r: Result<T, CallError>): Option<CallError> {
    if r.Err? then Some(r.error) else None
  }

  /** How a turn ended: as the call its fate asks for did; one that asks for none always comes through. */
  ghost predicate TurnEnded(before: State, after: State, id: string, fate: Fate, answer: Answer, at: string,
                            wrote: bool, error: Option<CallError>) {
    match CallFor(fate, answer, at)
    case Some(ask) => Ended(before, after, id, ask, wrote, error)
    case None => error.None? && !wrote
  }

  ghost predicate TurnCame(before: State, after: State, id: string, fate: Fate, answer: Answer,
                           wrote: bool, error: Option<CallError>) {
    exists at :: TurnEnded(before, after, id, fate, answer, at, wrote, error)
  }

  /** A turn of this fate ended in this error and wrote nothing. */
  ghost predicate Stopped(before: State, after: State, id: string, fate: Fate, answer: Answer, error: CallError) {
    TurnCame(before, after, id, fate, answer, false, Some(error))
  }

  lemma StoppedEarlier(before: State, later: State, after: State, id: string, fate: Fate, answer: Answer,
                       at: string, error: CallError)
    requires Grows(before, later) && TurnEnded(later, after, id, fate, answer, at, false, Some(error))
    ensures Stopped(before, after, id, fate, answer, error)
  {
    EndedEarlier(before, later, after, id, CallFor(fate, answer, at).value, false, Some(error));
    assert TurnEnded(before, after, id, fate, answer, at, false, Some(error));
  }

  /** A write of the worker's that its fate asked for. */
  predicate DeedFor(d: Deed, id: string, fate: Fate, answer: Answer) {
    && d.id == id
    && match fate
       case Paid =>
         answer.Ok? && d.ask.Confirm? && d.ask.hash == answer.value.hash && d.ask.ledger == answer.value.ledger
       case Broken(code) => d.ask == Ask.Fail(Trim(code))
       case _ => false
  }

  /** One turn wrote nothing, or just what its fate asks for. */
  predicate DidOnly(before: seq<Deed>, after: seq<Deed>, id: string, fate: Fate, answer: Answer) {
    || after == before
    || (|after| == |before| + 1 && before <= after && DeedFor(after[|before|], id, fate, answer))
  }

  /** All that was written since `before` is what the fates of these turns asked for. */
  ghost predicate AllDeeds(before: seq<Deed>, after: seq<Deed>, ids: seq<string>, answers: seq<Answer>,
                           fates: seq<Fate>)
    requires |answers| == |fates| <= |ids|
  {
    && before <= after
    && forall k | |before| <= k < |after| ::
      exists i :: 0 <= i < |fates| && DeedFor(after[k], ids[i], fates[i], answers[i])
  }

  lemma DeedsGoOn(before: seq<Deed>, now: seq<Deed>, after: seq<Deed>, ids: seq<string>, answers: seq<Answer>,
                  fates: seq<Fate>, answer: Answer, fate: Fate)
    requires |answers| == |fates| < |ids| && AllDeeds(before, now, ids, answers, fates)
    requires DidOnly(now, after, ids[|fates|], fate, answer)
    ensures AllDeeds(before, after, ids, answers + [answer], fates + [fate])
  {
    var more, also := fates + [fate], answers + [answer];
    forall k | |before| <= k < |after|
      ensures exists i :: 0 <= i < |more| && DeedFor(after[k], ids[i], more[i], also[i])
    {
      if k < |now| {
        var i :| 0 <= i < |fates| && DeedFor(now[k], ids[i], fates[i], answers[i]);
        assert DeedFor(after[k], ids[i], more[i], also[i]);
      } else {
        assert DeedFor(after[k], ids[|fates|], more[|fates|], also[|fates|]);
      }
    }
  }

  function Counted(t: Summary, fate: Fate): Summary {
    var u := t.(scanned := t.scanned + 1);
    match fate
    case Paid => u.(confirmed := u.confirmed + 1)
    case Broken(_) => u.(failed := u.failed + 1)
    case Pending => u.(pending := u.pending + 1)
    case Ignored => u.(ignored := u.ignored + 1)
  }

  function Tally(fates: seq<Fate>): (t: Summary)
    ensures t.scanned == |fates| == t.confirmed + t.failed + t.pending + t.ignored
  {
    if fates == [] then NOTHING_YET else Counted(Tally(fates[..|fates| - 1]), fates[|fates| - 1])
  }

  lemma TallyOneMore(fates: seq<Fate>, fate: Fate)
    ensures Tally(fates + [fate]) == Counted(Tally(fates), fate)
  {
    assert (fates + [fate])[..|fates|] == fates;
  }

  lemma {:induction false} TallyCounts(fates: seq<Fate>)
    ensures Tally(fates).confirmed == |Those(fates, (f: Fate) => f.Paid?)|
    ensures Tally(fates).failed == |Those(fates, (f: Fate) => f.Broken?)|
    ensures Tally(fates).pending == |Those(fates, (f: Fate) => f.Pending?)|
    ensures Tally(fates).ignored == |Those(fates, (f: Fate) => f.Ignored?)|
  {
    if fates != [] {
      TallyCounts(fates[..|fates| - 1]);
    }
  }

  function Those(fates: seq<Fate>, p: Fate -> bool): seq<Fate> {
    if fates == [] then []
    else Those(fates[..|fates| - 1], p) + if p(fates[|fates| - 1]) then [fates[|fates| - 1]] else []
  }

  // ---------------------------------------------------------------------
  // The ports
  // ---------------------------------------------------------------------

  lemma OnTheRecord(s: State, r: Receipt)
    requires Sound(s)
    ensures
      var t := s.(receipts := s.receipts + {r});
      Sound(t) && Grows(s, t) && (Receipted(s) ==> Receipted(t))
  {
    var t := s.(receipts := s.receipts + {r});
    AllCallsKept(s, t);
    if Receipted(s) {
      MoreReceipts(s, t.receipts);
    }
  }

  /** The RPC answers as it likes; an answer that is a receipt is on record. */
  method ConfirmTransaction(s: Settlements, hash: string) returns (answer: Answer)
    requires s.Valid()
    modifies s`state
    ensures s.Valid() && Grows(old(s.state), s.state) && (Receipted(old(s.state)) ==> Receipted(s.state))
    ensures answer.Ok? ==> answer.value in s.state.receipts && answer.value.asked == hash
  {
    if * {
      var receipt: Receipt := *;
      receipt := receipt.(asked := hash);
      OnTheRecord(s.state, receipt);
      s.state := s.state.(receipts := s.state.receipts + {receipt});
      return Ok(receipt);
    }
    var code: string := *;
    return Err(code);
  }

  /** An id as the numbers it is ordered by. */
  function Codes(id: string): (r: seq<int>)
    ensures |r| == |id| && forall i | 0 <= i < |r| :: r[i] == id[i] as int
  {
    seq(|id|, i requires 0 <= i < |id| => id[i] as int)
  }

  lemma CodesInjective(a: string, b: string)
    ensures Codes(a) == Codes(b) <==> a == b
  {
    if Codes(a) == Codes(b) {
      forall i | 0 <= i < |a| ensures a[i] == b[i] {
        assert Codes(a)[i] == Codes(b)[i];
      }
    }
  }

  predicate ById(rows: seq<SubmittedRow>) {
    forall i, j | 0 <= i < j < |rows| :: Less(Codes(rows[i].id), Codes(rows[j].id))
  }

  /** Puts a row in its place. */
  function Placed(row: SubmittedRow, rows: seq<SubmittedRow>): (r: seq<SubmittedRow>)
    ensures forall x :: x in r <==> x == row || x in rows
  {
    if rows == [] || Less(Codes(row.id), Codes(rows[0].id)) then [row] + rows
    else
      assert rows == [rows[0]] + rows[1..];
      [rows[0]] + Placed(row, rows[1..])
  }

  lemma {:induction false} PlacedById(row: SubmittedRow, rows: seq<SubmittedRow>)
    requires ById(rows) && forall x | x in rows :: x.id != row.id
    ensures ById(Placed(row, rows))
  {
    if rows == [] {
    } else if Less(Codes(row.id), Codes(rows[0].id)) {
      forall j | 0 < j < |rows| ensures Less(Codes(row.id), Codes(rows[j].id)) {
        LessTransitive(Codes(row.id), Codes(rows[0].id), Codes(rows[j].id));
      }
    } else {
      PlacedById(row, rows[1..]);
      assert rows[0] in rows;
      CodesInjective(row.id, rows[0].id);
      LessTotal(Codes(row.id), Codes(rows[0].id));
      var rest := Placed(row, rows[1..]);
      forall j | 0 <= j < |rest| ensures Less(Codes(rows[0].id), Codes(rest[j].id)) {
        assert rest[j] in rest;
        if rest[j] != row {
          var k :| 0 <= k < |rows[1..]| && rows[1..][k] == rest[j];
          assert rows[k + 1] == rest[j];
        }
      }
    }
  }

  lemma ByIdDistinct(rows: seq<SubmittedRow>)
    requires ById(rows)
    ensures forall p, q | p in rows && q in rows && p.id == q.id :: p == q
  {
    forall p, q | p in rows && q in rows && p.id == q.id ensures p == q {
      LessIrreflexive(Codes(p.id));
    }
  }

  /** Every row that is submitted, in the order of the ids; each carries a well-formed hash. */
  ghost predicate ListsSubmitted(s: State, rows: seq<SubmittedRow>) {
    && (forall r | r in rows :: IsSubmitted(s, r.id, r.hash) && HexHash(r.hash))
    && (forall id | Exists(s, id) && Row(s, id).status == Status.Submitted :: exists r :: r in rows && r.id == id)
    && ById(rows)
  }

  method ListSubmittedSettlements(s: Settlements) returns (rows: seq<SubmittedRow>)
    requires s.Valid()
    ensures ListsSubmitted(s.state, rows)
  {
    var todo := s.state.log.Keys;
    rows := [];
    while todo != {}
      invariant todo <= s.state.log.Keys && ById(rows)
      invariant forall r | r in rows :: r.id !in todo && IsSubmitted(s.state, r.id, r.hash) && HexHash(r.hash)
      invariant forall id | Exists(s.state, id) && id !in todo && Row(s.state, id).status == Status.Submitted ::
          exists r :: r in rows && r.id == id
      decreases |todo|
    {
      var id :| id in todo;
      todo := todo - {id};
      var row := Row(s.state, id);
      if row.status == Status.Submitted {
        HistorySound(s.state.log[id], 0, |s.state.log[id]| - 1);
        var listed := SubmittedRow(id, row.hash.value);
        PlacedById(listed, rows);
        ghost var before := rows;
        rows := Placed(listed, rows);
        assert listed in rows && forall r | r in before :: r in rows;
      }
    }
  }

  // ---------------------------------------------------------------------
  // Submitted settlements
  // ---------------------------------------------------------------------

  /** Fails a payment, as the fate its code stands for asks. */
  method Break(s: Settlements, id: string, code: string) returns (r: Result<Fate, CallError>)
    requires s.Valid()
    modifies s
    ensures s.Valid() && Grows(old(s.state), s.state) && (Receipted(old(s.state)) ==> Receipted(s.state))
    ensures r.Ok? ==> r.value == Broken(code) && CameTo(s.state, id, Ask.Fail(Trim(code)))
    ensures Ended(old(s.state), s.state, id, Ask.Fail(Trim(code)), s.own != old(s.own), ErrorOf(r))
    ensures AtMostOneDeed(old(s.own), s.own, s.state, id, Ask.Fail(Trim(code))) && (r.Err? ==> s.own == old(s.own))
  {
    TrimmedAway(code);
    var done := s.Fail(id, code);
    r := if done.Ok? then Ok(Broken(code)) else Err(done.error);
  }

  /** Confirms a payment with the receipt at hand. */
  method Pay(s: Settlements, id: string, receipt: Receipt) returns (r: Result<Fate, CallError>, ghost at: string)
    requires s.Valid() && Backed(receipt.hash, receipt.ledger, s.state.receipts)
    modifies s
    ensures s.Valid() && Grows(old(s.state), s.state) && (Receipted(old(s.state)) ==> Receipted(s.state))
    ensures r.Ok? ==> r.value == Paid && CameTo(s.state, id, Ask.Confirm(receipt.hash, receipt.ledger, at))
    ensures Ended(old(s.state), s.state, id, Ask.Confirm(receipt.hash, receipt.ledger, at),
                  s.own != old(s.own), ErrorOf(r))
    ensures AtMostOneDeed(old(s.own), s.own, s.state, id, Ask.Confirm(receipt.hash, receipt.ledger, at))
    ensures r.Err? ==> s.own == old(s.own)
  {
    var now: string := *;
    at := now;
    var done := s.Confirm(id, receipt.hash, receipt.ledger, now);
    r := if done.Ok? then Ok(Paid) else Err(done.error);
  }

  /** A turn in which the RPC answered and then the call its fate asks for was made, if it asks for one. */
  ghost predicate Turn(before: State, after: State, own: seq<Deed>, did: seq<Deed>, id: string, hash: string,
                       fate: Fate, answer: Answer, r: Result<Fate, CallError>) {
    && (r.Ok? ==> r.value == fate && Came(after, id, hash, fate))
    && TurnCame(before, after, id, fate, answer, did != own, ErrorOf(r))
    && DidOnly(own, did, id, fate, answer)
  }

  lemma TurnDone(before: State, later: State, after: State, own: seq<Deed>, did: seq<Deed>, id: string, hash: string,
                 fate: Fate, answer: Answer, at: string, r: Result<Fate, CallError>)
    requires Grows(before, later) && CallFor(fate, answer, at).Some?
    requires Ended(later, after, id, CallFor(fate, answer, at).value, did != own, ErrorOf(r))
    requires AtMostOneDeed(own, did, after, id, CallFor(fate, answer, at).value)
    requires r.Ok? ==> r.value == fate && CameTo(after, id, CallFor(fate, answer, at).value)
    requires fate.Paid? ==> SameHash(answer.value.hash, hash)
    ensures Turn(before, after, own, did, id, hash, fate, answer, r)
  {
    EndedEarlier(before, later, after, id, CallFor(fate, answer, at).value, did != own, ErrorOf(r));
    assert TurnEnded(before, after, id, fate, answer, at, did != own, ErrorOf(r));
    if fate.Paid? && r.Ok? {
      PaidCame(after, id, answer.value, at, hash);
    }
  }

  /** A turn that ended in an error wrote nothing, and stopped the pass. */
  lemma TurnStopped(before: State, later: State, after: State, own: seq<Deed>, did: seq<Deed>, id: string, hash: string,
                    fate: Fate, answer: Answer, error: CallError)
    requires Grows(before, later) && Turn(later, after, own, did, id, hash, fate, answer, Err(error))
    ensures did == own && Stopped(before, after, id, fate, answer, error)
  {
    CameStopped(before, later, after, did != own, id, fate, answer, error);
  }

  lemma CameStopped(before: State, later: State, after: State, wrote: bool, id: string,
                    fate: Fate, answer: Answer, error: CallError)
    requires Grows(before, later) && TurnCame(later, after, id, fate, answer, wrote, Some(error))
    ensures !wrote && Stopped(before, after, id, fate, answer, error)
  {
    var at :| TurnEnded(later, after, id, fate, answer, at, wrote, Some(error));
    StoppedEarlier(before, later, after, id, fate, answer, at, error);
  }

  lemma NothingDone(before: State, after: State, own: seq<Deed>, id: string, hash: string, fate: Fate, answer: Answer)
    requires fate.Pending? || fate.Ignored?
    ensures Turn(before, after, own, own, id, hash, fate, answer, Ok(fate))
  {
    assert TurnEnded(before, after, id, fate, answer, "", false, None);
  }

  /** The fate of one submitted settlement, and the answer it rests on; an error of the state port ends the pass. */
  method ConfirmOne(s: Settlements, row: SubmittedRow)
    returns (r: Result<Fate, CallError>, ghost answer: Answer, ghost fate: Fate)
    requires s.Valid()
    modifies s
    ensures s.Valid() && Grows(old(s.state), s.state) && (Receipted(old(s.state)) ==> Receipted(s.state))
    ensures SubmittedFate(row.hash, answer, fate) && OnRecord(s.state, row.hash, answer)
    ensures Turn(old(s.state), s.state, old(s.own), s.own, row.id, row.hash, fate, answer, r)
  {
    var reply := ConfirmTransaction(s, row.hash);
    answer, fate := reply, FateOfSubmitted(row.hash, reply);
    ghost var asked := s.state;
    SubmittedFateIs(row.hash, reply, fate);
    if reply.Err? {
      if reply.error == "NOT_FOUND" {
        NothingDone(old(s.state), s.state, s.own, row.id, row.hash, fate, answer);
        return Ok(Pending), answer, fate;
      }
      r := Break(s, row.id, "STELLAR_" + reply.error);
      TurnDone(old(s.state), asked, s.state, old(s.own), s.own, row.id, row.hash, fate, answer, "", r);
      return;
    }
    if Lower(reply.value.hash) != Lower(row.hash) {
      r := Break(s, row.id, "STELLAR_INVALID_SUCCESS_RESPONSE");
      TurnDone(old(s.state), asked, s.state, old(s.own), s.own, row.id, row.hash, fate, answer, "", r);
      return;
    }
    PaidIsBacked(row.hash, reply, s.state.receipts);
    ghost var at;
    r, at := Pay(s, row.id, reply.value);
    TurnDone(old(s.state), asked, s.state, old(s.own), s.own, row.id, row.hash, fate, answer, at, r);
  }

  /** A receipt the RPC gave for this hash, if it gave one. */
  predicate OnRecord(s: State, hash: string, answer: Answer) {
    answer.Ok? ==> answer.value in s.receipts && answer.value.asked == hash
  }

  ghost predicate PassOver(s: State, rows: seq<SubmittedRow>, answers: seq<Answer>, fates: seq<Fate>) {
    && |answers| == |fates| <= |rows|
    && forall i | 0 <= i < |fates| ::
      && SubmittedFate(rows[i].hash, answers[i], fates[i]) && OnRecord(s, rows[i].hash, answers[i])
      && Came(s, rows[i].id, rows[i].hash, fates[i])
  }

  lemma PassKept(s: State, t: State, rows: seq<SubmittedRow>, answers: seq<Answer>, fates: seq<Fate>)
    requires PassOver(s, rows, answers, fates) && Grows(s, t)
    ensures PassOver(t, rows, answers, fates)
  {
    forall i | 0 <= i < |fates| ensures Came(t, rows[i].id, rows[i].hash, fates[i]) {
      CameKept(s, t, rows[i].id, rows[i].hash, fates[i]);
    }
  }

  lemma PassGoesOn(s: State, rows: seq<SubmittedRow>, answers: seq<Answer>, fates: seq<Fate>,
                   answer: Answer, fate: Fate)
    requires PassOver(s, rows, answers, fates) && |fates| < |rows|
    requires
      var row := rows[|fates|];
      SubmittedFate(row.hash, answer, fate) && OnRecord(s, row.hash, answer) && Came(s, row.id, row.hash, fate)
    ensures PassOver(s, rows, answers + [answer], fates + [fate])
  {
  }

  function RowIds(rows: seq<SubmittedRow>): (ids: seq<string>)
    ensures |ids| == |rows| && forall i | 0 <= i < |rows| :: ids[i] == rows[i].id
  {
    seq(|rows|, i requires 0 <= i < |rows| => rows[i].id)
  }

  /** The pass ended early: the next settlement's fate asked for a call, and the call ended in this error. */
  ghost predicate PassStopped(before: State, after: State, row: SubmittedRow, error: CallError) {
    exists answer, fate :: SubmittedFate(row.hash, answer, fate) && Stopped(before, after, row.id, fate, answer, error)
  }

  /** The loop: one fate after another, counted as it goes. */
  method ConfirmEach(s: Settlements, rows: seq<SubmittedRow>)
    returns (r: Result<Summary, CallError>, ghost answers: seq<Answer>, ghost fates: seq<Fate>)
    requires s.Valid()
    modifies s
    ensures s.Valid() && Grows(old(s.state), s.state) && (Receipted(old(s.state)) ==> Receipted(s.state))
    ensures PassOver(s.state, rows, answers, fates) && AllDeeds(old(s.own), s.own, RowIds(rows), answers, fates)
    ensures r.Ok? ==> |fates| == |rows| && r.value == Tally(fates)
    ensures r.Err? ==> |fates| < |rows| && PassStopped(old(s.state), s.state, rows[|fates|], r.error)
  {
    answers, fates := [], [];
    var summary := NOTHING_YET;
    for i := 0 to |rows|
      invariant s.Valid() && Grows(old(s.state), s.state) && (Receipted(old(s.state)) ==> Receipted(s.state))
      invariant |fates| == i && PassOver(s.state, rows, answers, fates)
      invariant AllDeeds(old(s.own), s.own, RowIds(rows), answers, fates)
      invariant summary == Tally(fates)
    {
      ghost var before, did := s.state, s.own;
      ghost var answer, due;
      var fate;
      fate, answer, due := ConfirmOne(s, rows[i]);
      PassKept(before, s.state, rows, answers, fates);
      if fate.Err? {
        TurnStopped(old(s.state), before, s.state, did, s.own, rows[i].id, rows[i].hash, due, answer, fate.error);
        return Err(fate.error), answers, fates;
      }
      DeedsGoOn(old(s.own), did, s.own, RowIds(rows), answers, fates, answer, fate.value);
      TallyOneMore(fates, fate.value);
      PassGoesOn(s.state, rows, answers, fates, answer, fate.value);
      summary := Counted(summary, fate.value);
      answers, fates := answers + [answer], fates + [fate.value];
    }
    return Ok(summary), answers, fates;
  }

  /** Each settlement listed gets the fate its receipt decides, and the counters add up to all of them. */
  method ConfirmSubmittedSettlements(s: Settlements)
    returns (r: Result<Summary, CallError>,
             ghost rows: seq<SubmittedRow>, ghost answers: seq<Answer>, ghost fates: seq<Fate>)
    requires s.Valid()
    modifies s
    ensures s.Valid() && Grows(old(s.state), s.state) && (Receipted(old(s.state)) ==> Receipted(s.state))
    ensures ListsSubmitted(old(s.state), rows) && PassOver(s.state, rows, answers, fates)
    ensures AllDeeds(old(s.own), s.own, RowIds(rows), answers, fates)
    ensures r.Ok? ==> |fates| == |rows| && r.value == Tally(fates) && r.value.scanned == |rows|
    ensures r.Err? ==> |fates| < |rows| && PassStopped(old(s.state), s.state, rows[|fates|], r.error)
  {
    var submitted := ListSubmittedSettlements(s);
    rows := submitted;
    r, answers, fates := ConfirmEach(s, submitted);
  }

  // ---------------------------------------------------------------------
  // Contract events
  // ---------------------------------------------------------------------

  /** The first event of a listed settlement: checked against the row, then against a receipt. */
  method ReconcileOne(s: Settlements, hash: string, e: Event)
    returns (r: Result<Fate, CallError>, ghost answer: Answer, ghost fate: Fate)
    requires s.Valid()
    modifies s
    ensures s.Valid() && Grows(old(s.state), s.state) && (Receipted(old(s.state)) ==> Receipted(s.state))
    ensures EventFate(map[e.id := hash], [], e, answer, fate)
    ensures SameHash(hash, e.hash) ==> OnRecord(s.state, e.hash, answer)
    ensures Turn(old(s.state), s.state, old(s.own), s.own, e.id, hash, fate, answer, r)
  {
    answer, fate := Err(""), FateOfEvent(map[e.id := hash], [], e, Err(""));
    EventFateIs(map[e.id := hash], [], e, answer, fate);
    if Lower(hash) != Lower(e.hash) {
      r := Break(s, e.id, "STELLAR_EVENT_TX_MISMATCH");
      TurnDone(old(s.state), old(s.state), s.state, old(s.own), s.own, e.id, hash, fate, answer, "", r);
      return;
    }
    var reply := ConfirmTransaction(s, e.hash);
    answer, fate := reply, FateOfReported(e, reply);
    ghost var asked := s.state;
    ReportedFateIs(e, reply, fate);
    if reply.Err? {
      if reply.error == "NOT_FOUND" {
        NothingDone(old(s.state), s.state, s.own, e.id, hash, fate, answer);
        return Ok(Pending), answer, fate;
      }
      r := Break(s, e.id, "STELLAR_EVENT_" + reply.error);
      TurnDone(old(s.state), asked, s.state, old(s.own), s.own, e.id, hash, fate, answer, "", r);
      return;
    }
    if Lower(reply.value.hash) != Lower(e.hash) || reply.value.ledger != e.ledger {
      r := Break(s, e.id, "STELLAR_EVENT_RECEIPT_MISMATCH");
      TurnDone(old(s.state), asked, s.state, old(s.own), s.own, e.id, hash, fate, answer, "", r);
      return;
    }
    ReportedIsBacked(e, reply, s.state.receipts);
    ghost var at;
    r, at := Pay(s, e.id, reply.value);
    TurnDone(old(s.state), asked, s.state, old(s.own), s.own, e.id, hash, fate, answer, at, r);
  }

  ghost predicate EventsOver(
      s: State, listed: map<string, string>, events: seq<Event>, answers: seq<Answer>, fates: seq<Fate>)
  {
    && |answers| == |fates| <= |events|
    && forall i | 0 <= i < |fates| :: EventOver(s, listed, events[..i], events[i], answers[i], fates[i])
  }

  ghost predicate EventOver(
      s: State, listed: map<string, string>, earlier: seq<Event>, e: Event, answer: Answer, fate: Fate)
  {
    && EventFate(listed, earlier, e, answer, fate)
    && (!fate.Ignored? ==>
          && e.id in listed && Came(s, e.id, listed[e.id], fate)
          && (SameHash(listed[e.id], e.hash) ==> OnRecord(s, e.hash, answer)))
  }

  lemma EventsKept(
      s: State, t: State, listed: map<string, string>, events: seq<Event>, answers: seq<Answer>, fates: seq<Fate>)
    requires EventsOver(s, listed, events, answers, fates) && Grows(s, t)
    ensures EventsOver(t, listed, events, answers, fates)
  {
    forall i | 0 <= i < |fates| ensures EventOver(t, listed, events[..i], events[i], answers[i], fates[i]) {
      assert EventOver(s, listed, events[..i], events[i], answers[i], fates[i]);
      if !fates[i].Ignored? {
        CameKept(s, t, events[i].id, listed[events[i].id], fates[i]);
      }
    }
  }

  lemma EventsGoOn(
      s: State, listed: map<string, string>, events: seq<Event>, answers: seq<Answer>, fates: seq<Fate>, answer: Answer,
      fate: Fate)
    requires EventsOver(s, listed, events, answers, fates) && |fates| < |events|
    requires EventOver(s, listed, events[..|fates|], events[|fates|], answer, fate)
    ensures EventsOver(s, listed, events, answers + [answer], fates + [fate])
  {
  }

  /** The ids of the first i events. */
  ghost predicate SeenSoFar(seen: set<string>, events: seq<Event>, i: nat)
    requires i <= |events|
  {
    forall id: string :: id in seen <==> exists d :: d in events[..i] && d.id == id
  }

  lemma SeenGrows(seen: set<string>, events: seq<Event>, i: nat)
    requires i < |events| && SeenSoFar(seen, events, i)
    ensures events[i].id in seen <==> Reported(events[i], events[..i])
    ensures SeenSoFar(seen + {events[i].id}, events, i + 1)
  {
    assert events[..i + 1] == events[..i] + [events[i]];
    forall id: string ensures id in seen + {events[i].id} <==> exists d :: d in events[..i + 1] && d.id == id {
      if id in seen {
        var d :| d in events[..i] && d.id == id;
        assert d in events[..i + 1];
      }
      if id == events[i].id {
        assert events[i] in events[..i + 1];
      }
    }
  }

  /** An id is looked at once: the rest of its events, and events of payments not submitted, are ignored. */
  method EventTurn(s: Settlements, listed: map<string, string>, seen: set<string>, events: seq<Event>, i: nat)
    returns (r: Result<Fate, CallError>, ghost answer: Answer, ghost fate: Fate)
    requires s.Valid() && i < |events| && SeenSoFar(seen, events, i)
    modifies s
    ensures s.Valid() && Grows(old(s.state), s.state) && (Receipted(old(s.state)) ==> Receipted(s.state))
    ensures EventFate(listed, events[..i], events[i], answer, fate)
    ensures r.Ok? ==> r.value == fate && EventOver(s.state, listed, events[..i], events[i], answer, fate)
    ensures TurnCame(old(s.state), s.state, events[i].id, fate, answer, s.own != old(s.own), ErrorOf(r))
    ensures DidOnly(old(s.own), s.own, events[i].id, fate, answer)
  {
    answer, fate := Err(""), Ignored;
    SeenGrows(seen, events, i);
    NothingDone(s.state, s.state, s.own, events[i].id, "", fate, answer);
    if events[i].id in seen {
      return Ok(Ignored), answer, fate;
    }
    if events[i].id !in listed {
      return Ok(Ignored), answer, fate;
    }
    r, answer, fate := ReconcileOne(s, listed[events[i].id], events[i]);
  }

  /** The submitted rows' hashes by intent. */
  ghost predicate Knows(s: State, known: map<string, string>) {
    && (forall id | id in known :: IsSubmitted(s, id, known[id]))
    && (forall id | Exists(s, id) && Row(s, id).status == Status.Submitted :: id in known)
  }

  lemma ByIntentId(s: State, rows: seq<SubmittedRow>, known: map<string, string>)
    requires ListsSubmitted(s, rows)
    requires forall row | row in rows :: row.id in known && known[row.id] == row.hash
    requires forall id | id in known :: exists row :: row in rows && row.id == id
    ensures Knows(s, known)
  {
    forall id | id in known ensures IsSubmitted(s, id, known[id]) {
      var row :| row in rows && row.id == id;
    }
    forall id | Exists(s, id) && Row(s, id).status == Status.Submitted ensures id in known {
      var row :| row in rows && row.id == id;
    }
  }

  method SubmittedByIntentId(s: Settlements) returns (listed: map<string, string>)
    requires s.Valid()
    ensures Knows(s.state, listed)
  {
    var submitted := ListSubmittedSettlements(s);
    ByIdDistinct(submitted);
    listed := map row | row in submitted :: row.id := row.hash;
    ByIntentId(s.state, submitted, listed);
  }

  function EventIds(events: seq<Event>): (ids: seq<string>)
    ensures |ids| == |events| && forall i | 0 <= i < |events| :: ids[i] == events[i].id
  {
    seq(|events|, i requires 0 <= i < |events| => events[i].id)
  }

  /** The pass ended early: event i's fate asked for a call, and the call ended in this error. */
  ghost predicate EventsStopped(before: State, after: State, listed: map<string, string>, events: seq<Event>, i: nat,
                                error: CallError)
    requires i < |events|
  {
    exists answer, fate ::
      && EventFate(listed, events[..i], events[i], answer, fate)
      && Stopped(before, after, events[i].id, fate, answer, error)
  }

  method ReconcileEach(s: Settlements, listed: map<string, string>, events: seq<Event>)
    returns (r: Result<Summary, CallError>, ghost answers: seq<Answer>, ghost fates: seq<Fate>)
    requires s.Valid()
    modifies s
    ensures s.Valid() && Grows(old(s.state), s.state) && (Receipted(old(s.state)) ==> Receipted(s.state))
    ensures EventsOver(s.state, listed, events, answers, fates)
    ensures AllDeeds(old(s.own), s.own, EventIds(events), answers, fates)
    ensures r.Ok? ==> |fates| == |events| && r.value == Tally(fates)
    ensures r.Err? ==> |fates| < |events| && EventsStopped(old(s.state), s.state, listed, events, |fates|, r.error)
  {
    answers, fates := [], [];
    var seen: set<string> := {};
    var summary := NOTHING_YET;
    for i := 0 to |events|
      invariant s.Valid() && Grows(old(s.state), s.state) && (Receipted(old(s.state)) ==> Receipted(s.state))
      invariant |fates| == i && EventsOver(s.state, listed, events, answers, fates)
      invariant AllDeeds(old(s.own), s.own, EventIds(events), answers, fates)
      invariant SeenSoFar(seen, events, i)
      invariant summary == Tally(fates)
    {
      ghost var before, did := s.state, s.own;
      ghost var answer, due;
      var fate;
      fate, answer, due := EventTurn(s, listed, seen, events, i);
      SeenGrows(seen, events, i);
      seen := seen + {events[i].id};
      EventsKept(before, s.state, listed, events, answers, fates);
      if fate.Err? {
        CameStopped(old(s.state), before, s.state, s.own != did, events[i].id, due, answer, fate.error);
        return Err(fate.error), answers, fates;
      }
      DeedsGoOn(old(s.own), did, s.own, EventIds(events), answers, fates, answer, fate.value);
      TallyOneMore(fates, fate.value);
      EventsGoOn(s.state, listed, events, answers, fates, answer, fate.value);
      summary := Counted(summary, fate.value);
      answers, fates := answers + [answer], fates + [fate.value];
    }
    return Ok(summary), answers, fates;
  }

  /** Each event gets the fate its row, its receipt and the events before it decide; an id is acted on once. */
  method ReconcileSettlementEvents(s: Settlements, events: seq<Event>)
    returns (r: Result<Summary, CallError>,
             ghost known: map<string, string>, ghost answers: seq<Answer>, ghost fates: seq<Fate>)
    requires s.Valid()
    modifies s
    ensures s.Valid() && Grows(old(s.state), s.state) && (Receipted(old(s.state)) ==> Receipted(s.state))
    ensures Knows(old(s.state), known) && EventsOver(s.state, known, events, answers, fates)
    ensures AllDeeds(old(s.own), s.own, EventIds(events), answers, fates)
    ensures r.Ok? ==> |fates| == |events| && r.value == Tally(fates) && r.value.scanned == |events|
    ensures r.Err? ==> |fates| < |events| && EventsStopped(old(s.state), s.state, known, events, |fates|, r.error)
  {
    var byIntentId := SubmittedByIntentId(s);
    known := byIntentId;
    r, answers, fates := ReconcileEach(s, byIntentId, events);
  }

  // ---------------------------------------------------------------------
  // Stale settlements
  // ---------------------------------------------------------------------

  function Due(stale: seq<Stale>, latestLedger: int): (n: nat)
    ensures n <= |stale|
    ensures n == |stale| <==> forall x | x in stale :: x.expiresAtLedger <= latestLedger
  {
    if stale == [] then 0
    else
      var last := stale[|stale| - 1];
      assert stale == stale[..|stale| - 1] + [last];
      Due(stale[..|stale| - 1], latestLedger) + if last.expiresAtLedger <= latestLedger then 1 else 0
  }

  /** The positions in the list whose ledger has passed. */
  function DuePositions(stale: seq<Stale>, latestLedger: int): set<int> {
    set i | 0 <= i < |stale| && stale[i].expiresAtLedger <= latestLedger
  }

  lemma {:induction false} DueCounts(stale: seq<Stale>, latestLedger: int)
    ensures Due(stale, latestLedger) == |DuePositions(stale, latestLedger)|
  {
    if stale != [] {
      var front, n := stale[..|stale| - 1], |stale| - 1;
      DueCounts(front, latestLedger);
      var before := DuePositions(front, latestLedger);
      assert n !in before;
      assert DuePositions(stale, latestLedger)
          == before + if stale[n].expiresAtLedger <= latestLedger then {n} else {};
    }
  }

  /** The ids whose ledger has passed. */
  predicate IsDue(stale: seq<Stale>, latestLedger: int, id: string) {
    exists x :: x in stale && x.expiresAtLedger <= latestLedger && x.id == id
  }

  ghost predicate AllExpired(s: State, stale: seq<Stale>, latestLedger: int) {
    forall x | x in stale && x.expiresAtLedger <= latestLedger :: CameTo(s, x.id, Ask.Expire)
  }

  lemma AllExpiredKept(s: State, t: State, stale: seq<Stale>, latestLedger: int)
    requires AllExpired(s, stale, latestLedger) && Grows(s, t)
    ensures AllExpired(t, stale, latestLedger)
  {
    forall x | x in stale && x.expiresAtLedger <= latestLedger ensures CameTo(t, x.id, Ask.Expire) {
      CameToKept(s, t, x.id, Ask.Expire);
    }
  }

  /** All this pass wrote itself, since `before`, is expiries of payments that are due. */
  ghost predicate OnlyDue(before: seq<Deed>, after: seq<Deed>, stale: seq<Stale>, latestLedger: int) {
    && before <= after
    && forall k | |before| <= k < |after| :: after[k].ask.Expire? && IsDue(stale, latestLedger, after[k].id)
  }

  lemma OneMoreDue(before: seq<Deed>, now: seq<Deed>, after: seq<Deed>, s: State,
                   x: Stale, stale: seq<Stale>, latestLedger: int)
    requires OnlyDue(before, now, stale, latestLedger) && AtMostOneDeed(now, after, s, x.id, Ask.Expire)
    requires x in stale && x.expiresAtLedger <= latestLedger
    ensures OnlyDue(before, after, stale, latestLedger)
  {
    assert IsDue(stale, latestLedger, x.id);
  }

  /** One turn: a payment that is due is expired, any other is passed over. */
  method ExpireIfDue(s: Settlements, x: Stale, latestLedger: int) returns (r: Result<bool, CallError>)
    requires s.Valid()
    modifies s
    ensures s.Valid() && Grows(old(s.state), s.state) && (Receipted(old(s.state)) ==> Receipted(s.state))
    ensures r.Ok? ==> r.value == (x.expiresAtLedger <= latestLedger) && (r.value ==> CameTo(s.state, x.id, Ask.Expire))
    ensures x.expiresAtLedger > latestLedger ==> s.state == old(s.state) && s.own == old(s.own)
    ensures AtMostOneDeed(old(s.own), s.own, s.state, x.id, Ask.Expire)
    ensures x.expiresAtLedger <= latestLedger ==>
              Ended(old(s.state), s.state, x.id, Ask.Expire, s.own != old(s.own), ErrorOf(r))
    ensures x.expiresAtLedger > latestLedger ==> r.Ok?
  {
    if x.expiresAtLedger > latestLedger {
      return Ok(false);
    }
    var done := s.Expire(x.id);
    return if done.Ok? then Ok(true) else Err(done.error);
  }

  lemma OneMoreStale(s: State, t: State, stale: seq<Stale>, i: nat, latestLedger: int)
    requires i < |stale| && AllExpired(s, stale[..i], latestLedger) && Grows(s, t)
    requires stale[i].expiresAtLedger <= latestLedger ==> CameTo(t, stale[i].id, Ask.Expire)
    ensures AllExpired(t, stale[..i + 1], latestLedger)
    ensures Due(stale[..i + 1], latestLedger)
            == Due(stale[..i], latestLedger) + if stale[i].expiresAtLedger <= latestLedger then 1 else 0
  {
    assert stale[..i + 1] == stale[..i] + [stale[i]] && stale[..i + 1][..i] == stale[..i];
    AllExpiredKept(s, t, stale[..i], latestLedger);
  }

  /** Expires exactly the listed payments whose ledger has passed, and touches no other. */
  method ExpireStaleSettlements(s: Settlements, stale: seq<Stale>, latestLedger: int)
    returns (r: Result<ExpirySummary, CallError>)
    requires s.Valid()
    modifies s
    ensures s.Valid() && Grows(old(s.state), s.state) && (Receipted(old(s.state)) ==> Receipted(s.state))
    ensures r.Ok? ==>
              && r.value == ExpirySummary(|stale|, Due(stale, latestLedger))
              && AllExpired(s.state, stale, latestLedger)
    ensures OnlyDue(old(s.own), s.own, stale, latestLedger)
    ensures r.Err? ==> exists x ::
              x in stale && x.expiresAtLedger <= latestLedger
              && Ended(old(s.state), s.state, x.id, Ask.Expire, false, Some(r.error))
  {
    var expired := 0;
    for i := 0 to |stale|
      invariant s.Valid() && Grows(old(s.state), s.state) && (Receipted(old(s.state)) ==> Receipted(s.state))
      invariant expired == Due(stale[..i], latestLedger)
      invariant AllExpired(s.state, stale[..i], latestLedger)
      invariant OnlyDue(old(s.own), s.own, stale, latestLedger)
    {
      ghost var before, deeds := s.state, s.own;
      var done := ExpireIfDue(s, stale[i], latestLedger);
      if stale[i].expiresAtLedger <= latestLedger {
        OneMoreDue(old(s.own), deeds, s.own, s.state, stale[i], stale, latestLedger);
      }
      if done.Err? {
        EndedEarlier(old(s.state), before, s.state, stale[i].id, Ask.Expire, false, Some(done.error));
        return Err(done.error);
      }
      OneMoreStale(before, s.state, stale, i, latestLedger);
      if done.value {
        expired := expired + 1;
      }
    }
    assert stale[..|stale|] == stale;
    return Ok(ExpirySummary(|stale|, expired));
  }
}
