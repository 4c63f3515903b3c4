/**
 * Claiming and countersigning one payment request. Any number of customers may
 * claim and any number of signatures may arrive, each call reading and saving in
 * separate steps.
 */
module Countersignature {
  import opened Base
  import opened Formats
  import opened Payment

  datatype Claim = Claim(customer: string, signature: Option<string>, requestedAt: string, signedAt: Option<string>)

  datatype ClaimError = NotFound | NotAnAddress | AnotherCustomer | WrongState | NobodyAsked | NotASignature

  // ---------------------------------------------------------------------
  // The two stores' upserts
  // ---------------------------------------------------------------------

  function Filled(kept: Option<string>, offered: Option<string>): Option<string> {
    if Truthy(kept) then kept else if Truthy(offered) then offered else kept
  }

  function Coalesce(kept: Option<string>, offered: Option<string>): Option<string> {
    if kept.Some? then kept else offered
  }

  /** Which of the two repositories holds the claim. */
  datatype Store = InMemory | Sql

  function Upsert(store: Store, existing: Option<Claim>, record: Claim): Claim {
    match existing
    case None => record
    case Some(e) =>
      if e.customer != record.customer then e
      else if store.InMemory? then
        e.(signature := Filled(e.signature, record.signature), signedAt := Filled(e.signedAt, record.signedAt))
      else
        e.(signature := Coalesce(e.signature, record.signature), signedAt := Coalesce(e.signedAt, record.signedAt))
  }

  /** The two fill a field alike unless an empty text is stored under a real one, or offered over nothing. */
  predicate NoEmptyText(kept: Option<string>, offered: Option<string>) {
    !(kept == Some("") && Truthy(offered)) && !(kept.None? && offered == Some(""))
  }

  lemma UpsertsAgree(existing: Option<Claim>, record: Claim)
    ensures
      Upsert(InMemory, existing, record) == Upsert(Sql, existing, record)
      <==>
      (existing.Some? && existing.value.customer == record.customer ==>
         && NoEmptyText(existing.value.signature, record.signature)
         && NoEmptyText(existing.value.signedAt, record.signedAt))
  {
  }

  class ClaimTable {
    var claims: map<string, Claim>

    /** The in-memory repository's save. */
    method SaveCountersignature(intentId: string, record: Claim)
      modifies this
      ensures
        var existing := if intentId in old(claims) then Some(old(claims)[intentId]) else None;
        claims == old(claims)[intentId := Upsert(InMemory, existing, record)]
    {
      if intentId !in claims {
        claims := claims[intentId := record];
        return;
      }
      var existing := claims[intentId];
      if existing.customer != record.customer {
        assert claims == claims[intentId := existing];
        return;
      }
      var merged := existing;
      if !Truthy(existing.signature) && Truthy(record.signature) {
        merged := merged.(signature := record.signature);
      }
      if !Truthy(existing.signedAt) && Truthy(record.signedAt) {
        merged := merged.(signedAt := record.signedAt);
      }
      claims := claims[intentId := merged];
    }
  }

  // ---------------------------------------------------------------------
  // What each call decides from what it reads
  // ---------------------------------------------------------------------

  datatype Ask =
    | Request(customer: string, at: string)
    | Supply(customer: string, signature: string, at: string)

  predicate Open(status: Status) {
    status == AwaitingApproval || status == Authorized
  }

  datatype Decision = Answer(r: Result<Claim, ClaimError>) | Save(record: Claim)

  /** After reading the settlement's status and then the stored claim. */
  function Decide(ask: Ask, status: Option<Status>, stored: Option<Claim>): Decision {
    if status.None? then Answer(Err(NotFound))
    else
      match ask
      case Request(customer, at) =>
        if !Address(customer) then Answer(Err(NotAnAddress))
        else if stored.Some? then
          if stored.value.customer != customer then Answer(Err(AnotherCustomer))
          else if !Open(status.value) then Answer(Err(WrongState))
          else Answer(Ok(stored.value))
        else if status.value != AwaitingApproval then Answer(Err(WrongState))
        else Save(Claim(customer, None, at, None))
      case Supply(customer, signature, at) =>
        if !Open(status.value) then Answer(Err(WrongState))
        else if stored.None? then Answer(Err(NobodyAsked))
        else if stored.value.customer != customer then Answer(Err(AnotherCustomer))
        else if !Signature(signature) then Answer(Err(NotASignature))
        else if Truthy(stored.value.signature) then Answer(Ok(stored.value))
        else Save(stored.value.(signature := Some(signature), signedAt := Some(at)))
  }

  /** When a claim is refused, by what, and when it is granted: for every input it is just one of these. */
  lemma ClaimDecided(customer: string, at: string, status: Option<Status>, stored: Option<Claim>)
    ensures
      var d := Decide(Request(customer, at), status, stored);
      var admitted := status.Some? && Address(customer);
      && (d == Answer(Err(NotFound)) <==> status.None?)
      && (d == Answer(Err(NotAnAddress)) <==> status.Some? && !Address(customer))
      && (d == Answer(Err(AnotherCustomer)) <==> admitted && stored.Some? && stored.value.customer != customer)
      && (d == Answer(Err(WrongState)) <==>
            admitted && if stored.Some?
                        then stored.value.customer == customer && status.value !in {AwaitingApproval, Authorized}
                        else status.value != AwaitingApproval)
      && (d.Answer? && d.r.Ok? <==>
            && admitted && stored.Some? && stored.value.customer == customer
            && status.value in {AwaitingApproval, Authorized})
      && (d.Answer? && d.r.Ok? ==> stored == Some(d.r.value))
      && (d.Save? <==> admitted && stored.None? && status.value == AwaitingApproval)
      && (d.Save? ==> d.record == Claim(customer, None, at, None))
  {
  }

  lemma SigningDecided(customer: string, signature: string, at: string, status: Option<Status>, stored: Option<Claim>)
    ensures
      var d := Decide(Supply(customer, signature, at), status, stored);
      var open := status.Some? && status.value in {AwaitingApproval, Authorized};
      var owned := open && stored.Some? && stored.value.customer == customer;
      && (d == Answer(Err(NotFound)) <==> status.None?)
      && (d == Answer(Err(WrongState)) <==> status.Some? && !open)
      && (d == Answer(Err(NobodyAsked)) <==> open && stored.None?)
      && (d == Answer(Err(AnotherCustomer)) <==> open && stored.Some? && stored.value.customer != customer)
      && (d == Answer(Err(NotASignature)) <==> owned && !Signature(signature))
      && (d.Answer? && d.r.Ok? <==> owned && Signature(signature) && Truthy(stored.value.signature))
      && (d.Answer? && d.r.Ok? ==> stored == Some(d.r.value))
      && (d.Save? <==> owned && Signature(signature) && !Truthy(stored.value.signature))
      && (d.Save? ==> d.record == Claim(customer, Some(signature), stored.value.requestedAt, Some(at)))
  {
  }

  /** After saving, from the claim that is stored by then. */
  function Conclude(ask: Ask, record: Claim, stored: Option<Claim>): Result<Claim, ClaimError> {
    if stored.None? then Ok(record)
    else if ask.Request? && stored.value.customer != ask.customer then Err(AnotherCustomer)
    else Ok(stored.value)
  }

  /** A claim that was saved is answered by what stands by then: another's claim refuses it. */
  lemma Concluded(ask: Ask, record: Claim, stored: Option<Claim>)
    ensures stored.None? ==> Conclude(ask, record, stored) == Ok(record)
    ensures ask.Request? && stored.Some? ==>
              Conclude(ask, record, stored)
                == if stored.value.customer == ask.customer then Ok(stored.value) else Err(AnotherCustomer)
    ensures ask.Supply? && stored.Some? ==> Conclude(ask, record, stored) == Ok(stored.value)
  {
  }

  // ---------------------------------------------------------------------
  // All the calls together
  // ---------------------------------------------------------------------

  datatype Phase = Started | Saving(record: Claim) | Saved(record: Claim)

  /** The settlement's status is read first and may be out of date by the time it matters. */
  datatype Call = Call(ask: Ask, status: Option<Status>, phase: Phase)

  datatype Outcome = Outcome(ask: Ask, answer: Result<Claim, ClaimError>)

  datatype State = State(stored: Option<Claim>, calls: map<nat, Call>, told: seq<Outcome>)

  datatype Action = Begin(n: nat, ask: Ask, status: Option<Status>) | Look(n: nat) | Keep(n: nat) | Reread(n: nat)

  const EMPTY := State(None, map[], [])

  function Tell(s: State, n: nat, r: Result<Claim, ClaimError>): State
    requires n in s.calls
  {
    s.(calls := s.calls - {n}, told := s.told + [Outcome(s.calls[n].ask, r)])
  }

  function Do(store: Store, s: State, a: Action): State {
    match a
    case Begin(n, ask, status) => if n in s.calls then s else s.(calls := s.calls[n := Call(ask, status, Started)])
    case Look(n) =>
      if n !in s.calls || !s.calls[n].phase.Started? then s
      else (
        match Decide(s.calls[n].ask, s.calls[n].status, s.stored)
        case Answer(r) => Tell(s, n, r)
        case Save(record) => s.(calls := s.calls[n := s.calls[n].(phase := Saving(record))]))
    case Keep(n) =>
      if n !in s.calls || !s.calls[n].phase.Saving? then s
      else
        var record := s.calls[n].phase.record;
        s.(stored := Some(Upsert(store, s.stored, record)), calls := s.calls[n := s.calls[n].(phase := Saved(record))])
    case Reread(n) =>
      if n !in s.calls || !s.calls[n].phase.Saved? then s
      else Tell(s, n, Conclude(s.calls[n].ask, s.calls[n].phase.record, s.stored))
  }

  function Run(store: Store, s: State, actions: seq<Action>): State
    decreases |actions|
  {
    if actions == [] then s else Run(store, Do(store, s, actions[0]), actions[1..])
  }

  // ---------------------------------------------------------------------
  // What every run keeps
  // ---------------------------------------------------------------------

  /** A claim as the service stores it: no empty text, and a signature only in its proper form. */
  predicate ClaimSound(c: Claim) {
    && (c.signature.Some? ==> Signature(c.signature.value))
    && (c.signature.Some? <==> c.signedAt.Some?)
    && c.signedAt != Some("")
  }

  predicate AskSound(ask: Ask) {
    ask.at != ""
  }

  predicate RecordFor(ask: Ask, record: Claim, stored: Option<Claim>) {
    && ClaimSound(record) && record.customer == ask.customer
    && (ask.Supply? ==> stored.Some? && stored.value.customer == ask.customer && record.signature.Some?)
  }

  predicate CallSound(c: Call, stored: Option<Claim>) {
    && AskSound(c.ask)
    && (c.phase.Saving? ==> RecordFor(c.ask, c.phase.record, stored))
    && (c.phase.Saved? ==>
          RecordFor(c.ask, c.phase.record, stored) && stored.Some?
          && (c.ask.Supply? ==> stored.value.signature.Some?))
  }

  /** What a success means from then on. */
  predicate Kept(o: Outcome, stored: Option<Claim>) {
    o.answer.Ok? ==>
      && stored.Some? && stored.value.customer == o.ask.customer == o.answer.value.customer
      && (o.ask.Supply? ==> stored.value.signature.Some? && o.answer.value.signature == stored.value.signature)
  }

  ghost predicate Sound(s: State) {
    && (s.stored.Some? ==> ClaimSound(s.stored.value))
    && (forall n | n in s.calls :: CallSound(s.calls[n], s.stored))
    && (forall o | o in s.told :: Kept(o, s.stored))
  }

  /** The claim a row holds later: the same customer, and a signature that is never replaced. */
  predicate Later(kept: Option<Claim>, now: Option<Claim>) {
    kept.Some? ==>
      && now.Some? && now.value.customer == kept.value.customer && now.value.requestedAt == kept.value.requestedAt
      && (kept.value.signature.Some? ==>
            now.value.signature == kept.value.signature && now.value.signedAt == kept.value.signedAt)
  }

  /** Clocks give a real time: no call carries an empty one. */
  predicate Timed(actions: seq<Action>) {
    forall a | a in actions :: a.Begin? ==> AskSound(a.ask)
  }

  lemma UpsertSound(store: Store, existing: Option<Claim>, record: Claim)
    requires ClaimSound(record) && (existing.Some? ==> ClaimSound(existing.value))
    ensures
      var after := Upsert(store, existing, record);
      && ClaimSound(after) && Later(existing, Some(after))
      && (existing.None? || existing.value.customer == record.customer ==>
            after.customer == record.customer && (record.signature.Some? ==> after.signature.Some?))
  {
    assert !Signature("");
  }

  lemma EverythingKept(s: State, stored: Option<Claim>)
    requires Sound(s) && Later(s.stored, stored)
    ensures forall n | n in s.calls :: CallSound(s.calls[n], stored)
    ensures forall o | o in s.told :: Kept(o, stored)
  {
    forall n | n in s.calls ensures CallSound(s.calls[n], stored) {
      assert CallSound(s.calls[n], s.stored);
    }
    forall o | o in s.told ensures Kept(o, stored) {
      assert Kept(o, s.stored);
    }
  }

  lemma DecideSound(ask: Ask, status: Option<Status>, stored: Option<Claim>)
    requires AskSound(ask) && (stored.Some? ==> ClaimSound(stored.value))
    ensures
      match Decide(ask, status, stored)
      case Answer(r) => Kept(Outcome(ask, r), stored)
      case Save(record) => RecordFor(ask, record, stored)
  {
    assert !Signature("");
  }

  lemma DoSound(store: Store, s: State, a: Action)
    requires Sound(s) && (a.Begin? ==> AskSound(a.ask))
    ensures Sound(Do(store, s, a)) && Later(s.stored, Do(store, s, a).stored)
  {
    match a
    case Begin(n, ask, status) =>
    case Look(n) =>
      if n in s.calls && s.calls[n].phase.Started? {
        assert CallSound(s.calls[n], s.stored);
        DecideSound(s.calls[n].ask, s.calls[n].status, s.stored);
      }
    case Keep(n) =>
      if n in s.calls && s.calls[n].phase.Saving? {
        assert CallSound(s.calls[n], s.stored);
        UpsertSound(store, s.stored, s.calls[n].phase.record);
        EverythingKept(s, Do(store, s, a).stored);
      }
    case Reread(n) =>
      if n in s.calls && s.calls[n].phase.Saved? {
        assert CallSound(s.calls[n], s.stored);
      }
  }

  lemma {:induction false} RunSound(store: Store, s: State, actions: seq<Action>)
    requires Sound(s) && Timed(actions)
    ensures Sound(Run(store, s, actions)) && Later(s.stored, Run(store, s, actions).stored)
    decreases |actions|
  {
    if actions != [] {
      assert actions[0] in actions;
      DoSound(store, s, actions[0]);
      RunSound(store, Do(store, s, actions[0]), actions[1..]);
    }
  }

  // ---------------------------------------------------------------------
  // Theorems over every interleaving
  // ---------------------------------------------------------------------

  function Reached(store: Store, actions: seq<Action>): State {
    Run(store, EMPTY, actions)
  }

  lemma {:induction false} RunAppend(store: Store, s: State, actions: seq<Action>, more: seq<Action>)
    ensures Run(store, s, actions + more) == Run(store, Run(store, s, actions), more)
    decreases |actions|
  {
    if actions == [] {
      assert actions + more == more;
    } else {
      assert (actions + more)[1..] == actions[1..] + more;
      RunAppend(store, Do(store, s, actions[0]), actions[1..], more);
    }
  }

  /** The first claim's customer never changes, and the first signature is never replaced. */
  lemma FirstClaimWins(store: Store, actions: seq<Action>, more: seq<Action>)
    requires Timed(actions + more) && Reached(store, actions).stored.Some?
    ensures
      var first, now := Reached(store, actions).stored.value, Reached(store, actions + more).stored;
      && now.Some? && now.value.customer == first.customer && now.value.requestedAt == first.requestedAt
      && (first.signature.Some? ==> now.value.signature == first.signature)
  {
    assert forall a | a in actions :: a in actions + more;
    assert forall a | a in more :: a in actions + more;
    RunAppend(store, EMPTY, actions, more);
    RunSound(store, EMPTY, actions);
    RunSound(store, Reached(store, actions), more);
  }

  /** A customer told that the claim is theirs owns it for good; all others are refused. */
  lemma ToldMeansOwned(store: Store, actions: seq<Action>, i: nat, j: nat)
    requires Timed(actions)
    requires
      var told := Reached(store, actions).told;
      i < |told| && j < |told| && told[i].answer.Ok? && told[j].answer.Ok?
    ensures
      var s := Reached(store, actions);
      && s.stored.Some? && s.stored.value.customer == s.told[i].ask.customer == s.told[j].ask.customer
  {
    RunSound(store, EMPTY, actions);
    var s := Reached(store, actions);
    assert Kept(s.told[i], s.stored) && Kept(s.told[j], s.stored);
  }

  /** Every successful signer gets the one signature that is stored, in its proper form. */
  lemma OneSignature(store: Store, actions: seq<Action>, i: nat)
    requires Timed(actions)
    requires
      var told := Reached(store, actions).told;
      i < |told| && told[i].ask.Supply? && told[i].answer.Ok?
    ensures
      var s := Reached(store, actions);
      && s.stored.Some? && s.stored.value.signature.Some? && Signature(s.stored.value.signature.value)
      && s.told[i].answer.value.signature == s.stored.value.signature
  {
    RunSound(store, EMPTY, actions);
    var s := Reached(store, actions);
    assert Kept(s.told[i], s.stored);
  }

  lemma StepsAgree(s: State, a: Action)
    requires Sound(s)
    ensures Do(InMemory, s, a) == Do(Sql, s, a)
  {
    if a.Keep? && a.n in s.calls && s.calls[a.n].phase.Saving? {
      assert CallSound(s.calls[a.n], s.stored);
      assert !Signature("");
      UpsertsAgree(s.stored, s.calls[a.n].phase.record);
    }
  }

  lemma {:induction false} StoresAgree(s: State, actions: seq<Action>)
    requires Sound(s) && Timed(actions)
    ensures Run(InMemory, s, actions) == Run(Sql, s, actions)
    decreases |actions|
  {
    if actions != [] {
      assert actions[0] in actions;
      StepsAgree(s, actions[0]);
      DoSound(Sql, s, actions[0]);
      StoresAgree(Do(Sql, s, actions[0]), actions[1..]);
    }
  }

  // ---------------------------------------------------------------------
  // The calls themselves, with everyone else's steps between theirs
  // ---------------------------------------------------------------------

  /**
   * What a call comes to: it answers by the claim it met, or saves over the one that is there by then
   * and answers by what stands afterwards.
   */
  predicate Followed(store: Store, before: Option<Claim>, met: Option<Claim>, late: Option<Claim>, after: Option<Claim>,
                     ask: Ask, status: Option<Status>, r: Result<Claim, ClaimError>) {
    && Later(before, met) && Later(met, late)
    && match Decide(ask, status, met)
       case Answer(answer) => r == answer && met == late && Later(met, after)
       case Save(record) =>
         && Later(Some(Upsert(store, late, record)), after) && after.Some?
         && r == if after.value.customer != ask.customer then Err(AnotherCustomer) else Ok(after.value)
  }

  /** With nobody else between, an open and unclaimed request from a proper address succeeds. */
  lemma ClaimedAlone(store: Store, after: Option<Claim>, customer: string, at: string, status: Option<Status>,
                     r: Result<Claim, ClaimError>)
    requires Address(customer) && status == Some(AwaitingApproval)
    requires Followed(store, None, None, None, after, Request(customer, at), status, r)
    ensures r.Ok? && after == Some(r.value) && r.value.customer == customer && r.value.requestedAt == at
  {
  }

  /** And a proper signature for the customer who asked is the one that is stored. */
  lemma SignedAlone(store: Store, claim: Claim, after: Option<Claim>, signature: string, at: string,
                    status: Option<Status>, r: Result<Claim, ClaimError>)
    requires status.Some? && Open(status.value) && Signature(signature) && claim.signature.None? && claim.signedAt.None?
    requires Followed(store, Some(claim), Some(claim), Some(claim), after,
                      Supply(claim.customer, signature, at), status, r)
    ensures r.Ok? && after == Some(r.value) && r.value.signature == Some(signature)
    ensures r.value.customer == claim.customer && r.value.requestedAt == claim.requestedAt
  {
    assert !Signature("");
  }

  class Requests {
    var store: Store
    var state: State

    ghost predicate Valid()
      reads this
    {
      Sound(state)
    }

    constructor (store: Store)
      ensures Valid() && this.store == store && state == EMPTY
    {
      this.store, state := store, EMPTY;
    }

    method Others()
      requires Valid()
      modifies `state
      ensures Valid() && Later(old(state).stored, state.stored)
    {
      var actions: seq<Action> := *;
      if Timed(actions) {
        RunSound(store, state, actions);
        state := Run(store, state, actions);
      }
    }

    method Save(record: Claim)
      requires Valid() && ClaimSound(record)
      modifies `state
      ensures Valid() && state.stored == Some(Upsert(store, old(state).stored, record))
      ensures Later(old(state).stored, state.stored)
    {
      UpsertSound(store, state.stored, record);
      EverythingKept(state, Some(Upsert(store, state.stored, record)));
      state := state.(stored := Some(Upsert(store, state.stored, record)));
    }

    /** Reads, checks and saves a claim; `met` is the claim it read, `late` the one its save came upon. */
    method RequestCountersignature(status: Option<Status>, customer: string, at: string)
      returns (r: Result<Claim, ClaimError>, ghost met: Option<Claim>, ghost late: Option<Claim>)
      requires Valid() && at != ""
      modifies `state
      ensures Valid() && Kept(Outcome(Request(customer, at), r), state.stored)
      ensures Followed(store, old(state).stored, met, late, state.stored, Request(customer, at), status, r)
    {
      met, late := state.stored, state.stored;
      if status.None? {
        return Err(NotFound), met, late;
      }
      if !Address(customer) {
        return Err(NotAnAddress), met, late;
      }
      Others();
      var existing := state.stored;
      met, late := existing, existing;
      if existing.Some? {
        if existing.value.customer != customer {
          return Err(AnotherCustomer), met, late;
        }
        if status.value != AwaitingApproval && status.value != Authorized {
          return Err(WrongState), met, late;
        }
        return Ok(existing.value), met, late;
      }
      if status.value != AwaitingApproval {
        return Err(WrongState), met, late;
      }
      Others();
      late := state.stored;
      var record := Claim(customer, None, at, None);
      Save(record);
      Others();
      var persisted := state.stored;
      if persisted.Some? && persisted.value.customer != customer {
        return Err(AnotherCustomer), met, late;
      }
      return Ok(if persisted.Some? then persisted.value else record), met, late;
    }

    /** Reads, checks and saves a signature; `met` and `late` as above. */
    method SupplyCountersignature(status: Option<Status>, customer: string, signature: string, at: string)
      returns (r: Result<Claim, ClaimError>, ghost met: Option<Claim>, ghost late: Option<Claim>)
      requires Valid() && at != ""
      modifies `state
      ensures Valid() && Kept(Outcome(Supply(customer, signature, at), r), state.stored)
      ensures Followed(store, old(state).stored, met, late, state.stored, Supply(customer, signature, at), status, r)
    {
      met, late := state.stored, state.stored;
      if status.None? {
        return Err(NotFound), met, late;
      }
      if status.value != AwaitingApproval && status.value != Authorized {
        return Err(WrongState), met, late;
      }
      Others();
      var existing := state.stored;
      met, late := existing, existing;
      if existing.None? {
        return Err(NobodyAsked), met, late;
      }
      if existing.value.customer != customer {
        return Err(AnotherCustomer), met, late;
      }
      if !Signature(signature) {
        return Err(NotASignature), met, late;
      }
      if Truthy(existing.value.signature) {
        return Ok(existing.value), met, late;
      }
      Others();
      late := state.stored;
      var record := existing.value.(signature := Some(signature), signedAt := Some(at));
      Save(record);
      Others();
      return Ok(if state.stored.Some? then state.stored.value else record), met, late;
    }
  }

  // ---------------------------------------------------------------------
  // One call of the machine, left alone
  // ---------------------------------------------------------------------

  /** Begun, read, saved if there is something to save, and read again: as the methods do it. */
  lemma AloneInTurn(store: Store, s: State, n: nat, ask: Ask, status: Option<Status>)
    requires n !in s.calls
    ensures
      var read := Do(store, Do(store, s, Begin(n, ask, status)), Look(n));
      match Decide(ask, status, s.stored)
      case Answer(r) => read == s.(told := s.told + [Outcome(ask, r)])
      case Save(record) =>
        var kept := Upsert(store, s.stored, record);
        Do(store, Do(store, read, Keep(n)), Reread(n))
          == State(Some(kept), s.calls,
                   s.told + [Outcome(ask, if ask.Request? && kept.customer != ask.customer
                                          then Err(AnotherCustomer) else Ok(kept))])
  {
    var begun := Do(store, s, Begin(n, ask, status));
    assert begun.calls - {n} == s.calls;
    match Decide(ask, status, s.stored)
    case Answer(r) =>
    case Save(record) =>
      var read := Do(store, begun, Look(n));
      assert read.calls == begun.calls[n := Call(ask, status, Saving(record))];
      var saved := Do(store, read, Keep(n));
      assert saved.calls == read.calls[n := Call(ask, status, Saved(record))];
      assert saved.calls - {n} == s.calls;
  }
}
