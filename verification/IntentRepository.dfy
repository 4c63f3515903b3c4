/** The settlement table itself, as the in-memory store and the database keep it. */
module IntentRepository {
  import opened Base
  import opened Payment
  import opened Lifecycle

  type Table = map<string, Record>

  /** The database's conditional write of the whole record. */
  function UpdateRecord(rows: Table, id: string, expected: Status, record: Record): Table {
    if id in rows && rows[id].status == expected then rows[id := record] else rows
  }

  /** The worker's conditional write of the columns its call names. */
  function UpdateColumns(rows: Table, id: string, expected: Status, ask: Ask): Table {
    if id in rows && rows[id].status == expected then rows[id := Patched(ask, rows[id])] else rows
  }

  class InMemoryIntentRepository {
    var settlements: Table

    constructor ()
      ensures settlements == map[]
    {
      settlements := map[];
    }

    method CompareAndSetSettlement(id: string, expectedStatus: Status, settlement: Record) returns (won: bool)
      modifies this
      ensures settlements == UpdateRecord(old(settlements), id, expectedStatus, settlement)
      ensures won <==> id in old(settlements) && old(settlements)[id].status == expectedStatus
    {
      if id !in settlements || settlements[id].status != expectedStatus {
        return false;
      }
      settlements := settlements[id := settlement];
      return true;
    }
  }

  /** The table shows the newest record of every row. */
  ghost predicate Shows(rows: Table, s: State) {
    rows.Keys == s.log.Keys && forall id | id in rows :: s.log[id] != [] && rows[id] == Row(s, id)
  }

  /**
   * In any sound state the two kinds of conditional write come to the same table, and it is the
   * one the lifecycle's own step leads to: replacing the whole record loses nothing.
   */
  lemma WritesAgree(s: State, rows: Table, n: nat)
    requires Sound(s) && Shows(rows, s) && n in s.calls && s.calls[n].seen.Some?
    ensures
      var c := s.calls[n];
      var seen := c.seen.value;
      && UpdateRecord(rows, c.id, seen.status, Patched(c.ask, seen)) == UpdateColumns(rows, c.id, seen.status, c.ask)
      && Shows(UpdateRecord(rows, c.id, seen.status, Patched(c.ask, seen)), Do(s, Write(n)))
  {
    var c := s.calls[n];
    assert CallSound(s, c);
    SameStatusSameRecord(s.log[c.id], c.seen.value);
    WriteShows(s, n);
  }

  /** What a write leaves in the log of its row. */
  lemma WriteShows(s: State, n: nat)
    requires n in s.calls && s.calls[n].seen.Some? && Exists(s, s.calls[n].id)
    requires
      || s.calls[n].seen.value == Row(s, s.calls[n].id)
      || s.calls[n].seen.value.status != Row(s, s.calls[n].id).status
    ensures
      var c := s.calls[n];
      Do(s, Write(n)).log == if c.seen.value.status == Row(s, c.id).status
                             then s.log[c.id := s.log[c.id] + [Patched(c.ask, c.seen.value)]] else s.log
  {
  }

  /** Reading after any run finds the newest record: creation and every write keep the table in step. */
  function Played(rows: Table, s: State, a: Action): Table {
    match a
    case Create(id) => if id in rows then rows else rows[id := FRESH]
    case Write(n) =>
      if n in s.calls && s.calls[n].seen.Some? then
        var c := s.calls[n];
        if c.api then UpdateRecord(rows, c.id, c.seen.value.status, Patched(c.ask, c.seen.value))
        else UpdateColumns(rows, c.id, c.seen.value.status, c.ask)
      else rows
    case _ => rows
  }

  function TableAfter(rows: Table, s: State, actions: seq<Action>): Table
    decreases |actions|
  {
    if actions == [] then rows else TableAfter(Played(rows, s, actions[0]), Do(s, actions[0]), actions[1..])
  }

  lemma {:induction false} TableInStep(rows: Table, s: State, actions: seq<Action>)
    requires Sound(s) && Shows(rows, s)
    ensures Shows(TableAfter(rows, s, actions), Run(s, actions))
    decreases |actions|
  {
    if actions != [] {
      DoSound(s, actions[0]);
      StepInStep(rows, s, actions[0]);
      TableInStep(Played(rows, s, actions[0]), Do(s, actions[0]), actions[1..]);
    }
  }

  lemma StepInStep(rows: Table, s: State, a: Action)
    requires Sound(s) && Shows(rows, s)
    ensures Shows(Played(rows, s, a), Do(s, a))
  {
    match a
    case Write(n) =>
      if n in s.calls && s.calls[n].seen.Some? {
        WritesAgree(s, rows, n);
      }
    case Create(id) =>
    case _ => OthersWriteNothing(s, a);
  }

  lemma OthersWriteNothing(s: State, a: Action)
    requires !a.Create? && !a.Write?
    ensures Do(s, a).log == s.log
  {
  }
}
