/** What the worker concludes from the ledger's answers. */
module Reconciliation {
  import opened Base
  import opened Formats

  /** A receipt, and the hash that was asked about. */
  datatype Receipt = Receipt(asked: string, hash: string, ledger: int)

  /** What the RPC says of a hash: a receipt, or the code of its error. */
  type Answer = Result<Receipt, string>

  /** A submitted settlement as the worker lists it. */
  datatype SubmittedRow = SubmittedRow(id: string, hash: string)

  /** A settlement event of the contract. */
  datatype Event = Event(id: string, hash: string, ledger: int)

  datatype Fate = Paid | Broken(code: string) | Pending | Ignored

  /** Without an event: the receipt has to be for the row's own hash. */
  function FateOfSubmitted(hash: string, answer: Answer): Fate {
    match answer
    case Err(code) => if code == "NOT_FOUND" then Pending else Broken("STELLAR_" + code)
    case Ok(receipt) =>
      if !SameHash(receipt.hash, hash) then Broken("STELLAR_INVALID_SUCCESS_RESPONSE") else Paid
  }

  /** With an event that names the row's hash: the receipt has to match it, ledger and all. */
  function FateOfReported(e: Event, answer: Answer): Fate {
    match answer
    case Err(code) => if code == "NOT_FOUND" then Pending else Broken("STELLAR_EVENT_" + code)
    case Ok(receipt) =>
      if !SameHash(receipt.hash, e.hash) || receipt.ledger != e.ledger then Broken("STELLAR_EVENT_RECEIPT_MISMATCH")
      else Paid
  }

  predicate Reported(e: Event, earlier: seq<Event>) {
    exists d :: d in earlier && d.id == e.id
  }

  function FateOfEvent(listed: map<string, string>, earlier: seq<Event>, e: Event, answer: Answer): Fate {
    if Reported(e, earlier) || e.id !in listed then Ignored
    else if !SameHash(listed[e.id], e.hash) then Broken("STELLAR_EVENT_TX_MISMATCH")
    else FateOfReported(e, answer)
  }

  // ---------------------------------------------------------------------
  // The same, said outright
  // ---------------------------------------------------------------------

  /** A submitted settlement is paid by a receipt for its own hash, and waits while there is none. */
  predicate SubmittedFate(hash: string, answer: Answer, fate: Fate) {
    && (fate.Paid? <==> answer.Ok? && SameHash(answer.value.hash, hash))
    && (fate.Pending? <==> answer == Err("NOT_FOUND"))
    && !fate.Ignored?
    && (fate.Broken? ==>
          fate.code == if answer.Err? then "STELLAR_" + answer.error else "STELLAR_INVALID_SUCCESS_RESPONSE")
  }

  lemma SubmittedFateIs(hash: string, answer: Answer, fate: Fate)
    ensures fate == FateOfSubmitted(hash, answer) <==> SubmittedFate(hash, answer, fate)
  {
  }

  /** Of an event that names the row's hash: only a receipt with this hash and this very ledger pays. */
  predicate ReportedFate(e: Event, answer: Answer, fate: Fate) {
    && (fate.Paid? <==> answer.Ok? && SameHash(answer.value.hash, e.hash) && answer.value.ledger == e.ledger)
    && (fate.Pending? <==> answer == Err("NOT_FOUND"))
    && !fate.Ignored?
    && (fate.Broken? ==>
          fate.code == if answer.Err? then "STELLAR_EVENT_" + answer.error else "STELLAR_EVENT_RECEIPT_MISMATCH")
  }

  lemma ReportedFateIs(e: Event, answer: Answer, fate: Fate)
    ensures fate == FateOfReported(e, answer) <==> ReportedFate(e, answer, fate)
  {
  }

  /** The first event of a listed settlement is looked at; one that names another hash breaks the payment. */
  predicate EventFate(listed: map<string, string>, earlier: seq<Event>, e: Event, answer: Answer, fate: Fate) {
    && (fate.Ignored? <==> e.id !in listed || exists d :: d in earlier && d.id == e.id)
    && (!fate.Ignored? && !SameHash(listed[e.id], e.hash) ==> fate == Broken("STELLAR_EVENT_TX_MISMATCH"))
    && (!fate.Ignored? && SameHash(listed[e.id], e.hash) ==> ReportedFate(e, answer, fate))
  }

  /** Which fate an event has depends on nothing but its row, its receipt and the events before it. */
  lemma EventFateIs(listed: map<string, string>, earlier: seq<Event>, e: Event, answer: Answer, fate: Fate)
    ensures fate == FateOfEvent(listed, earlier, e, answer) <==> EventFate(listed, earlier, e, answer, fate)
  {
  }

  /** Some receipt on record, given for this hash up to letter case, has this hash and ledger. */
  predicate Backed(hash: string, ledger: int, receipts: set<Receipt>) {
    exists r :: r in receipts && r.hash == hash && r.ledger == ledger && SameHash(r.asked, hash)
  }

  /** The comparison the worker makes is what backs a confirmation. */
  lemma PaidIsBacked(hash: string, answer: Answer, receipts: set<Receipt>)
    requires FateOfSubmitted(hash, answer) == Paid && answer.value in receipts && answer.value.asked == hash
    ensures Backed(answer.value.hash, answer.value.ledger, receipts)
  {
  }

  lemma ReportedIsBacked(e: Event, answer: Answer, receipts: set<Receipt>)
    requires FateOfReported(e, answer) == Paid && answer.value in receipts && answer.value.asked == e.hash
    ensures Backed(answer.value.hash, answer.value.ledger, receipts)
  {
  }
}
