/** The states a payment goes through and the moves between them. */
module Payment {
  import opened Base

  datatype Status = Created | AwaitingApproval | Authorized | Submitted | Confirmed | Rejected | Expired | Failed

  datatype Payment =
    Payment(intentId: string, status: Status, transactionHash: Option<string>, failureCode: Option<string>)

  datatype InvalidTransition = InvalidTransition(from: Status, to: Status)

  function AllowedTransitions(s: Status): seq<Status> {
    match s
    case Created => [AwaitingApproval, Expired, Failed]
    case AwaitingApproval => [Authorized, Rejected, Expired, Failed]
    case Authorized => [Submitted, Expired, Failed]
    case Submitted => [Confirmed, Failed]
    case Confirmed => []
    case Rejected => []
    case Expired => []
    case Failed => []
  }

  predicate Allowed(from: Status, to: Status) {
    to in AllowedTransitions(from)
  }

  function TransitionPayment(p: Payment, next: Status): (r: Result<Payment, InvalidTransition>)
    ensures r.Ok? <==> Allowed(p.status, next)
    ensures r.Ok? ==> Rank(p.status) < Rank(next) && !IsTerminal(p.status) && r.value == p.(status := next)
    ensures r.Err? ==> r.error == InvalidTransition(p.status, next)
    ensures IsTerminal(p.status) ==> r.Err?
  {
    if !Allowed(p.status, next) then Err(InvalidTransition(p.status, next)) else Ok(p.(status := next))
  }

  predicate IsTerminal(s: Status) {
    |AllowedTransitions(s)| == 0
  }

  /** How far along a status is. */
  function Rank(s: Status): nat {
    match s
    case Created => 0
    case AwaitingApproval => 1
    case Authorized => 2
    case Submitted => 3
    case _ => 4
  }

  /** A walk through the graph of allowed moves. */
  predicate Path(statuses: seq<Status>) {
    forall i | 0 < i < |statuses| :: Allowed(statuses[i - 1], statuses[i])
  }

  lemma {:induction false} PathAdvances(statuses: seq<Status>, i: nat, j: nat)
    requires Path(statuses) && i < j < |statuses|
    ensures Rank(statuses[i]) + (j - i) <= Rank(statuses[j])
    ensures !IsTerminal(statuses[i])
  {
    assert Allowed(statuses[j - 1], statuses[j]);
    if i < j - 1 {
      PathAdvances(statuses, i, j - 1);
    }
  }

  /** No walk repeats a status, and none is longer than five. */
  lemma PathIsShort(statuses: seq<Status>)
    requires Path(statuses)
    ensures |statuses| <= 5
    ensures forall i, j | 0 <= i < j < |statuses| :: statuses[i] != statuses[j]
  {
    if |statuses| > 0 {
      forall i, j | 0 <= i < j < |statuses| ensures statuses[i] != statuses[j] {
        PathAdvances(statuses, i, j);
      }
      if |statuses| > 1 {
        PathAdvances(statuses, 0, |statuses| - 1);
      }
    }
  }

  /** The stages of a payment that goes well. */
  const STAGES := [Created, AwaitingApproval, Authorized, Submitted, Confirmed]

  /**
   * What a payment may do: while it is open it may go to its next stage or fail; it may expire as long as it
   * has not been submitted; and it may be rejected only while approval is awaited.
   */
  lemma MovesAre(from: Status, to: Status)
    ensures IsTerminal(from) <==> from in {Confirmed, Rejected, Expired, Failed}
    ensures Allowed(from, to) <==>
              && !IsTerminal(from)
              && (|| to == Failed
                  || (to == Expired && from != Submitted)
                  || (to == Rejected && from == AwaitingApproval)
                  || exists i :: 0 <= i < 4 && from == STAGES[i] && to == STAGES[i + 1])
  {
    assert STAGES[0] == Created && STAGES[1] == AwaitingApproval && STAGES[2] == Authorized;
    assert STAGES[3] == Submitted && STAGES[4] == Confirmed;
  }
}
