/**
 * The settlement contract: what it stores, what it refuses, and what it moves.
 * Signature checks are an unknown predicate; tokens and the swap router behave
 * as their interfaces promise. A failing call leaves everything as it was.
 */
module SettlementContract {
  import opened Base

  type Address = string

  type Id = string

  datatype Merchant = Merchant(signingKey: Id, recipient: Address, active: bool)

  datatype Intent = Intent(
    networkId: Id,
    settlementContract: Address,
    intentId: Id,
    nonce: Id,
    merchantId: Id,
    customer: Address,
    recipient: Address,
    token: Address,
    amount: int,
    expiresAtLedger: nat)

  datatype ContractError =
    | MerchantNotFound
    | MerchantRevoked
    | RecipientMismatch
    | UnsupportedAsset
    | InvalidAmount
    | IntentExpired
    | IntentConsumed
    | WrongNetwork
    | WrongContract
    | SwapRouterNotSet
    | InvalidSwapPath
    | InvalidSwapLimit
    | NotAuthorized
    | BadSignature
    | TransferFailed
    | SwapFailed

  datatype Event =
    | MerchantRegistered(merchantId: Id, recipient: Address)
    | PaymentSettled(intentId: Id, merchantId: Id, customer: Address, recipient: Address, token: Address, amount: int)
    | PaymentFunded(intentId: Id, sourceToken: Address, customer: Address, amountIn: int, amountOut: int)

  /** (token, holder) to the amount held; a missing entry is an empty one. */
  type Balances = map<(Address, Address), int>

  /** What never changes: the chain, the contract's own address, and the unknown signature check. */
  datatype World = World(networkId: Id, contract: Address, signed: (Id, Intent, Id) -> bool)

  datatype State = State(
    supported: map<Address, bool>,
    merchants: map<Id, Merchant>,
    consumed: set<Id>,
    router: Option<Address>,
    balances: Balances,
    events: seq<Event>,
    ledger: nat,
    time: nat)

  /** The customer's funding choice, and the price the pool charges. */
  datatype Funding = Funding(path: seq<Address>, amountInMax: int, deadline: nat, price: int)

  // ---------------------------------------------------------------------
  // Tokens and the router
  // ---------------------------------------------------------------------

  function Held(b: Balances, token: Address, a: Address): int {
    if (token, a) in b then b[(token, a)] else 0
  }

  function Put(b: Balances, token: Address, a: Address, amount: int): (r: Balances)
    ensures forall t, x :: Held(r, t, x) == if t == token && x == a then amount else Held(b, t, x)
  {
    b[(token, a) := amount]
  }

  function Transfer(b: Balances, token: Address, from: Address, to: Address, amount: int): Option<Balances> {
    if amount < 0 || Held(b, token, from) < amount then None
    else
      var spent := Put(b, token, from, Held(b, token, from) - amount);
      if Held(spent, token, to) + amount > MAX_I128 then None
      else Some(Put(spent, token, to, Held(spent, token, to) + amount))
  }

  /** The router buys exactly `amountOut` of the last token, or fails. */
  function RouterSwap(b: Balances, router: Address, amountOut: int, f: Funding, to: Address, time: nat):
      Option<Balances>
    requires f.path != []
  {
    if time >= f.deadline || f.price > f.amountInMax then None
    else
      match Transfer(b, f.path[0], to, router, f.price)
      case None => None
      case Some(paid) => Transfer(paid, f.path[|f.path| - 1], router, to, amountOut)
  }

  // ---------------------------------------------------------------------
  // What a settlement requires
  // ---------------------------------------------------------------------

  /** Everything a settled payment is justified by. */
  predicate Justified(w: World, s: State, i: Intent, signature: Id, authorized: bool) {
    && i.amount > 0 && s.ledger < i.expiresAtLedger && i.networkId == w.networkId && i.settlementContract == w.contract
    && i.merchantId in s.merchants && s.merchants[i.merchantId].active
    && s.merchants[i.merchantId].recipient == i.recipient
    && i.token in s.supported && s.supported[i.token]
    && i.intentId !in s.consumed
    && authorized && w.signed(s.merchants[i.merchantId].signingKey, i, signature)
  }

  /** The shared checks in the order they are made; the other errors come after them. */
  function Rank(e: ContractError): nat {
    match e
    case InvalidAmount => 0
    case IntentExpired => 1
    case WrongNetwork => 2
    case WrongContract => 3
    case MerchantNotFound => 4
    case MerchantRevoked => 5
    case RecipientMismatch => 6
    case UnsupportedAsset => 7
    case IntentConsumed => 8
    case NotAuthorized => 9
    case BadSignature => 10
    case _ => 11
  }

  /** What a payment must satisfy for the refusal e not to apply. */
  predicate Meets(e: ContractError, w: World, s: State, i: Intent, signature: Id, authorized: bool) {
    match e
    case InvalidAmount => i.amount > 0
    case IntentExpired => s.ledger < i.expiresAtLedger
    case WrongNetwork => i.networkId == w.networkId
    case WrongContract => i.settlementContract == w.contract
    case MerchantNotFound => i.merchantId in s.merchants
    case MerchantRevoked => i.merchantId in s.merchants && s.merchants[i.merchantId].active
    case RecipientMismatch => i.merchantId in s.merchants && s.merchants[i.merchantId].recipient == i.recipient
    case UnsupportedAsset => i.token in s.supported && s.supported[i.token]
    case IntentConsumed => i.intentId !in s.consumed
    case NotAuthorized => authorized
    case BadSignature => i.merchantId in s.merchants && w.signed(s.merchants[i.merchantId].signingKey, i, signature)
    case _ => true
  }

  /** The first check that fails, in the contract's order. */
  function Refusal(w: World, s: State, i: Intent, signature: Id, authorized: bool): (r: Option<ContractError>)
    ensures r.None? <==> Justified(w, s, i, signature, authorized)
    ensures r.Some? ==> !Meets(r.value, w, s, i, signature, authorized)
    ensures r.Some? ==> forall f: ContractError :: Rank(f) < Rank(r.value) ==> Meets(f, w, s, i, signature, authorized)
  {
    if i.amount <= 0 then Some(InvalidAmount)
    else if i.expiresAtLedger <= s.ledger then Some(IntentExpired)
    else if i.networkId != w.networkId then Some(WrongNetwork)
    else if i.settlementContract != w.contract then Some(WrongContract)
    else if i.merchantId !in s.merchants then Some(MerchantNotFound)
    else if !s.merchants[i.merchantId].active then Some(MerchantRevoked)
    else if s.merchants[i.merchantId].recipient != i.recipient then Some(RecipientMismatch)
    else if i.token !in s.supported || !s.supported[i.token] then Some(UnsupportedAsset)
    else if i.intentId in s.consumed then Some(IntentConsumed)
    else if !authorized then Some(NotAuthorized)
    else if !w.signed(s.merchants[i.merchantId].signingKey, i, signature) then Some(BadSignature)
    else None
  }

  function Receipt(i: Intent): Event {
    PaymentSettled(i.intentId, i.merchantId, i.customer, i.recipient, i.token, i.amount)
  }

  function Settle(w: World, s: State, i: Intent, signature: Id, authorized: bool): Result<State, ContractError> {
    match Refusal(w, s, i, signature, authorized)
    case Some(e) => Err(e)
    case None =>
      match Transfer(s.balances, i.token, i.customer, i.recipient, i.amount)
      case None => Err(TransferFailed)
      case Some(b) => Ok(s.(consumed := s.consumed + {i.intentId}, balances := b, events := s.events + [Receipt(i)]))
  }

  function PathRefusal(s: State, i: Intent, f: Funding): Option<ContractError> {
    if s.router.None? then Some(SwapRouterNotSet)
    else if f.amountInMax <= 0 then Some(InvalidSwapLimit)
    else if |f.path| < 2 || f.path[|f.path| - 1] != i.token || f.path[0] == i.token then Some(InvalidSwapPath)
    else None
  }

  function SettleWithSwap(w: World, s: State, i: Intent, signature: Id, authorized: bool, f: Funding)
    : Result<State, ContractError>
  {
    if PathRefusal(s, i, f).Some? then Err(PathRefusal(s, i, f).value)
    else if Refusal(w, s, i, signature, authorized).Some? then Err(Refusal(w, s, i, signature, authorized).value)
    else
      match RouterSwap(s.balances, s.router.value, i.amount, f, i.customer, s.time)
      case None => Err(SwapFailed)
      case Some(bought) =>
        match Transfer(bought, i.token, i.customer, i.recipient, i.amount)
        case None => Err(TransferFailed)
        case Some(b) =>
          var funded := PaymentFunded(i.intentId, f.path[0], i.customer, f.price, i.amount);
          Ok(s.(consumed := s.consumed + {i.intentId}, balances := b, events := s.events + [funded, Receipt(i)]))
  }

  // ---------------------------------------------------------------------
  // The contract
  // ---------------------------------------------------------------------

  class SettlementContract {
    const world: World
    const admin: Address
    var state: State

    constructor (world: World, admin: Address, initialAsset: Address, balances: Balances, ledger: nat, time: nat)
      ensures this.world == world && this.admin == admin
      ensures state == State(map[initialAsset := true], map[], {}, None, balances, [], ledger, time)
    {
      this.world, this.admin := world, admin;
      state := State(map[initialAsset := true], map[], {}, None, balances, [], ledger, time);
    }

    method RegisterAsset(asset: Address, supported: bool, signers: set<Address>) returns (r: Result<(), ContractError>)
      modifies this
      ensures r == if admin in signers then Ok(()) else Err(NotAuthorized)
      ensures state == if r.Ok? then old(state).(supported := old(state).supported[asset := supported]) else old(state)
      ensures state == Do(world, old(state), Action.RegisterAsset(asset, supported, admin in signers))
    {
      if admin !in signers {
        return Err(NotAuthorized);
      }
      state := state.(supported := state.supported[asset := supported]);
      return Ok(());
    }

    method SetSwapRouter(router: Address, signers: set<Address>) returns (r: Result<(), ContractError>)
      modifies this
      ensures r == if admin in signers then Ok(()) else Err(NotAuthorized)
      ensures state == if r.Ok? then old(state).(router := Some(router)) else old(state)
      ensures state == Do(world, old(state), Action.SetSwapRouter(router, admin in signers))
    {
      if admin !in signers {
        return Err(NotAuthorized);
      }
      state := state.(router := Some(router));
      return Ok(());
    }

    method RegisterMerchant(id: Id, signingKey: Id, recipient: Address, signers: set<Address>)
      returns (r: Result<(), ContractError>)
      modifies this
      ensures r == if admin in signers then Ok(()) else Err(NotAuthorized)
      ensures r.Err? ==> state == old(state)
      ensures r.Ok? ==>
                state == old(state).(merchants := old(state).merchants[id := Merchant(signingKey, recipient, true)],
                                     events := old(state).events + [MerchantRegistered(id, recipient)])
      ensures state == Do(world, old(state), Action.RegisterMerchant(id, signingKey, recipient, admin in signers))
    {
      if admin !in signers {
        return Err(NotAuthorized);
      }
      state := state.(merchants := state.merchants[id := Merchant(signingKey, recipient, true)]);
      state := state.(events := state.events + [MerchantRegistered(id, recipient)]);
      return Ok(());
    }

    method RevokeMerchant(id: Id, signers: set<Address>) returns (r: Result<(), ContractError>)
      modifies this
      ensures r == if admin !in signers then Err(NotAuthorized)
                   else if id !in old(state).merchants then Err(MerchantNotFound)
                   else Ok(())
      ensures r.Err? ==> state == old(state)
      ensures r.Ok? ==>
                && state == old(state).(merchants := state.merchants)
                && state.merchants == old(state).merchants[id := old(state).merchants[id].(active := false)]
      ensures state == Do(world, old(state), Action.RevokeMerchant(id, admin in signers))
    {
      if admin !in signers {
        return Err(NotAuthorized);
      }
      if id !in state.merchants {
        return Err(MerchantNotFound);
      }
      var merchant := state.merchants[id].(active := false);
      state := state.(merchants := state.merchants[id := merchant]);
      return Ok(());
    }

    /** The checks both ways of settling share; passing them spends the intent. */
    method AuthorizeIntent(i: Intent, signature: Id, signers: set<Address>) returns (r: Option<ContractError>)
      modifies this
      ensures r == Refusal(world, old(state), i, signature, i.customer in signers)
      ensures state == if r.None? then old(state).(consumed := old(state).consumed + {i.intentId}) else old(state)
    {
      if i.amount <= 0 {
        return Some(InvalidAmount);
      }
      if i.expiresAtLedger <= state.ledger {
        return Some(IntentExpired);
      }
      if i.networkId != world.networkId {
        return Some(WrongNetwork);
      }
      if i.settlementContract != world.contract {
        return Some(WrongContract);
      }
      if i.merchantId !in state.merchants {
        return Some(MerchantNotFound);
      }
      var merchant := state.merchants[i.merchantId];
      if !merchant.active {
        return Some(MerchantRevoked);
      }
      if merchant.recipient != i.recipient {
        return Some(RecipientMismatch);
      }
      if i.token !in state.supported || !state.supported[i.token] {
        return Some(UnsupportedAsset);
      }
      if i.intentId in state.consumed {
        return Some(IntentConsumed);
      }
      if i.customer !in signers {
        return Some(NotAuthorized);
      }
      if !world.signed(merchant.signingKey, i, signature) {
        return Some(BadSignature);
      }
      state := state.(consumed := state.consumed + {i.intentId});
      return None;
    }

    /** Moves the tokens, or reports that the token contract refused. */
    method Pay(token: Address, from: Address, to: Address, amount: int) returns (ok: bool)
      modifies this
      ensures ok <==> Transfer(old(state).balances, token, from, to, amount).Some?
      ensures state == if ok then old(state).(balances := Transfer(old(state).balances, token, from, to, amount).value)
                       else old(state)
    {
      var moved := Transfer(state.balances, token, from, to, amount);
      if moved.None? {
        return false;
      }
      state := state.(balances := moved.value);
      return true;
    }

    method SettlePayment(i: Intent, signature: Id, signers: set<Address>) returns (r: Result<(), ContractError>)
      modifies this
      ensures Outcome(old(state), state, r, Settle(world, old(state), i, signature, i.customer in signers))
      ensures state == Do(world, old(state), Action.SettlePayment(i, signature, i.customer in signers))
    {
      var before := state;
      var refused := AuthorizeIntent(i, signature, signers);
      if refused.Some? {
        return Err(refused.value);
      }
      var paid := Pay(i.token, i.customer, i.recipient, i.amount);
      if !paid {
        state := before;
        return Err(TransferFailed);
      }
      state := state.(events := state.events + [Receipt(i)]);
      return Ok(());
    }

    method SettlePaymentWithSwap(i: Intent, signature: Id, f: Funding, signers: set<Address>)
      returns (r: Result<(), ContractError>)
      modifies this
      ensures Outcome(old(state), state, r, SettleWithSwap(world, old(state), i, signature, i.customer in signers, f))
      ensures state == Do(world, old(state), Action.SettlePaymentWithSwap(i, signature, i.customer in signers, f))
    {
      var before := state;
      if state.router.None? {
        return Err(SwapRouterNotSet);
      }
      var router := state.router.value;
      if f.amountInMax <= 0 {
        return Err(InvalidSwapLimit);
      }
      if f.path == [] {
        return Err(InvalidSwapPath);
      }
      var sourceToken, bought := f.path[0], f.path[|f.path| - 1];
      if |f.path| < 2 || bought != i.token || sourceToken == i.token {
        return Err(InvalidSwapPath);
      }
      var refused := AuthorizeIntent(i, signature, signers);
      if refused.Some? {
        return Err(refused.value);
      }
      var swapped := RouterSwap(state.balances, router, i.amount, f, i.customer, state.time);
      if swapped.None? {
        state := before;
        return Err(SwapFailed);
      }
      state := state.(balances := swapped.value);
      var paid := Pay(i.token, i.customer, i.recipient, i.amount);
      if !paid {
        state := before;
        return Err(TransferFailed);
      }
      state := state.(events := state.events + [PaymentFunded(i.intentId, sourceToken, i.customer, f.price, i.amount)]);
      state := state.(events := state.events + [Receipt(i)]);
      return Ok(());
    }
  }

  function Registered(s: State, id: Id, signingKey: Id, recipient: Address): State {
    s.(merchants := s.merchants[id := Merchant(signingKey, recipient, true)],
       events := s.events + [MerchantRegistered(id, recipient)])
  }

  function Revoked(s: State, id: Id): State
    requires id in s.merchants
  {
    s.(merchants := s.merchants[id := s.merchants[id].(active := false)])
  }

  /** A call either ends in the state it promises or changes nothing. */
  predicate Outcome(before: State, after: State, r: Result<(), ContractError>, promised: Result<State, ContractError>) {
    match promised
    case Ok(t) => r == Ok(()) && after == t
    case Err(e) => r == Err(e) && after == before
  }

  // ---------------------------------------------------------------------
  // A swap changes how a payment is funded and nothing else
  // ---------------------------------------------------------------------

  /**
   * Settling with a swap is the router's swap followed by settling directly: the same
   * checks, the same balances, the same intent spent and the same receipt, with the
   * funding noted just before it.
   */
  lemma SwapRefinesDirect(w: World, s: State, i: Intent, signature: Id, authorized: bool, f: Funding, t: State)
    ensures
      SettleWithSwap(w, s, i, signature, authorized, f) == Ok(t)
      <==>
      && PathRefusal(s, i, f).None?
      && RouterSwap(s.balances, s.router.value, i.amount, f, i.customer, s.time).Some?
      && (var bought := RouterSwap(s.balances, s.router.value, i.amount, f, i.customer, s.time).value;
          var direct := Settle(w, s.(balances := bought), i, signature, authorized);
          && direct.Ok?
          && t == direct.value.(events :=
                      s.events + [PaymentFunded(i.intentId, f.path[0], i.customer, f.price, i.amount), Receipt(i)])
          && direct.value.events == s.events + [Receipt(i)])
  {
    if PathRefusal(s, i, f).None? {
      match RouterSwap(s.balances, s.router.value, i.amount, f, i.customer, s.time)
      case None =>
      case Some(bought) =>
        assert Refusal(w, s.(balances := bought), i, signature, authorized) == Refusal(w, s, i, signature, authorized);
    }
  }

  /** The customer's path, ceiling and deadline, and the pool's price, never show in what is settled. */
  lemma FundingNeverShows(
      w: World, s: State, i: Intent, signature: Id, authorized: bool, f: Funding, g: Funding, a: Address)
    requires SettleWithSwap(w, s, i, signature, authorized, f).Ok?
    requires SettleWithSwap(w, s, i, signature, authorized, g).Ok?
    ensures
      var t := SettleWithSwap(w, s, i, signature, authorized, f).value;
      var u := SettleWithSwap(w, s, i, signature, authorized, g).value;
      && t.consumed == u.consumed && Payments(t.events) == Payments(u.events)
      && Held(t.balances, i.token, a) == Held(u.balances, i.token, a)
  {
    SwapMoves(w, s, i, signature, authorized, f, a);
    SwapMoves(w, s, i, signature, authorized, g, a);
    SwapRecords(w, s, i, signature, authorized, f);
    SwapRecords(w, s, i, signature, authorized, g);
  }

  /** Either way of settling spends the intent and leaves one receipt. */
  lemma SwapRecords(w: World, s: State, i: Intent, signature: Id, authorized: bool, f: Funding)
    requires SettleWithSwap(w, s, i, signature, authorized, f).Ok?
    ensures
      var t := SettleWithSwap(w, s, i, signature, authorized, f).value;
      && Justified(w, s, i, signature, authorized)
      && t.consumed == s.consumed + {i.intentId} && Payments(t.events) == Payments(s.events) + [Receipt(i)]
      && t.router == s.router
  {
    PaymentsAppend(s.events, [PaymentFunded(i.intentId, f.path[0], i.customer, f.price, i.amount)], Receipt(i));
  }

  lemma SettleRecords(w: World, s: State, i: Intent, signature: Id, authorized: bool)
    requires Settle(w, s, i, signature, authorized).Ok?
    ensures
      var t := Settle(w, s, i, signature, authorized).value;
      && Justified(w, s, i, signature, authorized)
      && t.consumed == s.consumed + {i.intentId} && Payments(t.events) == Payments(s.events) + [Receipt(i)]
      && t.router == s.router
  {
    PaymentsAppend(s.events, [], Receipt(i));
    assert s.events + [] == s.events;
  }

  /** What a swap settlement does to everyone's holding of the merchant's token. */
  lemma SwapMoves(w: World, s: State, i: Intent, signature: Id, authorized: bool, f: Funding, a: Address)
    requires SettleWithSwap(w, s, i, signature, authorized, f).Ok?
    ensures
      var t := SettleWithSwap(w, s, i, signature, authorized, f).value;
      Held(t.balances, i.token, a)
        == Held(s.balances, i.token, a)
           + (if a == i.recipient then i.amount else 0) - (if a == s.router.value then i.amount else 0)
  {
  }

  /** By a swap the recipient gains the whole amount exactly when the recipient is not the router's own pool. */
  lemma PaidInFullBySwap(w: World, s: State, i: Intent, signature: Id, authorized: bool, f: Funding)
    requires SettleWithSwap(w, s, i, signature, authorized, f).Ok?
    ensures
      var t := SettleWithSwap(w, s, i, signature, authorized, f).value;
      (Held(t.balances, i.token, i.recipient) == Held(s.balances, i.token, i.recipient) + i.amount)
      <==> i.recipient != s.router.value
  {
    SwapMoves(w, s, i, signature, authorized, f, i.recipient);
  }

  lemma PaidInFullDirectly(w: World, s: State, i: Intent, signature: Id, authorized: bool)
    requires Settle(w, s, i, signature, authorized).Ok?
    ensures
      var t := Settle(w, s, i, signature, authorized).value;
      (Held(t.balances, i.token, i.recipient) == Held(s.balances, i.token, i.recipient) + i.amount)
      <==> i.recipient != i.customer
  {
  }

  function Example(recipient: Address): Intent {
    Intent("net", "self", "1", "n", "m", "customer", recipient, "usd", 5, 10)
  }

  /** A merchant whose recipient is this address, a customer with both tokens and a pool with the merchant's. */
  function ExampleState(recipient: Address): State {
    State(map["usd" := true], map["m" := Merchant("key", recipient, true)], {}, Some("pool"),
          map[("usd", "customer") := 5, ("xlm", "customer") := 20, ("usd", "pool") := 5], [], 0, 0)
  }

  /** The failing sides exist: a payment to oneself and, by swap, a payment to the pool both settle. */
  lemma PaidToOneself(w: World)
    requires w.networkId == "net" && w.contract == "self" && w.signed("key", Example("customer"), "sig")
    ensures
      var s, i := ExampleState("customer"), Example("customer");
      var r := Settle(w, s, i, "sig", true);
      && r.Ok? && i.recipient == i.customer
      && Held(r.value.balances, i.token, i.recipient) == Held(s.balances, i.token, i.recipient)
  {
    var s, i := ExampleState("customer"), Example("customer");
    assert Justified(w, s, i, "sig", true);
    assert Held(s.balances, "usd", "customer") == 5;
    var spent := Put(s.balances, "usd", "customer", 0);
    assert Transfer(s.balances, "usd", "customer", "customer", 5) == Some(Put(spent, "usd", "customer", 5));
  }

  lemma PaidToThePool(w: World)
    requires w.networkId == "net" && w.contract == "self" && w.signed("key", Example("pool"), "sig")
    ensures
      var s, i, f := ExampleState("pool"), Example("pool"), Funding(["xlm", "usd"], 20, 1, 15);
      var r := SettleWithSwap(w, s, i, "sig", true, f);
      && r.Ok? && s.router == Some(i.recipient)
      && Held(r.value.balances, i.token, i.recipient) == Held(s.balances, i.token, i.recipient)
  {
    var s, i, f := ExampleState("pool"), Example("pool"), Funding(["xlm", "usd"], 20, 1, 15);
    assert Justified(w, s, i, "sig", true) && PathRefusal(s, i, f).None?;
    var b := s.balances;
    assert Held(b, "xlm", "customer") == 20 && Held(b, "usd", "pool") == 5;
    assert Held(b, "usd", "customer") == 5 && Held(b, "xlm", "pool") == 0;
    var paid := Transfer(b, "xlm", "customer", "pool", 15);
    assert paid.Some? && Held(paid.value, "usd", "pool") == 5 && Held(paid.value, "usd", "customer") == 5;
    var bought := Transfer(paid.value, "usd", "pool", "customer", 5);
    assert bought.Some? && Held(bought.value, "usd", "pool") == 0 && Held(bought.value, "usd", "customer") == 10;
    var settled := Transfer(bought.value, "usd", "customer", "pool", 5);
    assert settled.Some? && Held(settled.value, "usd", "pool") == 5;
  }

  // ---------------------------------------------------------------------
  // Receipts
  // ---------------------------------------------------------------------

  /** The settled payments among the events. */
  function Payments(events: seq<Event>): (p: seq<Event>)
    ensures forall e | e in p :: e.PaymentSettled?
  {
    if events == [] then []
    else
      var last := events[|events| - 1];
      Payments(events[..|events| - 1]) + if last.PaymentSettled? then [last] else []
  }

  lemma PaymentsOneMore(events: seq<Event>, e: Event)
    ensures Payments(events + [e]) == Payments(events) + if e.PaymentSettled? then [e] else []
  {
    assert (events + [e])[..|events|] == events;
  }

  lemma PaymentsAppend(events: seq<Event>, note: seq<Event>, e: Event)
    requires |note| <= 1 && (forall n | n in note :: !n.PaymentSettled?) && e.PaymentSettled?
    ensures Payments(events + note + [e]) == Payments(events) + [e]
    ensures |note| == 1 ==> events + note + [e] == events + [note[0], e]
  {
    PaymentsOneMore(events + note, e);
    if note != [] {
      assert events + note == events + [note[0]];
      PaymentsOneMore(events, note[0]);
    } else {
      assert events + note == events;
    }
  }

  // ---------------------------------------------------------------------
  // Whole runs
  // ---------------------------------------------------------------------

  datatype Action =
    | RegisterAsset(asset: Address, supported: bool, byAdmin: bool)
    | SetSwapRouter(router: Address, byAdmin: bool)
    | RegisterMerchant(id: Id, signingKey: Id, recipient: Address, byAdmin: bool)
    | RevokeMerchant(id: Id, byAdmin: bool)
    | SettlePayment(intent: Intent, signature: Id, authorized: bool)
    | SettlePaymentWithSwap(intent: Intent, signature: Id, authorized: bool, funding: Funding)
    | CloseLedgers(ledgers: nat, seconds: nat)

  function Settled(w: World, s: State, a: Action): Result<State, ContractError>
    requires a.SettlePayment? || a.SettlePaymentWithSwap?
  {
    if a.SettlePayment? then Settle(w, s, a.intent, a.signature, a.authorized)
    else SettleWithSwap(w, s, a.intent, a.signature, a.authorized, a.funding)
  }

  function Do(w: World, s: State, a: Action): State {
    match a
    case RegisterAsset(asset, supported, byAdmin) =>
      if byAdmin then s.(supported := s.supported[asset := supported]) else s
    case SetSwapRouter(router, byAdmin) => if byAdmin then s.(router := Some(router)) else s
    case RegisterMerchant(id, key, recipient, byAdmin) => if byAdmin then Registered(s, id, key, recipient) else s
    case RevokeMerchant(id, byAdmin) => if byAdmin && id in s.merchants then Revoked(s, id) else s
    case CloseLedgers(ledgers, seconds) => s.(ledger := s.ledger + ledgers, time := s.time + seconds)
    case _ => if Settled(w, s, a).Ok? then Settled(w, s, a).value else s
  }

  function Run(w: World, s: State, actions: seq<Action>): State {
    if actions == [] then s else Do(w, Run(w, s, actions[..|actions| - 1]), actions[|actions| - 1])
  }

  predicate Pays(w: World, s: State, a: Action) {
    (a.SettlePayment? || a.SettlePaymentWithSwap?) && Settled(w, s, a).Ok?
  }

  /** What one step adds to the record of payments. */
  lemma StepRecords(w: World, s: State, a: Action)
    ensures
      var t := Do(w, s, a);
      if Pays(w, s, a) then
        && Justified(w, s, a.intent, a.signature, a.authorized)
        && Payments(t.events) == Payments(s.events) + [Receipt(a.intent)]
        && t.consumed == s.consumed + {a.intent.intentId}
      else Payments(t.events) == Payments(s.events) && t.consumed == s.consumed
  {
    match a
    case SettlePayment(i, signature, authorized) =>
      if Pays(w, s, a) {
        SettleRecords(w, s, i, signature, authorized);
      }
    case SettlePaymentWithSwap(i, signature, authorized, f) =>
      if Pays(w, s, a) {
        SwapRecords(w, s, i, signature, authorized, f);
      }
    case RegisterMerchant(id, key, recipient, byAdmin) =>
      PaymentsOneMore(s.events, MerchantRegistered(id, recipient));
    case _ =>
  }

  /** A contract as it is deployed, over whatever balances there are. */
  predicate Fresh(s: State) {
    s.consumed == {} && s.events == [] && s.router.None?
  }

  predicate Distinct(p: seq<Event>) {
    forall i, j | 0 <= i < j < |p| && p[i].PaymentSettled? && p[j].PaymentSettled? :: p[i].intentId != p[j].intentId
  }

  /** Every intent settles once at most, and the spent intents are exactly the settled ones. */
  lemma {:induction false} SettledOnce(w: World, s: State, actions: seq<Action>)
    requires Fresh(s)
    ensures
      var t := Run(w, s, actions);
      && Distinct(Payments(t.events))
      && forall id: Id :: id in t.consumed <==> exists e :: e in Payments(t.events) && e.intentId == id
  {
    if actions != [] {
      var past, a := actions[..|actions| - 1], actions[|actions| - 1];
      SettledOnce(w, s, past);
      var m := Run(w, s, past);
      StepRecords(w, m, a);
      if Pays(w, m, a) {
        OneMorePayment(Payments(m.events), m.consumed, Receipt(a.intent));
      }
    }
  }

  lemma OneMorePayment(p: seq<Event>, consumed: set<Id>, e: Event)
    requires (forall d | d in p :: d.PaymentSettled?) && e.PaymentSettled? && Distinct(p) && e.intentId !in consumed
    requires forall id: Id :: id in consumed <==> exists d :: d in p && d.intentId == id
    ensures Distinct(p + [e])
    ensures forall id: Id :: id in consumed + {e.intentId}
              <==> exists d :: d in p + [e] && d.PaymentSettled? && d.intentId == id
  {
    forall id: Id
      ensures id in consumed + {e.intentId} <==> exists d :: d in p + [e] && d.PaymentSettled? && d.intentId == id
    {
      if id in consumed {
        var d :| d in p && d.intentId == id;
        assert d in p + [e];
      }
      if id == e.intentId {
        assert e in p + [e];
      }
    }
    forall i, j | 0 <= i < j < |p + [e]| ensures (p + [e])[i].intentId != (p + [e])[j].intentId {
      assert (p + [e])[i] in p;
    }
  }

  /** Step n of the run announced e, with everything it stands for in order at that moment. */
  predicate AnnouncedAt(w: World, s: State, actions: seq<Action>, n: nat, e: Event) {
    n < |actions| && AnnouncedBy(w, Run(w, s, actions[..n]), actions[n], e)
  }

  predicate AnnouncedBy(w: World, before: State, a: Action, e: Event) {
    match e
    case MerchantRegistered(id, recipient) =>
      a.RegisterMerchant? && a.byAdmin && a.id == id && a.recipient == recipient
    case PaymentSettled(id, merchantId, customer, recipient, token, amount) =>
      && (a.SettlePayment? || a.SettlePaymentWithSwap?)
      && a.intent.intentId == id && a.intent.merchantId == merchantId && a.intent.customer == customer
      && a.intent.recipient == recipient && a.intent.token == token && a.intent.amount == amount
      && merchantId in before.merchants && before.merchants[merchantId].active
      && before.merchants[merchantId].recipient == recipient
      && token in before.supported && before.supported[token]
      && amount > 0 && id !in before.consumed && before.ledger < a.intent.expiresAtLedger
      && a.intent.networkId == w.networkId && a.intent.settlementContract == w.contract
      && a.authorized && w.signed(before.merchants[merchantId].signingKey, a.intent, a.signature)
    case PaymentFunded(id, sourceToken, customer, amountIn, amountOut) =>
      && a.SettlePaymentWithSwap? && Pays(w, before, a)
      && a.intent.intentId == id && a.intent.customer == customer && a.intent.amount == amountOut
      && |a.funding.path| >= 2 && a.funding.path[0] == sourceToken && sourceToken != a.intent.token
      && a.funding.price == amountIn <= a.funding.amountInMax && before.time < a.funding.deadline
  }

  /** What one step adds to the events. */
  lemma StepAnnounces(w: World, s: State, a: Action) returns (news: seq<Event>)
    ensures Do(w, s, a).events == s.events + news
    ensures forall e | e in news :: AnnouncedBy(w, s, a, e)
    ensures Pays(w, s, a) ==> news != [] && news[|news| - 1].PaymentSettled?
    ensures a.SettlePaymentWithSwap? && Pays(w, s, a) ==> |news| == 2 && news[0].PaymentFunded?
    ensures a.RegisterMerchant? && a.byAdmin ==> |news| == 1
  {
    news := [];
    match a
    case SettlePayment(i, signature, authorized) =>
      if Pays(w, s, a) {
        news := [Receipt(i)];
      }
    case SettlePaymentWithSwap(i, signature, authorized, f) =>
      if Pays(w, s, a) {
        news := [PaymentFunded(i.intentId, f.path[0], i.customer, f.price, i.amount), Receipt(i)];
      }
    case RegisterMerchant(id, key, recipient, byAdmin) =>
      if byAdmin {
        news := [MerchantRegistered(id, recipient)];
      }
    case _ =>
  }

  /**
   * Every event of a run tells the truth: it was announced at a step that was about just what it names,
   * and of a payment, at a moment when its merchant, recipient, asset, expiry and signatures were in order.
   */
  lemma {:induction false} EventsAreTrue(w: World, s: State, actions: seq<Action>, k: nat) returns (n: nat)
    requires Fresh(s) && k < |Run(w, s, actions).events|
    ensures AnnouncedAt(w, s, actions, n, Run(w, s, actions).events[k])
  {
    var past, a := actions[..|actions| - 1], actions[|actions| - 1];
    var m := Run(w, s, past);
    var news := StepAnnounces(w, m, a);
    if k < |m.events| {
      n := EventsAreTrue(w, s, past, k);
      assert actions[..n] == past[..n];
    } else {
      n := |actions| - 1;
      assert Run(w, s, actions).events[k] == news[k - |m.events|];
    }
  }

  // ---------------------------------------------------------------------
  // When a payment settles
  // ---------------------------------------------------------------------

  /** A transfer of no negative amount goes through exactly when the payer has it and the payee can hold it. */
  lemma TransferWhen(b: Balances, token: Address, from: Address, to: Address, amount: int)
    ensures Transfer(b, token, from, to, amount).Some? <==>
              && Held(b, token, from) >= amount >= 0
              && (if from == to then Held(b, token, to) else Held(b, token, to) + amount) <= MAX_I128
  {
  }

  /** Directly: exactly a justified payment the customer can make and the recipient can hold. */
  lemma SettlesWhen(w: World, s: State, i: Intent, signature: Id, authorized: bool)
    ensures
      Settle(w, s, i, signature, authorized).Ok?
      <==>
      && Justified(w, s, i, signature, authorized)
      && Held(s.balances, i.token, i.customer) >= i.amount
      && (if i.customer == i.recipient then Held(s.balances, i.token, i.recipient)
          else Held(s.balances, i.token, i.recipient) + i.amount) <= MAX_I128
    ensures
      Settle(w, s, i, signature, authorized) == Err(TransferFailed)
      <==>
      && Justified(w, s, i, signature, authorized)
      && Transfer(s.balances, i.token, i.customer, i.recipient, i.amount).None?
  {
    if Justified(w, s, i, signature, authorized) {
      TransferWhen(s.balances, i.token, i.customer, i.recipient, i.amount);
    }
  }

  /** The customer's funding is in order: a ceiling, and a path from another token to the merchant's. */
  predicate Fundable(s: State, i: Intent, f: Funding) {
    && s.router.Some? && f.amountInMax > 0
    && |f.path| >= 2 && f.path[0] != i.token && f.path[|f.path| - 1] == i.token
  }

  /**
   * By a swap: exactly a justified payment with its funding in order, in time and under the ceiling,
   * that the customer can fund, the pool can serve and the recipient can hold.
   */
  lemma SwapSettlesWhen(w: World, s: State, i: Intent, signature: Id, authorized: bool, f: Funding)
    ensures
      SettleWithSwap(w, s, i, signature, authorized, f).Ok?
      <==>
      && Fundable(s, i, f) && Justified(w, s, i, signature, authorized)
      && s.time < f.deadline && f.price <= f.amountInMax
      && Transfer(s.balances, f.path[0], i.customer, s.router.value, f.price).Some?
      && (var paid := Transfer(s.balances, f.path[0], i.customer, s.router.value, f.price).value;
          && Transfer(paid, i.token, s.router.value, i.customer, i.amount).Some?
          && (var bought := Transfer(paid, i.token, s.router.value, i.customer, i.amount).value;
              Transfer(bought, i.token, i.customer, i.recipient, i.amount).Some?))
    ensures
      var r := SettleWithSwap(w, s, i, signature, authorized, f);
      && (r == Err(SwapRouterNotSet) <==> s.router.None?)
      && (r == Err(InvalidSwapLimit) <==> s.router.Some? && f.amountInMax <= 0)
      && (r == Err(InvalidSwapPath) <==> s.router.Some? && f.amountInMax > 0 && !Fundable(s, i, f))
      && (Fundable(s, i, f) && !Justified(w, s, i, signature, authorized) ==>
            r.Err? && Refusal(w, s, i, signature, authorized) == Some(r.error))
      && (r == Err(SwapFailed) <==>
            && Fundable(s, i, f) && Justified(w, s, i, signature, authorized)
            && RouterSwap(s.balances, s.router.value, i.amount, f, i.customer, s.time).None?)
      && (r == Err(TransferFailed) ==>
            && Fundable(s, i, f) && Justified(w, s, i, signature, authorized)
            && RouterSwap(s.balances, s.router.value, i.amount, f, i.customer, s.time).Some?)
  {
  }

  // ---------------------------------------------------------------------
  // Revoked merchants
  // ---------------------------------------------------------------------

  /** The admin registers this merchant again. */
  predicate Readmits(a: Action, id: Id) {
    a.RegisterMerchant? && a.byAdmin && a.id == id
  }

  /** From its revocation on, and until it is registered again, no payment to a merchant settles. */
  lemma {:induction false} RevokedIsRefused(w: World, s: State, actions: seq<Action>, i: Intent,
                                            signature: Id, authorized: bool, f: Funding)
    requires i.merchantId in s.merchants && forall a | a in actions :: !Readmits(a, i.merchantId)
    ensures
      var t := Run(w, Do(w, s, Action.RevokeMerchant(i.merchantId, true)), actions);
      && i.merchantId in t.merchants && !t.merchants[i.merchantId].active
      && Settle(w, t, i, signature, authorized).Err? && SettleWithSwap(w, t, i, signature, authorized, f).Err?
  {
    var revoked := Do(w, s, Action.RevokeMerchant(i.merchantId, true));
    StaysRevoked(w, revoked, actions, i.merchantId);
    assert !Justified(w, Run(w, revoked, actions), i, signature, authorized);
  }

  lemma {:induction false} StaysRevoked(w: World, s: State, actions: seq<Action>, id: Id)
    requires id in s.merchants && !s.merchants[id].active && forall a | a in actions :: !Readmits(a, id)
    ensures
      var t := Run(w, s, actions);
      id in t.merchants && !t.merchants[id].active
  {
    if actions != [] {
      var past, a := actions[..|actions| - 1], actions[|actions| - 1];
      assert a in actions;
      StaysRevoked(w, s, past, id);
    }
  }

  /** A spent intent is spent for good: no later call settles it again. */
  lemma {:induction false} NoReplay(w: World, s: State, actions: seq<Action>, i: Intent,
                                    signature: Id, authorized: bool, f: Funding)
    requires i.intentId in s.consumed
    ensures i.intentId in Run(w, s, actions).consumed
    ensures Settle(w, Run(w, s, actions), i, signature, authorized).Err?
    ensures SettleWithSwap(w, Run(w, s, actions), i, signature, authorized, f).Err?
  {
    if actions != [] {
      NoReplay(w, s, actions[..|actions| - 1], i, signature, authorized, f);
      StepRecords(w, Run(w, s, actions[..|actions| - 1]), actions[|actions| - 1]);
    }
    assert !Justified(w, Run(w, s, actions), i, signature, authorized);
  }

  // ---------------------------------------------------------------------
  // Money
  // ---------------------------------------------------------------------

  predicate NoRepeats(accounts: seq<Address>) {
    forall i, j | 0 <= i < j < |accounts| :: accounts[i] != accounts[j]
  }

  function Total(b: Balances, token: Address, accounts: seq<Address>): int {
    if accounts == [] then 0 else Held(b, token, accounts[0]) + Total(b, token, accounts[1..])
  }

  lemma {:induction false} TotalAfterPut(b: Balances, token: Address, a: Address, amount: int,
                                         t: Address, accounts: seq<Address>)
    requires NoRepeats(accounts)
    ensures
      Total(Put(b, token, a, amount), t, accounts)
        == Total(b, t, accounts) + if t == token && a in accounts then amount - Held(b, token, a) else 0
  {
    if accounts != [] {
      TotalAfterPut(b, token, a, amount, t, accounts[1..]);
      assert a in accounts <==> a == accounts[0] || a in accounts[1..];
    }
  }

  lemma TransferConserves(
      b: Balances, token: Address, from: Address, to: Address, amount: int, t: Address, accounts: seq<Address>)
    requires NoRepeats(accounts) && from in accounts && to in accounts && Transfer(b, token, from, to, amount).Some?
    ensures Total(Transfer(b, token, from, to, amount).value, t, accounts) == Total(b, t, accounts)
  {
    var spent := Put(b, token, from, Held(b, token, from) - amount);
    TotalAfterPut(b, token, from, Held(b, token, from) - amount, t, accounts);
    TotalAfterPut(spent, token, to, Held(spent, token, to) + amount, t, accounts);
  }

  /** The accounts a step may touch are all in the list. */
  predicate Among(a: Action, accounts: seq<Address>) {
    match a
    case SetSwapRouter(router, _) => router in accounts
    case SettlePayment(i, _, _) => i.customer in accounts && i.recipient in accounts
    case SettlePaymentWithSwap(i, _, _, _) => i.customer in accounts && i.recipient in accounts
    case _ => true
  }

  lemma StepConserves(w: World, s: State, a: Action, t: Address, accounts: seq<Address>)
    requires NoRepeats(accounts) && Among(a, accounts) && (s.router.Some? ==> s.router.value in accounts)
    ensures Total(Do(w, s, a).balances, t, accounts) == Total(s.balances, t, accounts)
    ensures Do(w, s, a).router.Some? ==> Do(w, s, a).router.value in accounts
  {
    match a
    case SettlePayment(i, signature, authorized) =>
      if Pays(w, s, a) {
        TransferConserves(s.balances, i.token, i.customer, i.recipient, i.amount, t, accounts);
      }
    case SettlePaymentWithSwap(i, signature, authorized, f) =>
      if Pays(w, s, a) {
        SwapConserves(s, i, f, t, accounts);
      }
    case _ =>
  }

  lemma SwapConserves(s: State, i: Intent, f: Funding, t: Address, accounts: seq<Address>)
    requires NoRepeats(accounts) && i.customer in accounts && i.recipient in accounts && PathRefusal(s, i, f).None?
    requires s.router.value in accounts
    requires RouterSwap(s.balances, s.router.value, i.amount, f, i.customer, s.time).Some?
    requires
      var bought := RouterSwap(s.balances, s.router.value, i.amount, f, i.customer, s.time).value;
      Transfer(bought, i.token, i.customer, i.recipient, i.amount).Some?
    ensures
      var bought := RouterSwap(s.balances, s.router.value, i.amount, f, i.customer, s.time).value;
      Total(Transfer(bought, i.token, i.customer, i.recipient, i.amount).value, t, accounts)
        == Total(s.balances, t, accounts)
  {
    var pool := s.router.value;
    var paid := Transfer(s.balances, f.path[0], i.customer, pool, f.price).value;
    var bought := RouterSwap(s.balances, pool, i.amount, f, i.customer, s.time).value;
    TransferConserves(s.balances, f.path[0], i.customer, pool, f.price, t, accounts);
    TransferConserves(paid, i.token, pool, i.customer, i.amount, t, accounts);
    TransferConserves(bought, i.token, i.customer, i.recipient, i.amount, t, accounts);
  }

  /** Over any run the total of every token, over any list of accounts that holds everyone involved, is constant. */
  lemma {:induction false} TotalsConserved(w: World, s: State, actions: seq<Action>, t: Address, accounts: seq<Address>)
    requires NoRepeats(accounts) && forall a | a in actions :: Among(a, accounts)
    requires s.router.Some? ==> s.router.value in accounts
    ensures Total(Run(w, s, actions).balances, t, accounts) == Total(s.balances, t, accounts)
    ensures Run(w, s, actions).router.Some? ==> Run(w, s, actions).router.value in accounts
  {
    if actions != [] {
      TotalsConserved(w, s, actions[..|actions| - 1], t, accounts);
      StepConserves(w, Run(w, s, actions[..|actions| - 1]), actions[|actions| - 1], t, accounts);
    }
  }

  /** What the receipts say an account was paid in a token. */
  function PaidTo(p: seq<Event>, token: Address, a: Address): int {
    if p == [] then 0
    else
      var e := p[|p| - 1];
      PaidTo(p[..|p| - 1], token, a) + if e.PaymentSettled? && e.token == token && e.recipient == a then e.amount else 0
  }

  /** What the receipts say an account paid in a token. */
  function PaidBy(p: seq<Event>, token: Address, a: Address): int {
    if p == [] then 0
    else
      var e := p[|p| - 1];
      PaidBy(p[..|p| - 1], token, a) + if e.PaymentSettled? && e.token == token && e.customer == a then e.amount else 0
  }

  /** What a swap itself moves: its price from the customer to the pool, and the amount back. */
  function SwapFlow(w: World, s: State, x: Action, token: Address, a: Address): int {
    if !x.SettlePaymentWithSwap? || !Pays(w, s, x) then 0
    else
      var i, f, pool := x.intent, x.funding, s.router.value;
      (if token == f.path[0] then Signed(a == pool, a == i.customer, f.price) else 0)
      + (if token == i.token then Signed(a == i.customer, a == pool, i.amount) else 0)
  }

  function Signed(gains: bool, pays: bool, amount: int): int {
    (if gains then amount else 0) - (if pays then amount else 0)
  }

  function SwapFlows(w: World, s: State, actions: seq<Action>, token: Address, a: Address): int {
    if actions == [] then 0
    else
      var past := actions[..|actions| - 1];
      SwapFlows(w, s, past, token, a) + SwapFlow(w, Run(w, s, past), actions[|actions| - 1], token, a)
  }

  lemma TransferMoves(b: Balances, token: Address, from: Address, to: Address, amount: int, t: Address, a: Address)
    requires Transfer(b, token, from, to, amount).Some?
    ensures
      Held(Transfer(b, token, from, to, amount).value, t, a)
        == Held(b, t, a) + if t == token then Signed(a == to, a == from, amount) else 0
  {
  }

  lemma StepBalance(w: World, s: State, x: Action, token: Address, a: Address)
    ensures
      Held(Do(w, s, x).balances, token, a)
        == Held(s.balances, token, a) + SwapFlow(w, s, x, token, a)
           + if Pays(w, s, x) && x.intent.token == token then
               Signed(x.intent.recipient == a, x.intent.customer == a, x.intent.amount)
             else 0
  {
    if Pays(w, s, x) {
      var i := x.intent;
      if x.SettlePayment? {
        TransferMoves(s.balances, i.token, i.customer, i.recipient, i.amount, token, a);
      } else {
        SwapBalance(s, i, x.funding, token, a);
      }
    }
  }

  lemma SwapBalance(s: State, i: Intent, f: Funding, token: Address, a: Address)
    requires PathRefusal(s, i, f).None?
    requires RouterSwap(s.balances, s.router.value, i.amount, f, i.customer, s.time).Some?
    requires
      var bought := RouterSwap(s.balances, s.router.value, i.amount, f, i.customer, s.time).value;
      Transfer(bought, i.token, i.customer, i.recipient, i.amount).Some?
    ensures
      var bought := RouterSwap(s.balances, s.router.value, i.amount, f, i.customer, s.time).value;
      Held(Transfer(bought, i.token, i.customer, i.recipient, i.amount).value, token, a)
        == Held(s.balances, token, a)
           + (if token == f.path[0] then Signed(a == s.router.value, a == i.customer, f.price) else 0)
           + (if token == i.token then Signed(a == i.customer, a == s.router.value, i.amount) else 0)
           + (if token == i.token then Signed(i.recipient == a, i.customer == a, i.amount) else 0)
  {
    var pool := s.router.value;
    var paid := Transfer(s.balances, f.path[0], i.customer, pool, f.price).value;
    var bought := RouterSwap(s.balances, pool, i.amount, f, i.customer, s.time).value;
    TransferMoves(s.balances, f.path[0], i.customer, pool, f.price, token, a);
    TransferMoves(paid, i.token, pool, i.customer, i.amount, token, a);
    TransferMoves(bought, i.token, i.customer, i.recipient, i.amount, token, a);
  }

  /**
   * Every account, in every token: what it holds after a run is what it held before, plus the
   * receipts that name it as recipient, less those that name it as customer, plus what the swaps moved.
   */
  lemma {:induction false} BalanceEquation(w: World, s: State, actions: seq<Action>, token: Address, a: Address)
    requires Fresh(s)
    ensures
      var t := Run(w, s, actions);
      Held(t.balances, token, a)
        == Held(s.balances, token, a) + PaidTo(Payments(t.events), token, a) - PaidBy(Payments(t.events), token, a)
           + SwapFlows(w, s, actions, token, a)
  {
    if actions != [] {
      var past, x := actions[..|actions| - 1], actions[|actions| - 1];
      BalanceEquation(w, s, past, token, a);
      var m := Run(w, s, past);
      StepBalance(w, m, x, token, a);
      StepRecords(w, m, x);
      if Pays(w, m, x) {
        OneMoreReceipt(Payments(m.events), Receipt(x.intent), token, a);
      }
    }
  }

  lemma OneMoreReceipt(p: seq<Event>, e: Event, token: Address, a: Address)
    requires e.PaymentSettled?
    ensures PaidTo(p + [e], token, a)
         == PaidTo(p, token, a) + if e.token == token && e.recipient == a then e.amount else 0
    ensures PaidBy(p + [e], token, a)
         == PaidBy(p, token, a) + if e.token == token && e.customer == a then e.amount else 0
  {
    assert (p + [e])[..|p|] == p;
  }

  /** Someone who never pays and never runs the pool. */
  predicate OnlyReceives(x: Action, a: Address) {
    match x
    case SetSwapRouter(router, _) => router != a
    case SettlePayment(i, _, _) => i.customer != a
    case SettlePaymentWithSwap(i, _, _, _) => i.customer != a
    case _ => true
  }

  lemma {:induction false} NoOutflow(w: World, s: State, actions: seq<Action>, token: Address, a: Address)
    requires Fresh(s) && forall x | x in actions :: OnlyReceives(x, a)
    ensures
      var t := Run(w, s, actions);
      PaidBy(Payments(t.events), token, a) == 0 && SwapFlows(w, s, actions, token, a) == 0 && t.router != Some(a)
  {
    if actions != [] {
      var past, x := actions[..|actions| - 1], actions[|actions| - 1];
      NoOutflow(w, s, past, token, a);
      var m := Run(w, s, past);
      assert x in actions;
      NoStepOutflow(w, m, x, token, a);
    }
  }

  lemma NoStepOutflow(w: World, s: State, x: Action, token: Address, a: Address)
    requires OnlyReceives(x, a) && s.router != Some(a)
    ensures PaidBy(Payments(Do(w, s, x).events), token, a) == PaidBy(Payments(s.events), token, a)
    ensures SwapFlow(w, s, x, token, a) == 0 && Do(w, s, x).router != Some(a)
  {
    StepRecords(w, s, x);
    if Pays(w, s, x) {
      OneMoreReceipt(Payments(s.events), Receipt(x.intent), token, a);
    }
  }

  /** A recipient who neither pays nor runs the pool gains, in each token, exactly the sum of its receipts. */
  lemma InflowIsReceipts(w: World, s: State, actions: seq<Action>, token: Address, a: Address)
    requires Fresh(s) && forall x | x in actions :: OnlyReceives(x, a)
    ensures
      var t := Run(w, s, actions);
      Held(t.balances, token, a) == Held(s.balances, token, a) + PaidTo(Payments(t.events), token, a)
  {
    BalanceEquation(w, s, actions, token, a);
    NoOutflow(w, s, actions, token, a);
  }

  /** The shared checks one after the other; a payment is refused by the first it does not meet. */
  lemma RefusedInOrder(w: World, s: State, i: Intent, signature: Id, authorized: bool)
    ensures
      var r := Refusal(w, s, i, signature, authorized);
      var positive := i.amount > 0;
      var inTime := positive && s.ledger < i.expiresAtLedger;
      var here := inTime && i.networkId == w.networkId;
      var ours := here && i.settlementContract == w.contract;
      var known := ours && i.merchantId in s.merchants;
      var active := known && s.merchants[i.merchantId].active;
      var addressed := active && s.merchants[i.merchantId].recipient == i.recipient;
      var accepted := addressed && i.token in s.supported && s.supported[i.token];
      var unspent := accepted && i.intentId !in s.consumed;
      var agreed := unspent && authorized;
      && (r == Some(InvalidAmount) <==> !positive)
      && (r == Some(IntentExpired) <==> positive && !inTime)
      && (r == Some(WrongNetwork) <==> inTime && !here)
      && (r == Some(WrongContract) <==> here && !ours)
      && (r == Some(MerchantNotFound) <==> ours && !known)
      && (r == Some(MerchantRevoked) <==> known && !active)
      && (r == Some(RecipientMismatch) <==> active && !addressed)
      && (r == Some(UnsupportedAsset) <==> addressed && !accepted)
      && (r == Some(IntentConsumed) <==> accepted && !unspent)
      && (r == Some(NotAuthorized) <==> unspent && !agreed)
      && (r == Some(BadSignature) <==> agreed && !w.signed(s.merchants[i.merchantId].signingKey, i, signature))
      && (r == None <==> agreed && w.signed(s.merchants[i.merchantId].signingKey, i, signature))
  {
  }

  /** What the admin's calls do in a run, and only when the admin makes them. */
  lemma AdminSteps(w: World, s: State, id: Id, key: Id, recipient: Address, asset: Address, on: bool, router: Address,
                   byAdmin: bool)
    ensures Do(w, s, Action.RegisterMerchant(id, key, recipient, byAdmin))
         == if byAdmin then s.(merchants := s.merchants[id := Merchant(key, recipient, true)],
                               events := s.events + [MerchantRegistered(id, recipient)]) else s
    ensures Do(w, s, Action.RegisterAsset(asset, on, byAdmin))
         == if byAdmin then s.(supported := s.supported[asset := on]) else s
    ensures Do(w, s, Action.SetSwapRouter(router, byAdmin)) == if byAdmin then s.(router := Some(router)) else s
    ensures forall l: nat, t: nat ::
              Do(w, s, Action.CloseLedgers(l, t)) == s.(ledger := s.ledger + l).(time := s.time + t)
  {
  }
}
