/**
 * The customer's wallet contract: its signers, its one recovery signer, and what
 * each of them may authorise.
 */
module WalletContract {
  import opened Base
  import WebAuthn

  type Key = Bytes

  type Address = string

  const MAX_U32 := 4294967295

  const ROTATE := "rotate"

  datatype SignerKind = Device | Passkey

  datatype RecoverySigner = RecoverySigner(publicKey: Key, kind: SignerKind)

  datatype Signature =
    | DeviceSignature(publicKey: Key, signature: Bytes)
    | PasskeySignature(assertion: WebAuthn.Assertion)

  datatype Context = Contract(contract: Address, fnName: string) | CreateContract | CreateContractWithConstructor

  datatype WalletError =
    | UnknownSigner
    | RecoveryScopeExceeded
    | SignerAlreadyRegistered
    | LastSignerCannotBeRemoved
    | SignerKindMismatch
    | BadSignature
    | NotAuthorized
    | CountOverflow

  datatype State = State(signers: map<Key, SignerKind>, signerCount: nat, recovery: Option<RecoverySigner>)

  datatype Op =
    | AddSigner(signer: Key, kind: SignerKind)
    | RemoveSigner(signer: Key)
    | Rotate(retired: Key, replacement: Key, kind: SignerKind)
    | SetRecoverySigner(recovery: RecoverySigner)

  function FnName(op: Op): string {
    match op
    case AddSigner(_, _) => "add_signer"
    case RemoveSigner(_) => "remove_signer"
    case Rotate(_, _, _) => ROTATE
    case SetRecoverySigner(_) => "set_recovery_signer"
  }

  // ---------------------------------------------------------------------
  // Who may authorise what
  // ---------------------------------------------------------------------

  function SignerOf(s: Signature): Key {
    match s
    case DeviceSignature(key, _) => key
    case PasskeySignature(assertion) => assertion.publicKey
  }

  function KindOf(s: Signature): SignerKind {
    if s.DeviceSignature? then Device else Passkey
  }

  /** The payload is what was signed, checked by the rule of the signature's own kind. */
  ghost predicate Valid(host: WebAuthn.Host, payload: Bytes, s: Signature) {
    match s
    case DeviceSignature(key, signature) => host.verifies(key, payload, signature)
    case PasskeySignature(assertion) => WebAuthn.Genuine(host, payload, assertion)
  }

  predicate OnlyRotations(self: Address, contexts: seq<Context>) {
    forall c | c in contexts :: c == Contract(self, ROTATE)
  }

  /** Signers on the list are unrestricted; the recovery key, if it is not on it, is held to rotations. */
  ghost predicate MayAuthorize(
      w: State, host: WebAuthn.Host, self: Address, payload: Bytes, s: Signature, contexts: seq<Context>)
  {
    && Valid(host, payload, s)
    && (if SignerOf(s) in w.signers then w.signers[SignerOf(s)] == KindOf(s)
        else w.recovery == Some(RecoverySigner(SignerOf(s), KindOf(s))) && OnlyRotations(self, contexts))
  }

  method AssertRecoveryScope(self: Address, contexts: seq<Context>) returns (r: Option<WalletError>)
    ensures r == if OnlyRotations(self, contexts) then None else Some(RecoveryScopeExceeded)
  {
    for i := 0 to |contexts|
      invariant OnlyRotations(self, contexts[..i])
    {
      match contexts[i] {
        case Contract(contract, fnName) =>
          if contract != self || fnName != ROTATE {
            assert contexts[i] in contexts && contexts[i] != Contract(self, ROTATE);
            return Some(RecoveryScopeExceeded);
          }
        case _ =>
          assert contexts[i] in contexts && contexts[i] != Contract(self, ROTATE);
          return Some(RecoveryScopeExceeded);
      }
      assert contexts[..i + 1] == contexts[..i] + [contexts[i]];
    }
    assert contexts[..|contexts|] == contexts;
    return None;
  }

  // ---------------------------------------------------------------------
  // What each call does to the wallet
  // ---------------------------------------------------------------------

  /** A wallet as it is created: one signer, and a recovery signer if the owner named one. */
  function Created(signer: Key, kind: SignerKind, recovery: Option<RecoverySigner>): State {
    State(map[signer := kind], 1, recovery)
  }

  function Apply(w: State, op: Op): Result<State, WalletError> {
    match op
    case AddSigner(signer, kind) =>
      if signer in w.signers then Err(SignerAlreadyRegistered)
      else if w.signerCount + 1 > MAX_U32 then Err(CountOverflow)
      else Ok(w.(signers := w.signers[signer := kind], signerCount := w.signerCount + 1))
    case RemoveSigner(signer) =>
      if signer !in w.signers then Err(UnknownSigner)
      else if w.signerCount <= 1 then Err(LastSignerCannotBeRemoved)
      else Ok(w.(signers := w.signers - {signer}, signerCount := w.signerCount - 1))
    case Rotate(retired, replacement, kind) =>
      if retired !in w.signers then Err(UnknownSigner)
      else if replacement in w.signers then Err(SignerAlreadyRegistered)
      else Ok(w.(signers := (w.signers - {retired})[replacement := kind]))
    case SetRecoverySigner(recovery) =>
      if w.recovery.Some? then Err(SignerAlreadyRegistered) else Ok(w.(recovery := Some(recovery)))
  }

  /** What each call asks of the wallet, and what it leaves: one key comes or goes, all others stay as they were. */
  lemma OpsMean(w: State, op: Op)
    ensures
      var r := Apply(w, op);
      match op
      case AddSigner(signer, kind) =>
        && (r == Err(SignerAlreadyRegistered) <==> signer in w.signers)
        && (r == Err(CountOverflow) <==> signer !in w.signers && w.signerCount >= 4294967295)
        && (r.Ok? <==> signer !in w.signers && w.signerCount < 4294967295)
        && (r.Ok? ==>
              && Holds(r.value, signer, kind) && SameElsewhere(w, r.value, {signer})
              && r.value.recovery == w.recovery)
      case RemoveSigner(signer) =>
        && (r == Err(UnknownSigner) <==> signer !in w.signers)
        && (r == Err(LastSignerCannotBeRemoved) <==> signer in w.signers && w.signerCount <= 1)
        && (r.Ok? <==> signer in w.signers && w.signerCount > 1)
        && (r.Ok? ==>
              signer !in r.value.signers && SameElsewhere(w, r.value, {signer}) && r.value.recovery == w.recovery)
      case Rotate(retired, replacement, kind) =>
        && (r == Err(UnknownSigner) <==> retired !in w.signers)
        && (r == Err(SignerAlreadyRegistered) <==> retired in w.signers && replacement in w.signers)
        && (r.Ok? <==> retired in w.signers && replacement !in w.signers)
        && (r.Ok? ==>
              && retired !in r.value.signers && Holds(r.value, replacement, kind)
              && SameElsewhere(w, r.value, {retired, replacement}) && r.value.recovery == w.recovery)
      case SetRecoverySigner(recovery) =>
        && (r == Err(SignerAlreadyRegistered) <==> w.recovery.Some?)
        && (r.Ok? <==> w.recovery.None?)
        && (r.Ok? ==> r.value.recovery == Some(recovery) && SameElsewhere(w, r.value, {}))
  {
  }

  predicate Holds(w: State, key: Key, kind: SignerKind) {
    key in w.signers && w.signers[key] == kind
  }

  /** All other keys are held as they were. */
  ghost predicate SameElsewhere(w: State, v: State, keys: set<Key>) {
    forall k: Key, kind :: k !in keys ==> (Holds(v, k, kind) <==> Holds(w, k, kind))
  }

  class RosaWallet {
    const host: WebAuthn.Host
    const self: Address
    var signers: map<Key, SignerKind>
    var signerCount: nat
    var recovery: Option<RecoverySigner>

    function Value(): State
      reads this
    {
      State(signers, signerCount, recovery)
    }

    constructor (host: WebAuthn.Host, self: Address, signer: Key, kind: SignerKind,
                 recoverySigner: Option<RecoverySigner>)
      ensures this.host == host && this.self == self && Value() == Created(signer, kind, recoverySigner)
    {
      this.host, this.self := host, self;
      signers := map[signer := kind];
      signerCount := 1;
      recovery := recoverySigner;
    }

    method AddSigner(signer: Key, kind: SignerKind, authorized: bool) returns (r: Result<(), WalletError>)
      modifies this
      ensures Done(old(Value()), Value(), r, authorized, Op.AddSigner(signer, kind))
      ensures !authorized ==> r == Err(NotAuthorized) && Value() == old(Value())
    {
      if !authorized {
        return Err(NotAuthorized);
      }
      if signer in signers {
        return Err(SignerAlreadyRegistered);
      }
      var before := signers;
      signers := signers[signer := kind];
      if signerCount + 1 > MAX_U32 {
        signers := before;
        return Err(CountOverflow);
      }
      signerCount := signerCount + 1;
      return Ok(());
    }

    method RemoveSigner(signer: Key, authorized: bool) returns (r: Result<(), WalletError>)
      modifies this
      ensures Done(old(Value()), Value(), r, authorized, Op.RemoveSigner(signer))
      ensures !authorized ==> r == Err(NotAuthorized) && Value() == old(Value())
    {
      if !authorized {
        return Err(NotAuthorized);
      }
      if signer !in signers {
        return Err(UnknownSigner);
      }
      if signerCount <= 1 {
        return Err(LastSignerCannotBeRemoved);
      }
      signers := signers - {signer};
      signerCount := signerCount - 1;
      return Ok(());
    }

    method Rotate(retired: Key, replacement: Key, kind: SignerKind, authorized: bool)
      returns (r: Result<(), WalletError>)
      modifies this
      ensures Done(old(Value()), Value(), r, authorized, Op.Rotate(retired, replacement, kind))
      ensures !authorized ==> r == Err(NotAuthorized) && Value() == old(Value())
    {
      if !authorized {
        return Err(NotAuthorized);
      }
      if retired !in signers {
        return Err(UnknownSigner);
      }
      if replacement in signers {
        return Err(SignerAlreadyRegistered);
      }
      signers := signers - {retired};
      signers := signers[replacement := kind];
      return Ok(());
    }

    method SetRecoverySigner(named: RecoverySigner, authorized: bool) returns (r: Result<(), WalletError>)
      modifies this
      ensures Done(old(Value()), Value(), r, authorized, Op.SetRecoverySigner(named))
      ensures !authorized ==> r == Err(NotAuthorized) && Value() == old(Value())
    {
      if !authorized {
        return Err(NotAuthorized);
      }
      if recovery.Some? {
        return Err(SignerAlreadyRegistered);
      }
      recovery := Some(named);
      return Ok(());
    }

    /** The wallet's answer to a signature over a payload that authorises these contexts. */
    method CheckAuth(payload: Bytes, signature: Signature, contexts: seq<Context>) returns (r: Option<WalletError>)
      requires |payload| == 32
      ensures r.None? <==> MayAuthorize(Value(), host, self, payload, signature, contexts)
      ensures r == Some(UnknownSigner) <==> !Known(Value(), SignerOf(signature))
      ensures r == Some(SignerKindMismatch) <==>
              Known(Value(), SignerOf(signature)) && Expected(Value(), SignerOf(signature)) != KindOf(signature)
      ensures r == Some(BadSignature) <==>
              && Known(Value(), SignerOf(signature)) && Expected(Value(), SignerOf(signature)) == KindOf(signature)
              && !Valid(host, payload, signature)
      ensures r == Some(RecoveryScopeExceeded) <==>
              && Known(Value(), SignerOf(signature)) && Expected(Value(), SignerOf(signature)) == KindOf(signature)
              && Valid(host, payload, signature) && SignerOf(signature) !in signers && !OnlyRotations(self, contexts)
    {
      var publicKey, offered := SignerOf(signature), KindOf(signature);
      var registered := publicKey in signers;
      var expected;
      if registered {
        expected := signers[publicKey];
      } else if recovery.Some? && recovery.value.publicKey == publicKey {
        expected := recovery.value.kind;
      } else {
        return Some(UnknownSigner);
      }
      if expected != offered {
        return Some(SignerKindMismatch);
      }
      match signature {
        case DeviceSignature(key, bytes) =>
          if !host.verifies(key, payload, bytes) {
            return Some(BadSignature);
          }
        case PasskeySignature(assertion) =>
          var refused := WebAuthn.Verify(host, payload, assertion);
          if refused.Some? {
            return Some(BadSignature);
          }
      }
      if !registered {
        r := AssertRecoveryScope(self, contexts);
        return r;
      }
      return None;
    }
  }

  predicate Done(before: State, after: State, r: Result<(), WalletError>, authorized: bool, op: Op) {
    if !authorized then r == Err(NotAuthorized) && after == before
    else
      match Apply(before, op)
      case Ok(w) => r == Ok(()) && after == w
      case Err(e) => r == Err(e) && after == before
  }

  predicate Known(w: State, key: Key) {
    key in w.signers || (w.recovery.Some? && w.recovery.value.publicKey == key)
  }

  /** How the wallet recorded that a known key is held. */
  function Expected(w: State, key: Key): SignerKind
    requires Known(w, key)
  {
    if key in w.signers then w.signers[key] else w.recovery.value.kind
  }

  // ---------------------------------------------------------------------
  // Whole runs
  // ---------------------------------------------------------------------

  /** One signed transaction: the contexts the signature covers, and the wallet calls made under it. */
  datatype Tx = Tx(payload: Bytes, signature: Signature, contexts: seq<Context>, ops: seq<Op>)

  /** A call has the wallet's authority when the signature covers it; a call that fails changes nothing. */
  function Perform(w: State, self: Address, contexts: seq<Context>, op: Op): State {
    if Contract(self, FnName(op)) in contexts && Apply(w, op).Ok? then Apply(w, op).value else w
  }

  function PerformAll(w: State, self: Address, contexts: seq<Context>, ops: seq<Op>): State {
    if ops == [] then w
    else Perform(PerformAll(w, self, contexts, ops[..|ops| - 1]), self, contexts, ops[|ops| - 1])
  }

  ghost function Do(w: State, host: WebAuthn.Host, self: Address, tx: Tx): State {
    if MayAuthorize(w, host, self, tx.payload, tx.signature, tx.contexts) then PerformAll(w, self, tx.contexts, tx.ops)
    else w
  }

  ghost function Run(w: State, host: WebAuthn.Host, self: Address, txs: seq<Tx>): State {
    if txs == [] then w else Do(Run(w, host, self, txs[..|txs| - 1]), host, self, txs[|txs| - 1])
  }

  /** The count is the number of signers, there is at least one, and the count fits its field. */
  predicate Counted(w: State) {
    w.signerCount == |w.signers| && 1 <= w.signerCount <= MAX_U32
  }

  /** The recovery signer, once named, is never another. */
  predicate SameRecovery(w: State, v: State) {
    w.recovery.Some? ==> v.recovery == w.recovery
  }

  lemma AddedSize<K, V>(m: map<K, V>, k: K, v: V)
    requires k !in m
    ensures |m[k := v]| == |m| + 1
  {
    assert m[k := v].Keys == m.Keys + {k};
  }

  lemma RemovedSize<K, V>(m: map<K, V>, k: K)
    requires k in m
    ensures |m - {k}| == |m| - 1
  {
    assert m.Keys == (m - {k}).Keys + {k};
  }

  lemma ApplyKeeps(w: State, op: Op)
    requires Counted(w) && Apply(w, op).Ok?
    ensures Counted(Apply(w, op).value) && SameRecovery(w, Apply(w, op).value)
    ensures op.Rotate? ==> Apply(w, op).value.recovery == w.recovery && Apply(w, op).value.signerCount == w.signerCount
  {
    match op
    case AddSigner(signer, kind) => AddedSize(w.signers, signer, kind);
    case RemoveSigner(signer) => RemovedSize(w.signers, signer);
    case Rotate(retired, replacement, kind) =>
      RemovedSize(w.signers, retired);
      AddedSize(w.signers - {retired}, replacement, kind);
    case SetRecoverySigner(recovery) =>
  }

  lemma {:induction false} PerformAllKeeps(w: State, self: Address, contexts: seq<Context>, ops: seq<Op>)
    requires Counted(w)
    ensures Counted(PerformAll(w, self, contexts, ops)) && SameRecovery(w, PerformAll(w, self, contexts, ops))
    ensures OnlyRotations(self, contexts) ==>
              && PerformAll(w, self, contexts, ops).signerCount == w.signerCount
              && PerformAll(w, self, contexts, ops).recovery == w.recovery
  {
    if ops != [] {
      var op, v := ops[|ops| - 1], PerformAll(w, self, contexts, ops[..|ops| - 1]);
      PerformAllKeeps(w, self, contexts, ops[..|ops| - 1]);
      if Contract(self, FnName(op)) in contexts && Apply(v, op).Ok? {
        ApplyKeeps(v, op);
        assert OnlyRotations(self, contexts) ==> FnName(op) == ROTATE;
      }
    }
  }

  /** In every reachable state the count is right, a signer is left, and recovery is written at most once. */
  lemma {:induction false} AlwaysSpendable(
      signer: Key, kind: SignerKind, recovery: Option<RecoverySigner>, host: WebAuthn.Host, self: Address, txs: seq<Tx>)
    ensures
      var w := Run(Created(signer, kind, recovery), host, self, txs);
      && w.signerCount == |w.signers| && w.signers != map[] && w.signerCount <= MAX_U32
      && SameRecovery(Created(signer, kind, recovery), w)
  {
    if txs != [] {
      var past, tx := txs[..|txs| - 1], txs[|txs| - 1];
      AlwaysSpendable(signer, kind, recovery, host, self, past);
      PerformAllKeeps(Run(Created(signer, kind, recovery), host, self, past), self, tx.contexts, tx.ops);
    }
  }

  lemma {:induction false} RecoveryWrittenOnce(w: State, host: WebAuthn.Host, self: Address, txs: seq<Tx>)
    requires Counted(w)
    ensures Counted(Run(w, host, self, txs)) && SameRecovery(w, Run(w, host, self, txs))
  {
    if txs != [] {
      var past, tx := txs[..|txs| - 1], txs[|txs| - 1];
      RecoveryWrittenOnce(w, host, self, past);
      PerformAllKeeps(Run(w, host, self, past), self, tx.contexts, tx.ops);
    }
  }

  /** Any registered signer, with a valid signature of its own kind, may authorise anything at all. */
  lemma SignersAreEnough(
      w: State, host: WebAuthn.Host, self: Address, payload: Bytes, s: Signature, contexts: seq<Context>)
    requires SignerOf(s) in w.signers && w.signers[SignerOf(s)] == KindOf(s) && Valid(host, payload, s)
    ensures MayAuthorize(w, host, self, payload, s, contexts)
  {
  }

  predicate SignedByRecoveryOnly(w: State, tx: Tx) {
    w.recovery.Some? && SignerOf(tx.signature) == w.recovery.value.publicKey && SignerOf(tx.signature) !in w.signers
  }

  /** Each transaction of the run is signed by a key that is the recovery signer and nothing more. */
  ghost predicate RecoveryRun(w: State, host: WebAuthn.Host, self: Address, txs: seq<Tx>) {
    forall i | 0 <= i < |txs| :: SignedByRecoveryOnly(Run(w, host, self, txs[..i]), txs[i])
  }

  /** Recovery-only runs can swap signers one for one and do nothing else. */
  lemma {:induction false} RecoveryOnlyRotates(w: State, host: WebAuthn.Host, self: Address, txs: seq<Tx>)
    requires Counted(w) && RecoveryRun(w, host, self, txs)
    ensures
      var v := Run(w, host, self, txs);
      Counted(v) && |v.signers| == |w.signers| && v.recovery == w.recovery
  {
    if txs != [] {
      var past, tx := txs[..|txs| - 1], txs[|txs| - 1];
      forall i | 0 <= i < |past| ensures SignedByRecoveryOnly(Run(w, host, self, past[..i]), past[i]) {
        assert past[..i] == txs[..i];
        assert SignedByRecoveryOnly(Run(w, host, self, txs[..i]), txs[i]);
      }
      RecoveryOnlyRotates(w, host, self, past);
      var v := Run(w, host, self, past);
      assert SignedByRecoveryOnly(v, tx);
      PerformAllKeeps(v, self, tx.contexts, tx.ops);
    }
  }

  /** A retired key, unless it is also the recovery signer, authorises nothing any more. */
  lemma RetiredIsLockedOut(
      w: State, retired: Key, replacement: Key, kind: SignerKind, host: WebAuthn.Host, self: Address, payload: Bytes,
      s: Signature, contexts: seq<Context>)
    requires Apply(w, Rotate(retired, replacement, kind)).Ok? && SignerOf(s) == retired
    ensures
      var v := Apply(w, Rotate(retired, replacement, kind)).value;
      MayAuthorize(v, host, self, payload, s, contexts)
      <==>
      w.recovery == Some(RecoverySigner(retired, KindOf(s))) && Valid(host, payload, s) && OnlyRotations(self, contexts)
  {
  }

  // ---------------------------------------------------------------------
  // What a covered call is good for
  // ---------------------------------------------------------------------

  /** One call under a signature that covers the function of this name, and no other call. */
  ghost predicate Covers(w: State, host: WebAuthn.Host, self: Address, tx: Tx, fnName: string, op: Op) {
    && MayAuthorize(w, host, self, tx.payload, tx.signature, tx.contexts)
    && Contract(self, fnName) in tx.contexts && tx.ops == [op]
  }

  lemma OneCall(w: State, host: WebAuthn.Host, self: Address, tx: Tx, op: Op)
    requires Covers(w, host, self, tx, FnName(op), op)
    ensures Do(w, host, self, tx) == if Apply(w, op).Ok? then Apply(w, op).value else w
  {
    assert tx.ops[..0] == [] && tx.ops[0] == op;
    assert PerformAll(w, self, tx.contexts, tx.ops) == Perform(w, self, tx.contexts, op);
  }

  /** A key that was added may, by a signature of the kind it was added with, authorise anything. */
  lemma AddedMayAuthorize(w: State, host: WebAuthn.Host, self: Address, tx: Tx, key: Key, kind: SignerKind,
                          payload: Bytes, s: Signature, contexts: seq<Context>)
    requires Covers(w, host, self, tx, "add_signer", AddSigner(key, kind))
    requires key !in w.signers && w.signerCount < MAX_U32 && SignerOf(s) == key
    ensures MayAuthorize(Do(w, host, self, tx), host, self, payload, s, contexts)
            <==> KindOf(s) == kind && Valid(host, payload, s)
  {
    OneCall(w, host, self, tx, AddSigner(key, kind));
  }

  /** So may a key that replaced another. */
  lemma ReplacementMayAuthorize(w: State, host: WebAuthn.Host, self: Address, tx: Tx, retired: Key, key: Key,
                                kind: SignerKind, payload: Bytes, s: Signature, contexts: seq<Context>)
    requires Covers(w, host, self, tx, "rotate", Rotate(retired, key, kind))
    requires retired in w.signers && key !in w.signers && SignerOf(s) == key
    ensures MayAuthorize(Do(w, host, self, tx), host, self, payload, s, contexts)
            <==> KindOf(s) == kind && Valid(host, payload, s)
  {
    OneCall(w, host, self, tx, Rotate(retired, key, kind));
  }

  /** A key that was removed authorises nothing, unless it is the recovery signer and rotations are asked for. */
  lemma RemovedIsLockedOut(w: State, host: WebAuthn.Host, self: Address, tx: Tx, key: Key,
                           payload: Bytes, s: Signature, contexts: seq<Context>)
    requires Covers(w, host, self, tx, "remove_signer", RemoveSigner(key))
    requires key in w.signers && w.signerCount > 1 && SignerOf(s) == key
    ensures
      MayAuthorize(Do(w, host, self, tx), host, self, payload, s, contexts)
      <==>
      w.recovery == Some(RecoverySigner(key, KindOf(s))) && Valid(host, payload, s) && OnlyRotations(self, contexts)
  {
    OneCall(w, host, self, tx, RemoveSigner(key));
  }

  /** A recovery signer that was named, and is no signer besides, may authorise rotations and nothing else. */
  lemma NamedMayRotate(w: State, host: WebAuthn.Host, self: Address, tx: Tx, named: RecoverySigner,
                       payload: Bytes, s: Signature, contexts: seq<Context>)
    requires Covers(w, host, self, tx, "set_recovery_signer", SetRecoverySigner(named))
    requires w.recovery.None? && named.publicKey !in w.signers && SignerOf(s) == named.publicKey
    ensures
      MayAuthorize(Do(w, host, self, tx), host, self, payload, s, contexts)
      <==>
      KindOf(s) == named.kind && Valid(host, payload, s) && forall c | c in contexts :: c == Contract(self, "rotate")
  {
    OneCall(w, host, self, tx, SetRecoverySigner(named));
  }

  /** What makes a signature valid: the host's check of the payload itself, or a genuine passkey assertion of it. */
  lemma ValidMeans(host: WebAuthn.Host, payload: Bytes, key: Key, signature: Bytes, assertion: WebAuthn.Assertion)
    ensures Valid(host, payload, DeviceSignature(key, signature)) <==> host.verifies(key, payload, signature)
    ensures Valid(host, payload, PasskeySignature(assertion)) <==> WebAuthn.Genuine(host, payload, assertion)
    ensures SignerOf(DeviceSignature(key, signature)) == key && KindOf(DeviceSignature(key, signature)) == Device
    ensures SignerOf(PasskeySignature(assertion)) == assertion.publicKey
    ensures KindOf(PasskeySignature(assertion)) == Passkey
  {
  }

  /** The signer a wallet is created with may, by a signature of the kind named, authorise anything. */
  lemma CreatedMayAuthorize(signer: Key, kind: SignerKind, recovery: Option<RecoverySigner>, host: WebAuthn.Host,
                            self: Address, payload: Bytes, s: Signature, contexts: seq<Context>)
    requires SignerOf(s) == signer
    ensures MayAuthorize(Created(signer, kind, recovery), host, self, payload, s, contexts)
            <==> KindOf(s) == kind && Valid(host, payload, s)
    ensures Created(signer, kind, recovery).recovery == recovery
  {
  }
}
