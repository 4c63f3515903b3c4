# RosaPay, modelled and proved

RosaPay lets a merchant's phone ask a customer's phone for a payment over
Bluetooth, settles it through a Soroban contract from the customer's own wallet
contract, and keeps the payment's status in a small API and worker. This project
models the parts of that system that are hard to get right and proves what they
promise. `dafny verify dfyconfig.toml` checks all of it.

## What is modelled

- **Bluetooth transport** (`BleFraming`, `BleSender`, `BleReceiver`, `BleDelivery`,
  `BleAnswers`). A message is cut into frames, pushed through a radio that may refuse
  a frame at any moment, resumed, and reassembled on the other phone; answers go back
  as acknowledged writes, any of which may fail. Refusals, ready callbacks, messages
  queued meanwhile, failures and changes of the negotiated length are arbitrary. Main
  results: exact end-to-end delivery in both directions, links that a willing radio
  always drains, reassembly in any order, exactly when a message over a half-read one is
  heard whole with nothing left half read, and exactly when one write at a time holds.
- **Payment lifecycle** (`Payment`, `Formats`, `Reconciliation`, `Lifecycle`,
  `SettlementCalls`, `IntentRepository`, `Countersignature`, `ConfirmationLoops`). API
  calls and worker passes read and conditionally write one row in separate steps,
  interleaved in any way. Each is modelled twice over one state: as steps of a machine
  whose runs are arbitrary sequences, and as methods in the source's own shape that let
  any such run happen wherever the source awaits. Main results: no lost update although
  the guard is the status alone, confirmations rest on receipts, the first claim and
  first signature stand for good, and the service's retry loop is never exhausted by the
  calls that are routed (authorize and submit, which lose one write at most). A
  call of `IntentService.fail`, which no route makes, can lose two and then the third.
- **Settlement contract** (`SettlementContract`) and **wallet contract**
  (`WalletContract`, `WebAuthn`). Storage, refusals in the contracts' order,
  rollback on failure, and whole runs. Main results: a swap settlement ends in the
  promised state or changes nothing wherever it fails
  (`SettlementContract.SettlementContract.SettlePaymentWithSwap`), and how it was funded
  never shows in the merchant's token, the spent intents or the receipts
  (`SettlementContract.FundingNeverShows`); each intent settles once at most, money is
  conserved, and the wallet always keeps a signer while its recovery key can only rotate.
- **Codecs** (`JsonText`, `JsonReader`, `CanonicalJson`, `CanonicalReadBack`, `Cbor`,
  `CborRoundTrip`, `Attestation`, `Base64Url`, `DerSignature`, `Secrets`). Round trips,
  normal forms, unique decodability, and exactly what is accepted, over unbounded input.
- **Money** (`Money`, `Decimal`) and the **rate limiter** (`RateLimiter`).

`Base` holds optional values, results, bytes and the facts several modules share. Beside
`SettlementCalls`, `Reconciliation`, `WebAuthn` and others stand lemmas that say once more,
in other words than the functions they are about, what is decided and when: the order of
the checks, the fields that are taken, the limits as numbers.

## Conventions

- Bytes are integers below 256 and shifts and masks are written as arithmetic.
  Texts handled as bytes or UTF-16 code units are sequences of those.
- Cryptography, the JSON parser of the wallet contract and the RPC are unknown
  functions or arbitrary answers. Clocks, negotiated lengths, the radio and the
  pool's price are parameters or arbitrary choices.
- A method of a class is proved against a specification function of the old state,
  and the theorems are lemmas about those functions over every run.
- The swap router is assumed to behave as `contracts/settlement/src/test.rs:169-189`
  states it: it checks the deadline and the ceiling, takes its price in the first
  token of the path and pays the exact amount in the last, all against one pool.
  Tokens are assumed to refuse negative amounts, overdrafts and 128-bit overflow.

## Where the code differs from what is said of it

- `RosaPayProximity.swift:620-623` promises a single write in flight. The queue is
  already empty while its last frame is unacknowledged, so an answer written then
  starts a second write. `BleAnswers.OneWriteInFlight` says of every run that this is
  the only way; `BleAnswers.TwoWritesInFlight` shows it happen. Order is kept.
- After a failed write the frames the merchant already took stay with it, and a later
  answer of the same kind can be glued to them (`BleAnswers.Splice`).
  `BleAnswers.NextAnswerHeard` and `BleAnswers.AfterFailure` say exactly when the next
  answer is heard whole with nothing left half read.
- `RosaPayProximity.swift:1150-1151` says a new message replaces a half-read one.
  That holds for another kind; a restart of the same kind keeps the old parts, and
  `BleReceiver.Restart` says exactly when that is harmless.
- `decimalToContractAmount` ignores everything after a second point
  (`Money.ThirdPartIgnored`); `Money.AcceptsOnlyDecimals` says for every text when that
  lets something through that is no decimal. The payment schema keeps such amounts out.
- The two countersignature upserts are meant to match; they differ on empty texts
  (`Countersignature.UpsertsAgree`), which the service never stores
  (`Countersignature.StoresAgree`).
- A recipient gains the full amount of a swap settlement exactly when it is not the
  router's own pool, and of a direct one exactly when it is not the customer
  (`SettlementContract.PaidInFullBySwap`, `SettlementContract.PaidInFullDirectly`; both
  other cases do settle: `SettlementContract.PaidToThePool`,
  `SettlementContract.PaidToOneself`).
- Sweeping out windows is meant not to show. It shows exactly when a check comes before
  the end of a full window already swept out (`RateLimiter.WhenEvictionShows`), which a
  clock that never goes back rules out.
- Secrets survive the session store exactly when no stored object already looks like
  a hidden secret (`Secrets.SessionRestored`).

## Model

| member | source | states |
|---|---|---|
| BleFraming.FrameCountBounds | apps/mobile/ios/RosaPaySigner/RosaPayProximity.swift:472-474 | the frame count covers the payload, and every frame starts inside it |
| BleFraming.FrameCountLeast | apps/mobile/ios/RosaPaySigner/RosaPayProximity.swift:472-474 | the frame count is the least number of frames that holds the payload |
| BleFraming.LeastCapacity | apps/mobile/ios/RosaPaySigner/RosaPayProximity.swift:47-51 | 17 payload bytes a frame is exactly enough: a capacity keeps every message of 1 to 4096 bytes within 255 frames if and only if it is at least 17 |
| BleFraming.LargestCapacity | apps/mobile/ios/RosaPaySigner/RosaPayProximity.swift:470-473 | the capacity is the largest at which header and piece fit the negotiated length, or one byte when none does |
| BleFraming.CutThenGlue | apps/mobile/ios/RosaPaySigner/RosaPayProximity.swift:504-508 | the slices of a payload, joined in order, are the payload |
| BleFraming.StreamAppend | apps/mobile/ios/RosaPaySigner/RosaPayProximity.swift:466-481 | a further transfer adds its own frames, or nothing when it is skipped |
| BleFraming.NothingSkipped | apps/mobile/ios/RosaPaySigner/RosaPayProximity.swift:474-478 | with nothing skipped, what went out is what was begun |
| BleSender.Outlet.SendMessage | apps/mobile/ios/RosaPaySigner/RosaPayProximity.swift:534-569 | the guards in order; an accepted message joins that customer's conversation and nobody else's, and the link is idle again unless the radio turned a frame down |
| BleSender.RefusedWhen | apps/mobile/ios/RosaPaySigner/RosaPayProximity.swift:542-566 | which guard refuses: nothing to send, more than 4096 bytes, or an unknown phone, in this order |
| BleSender.Outlet.DidSubscribe | apps/mobile/ios/RosaPaySigner/RosaPayProximity.swift:912-921 | a subscriber is first told the advertised request; nothing happens while nothing is advertised |
| BleSender.Outlet.Enqueue | apps/mobile/ios/RosaPaySigner/RosaPayProximity.swift:452-455 | behind a transfer under way the message is only queued; on an idle link it is begun at once, and afterwards the link is still sending exactly when the radio turned the last frame down |
| BleSender.Outlet.BeginSend | apps/mobile/ios/RosaPaySigner/RosaPayProximity.swift:466-482 | starting transfers, each cut for the length negotiated just then, skipping those that need too many frames: conserved, and still sending afterwards exactly when the radio turned the last frame down |
| BleSender.Outlet.Send | apps/mobile/ios/RosaPaySigner/RosaPayProximity.swift:497-521 | from the saved position on: frames taken plus frames owed stay all frames of the transfers begun, and the link is paused again only if the radio turned a frame down during the call |
| BleSender.Outlet.Push | apps/mobile/ios/RosaPaySigner/RosaPayProximity.swift:504-516 | the loop: every frame up to the last is offered, in order, until the radio turns one down; the whole new state, the radio's answers included |
| BleSender.Outlet.ReadyToUpdate | apps/mobile/ios/RosaPaySigner/RosaPayProximity.swift:953-958 | every paused transfer of a subscribed customer carries on, and is paused once more only if the radio turned another frame down; no other link is touched |
| BleSender.BegunKeepsConserved | apps/mobile/ios/RosaPaySigner/RosaPayProximity.swift:466-482 | beginning a transfer, with whatever length was negotiated, keeps conservation |
| BleSender.SentKeepsConserved | apps/mobile/ios/RosaPaySigner/RosaPayProximity.swift:504-514 | the frames the radio takes move from what is owed to what is on the air |
| BleSender.FramesFitTheLink | apps/mobile/ios/RosaPaySigner/RosaPayProximity.swift:470-508 | every frame on the air belongs to a transfer begun and is no longer than the length negotiated for it |
| BleReceiver.Reassembler.Receive | apps/mobile/ios/RosaPaySigner/RosaPayProximity.swift:1139-1196 | taking one frame changes that peer's inbox as the specification function says, and no other peer's |
| BleReceiver.Reassembler.Finish | apps/mobile/ios/RosaPaySigner/RosaPayProximity.swift:796-828 | a finished encounter forgets what was half read |
| BleReceiver.Reassembler.Join | apps/mobile/ios/RosaPaySigner/RosaPayProximity.swift:1169-1172 | the parts are joined in position order, or not at all when one is missing |
| BleReceiver.BadFrames | apps/mobile/ios/RosaPaySigner/RosaPayProximity.swift:1139-1147 | a frame without a piece is passed over; one with an impossible position ends the encounter with a phone this one connected to |
| BleReceiver.GoodFrames | apps/mobile/ios/RosaPaySigner/RosaPayProximity.swift:1150-1168 | any other frame files its piece under its position, beside pieces of its own kind only |
| BleReceiver.EventMeans | apps/mobile/ios/RosaPaySigner/RosaPayProximity.swift:1178-1182 | a payload over 4096 bytes is told of as unreadable, any other as it is |
| BleReceiver.Incomplete | apps/mobile/ios/RosaPaySigner/RosaPayProximity.swift:1152-1167 | frames of one message in any order, repeated or not, emit nothing while a position is missing |
| BleReceiver.AnyOrder | apps/mobile/ios/RosaPaySigner/RosaPayProximity.swift:1159-1196 | when the last missing position arrives the message is emitted once, whole, whatever the order and repeats before |
| BleReceiver.NewKindReplaces | apps/mobile/ios/RosaPaySigner/RosaPayProximity.swift:1150-1156 | frames of another kind over a half-read message, in any order and with any repeats, emit nothing while a position is missing; the last missing one emits the message once, whole, and leaves the inbox idle |
| BleReceiver.CleanRestart | apps/mobile/ios/RosaPaySigner/RosaPayProximity.swift:1150-1176 | a restart of the same kind is clean when every leftover position comes before the new last one |
| BleReceiver.NeverCompletes | apps/mobile/ios/RosaPaySigner/RosaPayProximity.swift:1157-1167 | a leftover position beyond the new total keeps the new message from ever completing |
| BleReceiver.CompletesEarly | apps/mobile/ios/RosaPaySigner/RosaPayProximity.swift:1160-1176 | a leftover last part completes a same-kind restart one frame too soon |
| BleReceiver.Restart | apps/mobile/ios/RosaPaySigner/RosaPayProximity.swift:1150-1196 | exactly when a message sent over a half-read one is heard whole with the inbox idle after it: another kind, or leftovers only where the new frames overwrite them before the last |
| BleDelivery.SameFrames | apps/mobile/ios/RosaPaySigner/RosaPayProximity.swift:497-521 | the frames a sender puts on the air are, for the receiver, the pieces of the message in order |
| BleDelivery.WholeStream | apps/mobile/ios/RosaPaySigner/RosaPayProximity.swift:1139-1196 | a stream of whole messages is heard as those messages, once each and in order |
| BleDelivery.EndToEnd | apps/mobile/ios/RosaPaySigner/RosaPayProximity.swift:452-521 | whatever was refused, resumed, queued later or renegotiated at 20 or more, the peer has heard exactly the messages asked for, unless the last frame offered to the radio is one it turned down |
| BleDelivery.AnyMoment | apps/mobile/ios/RosaPaySigner/RosaPayProximity.swift:452-521 | at every moment what the peer has heard is a prefix of what was asked for |
| BleDelivery.PrefixHeard | apps/mobile/ios/RosaPaySigner/RosaPayProximity.swift:1139-1196 | from any idle moment, however a stream is cut short, what is heard is a prefix of the messages it carries |
| BleDelivery.AnySchedule | apps/mobile/ios/RosaPaySigner/RosaPayProximity.swift:452-521 | any schedule of messages and ready callbacks over any number of customers keeps both delivery properties |
| BleDelivery.ReadyAtLast | apps/mobile/ios/RosaPaySigner/RosaPayProximity.swift:953-958 | after any schedule, one ready callback in which the radio takes what it is offered lets every subscribed customer hear everything asked for it |
| BleAnswers.Answers.SendMessage | apps/mobile/ios/RosaPaySigner/RosaPayProximity.swift:534-569 | from any state: the guards in order; an accepted answer changes that merchant's line as a write does, and nothing else |
| BleAnswers.Answers.Write | apps/mobile/ios/RosaPaySigner/RosaPayProximity.swift:625-651 | from any state, a failed write before it included: all frames join what waits, and the first leaves at once when nothing waited |
| BleAnswers.Answers.CutAll | apps/mobile/ios/RosaPaySigner/RosaPayProximity.swift:638-645 | the cutting loop builds exactly the frames of the message |
| BleAnswers.Answers.WriteNext | apps/mobile/ios/RosaPaySigner/RosaPayProximity.swift:653-658 | from any state, one frame moves from the front of what waits to the writes on their way |
| BleAnswers.Answers.DidWrite | apps/mobile/ios/RosaPaySigner/RosaPayProximity.swift:1108-1116 | from any state: the oldest write on its way is settled; after an error what waited is dropped, otherwise the next frame leaves |
| BleAnswers.OneAtATime | apps/mobile/ios/RosaPaySigner/RosaPayProximity.swift:620-651 | for every line with at most one write on its way, and every step: at most one remains if and only if the step is not an answer written while one write is on its way and nothing waits |
| BleAnswers.OneWriteInFlight | apps/mobile/ios/RosaPaySigner/RosaPayProximity.swift:620-651 | a run keeps at most one write in flight throughout if and only if no answer in it is written at such a moment |
| BleAnswers.TwoWritesInFlight | apps/mobile/ios/RosaPaySigner/RosaPayProximity.swift:620-651 | and it does happen: two one-frame answers in a row are both in flight, although the comment promises one write at a time |
| BleAnswers.StepsKeepOrder | apps/mobile/ios/RosaPaySigner/RosaPayProximity.swift:625-661 | while no write fails, frames taken, on their way and waiting are together all frames of the answers, in order |
| BleAnswers.AnswersHeard | apps/mobile/ios/RosaPaySigner/RosaPayProximity.swift:625-661 | from any quiet moment with nothing half read and until a write fails, the merchant has heard a prefix of the answers written since, and all of them once the line is quiet |
| BleAnswers.AbandonedTails | apps/mobile/ios/RosaPaySigner/RosaPayProximity.swift:1108-1116 | over any run, failures and all: each try a failure ended sent a first part of its frames, and what the open try sent and what waits are all of its frames |
| BleAnswers.TakenFromTries | apps/mobile/ios/RosaPaySigner/RosaPayProximity.swift:1108-1116 | over any run, what the merchant took is what the tries sent, in order, less the frames on their way and less those that came back untaken, one for each ended try at most |
| BleAnswers.NextAnswerHeard | apps/mobile/ios/RosaPaySigner/RosaPayProximity.swift:1108-1196 | after any run that has come to rest, the next answer is heard whole with nothing left half read if and only if the leftovers at the merchant are of another kind or all lie before its last frame |
| BleAnswers.AfterFailure | apps/mobile/ios/RosaPaySigner/RosaPayProximity.swift:1108-1196 | after k frames of an answer were taken and a write failed, the next answer of n frames is heard whole with nothing left half read if and only if k is nothing or everything, the kinds differ, or k is at most n - 1 (or one) |
| BleAnswers.Splice | apps/mobile/ios/RosaPaySigner/RosaPayProximity.swift:1108-1196 | the failing side: two frames of one answer and the first of the next are heard as a message nobody sent |
| BleAnswers.AnyAnswers | apps/mobile/ios/RosaPaySigner/RosaPayProximity.swift:534-661 | any schedule of answers and callbacks with any number of merchants leaves every line where a run with the same messages and callbacks takes it; a merchant none of whose writes failed has heard a prefix of the answers accepted for it, and all of them once its line is quiet |
| JsonText.QuotedUnique | packages/protocol/src/canonical.ts:14-17 | a quoted string is uniquely decodable from any text that starts with it |
| JsonText.NumberUnique | packages/protocol/src/canonical.ts:14-17 | so is a number followed by anything that ends it |
| CanonicalReadBack.UnitSpelling | packages/protocol/src/canonical.ts:15-16 | how one UTF-16 unit is written: as itself, by a two-character escape, or by its number in lower-case hexadecimal, and exactly when each |
| Base.LessMeans | packages/protocol/src/canonical.ts:10-12 | the key order: a proper beginning comes first, otherwise the smaller code unit where the two first differ |
| CanonicalJson.AscendingUnique | packages/protocol/src/canonical.ts:10-12 | there is one ascending arrangement of a set of keys under `compareKeys` |
| CanonicalJson.AnySort | packages/protocol/src/canonical.ts:23-24 | any ascending rearrangement of an object's entries is the one the sort gives |
| CanonicalJson.Invariant | packages/protocol/src/canonical.ts:14-28 | values equal up to object key order have one canonical text |
| CanonicalJson.Unique | packages/protocol/src/canonical.ts:14-28 | canonical texts that agree, whatever follows them, are of values equal up to key order, and what follows agrees too |
| CanonicalJson.NormalForm | packages/protocol/src/canonical.ts:14-28 | two values have the same canonical text if and only if they are equal up to object key order, at every depth |
| CanonicalReadBack.TextReadBack | packages/protocol/src/canonical.ts:14-28 | a reader written from RFC 8259 alone reads every canonical text as a value equal to the one it was made of up to key order, with the keys of every object in order at every depth |
| Cbor.CborReader.Byte | packages/secure-signer/src/webauthn.ts:64-69 | the byte under the cursor, or a refusal at the end |
| Cbor.CborReader.TakeBytes | packages/secure-signer/src/webauthn.ts:71-78 | exactly the announced bytes, or a refusal when they run past the end |
| Cbor.CborReader.ReadArgument | packages/secure-signer/src/webauthn.ts:81-91 | 8, 16 and 32 bit arguments are big-endian; what is shifted stays below 2^24, so the signed 32 bit operations are exact and the top bit of a 32 bit argument does not become a sign |
| Cbor.CborReader.ReadValue | packages/secure-signer/src/webauthn.ts:93-131 | the moving reader agrees with the specification on value, refusal and offset |
| Cbor.CborReader.ReadArray | packages/secure-signer/src/webauthn.ts:107-112 | the item loop reads the announced number of items |
| Cbor.CborReader.ReadMap | packages/secure-signer/src/webauthn.ts:113-121 | the entry loop reads keys and values alternately, a repeated key replacing its value in place |
| Cbor.Read | packages/secure-signer/src/webauthn.ts:93-131 | on any bytes reading ends: it refuses, or takes at least one byte and never one past the end |
| Cbor.InitialByteDecides | packages/secure-signer/src/webauthn.ts:93-131 | which initial bytes are accepted, and how each other is refused |
| Cbor.ArgumentMeans | packages/secure-signer/src/webauthn.ts:81-91 | the value of every argument, place by place, and its refusals |
| Cbor.BodyFollows | packages/secure-signer/src/webauthn.ts:93-131 | an initial byte below 0xC0 announces a body by its upper three bits, with its argument between them |
| Cbor.BodyMeans | packages/secure-signer/src/webauthn.ts:98-106 | what numbers, byte strings and texts read as, and when they run past the end |
| Cbor.SetEntryMeans | packages/secure-signer/src/webauthn.ts:113-121 | setting a key changes what is found under it and nothing else |
| Cbor.SetEntryPlace | packages/secure-signer/src/webauthn.ts:113-121 | and keeps its place if it has one |
| Cbor.ListsPrinted | packages/secure-signer/src/webauthn.ts:118-118 | byte strings and arrays as keys print with commas, null items empty |
| Cbor.KeysPrinted | packages/secure-signer/src/webauthn.ts:118-118 | null, booleans and maps as keys become what JavaScript prints |
| CborRoundTrip.HeadArgument | packages/secure-signer/src/webauthn.ts:81-91 | every head width reads back to its argument |
| CborRoundTrip.ReadEncoded | packages/secure-signer/src/webauthn.ts:93-131 | for every nested value of the subset and every suffix, reading its encoding returns it and advances by exactly its length |
| CborRoundTrip.EncodeInjective | packages/secure-signer/src/webauthn.ts:93-131 | encodings are uniquely decodable |
| Attestation.AuthenticatorDataRoundTrip | packages/secure-signer/src/webauthn.ts:142-152 | authenticator data comes back unchanged from any attestation object carrying it |
| Attestation.AuthDataName | packages/secure-signer/src/webauthn.ts:147-147 | the entry it is carried under is the one named authData |
| Attestation.CredentialRoundTrip | packages/secure-signer/src/webauthn.ts:161-219 | for any credential id under 65536 bytes and any P-256 COSE key, the parsers return exactly 04, x, y and that id |
| Attestation.Accepted | packages/secure-signer/src/webauthn.ts:161-219 | on arbitrary bytes an accepted key is 65 bytes starting with 4, and its credential id is accepted with it |
| Attestation.KeyAccepted | packages/secure-signer/src/webauthn.ts:183-202 | a key is accepted exactly when it says it is elliptic-curve (2), for ES256 (-7), on P-256 (1) and has both 32-byte coordinates; otherwise the first that fails is the refusal |
| Attestation.CoordinatesRefused | packages/secure-signer/src/webauthn.ts:133-139 | a coordinate that is no byte string or not of 32 bytes is refused as such, the first one first |
| Attestation.CarriedWhen | packages/secure-signer/src/webauthn.ts:142-152 | authenticator data is what a map carries under its name as bytes; anything else is refused for what it is |
| Attestation.TakenFrom | packages/secure-signer/src/webauthn.ts:161-219 | id and key are taken from just their places in the authenticator data, and only if they are there |
| Attestation.Refusals | packages/secure-signer/src/webauthn.ts:161-219 | the refusals of authenticator data, in the order of the checks |
| Base64Url.EncodeInto | contracts/wallet/src/webauthn.rs:148-178 | the loop fills the front of the destination with the encoding and touches nothing after it |
| Base64Url.AlphabetOnly | contracts/wallet/src/webauthn.rs:146-178 | every letter written is of the url alphabet |
| Base64Url.LettersAre | contracts/wallet/src/webauthn.rs:148-178 | every letter stands for its six bits of the source, the bits past the end being zero |
| Base64Url.TableTwo | contracts/wallet/src/webauthn.rs:146-147 | the letters of the url alphabet in their order |
| Base64Url.LetterCount | contracts/wallet/src/webauthn.rs:148-178 | six bits a letter, the last letter's missing ones being zero |
| Base64Url.DecodeInvertsEncode | contracts/wallet/src/webauthn.rs:148-178 | for every source length, a text is the encoding of some bytes if and only if it strictly decodes to them |
| Base64Url.EncodeInjective | contracts/wallet/src/webauthn.rs:148-178 | different bytes have different encodings |
| WebAuthn.Verify | contracts/wallet/src/webauthn.rs:81-134 | an assertion is accepted exactly when every condition holds, the challenge decoding to the payload among them; otherwise the first condition that fails, in the contract's order, is the refusal |
| WebAuthn.CheckedInOrder | contracts/wallet/src/webauthn.rs:81-134 | the nine checks one after the other, with their limits, flag bits and signed bytes spelled out: each refusal exactly when its check is the first to fail, acceptance exactly when none does |
| WebAuthn.OneTransactionOnly | contracts/wallet/src/webauthn.rs:98-105 | an assertion accepted for one payload is refused, as a challenge mismatch, for every other |
| WebAuthn.ChallengeSpellsPayload | contracts/wallet/src/webauthn.rs:98-105 | the challenge of an accepted assertion is the one text that spells the payload |
| DerSignature.ToFixedBytes | packages/secure-signer/src/secp256r1.ts:68-76 | the loop writes the low 32 bytes, most significant first |
| DerSignature.FixedThenFold | packages/secure-signer/src/secp256r1.ts:37-76 | folding the fixed bytes gives the number back |
| DerSignature.FoldThenFixed | packages/secure-signer/src/secp256r1.ts:37-76 | and fixing a fold gives the bytes back |
| DerSignature.BigEndianMeans | packages/secure-signer/src/secp256r1.ts:37-37 | the fold is the number in base 256 |
| DerSignature.DerReader.ReadBigInt | packages/secure-signer/src/secp256r1.ts:29-38 | one integer is read or refused as the specification says, and the cursor moves past it |
| DerSignature.DerToCompactSignature | packages/secure-signer/src/secp256r1.ts:14-52 | the parser returns the compact form of the two numbers read, or the first refusal |
| DerSignature.AcceptedWhen | packages/secure-signer/src/secp256r1.ts:14-52 | exactly the sequences of two integers, both between 0 and the order and nothing after them, are accepted, and read as those numbers |
| DerSignature.RefusedWhen | packages/secure-signer/src/secp256r1.ts:22-46 | when the sequence itself or the range of its numbers is the refusal |
| DerSignature.IntegerRefusedWhen | packages/secure-signer/src/secp256r1.ts:29-38 | when one integer is refused, and how |
| DerSignature.EncodedSignature | packages/secure-signer/src/secp256r1.ts:14-52 | for all r and s in order, decoding their DER encoding gives 64 bytes whose halves are r and min(s, n - s) |
| DerSignature.ContentIsShortest | packages/secure-signer/src/secp256r1.ts:29-38 | the integers a keystore writes: the shortest encoding that does not read as negative |
| DerSignature.AcceptedIsLowAndStable | packages/secure-signer/src/secp256r1.ts:43-51 | whatever is accepted has S at most half the order, and encoding and decoding the result again changes nothing |
| DerSignature.CompactInjective | packages/secure-signer/src/secp256r1.ts:47-51 | compact signatures agree exactly when the numbers agree up to the sign of s |
| RateLimiter.Open | apps/api/src/application/RateLimiter.ts:35-42 | a limiter exists exactly for a positive safe limit and window; the limit is complained of first |
| RateLimiter.RateLimiter.Check | apps/api/src/application/RateLimiter.ts:44-60 | one check decides and updates as the specification step with eviction |
| RateLimiter.RateLimiter.EvictExpired | apps/api/src/application/RateLimiter.ts:67-71 | the sweep leaves exactly the windows that have not ended |
| RateLimiter.FixedWindows | apps/api/src/application/RateLimiter.ts:44-60 | the rule itself: from a check that opens a window until it ends, a check of the key is allowed exactly when fewer than the limit came before it in the window, and the first one after the end opens the next |
| RateLimiter.FirstOpens | apps/api/src/application/RateLimiter.ts:44-51 | the first check of a key opens a window |
| RateLimiter.EvictionNeverShows | apps/api/src/application/RateLimiter.ts:44-71 | with a monotone clock every decision of a run is the one a limiter that never evicts makes |
| RateLimiter.WhenEvictionShows | apps/api/src/application/RateLimiter.ts:44-71 | in any run without an early check, the limiter and one that never sweeps decide the next check differently if and only if it comes before the end of a full window swept out earlier, its key not checked since |
| RateLimiter.MonotoneIsInTime | apps/api/src/application/RateLimiter.ts:44-71 | with a clock that never goes back no check is early |
| RateLimiter.EvictionShowsWhenTheClockGoesBack | apps/api/src/application/RateLimiter.ts:44-71 | a run that meets the condition, its third check back in time |
| RateLimiter.SlidingBound | apps/api/src/application/RateLimiter.ts:44-60 | in any half-open interval of k windows' length at most (k + 1) * limit - 1 checks of a key are allowed |
| RateLimiter.BoundIsTight | apps/api/src/application/RateLimiter.ts:44-60 | for every number of windows, some run reaches that bound if and only if windows last two milliseconds or more or one check fills them |
| RateLimiter.RetryAfterIsExact | apps/api/src/application/RateLimiter.ts:53-55 | after a refusal the key's next check is allowed once retryAfterSeconds have passed, and refused a whole second or more before |
| Payment.TransitionPayment | packages/domain/src/payment.ts:11-36 | a move succeeds exactly when the table allows it; it then strictly advances, changes the status alone and never leaves a terminal status |
| Payment.MovesAre | packages/domain/src/payment.ts:11-24 | what the table says: an open payment goes to its next stage or fails, expires until it is submitted, and is rejected only while approval is awaited |
| Payment.PathAdvances | packages/domain/src/payment.ts:11-24 | along any walk of allowed moves the rank rises by at least one a step |
| Payment.PathIsShort | packages/domain/src/payment.ts:11-24 | no walk repeats a status or visits more than five |
| Lifecycle.NoLostUpdate | apps/api/src/application/IntentService.ts:333-364 | over every interleaving, a conditional write that succeeds overwrites exactly the record its caller read |
| Lifecycle.RowsAdvance | packages/domain/src/payment.ts:11-40 | over every interleaving each row's history starts fresh and walks forward through the allowed transitions |
| Lifecycle.TerminalForever | apps/worker/src/PostgresSettlementState.ts:63-154 | a terminal row is never changed by anything that follows |
| Lifecycle.HashFixed | apps/api/src/application/IntentService.ts:310-346 | submitted and confirmed rows have a well-formed hash, and a hash once present changes in letter case only |
| Lifecycle.ConfirmedIsBacked | apps/worker/src/confirmationWorker.ts:102-210 | over every run of the service's calls and the worker's own steps - list, be told of an event, ask, compare, confirm - a confirmed row's hash and ledger are those of a receipt the RPC gave for that hash |
| Lifecycle.ConfirmedAsReported | apps/worker/src/confirmationWorker.ts:148-206 | over every run, a confirmation goes back to a pass over that very row, is for the hash the row was listed with, and for the ledger of the event the pass held, if it held one; its write leaves just these |
| Lifecycle.LedgersAreSafe | apps/worker/src/PostgresSettlementState.ts:82-84 | over every run a confirmed row has a positive safe ledger |
| Lifecycle.PatchMeans | apps/api/src/application/IntentService.ts:310-331 | what each call leaves on a row: its own fields and no others |
| Lifecycle.ProperMeans | apps/worker/src/PostgresSettlementState.ts:78-110 | what input each call accepts, by pattern and range |
| Lifecycle.AskAfterMeans | apps/worker/src/confirmationWorker.ts:115-206 | what the worker does with each answer of the RPC: confirm, wait or fail |
| Lifecycle.AloneInTurn | apps/api/src/application/IntentService.ts:338-360 | a call that is begun and left alone makes its move, if the row is open to it |
| Lifecycle.StepsHappen | apps/worker/src/confirmationWorker.ts:102-115 | rows are created, calls begun and submitted rows listed |
| Lifecycle.ReportMeans | apps/worker/src/confirmationWorker.ts:176-180 | an event that names another hash than the listed one fails the payment; one that names it is kept for the receipt |
| Lifecycle.AskAfterTrusted | apps/worker/src/confirmationWorker.ts:115-206 | the comparison the worker makes between row, event and receipt is what makes the confirmation it then asks for rest on a receipt |
| Lifecycle.NeverGivesUp | apps/api/src/application/IntentService.ts:338-363 | an authorize or submit call - the two that are routed - about to write has lost no write before, so it never runs out of attempts |
| Lifecycle.GivingUpMeansTerminal | apps/api/src/application/IntentService.ts:338-363 | over every run, a call of the service that loses its third write is a failing one and the row is terminal by then |
| Lifecycle.ThreeIsExact | apps/api/src/application/IntentService.ts:327-363 | the bound for `IntentService.fail`, which no route calls: a run of the whole system in which a failing call loses two writes with the row still open to it, and then the third to the worker's confirmation |
| Lifecycle.SameStatusSameRecord | apps/api/src/infrastructure/InMemoryIntentRepository.ts:124-133 | a record the row once held with its present status is the record it holds: there is no way back |
| SettlementCalls.ThriceOvertaken | apps/api/src/application/IntentService.ts:338-363 | three allowed reads each overtaken before the write: the target is failed and the row is already terminal |
| SettlementCalls.Settlements.WriteIfUnchanged | apps/api/src/application/IntentService.ts:346-360 | the write of a call that read an allowed record takes effect exactly when the row is still that record; when lost, the row has moved on |
| SettlementCalls.Settlements.TransitionSettlement | apps/api/src/application/IntentService.ts:333-364 | the retry loop under any interference: not found only if there was no row when the call came in; every other answer is the one that fits a record the row held during the call; exhaustion means a failed target and a row that has moved on three times and is final |
| SettlementCalls.AnsweredAlone | apps/api/src/application/IntentService.ts:338-360 | if nobody else moves the row, the row as it was decides: a move open to it is made and its record answered, and only a record that stands in the way is refused, for its own reason |
| SettlementCalls.ReconciledAlone | apps/worker/src/PostgresSettlementState.ts:124-154 | the same for the worker's calls |
| SettlementCalls.AuthorizationMeans | apps/api/src/application/IntentService.ts:187-196 | which authorizations are proper, by pattern and range |
| SettlementCalls.Settlements.Authorize | apps/api/src/application/IntentService.ts:186-205 | improper authorizations are refused before anything is touched; a proper one is saved, as it is, whatever becomes of the move; answers as the retry loop does and never in a concurrency error |
| SettlementCalls.Settlements.Submit | apps/api/src/application/IntentService.ts:310-313 | refuses malformed hashes before touching anything; otherwise answers as the retry loop does, never in a concurrency error |
| SettlementCalls.Settlements.Reconcile | apps/worker/src/PostgresSettlementState.ts:124-154 | the worker's re-read and conditional update under any interference: success means the row reached the target; a refusal fits a record the row held during the call, and a lost race means such a record was overtaken |
| SettlementCalls.Settlements.Confirm | apps/worker/src/PostgresSettlementState.ts:78-105 | input checks first; success means the row was confirmed with this hash up to letter case |
| SettlementCalls.Settlements.Fail | apps/worker/src/PostgresSettlementState.ts:107-122 | a code of nothing but blanks is refused; success means the row has failed, with the trimmed code if this call is the one that wrote |
| SettlementCalls.Settlements.Expire | apps/worker/src/PostgresSettlementState.ts:63-76 | success means the row has expired |
| IntentRepository.InMemoryIntentRepository.CompareAndSetSettlement | apps/api/src/infrastructure/InMemoryIntentRepository.ts:124-133 | the whole new table and whether the write was made |
| IntentRepository.WritesAgree | apps/api/src/infrastructure/PostgresIntentRepository.ts:319-345 | in any sound state the API's whole-record write and the worker's write of named columns leave the same table |
| IntentRepository.TableInStep | apps/api/src/infrastructure/PostgresIntentRepository.ts:319-345 | after any run the table shows the newest record of every row |
| Formats.HexHashPattern | apps/worker/src/PostgresSettlementState.ts:157-159 | a transaction hash is what the pattern matches |
| Formats.AddressPattern | apps/api/src/application/IntentService.ts:367-371 | an address is what the pattern matches |
| Formats.SignaturePattern | apps/api/src/application/IntentService.ts:277-279 | a countersignature is what the pattern matches |
| Formats.SameHashMeans | apps/worker/src/PostgresSettlementState.ts:87-93 | hashes are compared letter by letter in either case |
| Formats.TrimMeans | apps/worker/src/PostgresSettlementState.ts:108-108 | trimming takes blanks off both ends, all of them and nothing else |
| Formats.BlanksAre | apps/worker/src/PostgresSettlementState.ts:108-108 | the 25 characters that trimming takes |
| Countersignature.UpsertsAgree | apps/api/src/infrastructure/PostgresIntentRepository.ts:115-141 | the in-memory and SQL upserts agree exactly when no empty text is stored under a real one or offered over nothing |
| Countersignature.ClaimTable.SaveCountersignature | apps/api/src/infrastructure/InMemoryIntentRepository.ts:77-93 | the in-memory save is the upsert on one row |
| Countersignature.StoresAgree | apps/api/src/infrastructure/InMemoryIntentRepository.ts:77-93 | on every run of the service the two stores end in the same state |
| Countersignature.ClaimDecided | apps/api/src/application/IntentService.ts:217-244 | when a claim is refused, by what, and when it is granted |
| Countersignature.SigningDecided | apps/api/src/application/IntentService.ts:261-286 | when a signature is refused, by what, and when it is stored |
| Countersignature.Concluded | apps/api/src/application/IntentService.ts:241-252 | a claim that was saved is answered by what stands by then; another's claim refuses it |
| Countersignature.ClaimedAlone | apps/api/src/application/IntentService.ts:217-252 | with nobody else between, an open and unclaimed request from a proper address succeeds |
| Countersignature.SignedAlone | apps/api/src/application/IntentService.ts:261-295 | and a proper signature for the customer who asked is the one that is stored |
| Countersignature.AloneInTurn | apps/api/src/application/IntentService.ts:217-295 | in the machine too a call left alone answers, or saves and answers, as its decision says |
| Countersignature.FirstClaimWins | apps/api/src/application/IntentService.ts:217-252 | the first claim's customer never changes and the first signature is never replaced, over every interleaving |
| Countersignature.ToldMeansOwned | apps/api/src/application/IntentService.ts:217-252 | everyone told success is the one customer the row belongs to, for good |
| Countersignature.OneSignature | apps/api/src/application/IntentService.ts:261-295 | every successful signer gets back the one stored signature, in its proper form |
| Countersignature.Requests.RequestCountersignature | apps/api/src/application/IntentService.ts:217-252 | the claiming call with anyone's steps between its own: it decides by the claim it met, or saves over the one that is there by then and answers by what stands afterwards |
| Countersignature.Requests.SupplyCountersignature | apps/api/src/application/IntentService.ts:261-295 | the signing call, in the same way |
| ConfirmationLoops.ListSubmittedSettlements | apps/worker/src/PostgresSettlementState.ts:25-38 | every submitted row once, in the order of the ids; its hash is always well formed, so the listing never fails |
| ConfirmationLoops.ConfirmOne | apps/worker/src/confirmationWorker.ts:115-137 | one settlement's fate follows from the RPC's answer and happens to the row, by just the write it asks for; an error is the one that call ended in |
| ConfirmationLoops.ConfirmSubmittedSettlements | apps/worker/src/confirmationWorker.ts:102-141 | each listed settlement is paid by a receipt for its own hash, waits without one and fails otherwise; the pass writes nothing else, stops only at an error of such a call, and its counters are the tally of the fates |
| ConfirmationLoops.ReconcileOne | apps/worker/src/confirmationWorker.ts:176-206 | one event is checked against the row's hash, then against a receipt with its hash and its very ledger; it writes just what its fate asks for |
| ConfirmationLoops.EventTurn | apps/worker/src/confirmationWorker.ts:165-175 | an intent is looked at once; its further events, and events of payments not submitted, are ignored |
| ConfirmationLoops.ReconcileSettlementEvents | apps/worker/src/confirmationWorker.ts:148-210 | an event is paid exactly if it is the first of a listed id, names the row's hash and the answer is a receipt with that hash and its ledger; pending, ignored or broken exactly as said; nothing else is written, and the counters add up to all |
| Reconciliation.EventFateIs | apps/worker/src/confirmationWorker.ts:165-206 | that decision said outright: first of its id, listed, hash, receipt, ledger |
| Reconciliation.SubmittedFateIs | apps/worker/src/confirmationWorker.ts:115-136 | the same for a settlement without an event |
| ConfirmationLoops.TallyCounts | apps/worker/src/confirmationWorker.ts:66-80 | each counter is the number of fates of its kind |
| ConfirmationLoops.ExpireStaleSettlements | apps/worker/src/confirmationWorker.ts:32-48 | all listed payments whose ledger has passed are expired, this pass writes nothing else, and both counts are exact |
| ConfirmationLoops.DueCounts | apps/worker/src/confirmationWorker.ts:32-48 | the count of expired payments is the number of those listed whose ledger has passed |
| SettlementContract.SettlementContract.AuthorizeIntent | contracts/settlement/src/lib.rs:323-374 | the refusals in the contract's order; passing them spends the intent and changes nothing else |
| SettlementContract.SettlementContract.SettlePayment | contracts/settlement/src/lib.rs:214-227 | the promised state, or the error and nothing changed |
| SettlementContract.SettlementContract.SettlePaymentWithSwap | contracts/settlement/src/lib.rs:246-301 | the promised state, or the error and nothing changed, wherever in the call it fails |
| SettlementContract.SettlementContract.RegisterAsset | contracts/settlement/src/lib.rs:141-149 | admin only; one asset's flag is set |
| SettlementContract.SettlementContract.SetSwapRouter | contracts/settlement/src/lib.rs:154-158 | admin only; the router is replaced |
| SettlementContract.SettlementContract.RegisterMerchant | contracts/settlement/src/lib.rs:164-189 | admin only; the merchant is stored active and announced |
| SettlementContract.SettlementContract.RevokeMerchant | contracts/settlement/src/lib.rs:191-206 | admin only; an unknown merchant is an error, a known one becomes inactive |
| SettlementContract.Refusal | contracts/settlement/src/lib.rs:323-407 | nothing is refused exactly when the payment is justified; otherwise the refusal is the first check, in the contract's order, that the payment does not meet |
| SettlementContract.RefusedInOrder | contracts/settlement/src/lib.rs:323-407 | the eleven checks one after the other, each refusal exactly when its check is the first to fail |
| SettlementContract.AdminSteps | contracts/settlement/src/lib.rs:141-189 | what registering does in a run, and that it does nothing unless the admin signs |
| SettlementContract.SettlesWhen | contracts/settlement/src/lib.rs:214-227 | directly, exactly a justified payment settles that the customer can make and the recipient can hold |
| SettlementContract.TransferWhen | contracts/settlement/src/lib.rs:219-224 | when a token transfer goes through |
| SettlementContract.SwapSettlesWhen | contracts/settlement/src/lib.rs:246-301 | by a swap, exactly a justified payment with its path, ceiling and deadline in order that can be funded, served and held; and which refusal comes first |
| SettlementContract.RevokedIsRefused | contracts/settlement/src/lib.rs:191-206 | from its revocation on, and until it is registered again, no payment to a merchant settles |
| SettlementContract.FundingNeverShows | contracts/settlement/src/lib.rs:230-245 | two swap settlements of one payment, however funded: path, ceiling, deadline and price never change who holds what of the merchant's token, the spent intents or the receipts |
| SettlementContract.SwapRefinesDirect | contracts/settlement/src/lib.rs:246-301 | a swap settlement succeeds exactly when its path is in order, the router's swap succeeds and direct settlement after it succeeds, and then ends in the same state with the funding noted before the receipt |
| SettlementContract.PaidInFullBySwap | contracts/settlement/src/lib.rs:277-281 | by a swap the recipient gains the whole amount exactly when it is not the router's own pool |
| SettlementContract.PaidInFullDirectly | contracts/settlement/src/lib.rs:219-224 | directly it does exactly when it is not the customer |
| SettlementContract.PaidToThePool | contracts/settlement/src/lib.rs:246-301 | a payment by swap to the pool itself that settles and leaves the recipient with nothing more |
| SettlementContract.PaidToOneself | contracts/settlement/src/lib.rs:214-227 | a direct payment to oneself that settles and leaves the recipient with nothing more |
| SettlementContract.SettledOnce | contracts/settlement/src/lib.rs:343-364 | over every run receipts carry pairwise distinct intents, and these are exactly the spent ones |
| SettlementContract.EventsAreTrue | contracts/settlement/src/lib.rs:323-407 | over every run, every event was announced at a step about just what it names - all six fields of a payment, the funding and its price, the merchant registered - and a payment at a moment when its merchant was active, its recipient, asset, expiry and signatures in order |
| SettlementContract.NoReplay | contracts/settlement/src/lib.rs:349-352 | a spent intent is spent for good, by either way of settling |
| SettlementContract.TransferConserves | contracts/settlement/src/lib.rs:220-224 | a transfer keeps the total of every token, also when payer and payee are one |
| SettlementContract.TotalsConserved | contracts/settlement/src/lib.rs:214-301 | over every run the total of every token over the accounts involved is constant |
| SettlementContract.BalanceEquation | contracts/settlement/src/lib.rs:214-301 | over every run, for every account and token: the balance is the one before, plus receipts to the account, less receipts by it, plus what the swaps themselves moved |
| SettlementContract.InflowIsReceipts | contracts/settlement/src/lib.rs:376-386 | so someone who neither pays nor runs the pool gains exactly the sum of its receipts |
| WalletContract.RosaWallet.constructor | contracts/wallet/src/lib.rs:111-123 | one signer, a count of one, and the recovery signer if named |
| WalletContract.RosaWallet.AddSigner | contracts/wallet/src/lib.rs:129-142 | the new wallet, or the error and nothing changed, a full counter included |
| WalletContract.RosaWallet.RemoveSigner | contracts/wallet/src/lib.rs:144-158 | the last signer is never removed |
| WalletContract.RosaWallet.Rotate | contracts/wallet/src/lib.rs:164-186 | the retired key goes, its replacement comes and the count stays |
| WalletContract.RosaWallet.SetRecoverySigner | contracts/wallet/src/lib.rs:192-205 | a recovery signer is never overwritten |
| WalletContract.AssertRecoveryScope | contracts/wallet/src/lib.rs:286-303 | the loop refuses exactly when some context is not a rotation of this wallet |
| WalletContract.RosaWallet.CheckAuth | contracts/wallet/src/lib.rs:238-283 | accepted exactly when the signature is valid by its recorded kind and the key may authorise these contexts; unknown keys and kind mismatches are told apart |
| WalletContract.AlwaysSpendable | contracts/wallet/src/lib.rs:111-205 | in every reachable state the count is the number of signers, there is one at least, and recovery is written at most once |
| WalletContract.RecoveryWrittenOnce | contracts/wallet/src/lib.rs:192-205 | from any state with a recovery signer no run changes it |
| WalletContract.RecoveryOnlyRotates | contracts/wallet/src/lib.rs:277-303 | runs signed only by a key that is the recovery signer and nothing more keep the number of signers and the recovery signer |
| WalletContract.SignersAreEnough | contracts/wallet/src/lib.rs:252-283 | any registered signer with a valid signature of its kind may authorise anything |
| WalletContract.OpsMean | contracts/wallet/src/lib.rs:129-205 | when each call is refused and by what, and that it changes one key's standing and no other's |
| WalletContract.AddedMayAuthorize | contracts/wallet/src/lib.rs:129-142 | a key added under a signature that covers add_signer may, by a signature of the kind named, authorise anything, and by no other |
| WalletContract.ReplacementMayAuthorize | contracts/wallet/src/lib.rs:164-186 | so may a key that replaced another |
| WalletContract.RemovedIsLockedOut | contracts/wallet/src/lib.rs:144-158 | a key that was removed authorises nothing, unless it is the recovery signer and only rotations are asked for |
| WalletContract.NamedMayRotate | contracts/wallet/src/lib.rs:192-205 | a recovery signer that was named may authorise rotations of this wallet and nothing else |
| WalletContract.ValidMeans | contracts/wallet/src/lib.rs:255-276 | what makes a signature of either kind valid |
| WalletContract.CreatedMayAuthorize | contracts/wallet/src/lib.rs:111-123 | the signer a wallet is created with may, by a signature of the kind named, authorise anything |
| WalletContract.RetiredIsLockedOut | contracts/wallet/src/lib.rs:164-186 | after a rotation the retired key authorises nothing, unless it is the recovery signer and only rotations are asked for |
| Money.NormalizeMeans | packages/protocol/src/intentFactory.ts:87-107 | accepted input comes out canonical, within the precision, positive and of the same value |
| Money.NormalizesWhen | packages/protocol/src/intentFactory.ts:87-107 | exactly which input is accepted, and how each other is refused |
| Money.NormalizeIdempotent | packages/protocol/src/intentFactory.ts:87-107 | normalising twice is normalising once |
| Money.NormalFormOfValue | packages/protocol/src/intentFactory.ts:87-107 | two inputs normalise to the same text exactly when they are worth the same |
| Money.NormalizeKeepsCanonical | packages/protocol/src/schema.ts:42-44 | a positive decimal in the schema's form is left alone |
| Money.ContractAmountExact | packages/stellar/src/settlementEnvelope.ts:66-80 | on canonical amounts the units are accepted exactly when positive and within 128 bits, and format back to the amount |
| Money.ContractAmountWhen | packages/stellar/src/settlementEnvelope.ts:66-80 | exactly which amounts have units, and how each other is refused |
| Money.PlainDecimalMeans | packages/stellar/src/settlementEnvelope.ts:66-70 | what counts as a decimal: digits, or digits, one point and digits |
| Money.ContractAmountInjective | packages/stellar/src/settlementEnvelope.ts:66-80 | different canonical amounts have different units |
| Money.ContractAmountIsStroops | packages/stellar/src/settlementEnvelope.ts:66-80 | with seven decimals the units print as the amount and parse from it |
| Money.NormalizedIsRepresentable | packages/protocol/src/intentFactory.ts:87-107 | what the till accepts the contract can represent, unless it is beyond 128 bits |
| Money.OnlyTwoPartsCount | packages/stellar/src/settlementEnvelope.ts:66-70 | only the parts before and after the first point are looked at |
| Money.AcceptsOnlyDecimals | packages/stellar/src/settlementEnvelope.ts:66-78 | for every text: it is accepted only if it is a decimal, if and only if it is no more than its first two parts or those alone are refused |
| Money.ThirdPartIgnored | packages/stellar/src/settlementEnvelope.ts:66-70 | 1.2.3 is taken for 1.2 |
| Money.StroopsRoundTrip | packages/stellar/src/balances.ts:55-71 | parsing a formatted amount gives it back when it is not negative, and refuses it when it is |
| Money.StroopsFormatted | packages/stellar/src/balances.ts:55-61 | stroops are written in canonical form, of the same worth, with a sign before a debt |
| Money.StroopsParsedWhen | packages/stellar/src/balances.ts:64-71 | exactly which texts parse, and to which number |
| Money.QuotientIsDivision | packages/stellar/src/balances.ts:55-61 | digit-wise division is the division the code writes |
| Secrets.HexRoundTrip | apps/mobile/src/state/persistence.ts:71-84 | bytes survive hexadecimal |
| Secrets.HiddenForm | apps/mobile/src/state/persistence.ts:71-74 | a secret is written as two lower-case digits a byte under the one key __bytes |
| Secrets.PassesFor | apps/mobile/src/state/persistence.ts:95-103 | exactly which objects pass for a hidden secret |
| Secrets.RoundTrip | apps/mobile/src/state/persistence.ts:70-93 | restoring a hidden tree gives it back if and only if nothing in it already passes for a hidden secret |
| Secrets.ReplaceIsEncode | apps/mobile/src/state/persistence.ts:70-79 | hiding again at every node on the way down changes nothing more |
| Secrets.ReviveIsDecode | apps/mobile/src/state/persistence.ts:81-93 | restoring at every node on the way up is restoring once from the top |
| Secrets.SessionRestored | apps/mobile/src/state/appStore.ts:408-409 | a session saved and loaded through both walks is the same exactly under that condition |

## Left out

- BleSender.Outlet.SendMessage: the branch for a subscribed customer; the one for a connected merchant is `BleAnswers.Answers.SendMessage`. A peer id that is no UUID counts as unknown.
- BleReceiver.Reassembler.Receive: does not model UTF-8 validity, so only an over-long payload is reported as unreadable; timers, touch verdicts and logging are not modelled.
- BleDelivery.EndToEnd: the link stays up and delivers accepted frames in order; disconnects, unsubscribing and tearing the service down are not modelled.
- BleAnswers.Answers.DidWrite: the error event shown to the customer is not modelled; callbacks settle writes in the order they were made.
- Cbor.CborReader.ReadValue: text stays the bytes it was read from; what `TextDecoder` makes of malformed UTF-8, and its dropping of a leading EF BB BF, are not modelled.
- CanonicalJson.NormalForm: numbers are integers below 1e21 in magnitude, which JavaScript prints in full (from there on it prints an exponent), and fractions are not modelled, nor read by `JsonReader`; the hash and signature over the text are not modelled.
- WebAuthn.Verify: the JSON parser, the hash and the curve are unknown functions.
- RateLimiter.RateLimiter.Check: times are whole milliseconds small enough that adding a window is exact; the default system clock is a parameter.
- SettlementCalls.Settlements.TransitionSettlement: covers authorize, submit and fail. apps/api/src/app.ts routes only the first two; `IntentService.fail` is kept because it shares the loop, and its own input check is the one of `SettlementCalls.Settlements.Fail`. `IntentService.confirm`, not routed either, compares no hashes, so confirmation is the worker's.
- SettlementCalls.Settlements.Expire: which rows are listed as expired, a database query over ledgers, is an input.
- ConfirmationLoops.ListSubmittedSettlements: ids are ordered by their characters; a database with another collation orders them otherwise.
- IntentRepository.WritesAgree: does not model that the database keeps `tx_hash` unique (apps/api/db/migrations/001_initial.sql:45). A second intent submitted with a hash another row carries is accepted by the in-memory store and rejected by the database.
- Row creation is one atomic step for each intent, as the unique intent ids of the schema make it.
- ConfirmationLoops.ReconcileSettlementEvents: intent ids are abstract; that on-chain events carry hashes of them is not modelled, and neither are cursors and the interval loop.
- SettlementContract.SwapRefinesDirect: one pool stands for all the pairs a longer path goes through.
- SettlementContract.TotalsConserved: transfers outside the contract are not part of a run.
- Storage lifetimes, contract fees and the XDR form of an intent are host behaviour.
- WalletContract.RosaWallet.CheckAuth: every refusal of a WebAuthn assertion becomes the one error `BadSignature`, whichever check it fails; `WebAuthn.Verify` tells them apart.
- WalletContract.AlwaysSpendable: a transaction is one signature, its contexts and the wallet calls made under it; nested calls by other contracts count as such calls.
- Money.NormalizeMeans: text is a sequence of characters; `\d` is the ten ASCII digits, as in the source's regular expressions.
- Secrets.SessionRestored: the walks over the tree are modelled, the JSON text between them is not.
- Floating-point pricing, HTTP routes, other schemas, database pooling, provisioning, screens and generated clients are left out: they are plumbing or have no exact meaning to prove.
