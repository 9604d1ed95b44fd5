# Verification of the Auntie fair-exchange engine

One operator and N players run a contract in their enclaves: players deposit on the Zcash chain, the
operator's enclave evaluates a functionality and issues one settlement transaction, everybody's enclave signs
it, and keys are released on proof-of-work evidence. This project models the enclaves, their channels and the
chain verifier, and proves what they keep. N, the fees, the delays, the network and the checkpoint are
parameters throughout.

`dafny verify dfyconfig.toml` checks everything (Dafny 4.11).

## Structure

| file | content |
|---|---|
| `Bytes.dfy`, `Wire.dfy` | byte strings and little-endian integers; the letters of the protocol and its constants |
| `Merkle.dfy`, `Difficulty.dfy`, `Blocks.dfy` | Merkle root, difficulty bound, header chain and burial depth |
| `Channel.dfy`, `Messages.dfy` | the record layer and the framing on it: specification, refinement by the channel object, what a reader can get |
| `Transactions.dfy`, `Functionality.dfy`, `Settlement.dfy` | path parsing and pairing, the branch-free lottery, the accounts |
| `Layouts.dfy`, `Players.dfy`, `Attestation.dfy` | offset tables, the registry, the handshake |
| `Operator.dfy`, `Player.dfy` | the two state machines: a step function, invariants over all event sequences, and an enclave object whose ECALLs are replays of steps |
| `Protocol.dfy` | all parties and channels as one transition system; safety over all runs |
| `Liveness.dfy` | runs of honest parties: no unexpected message, no deadlock, termination |

An ECALL is split at every message it waits for, since players and operator interleave there; inside one
enclave no other ECALL runs in between (one TCS, `src/operator/trusted/config.xml:7`). In a run the hosts call
whatever they like whenever they like, every OCALL, allocation and library call may fail, and a send may reach
the peer and still be reported as failed. A stranger may answer in the operator's place, and strangers may sit
in the operator's slots, since quotes are judged outside the enclaves; a stranger says anything. Of the channel
between two genuine enclaves the safety statements only use that a letter was put on it by one of the two:
letters may come out of order, repeatedly, and back to their own sender. A failed receive may leave bytes of
the host's choice that the next one reads as letters. Which number a player's enclave was given and which slot
the operator keeps it in are independent.

SHA-256, SHA-256d, CMAC, Diffie-Hellman, Equihash and note decryption are function parameters. Nothing is
assumed of the hash functions: statements that rest on collision resistance return the collision. Of
Diffie-Hellman only g^ab = g^ba is assumed. AES-GCM is ideal: a record opens exactly if one of the two ends
sealed it under the given sequence number. Signatures are ideal: each is its signer and what it signs.

## What the code does differently from what it says

- A player is not always shown every counterparty's quote before the contract is live. The id travels in the
  plaintext SYN (`src/player/trusted/mutual_attestation.c:101`), the report data do not cover it
  (`Attestation.IdIsNotCovered`), and a player skips the entry of the number it was given
  (`src/player/trusted/setup.c:37-40`). `Protocol.EveryCounterpartyShown` is the exact condition,
  `Protocol.HostCanTell` how the host can check it, and `Protocol.SwappedNumbers` a run in which it fails.
- The operator does not always keep the report data that a player attested itself with: the nonce in the plaintext
  SYN/ACK is not covered by the session key (`Attestation.NonceIsNotCovered`). `Attestation.RegistersOwnQuote` says
  exactly when it does. The quote it keeps is always the player's own, and then does not match.
- What is read from a channel is not always what the peer sent: both directions use one key
  (`src/common/trusted/channel.c:172-177`) and a record is bound only to its number, so an end also opens a record
  that it has itself sealed under the number it stands at. `Messages.OnlyPeerHeardExactly` and
  `RecordLayer.StreamKeptExactly` are the exact conditions, in the order in which the ends seal and read. A player
  fails them with its first read (`Messages.AckComesBack`); the operator meets them up to the deposit
  (`Attestation.OperatorIsTimely`). A message that comes back is taken like a failed receive
  (`Protocol.OwnLettersAreRefused`), and all statements about runs hold with such messages.
- After an error in the middle of a record the partly filled buffer stays the current record
  (`src/common/trusted/channel.c:55-70`), and the next receive reads it as plaintext:
  `Protocol.LeftoverAcknowledges`, and `Protocol.UnacknowledgedSlot` for where this can happen. No settlement comes
  of it: `Protocol.SettlementEndsExchange`.
- The list of transactions is allocated before it is read, for any count of 32 bits
  (`src/common/trusted/rust/zcash_ffi/src/blocks.rs:145`): a short stream can end the enclave
  (`Blocks.PanicMeaning`).
- The operator copies a player's input from `payout_address_offset`, not `input_offset`
  (`src/operator/trusted/core.c:180`). The model does the same; `Layouts.DepositInputMeaning` says exactly
  when the input arrives and `Layouts.DepositInputLost` gives one that does not.
- `ecall_get_deposits` is documented to return an error on failure, but returns 0 when only the last callback
  fails, without an output (`src/player/trusted/core.c:225-232`): `Player.OutputMayBeMissing`,
  `Player.LostOutput`.
- `ecall_refund` is let through in UNINITIALIZED, where there is no wallet: modelled as a crash.
- An empty transaction list makes the Merkle root panic (`src/common/trusted/rust/zcash_ffi/src/blocks.rs:108`):
  `Blocks.PanicMeaning`.
- `ecall_connect_to_player` is documented to return the player's id, but returns 0
  (`src/operator/auntie_operator.edl:8`).
- A send that the host refuses does not advance the sequence number, so the next record reuses it:
  `RecordLayer.SharedSequence` is an exact statement instead of uniqueness, and `RecordLayer.AfterRefusals` says
  what can be received then.
- Accounts are u64 sums without overflow checks: `Settlement.ValueConserved` holds if and only if none wraps, and
  `Settlement.WrapLosesValue` is a case that does.

## Model

| member | source | states |
|---|---|---|
| `Protocol.SettlementNeedsEverySignature` | src/operator/trusted/core.c:338-406 | In every run, once the settlement is out, it is the one sighash computed by clear_contract, and each genuine player's enclave in a slot has signed it and nothing else (if and only if); the other slots may hold strangers. |
| `Protocol.SettlementEndsExchange` | src/operator/trusted/core.c:338-406 | In every run, once the settlement is out: the contract is live, no receive of the operator has failed or brought anything but the letter awaited, nothing is left over, and each player's enclave in a slot has shown its host all slots but its own number and acknowledged, has sent its deposit, and has sent its signature on this settlement, which was announced to it with the txid that its payout waits for. |
| `Protocol.SetupBarrier` | src/operator/trusted/players.c:74-128 | In every run, a player's enclave deposits only after the contract is announced live, and that is announced only after it acknowledged, having shown its host exactly the quotes of all slots but the one of the number it was given; unless the operator has given up the contract and a receive on that channel had failed before. |
| `Protocol.UnacknowledgedSlot` | src/common/trusted/channel.c:55-70 | In every run, where the contract is live without an acknowledgement: in at most one slot, not the last, with strangers in all slots before it, after a failed receive and with the operator having given up. With one player nowhere. |
| `Protocol.EveryCounterpartyShown` | src/player/trusted/setup.c:36-51 | In every run, what a player's host is shown includes every other slot's quote and report if and only if the report kept for its own slot is not among it or an entry was shown for every slot; that is, if and only if the number it was given is its slot's or nobody's. |
| `Protocol.HostCanTell` | src/player/trusted/setup.c:36-57 | In every run, for a host that has verified each quote it was shown against the report data shown with it: it was shown every counterparty if and only if its own enclave's report is not among them or an entry was shown for every player. |
| `Protocol.SwappedNumbers` | src/operator/trusted/mutual_attestation.c:99-108 | A run of two players whose ids are exchanged on the way: the contract goes live, and a host that refused nothing has not been shown its counterparty's quote. |
| `Protocol.SlotHoldsOwnQuote` | src/operator/trusted/mutual_attestation.c:243-267 | In every run, the slot of an enclave that holds its channel has that enclave's own quote (the exchange that brings it there is Attestation.RegistersOwnQuote), and the report the enclave attested itself with is in no other slot. |
| `Protocol.LeftoverAcknowledges` | src/common/trusted/channel.c:55-70 | For every number of players and every slot but the last, a run in which the bytes of a failed receive are read as an acknowledgement: the contract goes live, after the operator has aborted, although the player in that slot has shown nothing. |
| `Protocol.KindsAreDisjoint` | src/common/trusted/messages.h:7-33 | The operator sends odd message types and players even ones. |
| `Protocol.OwnLettersAreRefused` | src/player/trusted/setup.c:27-32 | A letter of its own that comes back to an enclave has the effect of a failed receive, wherever the operator or a player waits for one. |
| `Protocol.PayoutIsForTheSettlement` | src/player/trusted/core.c:183-327 | In every run, after its confirmation went out a player's payout key is released only on the burial of the transaction the operator announced with the signed sighash. |
| `Protocol.NeverBoth` | src/operator/trusted/entry.c:108-129 | In every run the operator's enclave never outputs both the settlement and its deposit key. |
| `Protocol.MoveKeeps` | src/operator/trusted/entry.c:34-129 | Every ECALL, message and attestation of any party keeps the invariant that ties the players to the operator. |
| `Protocol.RunKeeps` | src/operator/trusted/entry.c:34-129 | The invariant holds in every state of every run. |
| `Protocol.OperatorStepHeard` | src/operator/trusted/core.c:120-406 | Every step of the operator keeps: an acknowledgement it has counted was sent by the enclave in that slot, or was read out of the leftover of a failed receive; a signature likewise, or it is not one of the settlement; and a leftover means that the contract is given up or cannot go live any more. |
| `Protocol.PlayerStepBound` | src/player/trusted/core.c:63-286 | Every step of a player keeps its ties: acknowledgement after showing the quotes, deposit after the live notice, confirmation of the announced settlement. |
| `Liveness.HonestRunsFinish` | src/operator/trusted/players.c:74-128 | With honest parties every run has at most 11N + 4 moves, and a run nobody can prolong has ended with the settlement out, the operator FINALIZED and every player in CONFIRMED_DEPOSITS. |
| `Liveness.ContractPaysOut` | src/player/trusted/core.c:288-327 | When a run of honest parties has ended, bytes in which the announced transaction is buried deep enough get every player its payout key and an output, and no other bytes do. |
| `Liveness.NoUnexpectedMessage` | src/player/trusted/setup.c:25-85 | In every interleaving of honest parties each message is the one its receiver waits for; neither the operator nor any player aborts or crashes. |
| `Liveness.HonestPlayersSeeEveryone` | src/player/trusted/setup.c:36-51 | With honest parties every player's host is shown all counterparties' quotes, and not its own. |
| `Liveness.NothingGetsStuck` | src/operator/trusted/core.c:120-133 | Every state of an honest run that is not final has an honest move. |
| `Liveness.EveryMoveAdvances` | src/operator/trusted/core.c:354-379 | Every honest move keeps the positions of all parties consistent and strictly increases the measure. |
| `Liveness.OperatorExpects` | src/operator/trusted/core.c:120-136 | What an honest operator takes next is the acknowledgement, deposit or signature it expects, the signature being over the announced sighash. |
| `Liveness.PlayerExpects` | src/player/trusted/core.c:172-183 | What an honest player takes next is the broadcast, the live notice or the announcement it expects. |
| `Operator.SettlementExcludesRefund` | src/operator/trusted/entry.c:79-129 | For any sequence of events: at most one settlement is computed; it is released at most once and never together with the deposit key; each release of the key has a long enough chain. |
| `Operator.SettlementReleased` | src/operator/trusted/core.c:338-406 | For any state and event: a step puts the settlement out if and only if it takes the last confirmation, the library authorizes and exports, the settlement is the one kept, and the operator's signature with those taken are, as a multiset, the signatures on it of key 0 and of every deposit's key. |
| `Operator.SettlementIsFullySigned` | src/operator/trusted/core.c:338-406 | Over all event sequences: for every settlement that is out there is the confirmation that put it out, and by then the signatures on it of key 0 and of every deposit's key had been taken, each as often as the key occurs, and no others. |
| `Operator.AuthorizesExactly` | src/common/trusted/rust/zcash_ffi/src/transactions.rs:382-400 | The library's check in terms of the signatures alone: as a multiset they are those of the operator's and the deposits' keys on the settlement. |
| `Operator.ConnectMeaning` | src/operator/trusted/entry.c:34-67 | The whole ECALL, for any attestation, letters and failures: who is put into which slot, when the broadcast of all quotes with their reports goes out, and that the live notice follows if and only if every player acknowledges; nothing else changes. |
| `Operator.ClearMeaning` | src/operator/trusted/core.c:51-336 | The whole ECALL, for any letters and failures: it clears if and only if every deposit is good, the settlement is issued and all hear of it, the host takes the deposits and signing works; it crashes if and only if it gets to an empty slot; it aborts otherwise, and what is computed, announced, signed and kept is stated for each case. |
| `Operator.FinalizeMeaning` | src/operator/trusted/core.c:338-417 | The whole ECALL, for any letters and failures: the settlement goes out if and only if every confirmation is good and the signatures are exactly those of the operator's and the deposits' keys on it; the contract aborts otherwise. |
| `Operator.RefundMeaning` | src/operator/trusted/core.c:419-456 | The deposit key goes out if and only if the bytes begin with refundDelay headers with proof of work, linked from the checkpoint, the phase is not FINALIZED, and there is a wallet whose key exports. |
| `Operator.InitializedExactly` | src/operator/trusted/entry.c:69-77 | Over all event sequences: the first phase is left exactly by a successful initialization. |
| `Operator.StepKeeps` | src/operator/trusted/entry.c:34-129 | Every ECALL and every message inside one keeps the invariant of the operator's state machine. |
| `Operator.ReturnedEarly` | src/operator/trusted/core.c:308-335 | After an error inside an ECALL the messages that were still due have no effect. |
| `Operator.Enclave.EcallConnectToPlayer` | src/operator/trusted/entry.c:34-67 | The whole ECALL, with the broadcast of quotes and the wait for every acknowledgement, is the replay of its events. |
| `Operator.Enclave.CollectAcks` | src/operator/trusted/players.c:83-104 | The loop over the acknowledgements stops at the first failed or unexpected message. |
| `Operator.Enclave.EcallClearContract` | src/operator/trusted/core.c:51-336 | The whole ECALL is the replay of its events; it succeeds exactly from INITIALIZED to CLEARED_CONTRACT. |
| `Operator.Enclave.CollectDeposits` | src/operator/trusted/core.c:120-199 | The loop over the deposits: aborts on a bad message, follows a null pointer for a player who is not connected. |
| `Operator.Enclave.IssueSettlement` | src/operator/trusted/core.c:221-306 | Computing, announcing and signing the settlement; any failure withdraws it. |
| `Operator.Enclave.EcallFinalize` | src/operator/trusted/core.c:338-417 | The whole ECALL is the replay of its events; it succeeds exactly from CLEARED_CONTRACT to FINALIZED. |
| `Operator.Enclave.CollectSignatures` | src/operator/trusted/core.c:354-379 | The loop over the confirmations keeps the signatures in the order of the players. |
| `Operator.Enclave.AuthorizeSettlement` | src/operator/trusted/core.c:381-406 | The end of finalizing refines the authorization step, whose condition is Operator.AuthorizesExactly; the host's answer is ignored. |
| `Operator.Enclave.EcallRefund` | src/operator/trusted/core.c:419-456 | Refines the step function: the method returns success exactly when the key goes out; the condition is Operator.RefundMeaning. |
| `Player.ReleaseOrder` | src/player/trusted/entry.c:42-122 | For any sequence of events: deposit keys first, then at most one payout key and no key after it; at most one signature, none after a refund; at most one deposit. |
| `Player.ReleasesHaveEvidence` | src/player/trusted/core.c:288-366 | Every released key has its chain evidence, for the stored txid; with the payout key goes the stored output; the signature is over the stored sighash; a deposit follows the live notice. |
| `Player.PayoutEvidenceRefunds` | src/player/trusted/core.c:288-309 | When SETTLE_DELAY > 0 and SETTLE_DELAY + 1 >= REFUND_DELAY, whatever unlocks the payout contains a header chain that passes the refund's delay check. |
| `Player.OutputMayBeMissing` | src/player/trusted/core.c:203-232 | GOT_DEPOSITS without an output is reached exactly when the last callback failed. |
| `Player.LostOutput` | src/player/trusted/core.c:220-232 | A run from the initial state that ends in GOT_DEPOSITS without an output. |
| `Player.SettleMeaning` | src/player/trusted/entry.c:91-112 | For an idle enclave, any bytes: payout key and output go out and the phase becomes SETTLED if and only if the phase is CONFIRMED_DEPOSITS or REFUNDED, the key exports, and the stored txid is buried settleDelay deep or deeper; the enclave ends if and only if the scan meets a block whose list is empty or too large; otherwise nothing changes. |
| `Player.EvidenceIsDepth` | src/player/trusted/core.c:300-309 | The scan returns at least settleDelay if and only if the txid is buried that deep, or the delay is 0 and the scan gets through. |
| `Player.RefundMeaning` | src/player/trusted/core.c:329-366 | The deposit key goes out if and only if the bytes begin with refundDelay headers with proof of work, linked from the checkpoint, the phase is not SETTLED, and there is a wallet whose key exports. |
| `Player.OutputIsAnnounced` | src/player/trusted/core.c:183-200 | Over all event sequences: an output that is kept came with the very announcement the stored hashes came with. |
| `Player.ConnectMeaning` | src/player/trusted/setup.c:21-128 | The whole ECALL: the channel stays open if and only if the broadcast fits the number of players and was shown, the acknowledgement was sent and the live notice came; what is shown, sent and logged in each case. |
| `Player.InitializedExactly` | src/player/trusted/entry.c:42-50 | Over all event sequences: the first phase is left exactly by a successful initialization. |
| `Player.StepKeeps` | src/player/trusted/entry.c:37-122 | Every ECALL and every message inside one keeps the invariant of the player's state machine. |
| `Player.Enclave.EcallConnectToOperator` | src/player/trusted/setup.c:95-128 | The whole ECALL is the replay of its three events; a failure leaves the player unconnected. |
| `Player.Enclave.PresentQuotes` | src/player/trusted/setup.c:21-77 | Shows the quotes, then acknowledges; a failure tears the channel down. |
| `Player.Enclave.EcallDepositAndInput` | src/player/trusted/core.c:63-160 | Refines the step function: DEPOSITED exactly when the message went out, ABORTED on any error, a crash without a channel. |
| `Player.Enclave.EcallGetDeposits` | src/player/trusted/core.c:162-233 | Refines the step function: stores the hashes, shows N + 1 deposits, and drops the output when the last callback fails. |
| `Player.Enclave.EcallConfirmDeposits` | src/player/trusted/core.c:235-286 | Refines the step function: signs the stored sighash once. |
| `Player.Enclave.EcallSettle` | src/player/trusted/core.c:288-327 | Refines the step function, whose condition is Player.SettleMeaning; the call succeeds exactly when the key goes out. |
| `Player.Enclave.EcallRefund` | src/player/trusted/core.c:329-366 | Refines the step function, whose condition is Player.RefundMeaning; the call succeeds exactly when the key goes out. |
| `RecordLayer.ReceivedIsPrefix` | src/common/trusted/channel.c:36-106 | For any host and any read sizes, the bytes read before the first error are a prefix of the bytes the peer sent, as long as none of the records the reader has sealed by then has the number it stands at whenever it fetches one. |
| `RecordLayer.OwnOpensExactly` | src/common/trusted/channel.c:72-88 | At one fetch: some host makes a record of the reader's own open if and only if one it has sealed by then has the number it stands at. |
| `RecordLayer.StreamKeptExactly` | src/common/trusted/channel.c:72-91 | For reads made at given times, when records of the two ends differ in their first byte: every host gets only prefixes of the peer's stream through if and only if, for every host, the reader's own numbers are clear at every fetch. |
| `RecordLayer.ReceivedIsChain` | src/common/trusted/channel.c:36-106 | For any host, what is read is the beginning of a chain of sealed records of either end, each numbered like the bytes before it. |
| `RecordLayer.EveryChainIsReceived` | src/common/trusted/channel.c:36-106 | Conversely a host can make every such chain arrive, however it fragments the records. |
| `RecordLayer.PrefixExactly` | src/common/trusted/channel.c:36-106 | For records of any content, under a correct cipher: every host gets only prefixes through if and only if all chains are prefixes. |
| `RecordLayer.OwnRecordComesBack` | src/common/trusted/channel.c:172-177 | A record of the reader's own that is numbered like the end of the peer's first k can follow them: both directions use one key. |
| `RecordLayer.SharedSequence` | src/common/trusted/channel.c:141-152 | Two records share a sequence number exactly when every non-empty record from the first up to the second was refused by the host. |
| `RecordLayer.RefusedSendReusesNumber` | src/common/trusted/channel.c:141-150 | Two sends, the first refused, with the same number. |
| `RecordLayer.InSequenceExactly` | src/common/trusted/channel.c:121-150 | A sender's records are numbered with the bytes before them if and only if none but empty ones and the last is refused. |
| `RecordLayer.AfterRefusals` | src/common/trusted/channel.c:141-150 | Whichever sends are refused: what is received is the beginning of the payloads of sends picked in order, each of which begins, by the count of accepted bytes, where the one before ends. |
| `RecordLayer.EveryPickArrives` | src/common/trusted/channel.c:141-150 | Conversely some host makes all of any such choice arrive. |
| `RecordLayer.SequenceIsAcceptedBytes` | src/common/trusted/channel.c:149-150 | The sequence number of a record is the total length of the records accepted before it. |
| `RecordLayer.LeftoverIsRead` | src/common/trusted/channel.c:43-106 | After a record that was cut short or did not open, the next call hands out the bytes that came, undecrypted, and the number stays. |
| `RecordLayer.RecordFailures` | src/common/trusted/channel.c:58-88 | A record cut short or that does not open: which error, that the number stays, and that the bytes that came become the current record. |
| `RecordLayer.HeaderFailures` | src/common/trusted/channel.c:43-56 | A header that fails, comes in part, or for whose record there is no memory: which error, and that nothing else changes. |
| `RecordLayer.Channel.FillBuffer` | src/common/trusted/channel.c:58-70 | The fill loop reads exactly what the specification of filling reads, and stops at the same error. |
| `RecordLayer.Channel.FetchRecord` | src/common/trusted/channel.c:43-92 | Reading one record refines the specification of it, including every error. |
| `RecordLayer.Channel.EncryptedIngress` | src/common/trusted/channel.c:36-106 | The buffer, cursor and sequence number refine the abstract receiver. |
| `RecordLayer.Channel.EncryptedEgress` | src/common/trusted/channel.c:108-153 | Seals at the current sequence number, which advances only when the host takes the record whole. |
| `Messages.ReceivedMessagesArePrefix` | src/common/trusted/messages.c:45-97 | For any host, up to the first message of a type the receiver itself sends, the messages received are a prefix of those the peer sent, type and payload unchanged. |
| `Messages.OnlyPeerHeardExactly` | src/common/trusted/messages.c:52-97 | For messages awaited at given times: every host lets only the peer's messages through, in order, if and only if, whenever one is awaited after n of the peer's, no record sealed by then is numbered like the end of those n. |
| `Messages.AckComesBack` | src/player/trusted/mutual_attestation.c:223-239 | The host hands a player its own ACK back, and it is received. |
| `Messages.ReceivedMessagesWereSent` | src/common/trusted/messages.c:52-97 | For any host, every message received is one that either end has sent. |
| `Messages.ReceiveTakesRecord` | src/common/trusted/messages.c:52-97 | A successful receive takes exactly one record, numbered as expected, and leaves none behind. |
| `Messages.ReceiveFrame` | src/common/trusted/messages.c:52-97 | A fetched record with one message gives that message if and only if its type is below 9 and memory is there; otherwise its payload stays behind. |
| `Messages.EveryChainArrives` | src/common/trusted/messages.c:52-97 | Conversely a host can make the messages of every chain of records arrive that are sealed in time. |
| `Messages.FrameIsFramed` | src/common/trusted/messages.c:45-50 | What a sender puts into a record is one frame, and it holds the message. |
| `Messages.FramesAreDistinguishable` | src/common/trusted/messages.c:5-13 | Frames of the operator and of a player differ in their first byte. |
| `Messages.AllMessagesArrive` | src/common/trusted/messages.c:45-97 | However records are fragmented, if all are delivered in order every message arrives unchanged, whatever the receiver itself has sealed. |
| `Messages.IngressSpends` | src/common/trusted/messages.c:81-93 | Every turn of the payload loop yields bytes or uses up something finite: the loop terminates. |
| `Messages.Send` | src/common/trusted/messages.c:45-50 | One message becomes one record: the header and the payload. |
| `Messages.ReceiveMessage` | src/common/trusted/messages.c:52-97 | The receive function on the channel object refines the specification of it. |
| `Messages.ReceivePayloadLoop` | src/common/trusted/messages.c:79-93 | The loop that fills the payload refines the specification of it. |
| `Blocks.ChainMeaning` | src/common/trusted/rust/zcash_ffi/src/blocks.rs:174-199 | Over headers written from their fields: n is at most the result if and only if each of the first n solves Equihash over its fields, has a digest below 2^243 (2^251 on Testnet), and names the digest of the one before, the first the checkpoint. |
| `Blocks.HeaderMeaning` | src/common/trusted/rust/zcash_ffi/src/blocks.rs:34-92 | Verification of one header in terms of its fields and the power of two, and which field is the Merkle root. |
| `Blocks.EveryStreamHasHeaders` | src/common/trusted/rust/zcash_ffi/src/blocks.rs:179-182 | Every byte string is written headers and a rest shorter than one. |
| `Blocks.ParseSerialize` | src/common/trusted/rust/zcash_ffi/src/blocks.rs:122-152 | Reading what was written (header, count, ids in order) gives the same blocks, and goes on with what follows. |
| `Blocks.SerializeParse` | src/common/trusted/rust/zcash_ffi/src/blocks.rs:122-152 | Conversely every stream is the writing of the blocks read from it and a rest that cannot be read, or whose list does not fit the heap. |
| `Blocks.BurialMeaning` | src/common/trusted/rust/zcash_ffi/src/blocks.rs:122-171 | A positive result d is returned if and only if: a first block k has the txid, blocks 0..k+d are valid and linked, blocks 0..k+d-1 match their roots, and the scan stops there. |
| `Blocks.PanicMeaning` | src/common/trusted/rust/zcash_ffi/src/blocks.rs:138-170 | The enclave ends inside the call if and only if good blocks lead to a linked block that announces no transactions, or more than the heap has memory for. |
| `Blocks.BuryMonotone` | src/common/trusted/rust/zcash_ffi/src/blocks.rs:122-171 | Appending bytes never lowers the result, and never brings back an enclave that ended. |
| `Blocks.AuthorizedAndBuried` | src/common/trusted/rust/zcash_ffi/src/blocks.rs:111-172 | The stream loop computes the specification of burial, with the memory taken before a list is read. |
| `Blocks.BuryIsTally` | src/common/trusted/rust/zcash_ffi/src/blocks.rs:118-171 | The scan depends on each block only through four flags. |
| `Blocks.TallyStops` | src/common/trusted/rust/zcash_ffi/src/blocks.rs:122-171 | Where the scan stops, and what it has counted by then. |
| `Blocks.BlocksSinceCheckpoint` | src/common/trusted/rust/zcash_ffi/src/blocks.rs:174-199 | The loop over headers computes the specification of chain length. |
| `Blocks.ChainFromIsLongest` | src/common/trusted/rust/zcash_ffi/src/blocks.rs:184-198 | n is the result if and only if n whole headers are valid and linked and the next one, if any, is not. |
| `Blocks.ChainLengthMonotone` | src/common/trusted/rust/zcash_ffi/src/blocks.rs:179-198 | The result never falls when bytes are appended and is at most the length over 1487. |
| `Blocks.TipBindsChain` | src/common/trusted/rust/zcash_ffi/src/blocks.rs:86-92 | Two chains of the same length with the same tip hash are identical, or a SHA-256d collision is returned. |
| `Blocks.SettleEvidenceDominates` | src/common/trusted/rust/zcash_ffi/src/blocks.rs:111-199 | A stream with burial depth d > 0 projects to headers with chain length at least d + 1. |
| `Blocks.FilterIsComplete` | src/common/trusted/rust/zcash_ffi/src/blocks.rs:55-84 | Every header that meets the target of its nBits, for a threshold consensus allows, passes the fixed bound. |
| `Difficulty.CompactRoundsDown` | src/common/trusted/rust/zcash_ffi/src/blocks.rs:70-73 | ToTarget(ToCompact(x)) <= x for every x up to PoWLimit (sections 7.7.2 and 7.7.4 of the Zcash Protocol Specification). |
| `Merkle.TransactionsMerkleRoot` | src/common/trusted/rust/zcash_ffi/src/blocks.rs:94-109 | The layer loop computes the recursive root; None is the panic on an empty list. |
| `Merkle.RootIsTopDown` | src/common/trusted/rust/zcash_ffi/src/blocks.rs:94-109 | The layers give the root of the full binary tree of least depth, defined from the top with the last hash repeated. |
| `Merkle.RootBindsExpansion` | src/common/trusted/rust/zcash_ffi/src/blocks.rs:94-109 | At equal depth, equal roots mean equal full leaf sequences, or a collision is returned. |
| `Merkle.RootDecidesMembership` | src/common/trusted/rust/zcash_ffi/src/blocks.rs:161-170 | At equal depth, equal roots give the same verdict on every txid, or a collision is returned. |
| `Merkle.ExpansionDecidesRoot` | src/common/trusted/rust/zcash_ffi/src/blocks.rs:97-107 | Conversely, equal expansions have equal roots. |
| `Merkle.DepthIsNotBound` | src/common/trusted/rust/zcash_ffi/src/blocks.rs:94-109 | Without the depth the root does not decide: a pair and its parent have the same root. |
| `Transactions.ParseMerklePaths` | src/common/trusted/rust/zcash_ffi/src/transactions.rs:144-192 | Returns a file exactly when the buffer is the encoding of a well-formed one, and then that one. |
| `Transactions.PairNotes` | src/common/trusted/rust/zcash_ffi/src/transactions.rs:239-258 | The pairing loop over the shared iterator: each note comes with the path at the sum of earlier action counts plus its action's position; it fails exactly when some bundle has no unique note. |
| `Transactions.TakenPaths` | src/common/trusted/rust/zcash_ffi/src/transactions.rs:242-254 | What one bundle takes from the shared iterator and what becomes of it. |
| `Transactions.FlatIndex` | src/common/trusted/rust/zcash_ffi/src/transactions.rs:239-258 | A bundle's offset plus an index in it is the place of that action among the actions of all bundles. |
| `Transactions.CoveredMeaning` | src/common/trusted/rust/zcash_ffi/src/transactions.rs:242-254 | The actions of a bundle that get a path are those whose place among all actions is that of a path. |
| `Transactions.ExtractionMeaning` | src/common/trusted/rust/zcash_ffi/src/transactions.rs:194-215 | A note is extracted if and only if exactly one covered action decrypts. |
| `Transactions.NoteIsDeposit` | src/common/trusted/rust/zcash_ffi/src/transactions.rs:336-350 | With a single decrypting action the deposited amount is that note's value. |
| `Transactions.PairedNotesAreDeposits` | src/common/trusted/rust/zcash_ffi/src/transactions.rs:242-256 | With a path for every action, the value of each paired note is the deposited amount for the same key. |
| `Functionality.EvaluateFunctionality` | src/operator/trusted/functionality.c:19-90 | Exactly the winner gets the whole sum (mod 2^64) and the winner's text; everyone else nothing and the loser's text; fails exactly without randomness or memory. |
| `Functionality.MoveFlagIsEquality` | src/operator/trusted/functionality.c:69-76 | For all 32-bit numbers the shift-or fold is 1 exactly when they are equal. |
| `Functionality.ConditionalMove` | src/operator/trusted/functionality.c:8-17 | The byte-wise masked move copies or leaves the whole buffer. |
| `Functionality.MoveAll` | src/operator/trusted/functionality.c:68-80 | The loop of masked moves changes the winner's buffers and no others. |
| `Settlement.ClearAccounts` | src/operator/trusted/core.c:110-219 | Succeeds exactly when the deposit covers collateral and miner's fee, every amount covers both fees, and randomness and memory are there; then the payouts are those specified. |
| `Settlement.PayoutsMeaning` | src/operator/trusted/core.c:158-219 | Every payout in terms of the deposits, on u64: collateral deposit less miner's fee plus a fee per player to the operator, the sum of all amounts less both fees per player to the winner, nothing to the others. |
| `Settlement.DepositIsSum` | src/common/trusted/rust/zcash_ffi/src/transactions.rs:336-350 | The deposited amount is the sum of the values of all notes that decrypt, modulo 2^64. |
| `Settlement.ValueConserved` | src/operator/trusted/core.c:158-219 | Deposits exceed payouts by exactly one miner's fee per party if and only if neither u64 sum wraps. |
| `Settlement.WrapLosesValue` | src/operator/trusted/functionality.c:53-55 | Two deposits of 2^63 beyond the fee: the winner gets nothing. |
| `Settlement.PayoutsOwed` | src/operator/trusted/core.c:218-219 | Without wrap-around the operator gets at least the collateral and a fee per player, and the winner the pot. |
| `Settlement.SettlementPaysConventionalFee` | src/operator/trusted/core.c:218-232 | The value of the spent notes less the payouts is the conventional fee (section "Fee calculation" of ZIP 317), with 5000 per party and a path for every action. |
| `Layouts.SlicesOfPacked` | src/common/trusted/core_common.h:17-23 | Slicing a packed table gives the parts back, and the table tiles its data area. |
| `Layouts.PackedOfSlices` | src/common/trusted/core_common.h:17-23 | Conversely, every tiling table is the packing of its slices. |
| `Layouts.PackClearContract` | src/operator/trusted/core.c:245-274 | The packing loop builds the table of output, collateral and deposits; a copy leaves the message if and only if the size does not fit a uint32_t. |
| `Layouts.UnpackClearContract` | src/player/trusted/core.c:183-233 | For any offsets: the slicing loop saves the output and shows the deposits in order, up to the first failed callback or the first part that is not in the message. |
| `Layouts.ClearContractRoundTrip` | src/common/trusted/core_common.h:17-23 | What the operator packs is what the player slices, piece by piece. |
| `Layouts.PackQuotes` | src/operator/trusted/players.c:47-72 | The packing loop builds the table of quotes, with the report data; a copy leaves the message if and only if the size does not fit a uint32_t. |
| `Layouts.UnpackQuotes` | src/player/trusted/setup.c:33-51 | For any offsets: the loop shows every quote but the one of the player's own number; it is done exactly when all those are in the message and the host refuses none. |
| `Layouts.QuotesRoundTrip` | src/common/trusted/mutual_attestation_common.h:58-62 | An accepting player has been shown exactly the quotes and reports the operator packed, except the entry of its own number. |
| `Layouts.OthersMeaning` | src/player/trusted/setup.c:36-51 | Every entry once, but the one of the player's own number never. |
| `Layouts.OthersInOrder` | src/player/trusted/setup.c:36-51 | The entries come in the order of the players' numbers: which one is shown k-th. |
| `Layouts.CounterpartiesShownExactly` | src/player/trusted/setup.c:36-51 | For a player in slot i that skips number n: every counterparty was shown if and only if its own report was not, or nothing was skipped; if and only if n is i or nobody's. |
| `Layouts.PackDeposit` | src/player/trusted/core.c:119-143 | The four copies put the parts where the offsets say; one leaves the message if and only if the size does not fit a uint32_t. |
| `Layouts.DepositRoundTrip` | src/operator/trusted/core.c:138-198 | Amount, transaction, payout address and advice arrive unchanged. |
| `Layouts.DepositInputMeaning` | src/operator/trusted/core.c:172-180 | The input, copied from payout_address_offset, arrives if and only if it is a prefix of the payout address and the advice. |
| `Layouts.DepositInputLost` | src/operator/trusted/core.c:180 | A concrete input that does not arrive. |
| `Players.Registry.AddPlayer` | src/operator/trusted/players.c:17-23 | Fills the slot of the id and keeps the counter equal to the number of filled slots. |
| `Players.Registry.AllPlayersConnected` | src/operator/trusted/players.c:25-28 | True exactly when no slot is empty. |
| `Players.Registry.PresentQuotes` | src/operator/trusted/players.c:30-72 | With everyone connected no empty slot is met; the broadcast holds all quotes and reports in order, unless the host refuses one, memory is short or the size does not fit a uint32_t. |
| `Players.FilledMeaning` | src/operator/trusted/players.c:25-28 | The count equals N exactly when every slot is filled. |
| `Attestation.HandshakeAgrees` | src/common/trusted/mutual_attestation_common.h:24-39 | Undisturbed, both sides derive the same session key, and each expects the report the other makes. |
| `Attestation.KeyBinds` | src/common/trusted/mutual_attestation_common.c:23-53 | Equal session keys mean equal shares and an equal shared secret, or a collision of one of the two CMACs, named by its keys and texts. |
| `Attestation.IdIsNotCovered` | src/common/trusted/mutual_attestation_common.c:11-18 | With another id in the SYN on arrival, key and both reports are the same. |
| `Attestation.NonceIsNotCovered` | src/common/trusted/mutual_attestation_common.c:11-18 | With another nonce in the SYN/ACK on arrival, the session key is the same, and the player attests itself with that nonce. |
| `Attestation.RegistersOwnQuote` | src/operator/trusted/mutual_attestation.c:223-267 | Whatever the host does with the three messages: if the operator registers a player on records of an enclave, it holds that enclave's session key and the very quote the enclave sent. Both shares arrived as they were sent and both ends have the same shared secret, or one of the two CMACs of the key derivation collides; and then the report the operator keeps is the enclave's own if and only if the nonce arrived as it was sent, or SHA-256 collides on the two transcripts. |
| `Attestation.AckIsOwn` | src/operator/trusted/mutual_attestation.c:223-241 | The operator has sealed nothing when it waits for the ACK: what it receives, for any host, is the first message of the enclave whose records open under its key. |
| `Attestation.UndisturbedExchange` | src/common/trusted/mutual_attestation_common.h:24-39 | An undisturbed exchange completes, and registers the player under its id with its quote and its own report. |
| `Attestation.OperatorIsTimely` | src/operator/trusted/players.c:74-113 | Up to the deposit, the operator is never in reach of a record of its own: it meets the exact condition of Messages.OnlyPeerHeardExactly. |
| `Attestation.QuotedReportFixesSession` | src/common/trusted/mutual_attestation_common.c:6-21 | Whatever happened to the plaintext messages: when the operator's report is the one the player expects, both have the same session key, or SHA-256 collides. |
| `Attestation.PlayerReportFixesSession` | src/common/trusted/mutual_attestation_common.c:6-21 | The same for the player's report. |
| `Attestation.ReportBinds` | src/common/trusted/mutual_attestation_common.c:11-18 | Equal report data fixes nonce and both shares, or SHA-256 collides. |
| `Attestation.StaleQuote` | src/operator/trusted/mutual_attestation.c:178-193 | A quote stashed earlier matters exactly when the host claims success without handing back a new one. |
| `Attestation.QuoteStash.QuoteMeCallback` | src/operator/trusted/mutual_attestation.c:13-34 | The last quote handed back is the stashed one; a failed allocation loses it. |
| `Attestation.QuoteStash.QuoteMe` | src/operator/trusted/mutual_attestation.c:178-193 | The quote used after the OCALL, for any number of callbacks. |
| `Attestation.RegistrationExactly` | src/operator/trusted/mutual_attestation.c:66-267 | When a player is registered, field by field of the SYN and the ACK, and with which id, quote and report data. |
| `Attestation.AckExactly` | src/player/trusted/mutual_attestation.c:120-259 | When the player's ACK goes out, field by field of the SYN/ACK, and which report data it expects and gives. |
| `Attestation.OperatorAttestation` | src/operator/trusted/mutual_attestation.c:36-273 | The operator's steps: what is sent, which player comes out, what stays stashed, for any messages and failures. |
| `Attestation.PlayerAttestation` | src/player/trusted/mutual_attestation.c:36-259 | The player's steps, for any messages and failures before the SYN, between the SYN/ACK and the request for a quote, and after. |
| `Attestation.OperatorEntry.ConnectToPlayer` | src/operator/trusted/entry.c:34-67 | One attempt, successful or not, keeps the registry invariant and fills at most the slot of the attested id. |

## Left out

- Cryptography and foreign crates (AES-GCM, ECDH, CMAC, Equihash, Halo2, the Orchard builder, redpallas): parameters or ideal objects, as described above. The Orchard builder's own balance check is not modelled.
- Sockets, OCALL bodies, shell, quoting and the quote checkers: their answers are parameters. Report generation and the random choices of keys and nonces are parameters as well.
- Wallets, addresses, memo, printing, digests: thin wrappers. A key release is recorded by the evidence it was asked with, the payout key with the output that goes with it.
- The plaintext mode of a channel, in which `auntie_msg_receive` never returns when the peer's end is closed (`src/common/trusted/messages.c:82-93`): termination is proved for the encrypted channel.
- After an error inside `encrypted_ingress` the channel object keeps the buffer as the code does; after a failed decryption, which is in place, it keeps the ciphertext, whereas the library may leave anything (`src/common/trusted/channel.c:73-88`); statements on streams and messages end at the first error, and in `Protocol` such a receive leaves letters of the host's choice.
- What a failed receive leaves, on its own or completed by records opened later, holds no signature of a settlement computed afterwards: its sighash is randomized, and after a failed receive the operator has given up or the contract never goes live, so that no enclave signs. No two report data in the operator's slots are equal, nor is one that of a connected enclave which sits elsewhere, since each hashes a nonce or a share freshly drawn. `Protocol` assumes this of its runs, and that the quote a genuine enclave is registered with is its own, which is `Attestation.RegistersOwnQuote`.
- The host's `ocall_ingress` never returns more bytes than it was asked for, which the EDL buffer size bounds but the C code does not check.
- What `ocall_egress` takes of a record it refuses is not part of the channel's outgoing bytes.
- Sequence numbers wrap at 2^64 in the channel object; statements on whole streams are for fewer bytes.
- Memory is counted only for the list of transactions of a block; elsewhere any allocation may fail, and release of memory on error paths (with the double free after a failed allocation in `evaluate_functionality`) is not modelled, nor is the null dereference when the player's SYN cannot be allocated (`src/player/trusted/mutual_attestation.c:94-99`).
- A copy that leaves its message is an outcome of its own; what it reads or overwrites is not modelled. The header fields of a payload are a record, not bytes, so a payload shorter than its header does not occur. In `Player` and `Protocol` a broadcast and an announcement are their parts.
- The block counters are i32 in the source and unbounded here; a stream that overflows them exceeds 3 * 10^12 bytes.
- In `Protocol` the deposit letter carries only whose key it goes with: the amounts, transactions and paths are in `Settlement`, `Transactions` and `Layouts`, and whether they are accepted is a flag.
- In `Protocol` a broadcast is one step that reaches the first few players; the players' interleaving with the single sends is not visible, as the operator reads nothing in between.
- RecordLayer.ReceivedIsPrefix: the peer's records have to be in sequence, which `RecordLayer.InSequenceExactly` characterizes for fewer than 2^64 bytes; nothing is said beyond the first error.
- Protocol.SetupBarrier: says nothing about what a player with a failed receive on its channel has shown once the operator has given up; `Protocol.LeftoverAcknowledges` shows why.
- Protocol.SlotHoldsOwnQuote: does not say that the slot holds the report the enclave attested itself with; that is false when the nonce was changed on the way.
- Messages.AllMessagesArrive: the host delivers every record in order and allocations succeed; without that `Messages.ReceivedMessagesArePrefix` holds.
- Players.Registry.PresentQuotes: sending the broadcast is in `Operator`.
- Merkle.RootBindsExpansion: for lists of the same depth only; `Merkle.DepthIsNotBound` shows why.
- Liveness.HonestRunsFinish: a host calls each ECALL only after the calls before it have succeeded; hosts that call too early are covered by the safety statements.
- In `Liveness` nobody asks for a refund or settles, since that ends the exchange; both are covered by the safety statements, and `Liveness.ContractPaysOut` says what settling brings then.
- Randomness, side channels and timing: only the values of the branch-free code are modelled.
