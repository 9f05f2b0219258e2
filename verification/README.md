# computermoney: verification model

A Dafny model of the money-deciding core of `cm`, the self-custodial Bitcoin
wallet for agents: the append-only ledger and the crash-safe send path, the
silent-payment mathematics from sender to scanner to spender, the interruptible
block scanner, coin selection, the daily spend cap and the message framing.

`dafny verify dfyconfig.toml` checks everything.

## How the pieces fit

* `Log.dfy` holds the log entries and every view the ledger folds from them;
  `View.dfy` shows that a small table, updated once per append, answers the same
  queries.
* `World.dfy` names the effects an operation has on the disk and the network. An
  operation is a sequence of effects and a crash keeps a prefix of it.
  `Ledger.dfy` is the ledger object; it carries a ghost record (`trace`, `world`)
  of the effects that have happened.
* `Reconcile.dfy`, `Pay.dfy`, `Session.dfy` and `Scan.dfy` hold the imperative
  operations. Each method is proved to leave exactly the effects of a function
  (`PassEffects`, `SendEffects`, `SessionEffects`, `PageEffects`, `SpendAll`), also
  when it ends early.
* `Invariant.dfy`, `Machine.dfy` and `Histories.dfy` run the same functions in a
  crash machine: operations start, effects happen one at a time, the process
  crashes and restarts anywhere, blocks come and go, the outside answers
  differently each time. The theorems in `Histories.dfy` are about every state of
  every such history. `Convergence.dfy` says what repeated, interrupted reconcile
  passes reach.
* `Curve.dfy` and `SilentPayments.dfy` model secp256k1 by discrete logarithms
  modulo an arbitrary n > 2, with parity as any predicate that flips under
  negation and hashes as arbitrary functions. `Scan.dfy`, `ScanRuns.dfy`,
  `Hex.dfy` and `Signing.dfy` carry a payment from the block to the key that
  spends it.
* `Coins.dfy`, `Policy.dfy` and `Protocol.dfy` are coin selection, the payment
  gates and the framed message stream.
* `Witnesses.dfy` holds inputs on which the program does not do what its description
  says.

## Premises

* One ledger view at a time, reopened after a crash; an append, a sidecar write
  and a checkpoint write either happen or do not.
* A transaction that is built is not on the books yet (the send path does not
  check this), and every send passed the daily gate at a check time not later
  than its stamp.
* A hard rejection means that the transaction never confirms from then on; nobody
  else can publish a transaction that was signed here and never handed out. Both
  are conditions on the outside (`Histories.Answers`), which is otherwise free to
  answer differently every time, and the chain may reorganise at any moment.
* Money sums stay in range (the source adds in 64 bits).
* The block at a height does not change during a scan, and a transaction id names
  one transaction. Blocks and deposit lists come from the chain source and carry the
  chain's values (`Machine.OnChain`, `Machine.Truthful`).

## Where the code differs from its own description

* Final is called terminal, but it is not: booking one more output of a final
  transaction sets it back to Pending, and its other outputs stop being spendable
  until a later pass. Over whole histories that is the only way to leave it: a
  transaction stays final exactly as long as no further output of it is booked
  (`Histories.FinalUntilLateOutput`); `Histories.FinalIsNotTerminal` gives an instance.
  Failed is terminal (`Histories.FailedIsTerminal`).
* A transaction that pays two issued addresses is booked once
  (`Histories.SecondDepositIsDropped`). Nothing is credited twice or at another
  amount than the chain's, but not everything is credited.
* A sidecar is said to go once its payment has settled. One whose payment settled
  just before a crash is never removed: `Convergence.PassKeepsSidecars` says
  exactly which sidecars a pass leaves, and `Witnesses.CrashLeavesSidecarForGood` is
  such a crash.
* An interrupted scan is said to be retried, never skipped. That needs a
  checkpoint: without one the start moves with the tip.
  `ScanRuns.WithoutCheckpointOldBlocksAreSkipped` says what is booked after any cut
  passes, `ScanRuns.NothingSkippedUnlessStartRises` that nothing is lost unless the tip
  rose above that of a cut pass and above 144, and `Witnesses.RisingStartSkips` gives, for
  every two such tips, a payment that is lost for good.
* One failed derivation makes the receive check forget what it had found.
  `Scan.OwnerFindsPayment` holds exactly when no partial key sum is zero and no rank
  that the loop gets to fails; `Witnesses.FailedRankForgetsPayment` is a payment that is
  forgotten.
* The hex reader accepts upper case and a plus sign, so it is not the inverse of
  the writer on all strings (`Hex.ReadBackIsCanonical`).

## Model

| member | source | states |
|---|---|---|
| Log.FromConfirmations | src/ledger.rs:44-55 | pending below one confirmation, final exactly from three on, and a count never means Failed |
| Log.PendingIsTheWorkQueue | src/ledger.rs:502-525 | the work queue holds exactly the booked transactions that are neither final nor failed, each once |
| Log.FirstsInOrder | src/ledger.rs:502-525 | the work queue is drawn from the booked transactions in the order of their first mention |
| Log.TotalIsSumOfListed | src/ledger.rs:398-457 | the silent-payment balance is the sum of the spendable outputs, and the incoming amount that of the others |
| Log.Balance | src/ledger.rs:478-500 | the balance is the unsaturated one, or nothing if that is negative |
| Log.IssuedBelowNext | src/ledger.rs:227-239 | the next receive index is the first above every index ever issued, and zero if none was |
| Log.LatestIsLastStamp | src/ledger.rs:459-476 | the effective status is that of the last entry naming the transaction |
| Log.ListedExactly | src/ledger.rs:394-457 | listed are exactly the booked outputs that are unspent and final, or unspent and not final |
| LedgerStore.Load | src/ledger.rs:168-201 | reading the file succeeds exactly if every line that is not blank is a record with an accepted signature, and yields their entries in order |
| LedgerStore.Reopen | src/ledger.rs:160-201 | a restart rebuilds from the disk alone a ledger with exactly the entries that were appended, and succeeds if the key accepts its own signatures |
| LedgerStore.Ledger.Append | src/ledger.rs:203-220 | the entry is durable, signed and last, and nothing else changes |
| LedgerStore.Ledger.WriteSidecar | src/ledger.rs:565-579 | the signed bytes replace whatever sidecar there was |
| LedgerStore.Ledger.RemoveSidecar | src/ledger.rs:590-599 | the sidecar is gone afterwards; removing an absent one is fine |
| LedgerStore.Ledger.UpdateStatus | src/ledger.rs:540-544 | exactly one status update is appended |
| LedgerStore.Ledger.RecordReceived | src/ledger.rs:316-335 | books a pending receipt exactly if the transaction is not on the books |
| LedgerStore.Ledger.RecordSpReceived | src/ledger.rs:337-362 | books a pending output exactly if its outpoint is not booked |
| LedgerStore.Ledger.RecordSpSpent | src/ledger.rs:364-375 | marks an outpoint spent once; a second call does nothing |
| LedgerStore.Ledger.LatestStatusOf | src/ledger.rs:459-476 | the loop finds the status of the last entry that names the transaction |
| LedgerStore.Ledger.ComputeBalance | src/ledger.rs:478-500 | the loop computes final receipts minus sends that did not fail, floored at zero |
| LedgerStore.Ledger.ComputePending | src/ledger.rs:502-525 | the loop computes the work queue in order of first mention |
| View.LogRefinesTable | src/ledger.rs:398-538 | a table updated once per append answers status, balance, work queue, spendable and incoming outputs, spend window and spent marks for every log |
| View.BalanceIsSumOfParts | src/ledger.rs:478-500 | the unsaturated balance is the sum over the booked transactions, each once, of what it received if final less what it sent unless failed |
| View.ReceiptCountsWhenFinal | src/ledger.rs:478-500 | a new receipt is worth nothing while pending and its amount once final |
| View.StatusUpdateMovesOwnPart | src/ledger.rs:478-500 | a status update moves the unsaturated balance by exactly what that transaction's own entries are worth and touches no other status |
| World.RunExtendsLog | src/ledger.rs:203-220 | whatever effects happen, the old log is a prefix of the new one |
| Reconcile.ReconcilePass | src/ledger.rs:646-709 | a pass leaves exactly the effects of the pass function, a prefix of them if the chain source fails, and returns the number of entries appended |
| Reconcile.ReconcileOne | src/ledger.rs:652-685 | what one in-flight transaction goes through: query, rebroadcast, failing or advancing, sidecar removal |
| Reconcile.RecoverPending | src/ledger.rs:654-676 | an unconfirmed payment is handed out again from its sidecar and failed exactly on a hard rejection |
| Reconcile.SweepOrphans | src/ledger.rs:687-706 | removes exactly the listed sidecars without a Sent entry |
| Reconcile.PassWithinIsPrefix | src/ledger.rs:650-653 | an early end leaves a prefix of the whole pass |
| Convergence.PassReachesTargets | src/ledger.rs:650-685 | a complete pass takes every in-flight transaction to Failed or to its confirmation status and changes no other; every prefix of it heads the same way |
| Convergence.SecondPassAppendsNothing | src/ledger.rs:650-685 | a second pass against the same answers appends nothing |
| Convergence.AppendsGrowTheLog | src/ledger.rs:650-651 | the returned count is the growth of the log |
| Convergence.InterruptedPassesConverge | src/ledger.rs:7-10 | any number of passes cut anywhere, then a complete one, reach the statuses of one complete pass |
| Convergence.PassKeepsSidecars | src/ledger.rs:663-706 | exactly which sidecars survive a pass, with unchanged bytes; none without a Sent entry |
| Convergence.SettledSidecarStays | src/ledger.rs:652-685 | the sidecar of a settled payment outlives all later passes, whatever they are told and wherever they are cut |
| Convergence.PassRebroadcasts | src/ledger.rs:654-666 | exactly the unconfirmed payments in flight that have a sidecar are handed out again, byte for byte |
| PolicyGate.CheckAmount | src/policy.rs:117-131 | passes exactly below both caps, and otherwise names the cap that is exceeded, the payment cap first |
| PolicyGate.CheckAddress | src/policy.rs:133-139 | refuses exactly the blocked addresses |
| PolicyGate.EnsureMainnetCapped | src/policy.rs:84-104 | mainnet needs a spend cap and a fee cap, other networks nothing; says which is missing |
| PolicyGate.CheckedSendKeepsCap | src/policy.rs:119-131 | a send that passes the daily gate at a check time not later than its stamp keeps the log capped |
| PolicyGate.SpentSinceIsWindow | src/ledger.rs:527-538 | the window fold counts exactly the sends from the cutoff on |
| PolicyGate.WindowNeverExceedsCap | src/policy.rs:23-35 | in a capped log no closed window of 86,400 seconds holds more than the cap, whatever the clock did between sends |
| Pay.SendIsRecorded | src/pay.rs:44-64 | a send keeps the signed bytes, records its amount, recipient and time, hands the bytes out once and marks what it consumed, in that order; a new transaction's amount leaves the balance and enters every spend window that holds its time, whatever the network answers |
| Pay.RecordAndBroadcast | src/pay.rs:44-64 | sidecar, then Sent entry with the amount paid, then broadcast, then spent marks; nothing after a failed broadcast; the payment is debited |
| Pay.Send | src/pay.rs:33-65 | a failed build leaves no effect, a built payment is recorded, debited and handed out |
| Pay.SpSend | src/pay.rs:78-129 | amounts under 330 sats, bad codes and blocked derived addresses leave no effect; otherwise the payment is recorded, debited and handed out; success leaves no spendable output |
| Pay.SendSpendingSp | src/pay.rs:137-170 | the payment is recorded, debited and handed out; when the broadcast is taken exactly the spendable outputs are marked spent |
| Pay.SendSpendsEverything | src/pay.rs:123-128 | a completed send marks exactly the listed outputs, and leaves none spendable |
| Pay.SpendsFilterUtxos | src/ledger.rs:377-386 | marking outpoints leaves exactly the listed outputs that were not marked, in order |
| Session.Receiver.Handle | src/protocol.rs:73-87 | a fresh index per address request, none consumed when the derivation fails, no reply otherwise |
| Session.RunReceiver | src/net.rs:23-97 | the session leaves exactly the effects of the session function for any messages, also when the wire fails, and says whether it ended by an error |
| Session.IssueAddress | src/net.rs:43-48 | the issuance is durable before the address is sent, also when the wire does not take it |
| Session.SessionSendsAddresses | src/net.rs:37-48 | a session sends one address for each request before the first notification, under consecutive indices |
| Session.EndsWellExactly | src/net.rs:37-96 | a session ends without an error exactly if every request before the first notification was answered and there is one, or the peer just went away |
| Session.NotifiedDepositIsBooked | src/net.rs:50-91 | a notified deposit that the chain lists for the last address sent is on the books afterwards: unchanged, or as the one new receipt, with the chain's first amount, that address's index and, if the chain source answers, the status of its confirmations |
| Session.AnswerNotify | src/net.rs:50-91 | a notification books what the chain lists for the issued address, or nothing |
| Session.SessionBooksChainAmounts | src/net.rs:51-65 | every receipt a session books is listed by the chain for that address at that amount; every address sent is the wallet's |
| Session.ClaimsHaveNoInfluence | src/net.rs:23-26 | no amount a peer claims changes anything a session does |
| Session.RunPayer | src/net.rs:99-134 | amount gate, address request, address gate, recorded send, notification, in that order; a refused payment has no effect |
| Invariant.KeepAppend | src/ledger.rs:57-87 | every admissible entry keeps the whole invariant |
| Invariant.CreditIsChainAmount | src/ledger.rs:264-280 | a transaction is credited nothing or what the chain pays one of its indices |
| Invariant.ListedOnceAtChainValue | src/ledger.rs:435-457 | no outpoint is listed twice and each is worth what the chain says |
| Machine.SendSafe | src/pay.rs:7-11 | a send can be cut after any step without breaking the invariant |
| Machine.ReconcileSafe | src/ledger.rs:646-709 | so can a reconcile pass that gets any number of answers |
| Machine.SessionSafe | src/net.rs:27-97 | so can a receive session, whatever the peer sends; addresses are durable before they are sent |
| Machine.PaymentsAreOnChain | src/scan.rs:101-111 | what the scanner books from a page of the chain are outputs of its transactions at the chain's values |
| Machine.PageSafe | src/scan.rs:101-111 | so can the booking of a page |
| Machine.PlanSafe | src/pay.rs:7-11 | every operation that is allowed can be started, carried out and cut anywhere |
| Histories.EveryStateIsSound | src/pay.rs:44-64 | in every state of every history: broadcasts are backed by Sent entries, unconfirmed sends keep their signed bytes, nothing in the chain is failed, amounts are the chain's, indices are never reused, the daily cap holds |
| Histories.EveryStepIsAllowed | src/pay.rs:44-64 | every broadcast in every history is of a durable, unfailed send with exactly the signed bytes; every address goes out once and after its issuance is durable |
| Histories.CrashLosesNoPayment | src/pay.rs:7-10 | after any crash a recorded, unconfirmed send is handed out again as signed by the next complete pass |
| Histories.FailedIsTerminal | src/ledger.rs:48-54 | a failed transaction stays failed, out of the chain, off the queue, is never handed out again and never gets another entry |
| Histories.FailingUndebitsTheSend | src/ledger.rs:666-673 | failing raises the unsaturated balance by exactly what was sent, at most once in a history |
| Histories.SpentStaysSpent | src/ledger.rs:368-375 | a spent outpoint is never spendable again in any later state |
| Histories.HistoryExtendsLog | src/ledger.rs:1-10 | no crash shortens the log or takes back an address that was sent |
| Histories.NothingIsOverCredited | src/ledger.rs:264-280 | in every state spendable outputs are distinct and at chain value, and credits are at chain amounts |
| Histories.FinalIsLeftByLateOutput | src/ledger.rs:459-476 | a step takes a transaction off Final exactly if it books one more output of it, at a new outpoint |
| Histories.FinalUntilLateOutput | src/ledger.rs:515-519 | a transaction stays final exactly as long as no further output of it is booked |
| Histories.LateOutputResetsStatus | src/ledger.rs:459-476 | booking one more output keeps the status exactly if it is already booked or the transaction is pending |
| Histories.FinalIsNotTerminal | src/ledger.rs:515-519 | an instance in which a final transaction becomes pending and its output unspendable |
| Histories.SecondDepositIsDropped | src/ledger.rs:322-325 | a second deposit of one transaction is never booked |
| Protocol.FrameLayout | src/protocol.rs:31-40 | a frame is the body's length, highest byte first, and the body |
| Protocol.FrameRoundTrip | src/protocol.rs:31-56 | a frame decodes to its message, whatever follows, exactly if the body is shorter than 2^32 bytes |
| Protocol.PartialFrame | src/protocol.rs:42-53 | every strict prefix of a frame asks for more |
| Protocol.TrailingBytes | src/protocol.rs:42-56 | a decoded frame is unaffected by what follows |
| Protocol.StreamRoundTrip | src/protocol.rs:8-10 | decoding a stream of frames gives back the messages in order |
| Protocol.Wire.Recv | src/net.rs:164-177 | the next message and the rest of the stream, however it was cut into chunks |
| Protocol.Wire.Drain | src/net.rs:37-37 | receiving until the peer is gone gives the messages of the whole stream |
| Curve.TaprootInputKeyIsLift | src/sp.rs:99-110 | the normalised key has even Y and is the lift of the key's own x coordinate |
| Curve.NumConcat | src/sp.rs:155-161 | byte strings are read as numbers with the leftmost byte weighing most |
| Curve.SharedSecretAgrees | src/sp.rs:133-135 | sender's and receiver's products name the same point |
| SilentPayments.LexLessAtFirstDifference | src/sp.rs:112-119 | less is smaller at the first difference, or a proper prefix |
| SilentPayments.SerLayout | src/sp.rs:112-119 | an outpoint serialises to the transaction id and the index, lowest byte first |
| SilentPayments.SmallestIsLeast | src/sp.rs:112-119 | the chosen outpoint is one of them and none serialises to less |
| SilentPayments.SmallestIgnoresOrder | src/sp.rs:112-119 | its serialisation does not depend on their order |
| SilentPayments.SumKeysSucceeds | src/sp.rs:167-171 | the key sum exists exactly if there is a key and no partial sum is zero |
| SilentPayments.SumKeysIgnoresOrder | src/sp.rs:167-171 | the key sum does not depend on the order of the inputs, when it exists for both |
| SilentPayments.SenderContext | src/sp.rs:165-176 | the loop computes the key sum and the input hash, or fails at a zero intermediate sum |
| SilentPayments.EcdhCommutes | src/sp.rs:133-193 | the product and its failure do not depend on whose key meets the hash first |
| SilentPayments.EcdhAgrees | src/sp.rs:132-193 | sender and receiver reach the same shared point, or both fail, for every order of the inputs in which no partial key sum is zero |
| SilentPayments.SendAddressValue | src/sp.rs:125-139 | the address is the x-only key of the spend key plus the hash of the shared point and rank 0; the shared point is the input hash times the key sum times the scan key, the input hash that of the least outpoint and the key sum; it fails exactly when a step is zero or out of range |
| SilentPayments.RankValue | src/sp.rs:213-228 | the receiver derives the same at every rank, from the public key sum and its scan key |
| SilentPayments.FoundAtRankValue | src/sp.rs:195-209 | the tweak found at rank k is the hash of the shared point and k, and the output pays the spend key plus that tweak |
| SilentPayments.ReceiveLoop | src/sp.rs:195-209 | the loop computes the greedy matching and what it leaves over, and terminates |
| SilentPayments.GreedyFails | src/sp.rs:198-199 | the loop fails exactly if some rank fails to derive whose predecessors' keys all occur in the outputs |
| SilentPayments.GreedyIsMaximal | src/sp.rs:195-209 | the run found is contained in the outputs as a multiset, and no longer one is |
| SilentPayments.GreedyFindsOutputs | src/sp.rs:199-204 | every match is an output paying its rank's key with its rank's tweak, none twice |
| SilentPayments.GreedyPartitions | src/sp.rs:195-209 | what is found and what the loop leaves over are a permutation of the outputs, and nothing left over pays the key it stopped at |
| SilentPayments.GreedyIgnoresOrder | src/sp.rs:141-145 | failure, number found and tweaks do not depend on the order of the outputs |
| SilentPayments.FoundIsSpendable | src/sp.rs:155-161 | spend key plus tweak has the x-only key of the matched output |
| Scan.OwnerFindsPayment | src/scan.rs:165-198 | for every mix of Taproot key-path and P2WPKH inputs and every order of inputs and outputs the owner finds the first output paying the derived address, with its value and a spending tweak, exactly if no partial key sum is zero and no rank the loop gets to fails |
| Scan.PubkeyIsExact | src/scan.rs:203-235 | exactly which key an input contributes: the output key of a Taproot spend with one witness item and perhaps an annex, the last witness item's key of a P2WPKH spend, and none otherwise |
| Scan.InputsRecovered | src/scan.rs:200-235 | Taproot key-path and P2WPKH inputs, mixed, give back the sender's keys and outpoints in order |
| Scan.OthersContributeNothing | src/scan.rs:203-235 | coinbase inputs, script-path spends and other scripts contribute no key, whatever stands around them |
| Scan.PrevsAreOfAllInputs | src/scan.rs:176-182 | the outpoints are those of all inputs, eligible or not |
| Scan.NothingToMatch | src/scan.rs:168-175 | a transaction with a coinbase input or without an eligible one is never matched |
| Scan.MatchValue | src/scan.rs:168-198 | the tweak and output of every match, from the sum of the input keys and the least of all outpoints |
| Scan.OutputsInOrder | src/scan.rs:187-192 | exactly the Taproot outputs with their positions and values, in order |
| Scan.BookFormSplits | src/scan.rs:102-109 | every match of at least 330 sats is booked, in order, with its tweak in hex, and no other |
| Scan.BookedIsOutput | src/scan.rs:102-107 | what is booked for a transaction carries its id and the position and value of one of its outputs |
| Scan.ScanBlock | src/scan.rs:92-116 | pages are fetched and booked until a short or empty one; a failure leaves whole pages |
| Scan.PagesCoverBlock | src/scan.rs:93-116 | the pages hold every transaction of the block once and in order, for every block size; all but the last hold 25 |
| Scan.Scanner.ScanToTip | src/scan.rs:69-123 | the checkpoint moves to the tip only after every block up to it was walked and otherwise stays; what was booked belongs to walked pages; a complete pass leaves exactly the outputs the chain reports unspent; every outcome is a cut or a full pass of the run model |
| Scan.PagesPrefix | src/scan.rs:69-73 | pages that were walked leave a prefix of the effects of all pages |
| Scan.Scanner.AnchorBirth | src/scan.rs:136-161 | an existing checkpoint is never overwritten |
| Scan.StillUnspentSplits | src/scan.rs:251-259 | an output stays on the list, in its place, exactly if it is not reported spent |
| Scan.TrackSpends | src/scan.rs:248-259 | a complete round leaves exactly the previously listed outputs that the chain reports unspent |
| ScanRuns.PassesStayConsistent | src/scan.rs:69-73 | after any passes cut anywhere, with tips that rise and fall, everything between the lowest and the current checkpoint is booked and nothing else above it but payments up to the highest tip |
| ScanRuns.InterruptedScanEqualsOneScan | src/scan.rs:69-123 | after a complete pass to the highest tip, the booked outputs are exactly the payments above the lowest checkpoint, each outpoint once |
| ScanRuns.EveryMatchIsBooked | src/scan.rs:69-123 | whatever is matched above the starting checkpoint and worth at least 330 sats is booked once after any interrupted passes and a complete one |
| ScanRuns.PaymentIsBooked | src/scan.rs:69-123 | end to end: a payment to the derived address is booked once at its place and value, with a tweak that makes the spend key its key |
| ScanRuns.ScannerIsUnambiguous | src/scan.rs:102-107 | what is booked for a transaction carries its id and none of its outputs twice |
| ScanRuns.WithoutCheckpointOldBlocksAreSkipped | src/scan.rs:84-87 | without a checkpoint, after any cut passes, the first complete one adds exactly its own window, the tip and the 144 blocks before it, to what they had booked |
| ScanRuns.NothingSkippedUnlessStartRises | src/scan.rs:84-87 | nothing is lost of what a cut pass would have walked unless the tip rose above that pass's and above 144 |
| ScanRuns.SkippedForGood | src/scan.rs:84-87 | what the checkpoint has passed unbooked is never booked, unless a complete pass sees a tip below it |
| Witnesses.CrashLeavesSidecarForGood | src/ledger.rs:676-684 | a crash between the final status and the removal leaves the sidecar through all later passes |
| Witnesses.FailedRankForgetsPayment | src/sp.rs:199-199 | a payment that is found alone and forgotten beside another Taproot output |
| Witnesses.RisingStartSkips | src/scan.rs:84-87 | for any two tips that rise above 144, a payment that one pass books and an interrupted one loses for good |
| Hex.HexLayout | src/scan.rs:339-346 | each byte becomes its two lower-case digits, high half first |
| Hex.DigitsRead | src/chain.rs:431-442 | the reader takes exactly the digits of both cases |
| Hex.PairReads | src/chain.rs:431-442 | a pair reads as a byte, high digit first, or as a plus sign and a digit |
| Hex.WriteHex | src/scan.rs:339-346 | the loop writes two lower-case digits per byte |
| Hex.DecodeHex32 | src/chain.rs:431-442 | succeeds exactly on 64 characters whose pairs all parse |
| Hex.HexRoundTrip | src/scan.rs:339-346 | what was written is read back |
| Hex.ReadBackIsCanonical | src/chain.rs:431-442 | reading and writing back is the identity exactly on lower-case hex |
| Signing.BookedIsSpendable | src/scan.rs:102-107 | every booked output's tweak survives the ledger and gives the key of that very output, at its value |
| Signing.AssembleInputs | src/chain.rs:148-158 | outputs become inputs with their own tweaks and even-Y keys, and their values add up, exactly if all are spendable |
| Signing.Psbt.FinalizeMixed | src/chain.rs:310-353 | every input gets exactly one signature: the wallet's own for a descriptor input, one under the spend key plus its own tweak for a silent-payment input; exactly when it succeeds |
| Signing.SpInputSignedByOwnKey | src/chain.rs:329-342 | an input spending a booked output is signed by the key that output pays |
| Coins.SortedSorts | src/chain.rs:395-395 | sorting keeps every coin and puts the values in descending order |
| Coins.PrefixIsWorthMost | src/chain.rs:381-387 | any choice of coins is worth at most the equally long prefix of the sorted list |
| Coins.SelectLargestFirst | src/chain.rs:388-414 | the selection covers its own target, no smaller choice does, and None is returned exactly if no choice of any size does |
| Coins.EstimateIsTight | src/chain.rs:396-400 | below 253 inputs the estimate exceeds the real size with two outputs by half a vbyte per input, rounded up |
| Coins.CoversExactly | src/chain.rs:396-400 | below 253 inputs a selection covers exactly if it pays the recipient, every real vbyte and that excess |
| Coins.CoveringSelectionIsSolvent | src/chain.rs:396-400 | a covering selection pays the recipient and the fee rate for every real vbyte of up to two outputs |

## Left out

* Elliptic-curve, SHA-256, Schnorr and AEAD internals, bech32m and JSON: the group
  is algebraic, hashes and codecs are parameters.
* bdk wallet sync, its coin selection and PSBT construction, the esplora client, the
  DHT and the WireGuard tunnel: their answers are parameters.
* The fee cap, which is checked while a transaction is built, and the derivation of
  descriptor keys; a build is a parameter that yields signed bytes or fails.
* Error-string classification of rejections: the verdict is a parameter.
* `serve`, `mcp`, `main`, `paywall` and `fetch`: plumbing around the modelled
  operations; `collections` and `issued_unpaid`: read-only views of the log.
* Several processes on one ledger, stale in-memory views, torn file writes.
* 64-bit and 32-bit overflow of money sums, heights, indices and the vsize
  product, except the saturating coin-selection target and the length prefix.
* Hex parsing of script and witness strings: a script is already classified and a
  witness item says whether it starts like an annex and which key it parses to.
* A wire that fails while the payer sends: it ends the session after the same effects
  as a crash.
- Reconcile.RecoverPending: a sidecar that does not decode ends the source's pass with
  an error; in the model every sidecar decodes, and in every state of a history it holds
  exactly the signed bytes (Histories.EveryStateIsSound).
- Hex.DecodeHex32: a string with characters of more than one byte is an error in the
  model; the source, which slices by bytes, may panic instead. Neither accepts it.
