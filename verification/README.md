# open-zano-pool: payouts, share classification and job backlog in Dafny

This project models three parts of the open-zano-pool mining pool (Go):

- **Payout settlement** (`payouts/payer.go`). The payout processor has a halt latch and a
  last failure. A settlement run:
  - selects the payees whose balance is strictly above their threshold (their own
    threshold when it is above 10, the pool's otherwise);
  - sorts them into one batch transfer and individual transfers for integrated addresses
    (prefix `iZ` or `aiZX`);
  - checks that the pool's wallet can cover the total;
  - splits the flat 10,000,000,000-unit network fee over the batch, with the remainder
    taken from the earliest entries;
  - locks, debits and records each payee, stopping at the first failure.

  The recovery pass credits pending payments back and releases the payout lock. Start-up
  refuses to run while payments are pending or payouts are locked.
- **Share classification** (`proxy/miner.go`). A submitted solution is classified as
  stale, invalid, a share or a block. This covers the byte-order flip of the 16-digit
  nonce, the splice of that nonce into the block blob, and the backend writes with their
  duplicate check.
- **Job backlog maintenance** (`proxy/blocks.go`). A template refresh:
  - leaves the template alone when an RPC fails or the chain tip is unchanged;
  - otherwise builds a new template whose header backlog keeps the old headers above
    `height - 3`, computed in uint64 arithmetic.

The outside world is modelled as inputs:

- The wallet, daemon and verifier RPCs are oracles. They answer with a value or a failure
  (`Payouts.Env`, `Miner.Oracles`, and the `latest`/`work` parameters of
  `Blocks.NextTemplate`).
- Go's map iteration order is an oracle that enumerates the key set
  (`Payouts.RangesOverKeys`).
- The Redis backend is abstract state. The payout side has balances, own thresholds, a
  list of pending payments, a lock flag and a payment log (`Payouts.Ledger`). The proxy
  side has a fingerprint set.

The modules are:

- `Uint64`: wrap-around subtraction and the low 64 bits of a big integer.
- `Hex`: Go's `strconv.ParseUint(s, 16, 64)`, `strings.Replace(s, "0x", "", -1)`, and
  `%x` / `%#018x` printing.
- `Blocks`: the backlog rule, the refresh as a function, and the `ProxyServer` class with
  the imperative refresh.
- `Miner`: the nonce flip loop, the splice, and `processShare` as a function returning
  `(duplicate, accepted)`, the list of effects and the new fingerprint set.
- `Payouts`: the settlement rules as functions, and the lemmas about them. A run is
  "perform a plan of calls, stopping at the first failure" (`Perform`).
- `Payer`: the `PayoutsProcessor` class. Its fields are `halt`, `lastFail`, the ledger,
  and a trace of every call made. Each method is proved equal to the rule in `Payouts`.

The ledger effects of the backend calls are an assumption of this model, because
`storage/redis.go` is not part of it:

- `LockPayouts` adds a pending record and sets the lock.
- `UpdateBalance` debits the amount.
- `WritePayment` logs the payment, removes the pending record, and releases the lock once
  nothing is pending.
- `RollbackBalance` credits the amount back and removes the pending record.
- `UnlockPayouts` clears the lock.

## Model

| member | source | states |
|---|---|---|
| Uint64.Sub | payouts/payer.go:183 | uint64 subtraction is the integer difference when it does not underflow, and wraps by 2^64 when it does |
| Uint64.LowBits | payouts/payer.go:175 | `big.Int.Uint64()` of a value that fits in 64 bits is that value |
| Hex.LowerDigit | proxy/miner.go:25 | the printed digit reads back as the value it prints |
| Hex.StripAll0x | proxy/blocks.go:75 | removing every "0x" never lengthens the string |
| Hex.LowerHex | proxy/miner.go:25 | `%x` prints at least one character, all hex digits |
| Hex.Padded16 | proxy/miner.go:25 | `%#018x` without its prefix is hex digits, at least 16 of them |
| Hex.ParseDigitsExact | proxy/blocks.go:75 | ParseUint's digit loop reads the exact value of digits whose value fits in 64 bits |
| Hex.ParseUintExact | proxy/blocks.go:75 | `ParseUint(s, 16, 64)` returns the value of a non-empty digit string below 2^64 |
| Hex.StripAll0xNoX | proxy/blocks.go:75 | a string with no 'x' is left as it is by the "0x" removal |
| Hex.ParsePrefixedHex | proxy/blocks.go:75 | "0x" followed by hex digits parses, after the removal, to the digits' value |
| Hex.LowerHexValue | proxy/miner.go:25 | reading back the `%x` digits of n gives n (round trip) |
| Hex.Padded16Nonce | proxy/miner.go:24-25 | a 64-bit nonce printed with `%#018x` (prefix dropped) is exactly 16 digits denoting the nonce |
| Blocks.Backlog | proxy/blocks.go:93-104 | the new backlog holds the new header. Every key is the new header or an old key. Every recent old entry is kept unchanged, and every stale old entry under another key is dropped. Each value is the fresh pair or an unchanged recent old pair, and a recent old entry under the new header's key overwrites the fresh pair. When the fresh pair has the new height, no entry lies 3 or more heights below it; an entry above a lower new height is kept however far above |
| Blocks.NextTemplate | proxy/blocks.go:51-105 | a failed latest-block call, or an unchanged chain tip with a template present, changes nothing and skips getwork. getwork is called exactly when the tip moved, and its failure changes nothing. When the tip moved and getwork answers, a new template is published: header, seed, target and blob from the reply, the latest hash as PrevHash, the difficulty converted from the target, the height parsed from the "0x"-stripped hex number, and `Backlog` of the old headers as its backlog. Any changed template carries its header in a bounded backlog. Without a previous template, the backlog is exactly the one fresh entry |
| Blocks.BuildHeaders | proxy/blocks.go:93-104 | the map-insertion loop over the old backlog produces exactly `Backlog` |
| Blocks.NewTemplateHeight | proxy/blocks.go:74-97 | the new height is the value of the "0x"-prefixed getwork height, and the fresh backlog entry is (diff, height) |
| Blocks.WrappedWindowDropsOld | proxy/blocks.go:100 | below height 3 the uint64 cut-off wraps, and no old entry of realistic height is carried over |
| Blocks.WindowWithoutWrap | proxy/blocks.go:100 | from height 3 up, the uint64 window test is the integer test `v.height + 3 > height` |
| Blocks.ProxyServer.FetchBlockTemplate | proxy/blocks.go:51-112 | the published template and the daemon calls are those of `NextTemplate`, with one store of a freshly built template |
| Miner.SwapPairs | proxy/miner.go:26-30 | reversing the byte groups keeps the length |
| Miner.SwapPairsAt | proxy/miner.go:27-29 | character j of the flip comes from the mirrored byte group, at the same half |
| Miner.SwapPairsAppend | proxy/miner.go:26-30 | flipping a concatenation flips and swaps the parts |
| Miner.SwapPairsTwice | proxy/miner.go:26-30 | flipping twice restores the digits |
| Miner.FlipNonce | proxy/miner.go:26-30 | the in-place buffer loop produces the 16 padded digits with their byte groups reversed |
| Miner.FlippedNonce | proxy/miner.go:24-30 | the flipped nonce is 16 characters |
| Miner.FlippedNonceSpec | proxy/miner.go:24-30 | for a 64-bit nonce, the padded string is 16 digits with the nonce's value, and flipping the flipped nonce restores it |
| Miner.SpliceBlob | proxy/miner.go:89 | the submitted blob is 2 shorter than the cached blob, and has the flipped nonce at 2..17 and the blob's own characters elsewhere (offset by the dropped "0x") |
| Miner.ProcessShare | proxy/miner.go:17-120 | stale: (false,false) with no call and no write. The low-bar check uses the configured difficulty and the high-bar check the backlog entry's difficulty, both at its height. Invalid: (false,false) after one check, no write. Valid: LogIP exactly once, before the high-bar check. A valid share below the block bar is written as a share as the fourth effect and answers (true,false) when its fingerprint is known, (false,true) otherwise, even when the write fails. A block the daemon accepted is followed by the template refresh and the block write as the last effect, with the same answers. A block is written only on that path, and a share only when the high-bar check fails. A daemon rejection gives (false,false) and an RPC error (false,true); on both, the spliced blob was submitted as the fourth and last effect, with no refresh and no write. Duplicate holds exactly when a write found the fingerprint recorded, never together with accepted. The fingerprint set grows only by this solution, when acknowledged; on the share and block write paths it gains the fingerprint exactly when it was new and the write succeeded, and is unchanged otherwise |
| Miner.ProcessShareMethod | proxy/miner.go:17-120 | the flip loop, then the checks with early returns, the effects recorded as they happen and the block blob spliced from the loop's own buffer, give exactly `ProcessShare` |
| Miner.ResubmissionIsDuplicate | proxy/miner.go:98-101 | a solution that was just recorded, submitted again, is a duplicate: (true,false), with nothing new recorded |
| Payouts.ScaleIsProduct | payouts/payer.go:149 | the unit conversion by repeated addition is the product `amount * Shannon` |
| Payouts.AdmitKeepsInv | payouts/payer.go:177-188 | putting an eligible login in its group keeps both groups eligible, of the right kind, and at their ledger balance |
| Payouts.ScanKeepsInv | payouts/payer.go:139-188 | one payee-loop iteration keeps the selection invariant and makes only read calls |
| Payouts.SelectFromKeepsInv | payouts/payer.go:139-189 | the whole payee loop keeps the selection invariant |
| Payouts.SelectFromPrefix | payouts/payer.go:139-189 | the batch is built in payee order: it is always a prefix of the reference list of standard eligible payees |
| Payouts.SelectFromWhole | payouts/payer.go:139-189 | when no peer check failed, the batch is all of the reference list |
| Payouts.SelectFromCovers | payouts/payer.go:139-189 | when no peer check failed, every eligible payee is selected into one of the groups, and nothing selected earlier is dropped |
| Payouts.SelectFromCounts | payouts/payer.go:154 | the eligible count never decreases, and with nothing counted nothing is selected |
| Payouts.SelectPartition | payouts/payer.go:139-189 | only eligible payees from the list are selected, at their ledger balance. Integrated logins go only to the integrated group, with their own destination, and all others go only to the batch, so no login is in both. The loop makes read calls only |
| Payouts.SelectBatch | payouts/payer.go:139-189 | the batch destinations are exactly the batch group's logins, non-empty when that group is, in payee order. With no failed peer check, the batch is the whole reference list and every eligible payee is selected |
| Payouts.StopAtFirstFailure | payouts/payer.go:150-159 | the reference stop point is the first eligible payee whose peer check fails, asked with the count of eligible payees before it; every earlier eligible payee passed its check |
| Payouts.SelectStops | payouts/payer.go:139-189 | the loop stops exactly when the reference stop point is in range, at an eligible payee whose peer check failed. The running total is the sum of the eligible payees' due amounts (converted, less the kept network fee) before that point, repeats counted. The count is the eligible payees before it, plus the stopping payee. The batch is the reference list of that prefix. A login is in either group exactly when it is an eligible payee of that prefix, so a payee at or after the stopping point is in neither unless it also appears before it. With no stop, the prefix is the whole list |
| Payouts.EligibleInMembers | payouts/payer.go:150-152 | the reference set of eligible payees holds exactly the listed payees above their threshold |
| Payouts.SelectCountsEligible | payouts/payer.go:150-154 | the loop counts some payee exactly when the list holds an eligible payee, so the solvency check runs exactly then |
| Payouts.FeeShare | payouts/payer.go:203-211 | each batch entry's fee is the even share or one more |
| Payouts.FeeShareBound | payouts/payer.go:211 | no entry's fee exceeds the base fee plus one |
| Payouts.SumSharesPrefix | payouts/payer.go:205-211 | the first m shares sum to m even shares plus min(m, remainder) |
| Payouts.FeeSharesTotal | payouts/payer.go:199-212 | the shares of the whole batch add up to the base fee exactly |
| Payouts.FeeSharesBalanced | payouts/payer.go:199-212 | shares differ by at most one, and earlier entries never pay less than later ones |
| Payouts.ApplyFee | payouts/payer.go:199-212 | the batch keeps its length, and entry k loses its share in uint64 |
| Payouts.FeeDeductionPrefix | payouts/payer.go:205-211 | over the first m entries, the amounts deducted sum to the first m shares |
| Payouts.FeeDeductionTotal | payouts/payer.go:199-212 | when no entry is smaller than its share, the batch loses exactly the base fee in total, with addresses and order unchanged |
| Payouts.FeeSplitOfThree | payouts/payer.go:199-212 | three entries pay 3,333,333,334 then 3,333,333,333 twice |
| Payouts.PerformPrefix | payouts/payer.go:222-299 | a plan performed with early exit makes a prefix of its calls; it completes the whole plan exactly when every call in it succeeds |
| Payouts.PerformStops | payouts/payer.go:222-299 | a plan that fails stops at its first failing call: every earlier call succeeded and the ledger reflects exactly those calls, in order |
| Payouts.PerformLedger | payouts/payer.go:222-299 | a plan performed without failure leaves the ledger with all its calls applied, in order |
| Payouts.BatchPlanShape | payouts/payer.go:222-254 | the batch loop's calls are lock, debit, record per member, member after member |
| Payouts.IntegratedPlanShape | payouts/payer.go:257-299 | the integrated loop's calls are lock, debit, transfer, record per destination, the record under that transfer's hash |
| Payouts.ThenStep | payouts/payer.go:222-299 | one step of a plan either fails, ending it, or takes effect and continues |
| Payouts.PerformAppend | payouts/payer.go:222-300 | performing two plans in sequence is performing their concatenation |
| Payouts.Run | payouts/payer.go:112-300 | a latched halt makes the run a no-op with no call. A run that does not halt keeps lastFail, and a newly latched halt records a failure. The first call is GetPayees, and its failure ends the run quietly. A failed wallet balance latches the halt after two read calls, sending nothing |
| Payouts.PaySelectionShift | payouts/payer.go:191-300 | the payments after the selection do not depend on the calls made before them |
| Payouts.RunInsufficientFunds | payouts/payer.go:176-198 | when some payee is eligible and the pool balance is below the total due, i.e. the sum of the due amounts of the eligible payees before the stop point, the run latches the halt with InsufficientFunds naming that total and the balance: read calls only, ledger unchanged |
| Payouts.RunBatchSendFails | payouts/payer.go:214-221 | a failed batch transfer latches the halt, and the run ends with it: no member is locked, debited or recorded, and no integrated payee is paid |
| Payouts.RunSendsBatchWithFee | payouts/payer.go:199-221 | the batch transfer follows the read calls directly and carries the fee-split destinations |
| Payouts.PerformKeepsValid | payouts/payer.go:222-299 | a plan without Unlock keeps every pending payment under the lock |
| Payouts.BatchPlanNoUnlock | payouts/payer.go:222-254 | the batch loop never unlocks |
| Payouts.IntegratedPlanNoUnlock | payouts/payer.go:257-299 | the integrated loop never unlocks |
| Payouts.RunKeepsLedgerValid | payouts/payer.go:112-300 | a run never leaves a pending payment without the payout lock |
| Payouts.IntegratedGroupKeepsValid | payouts/payer.go:257-299 | paying the integrated group keeps every pending payment under the lock |
| Payouts.PerformIsThen | payouts/payer.go:222-299 | performing a plan is continuing the empty execution with it |
| Payouts.BatchMember | payouts/payer.go:222-254 | one batch member on a clean ledger: success debits and logs the payment, leaving nothing pending; a failed lock changes nothing; a failed debit or record leaves exactly that payment pending, under the lock |
| Payouts.IntegratedMember | payouts/payer.go:258-299 | as for a batch member, with the member's own transfer: a failed transfer leaves the payee locked, pending and debited |
| Payouts.BatchPlanStep | payouts/payer.go:222-254 | the batch loop is its first member's steps followed, when they all succeed, by the rest of the batch from the paid ledger |
| Payouts.BatchSettles | payouts/payer.go:222-254 | a batch settled without failure logs one payment per member under the batch hash, in order, and leaves nothing pending or locked |
| Payouts.BatchDebits | payouts/payer.go:222-254 | a batch of distinct members settled without failure debits each member exactly their amount, and nobody else |
| Payouts.BatchFailure | payouts/payer.go:222-254 | a batch that fails on a lock leaves nothing pending; one failing on a debit or record leaves exactly that member's payment, at its selected amount, pending under the lock |
| Payouts.IntegratedPlanStep | payouts/payer.go:257-299 | the integrated loop is its first destination's steps followed, when they all succeed, by the rest from the paid ledger |
| Payouts.IntegratedSettles | payouts/payer.go:257-299 | the integrated group settled without failure logs each payment under its own transfer's hash, in order, and leaves nothing pending or locked |
| Payouts.IntegratedDebits | payouts/payer.go:257-299 | an integrated group of distinct logins settled without failure debits each exactly its amount, and nobody else |
| Payouts.IntegratedFailure | payouts/payer.go:257-299 | an integrated group that fails on a lock leaves nothing pending; one failing on a debit, transfer or record leaves exactly one payment pending under the lock: that of the selected login whose step failed, at its selected amount |
| Payouts.IntegratedGroupSettles | payouts/payer.go:257-299 | without a halt, the integrated group leaves a clean ledger with each selected amount taken off |
| Payouts.BatchGroupSettles | payouts/payer.go:222-254 | without a halt, the batch leaves a clean ledger with each selected amount taken off |
| Payouts.RunSettles | payouts/payer.go:191-300 | a run from a clean ledger that does not halt pays every selected payee in full and changes nobody else's balance. It leaves nothing pending and payouts unlocked |
| Payouts.ResolvePass | payouts/payer.go:359-380 | the pass lists the pending payments first, and with none it does nothing else |
| Payouts.RollbackFacts | payouts/payer.go:365-372 | crediting back leaves the lock and the payment log alone, and makes only credit calls |
| Payouts.RollbackPending | payouts/payer.go:365-372 | crediting back the pending list in order leaves nothing pending when all succeed; at a failure, the failed record and all after it are still pending |
| Payouts.RollbackCredits | payouts/payer.go:365-372 | when every credit succeeds, each address gains exactly its pending total |
| Payouts.ResolveCompletes | payouts/payer.go:362-377 | a completed pass leaves nothing pending, payouts unlocked, each address credited its pending total, and no payment logged |
| Payouts.ResolveStopsAtFailure | payouts/payer.go:365-370 | a failed credit ends the pass without unlocking, and leaves the failed record and every later one pending, so nothing is credited twice |
| Payouts.ResolveIdempotent | payouts/payer.go:359-380 | after a completed pass, another pass only lists the (empty) pending payments |
| Payouts.ResolveKeepsLedgerValid | payouts/payer.go:359-377 | the pass keeps pending payments under the lock |
| Payouts.StartRun | payouts/payer.go:66-98 | in normal mode, pending payments, a failed lock query or a set lock mean no write, read calls only, and the latch unchanged; otherwise the two checks are followed by exactly one settlement run. Resolve mode is exactly the recovery pass: it never transfers, locks, debits or records, and keeps the latch |
| Payouts.ResolveCallsOnly | payouts/payer.go:359-377 | the pass makes only the pending-list, credit and unlock calls |
| Payouts.StartKeepsLedgerValid | payouts/payer.go:66-98 | start-up in either mode keeps pending payments under the lock |
| Payouts.StartPaysWhenClear | payouts/payer.go:79-98 | a normal start on a clear backend calls the settlement right after its two checks; when that run does not halt, every selected payee is paid in full, nobody else's balance changes, and the backend is left clear |
| Payouts.StartResolveClears | payouts/payer.go:69-74 | a resolve-mode start whose recovery pass completes leaves nothing pending, payouts unlocked, each address credited its pending total, no payment logged, and the latch as it was |
| Payer.SelectPayees | payouts/payer.go:118-189 | the payee loop with its maps, slice, running total and early exit on a failed peer check computes exactly `Select` |
| Payer.DeductBatchFee | payouts/payer.go:199-212 | the in-place fee loop, with its decreasing remainder and double uint64 subtraction, gives exactly `ApplyFee`, whose entries subtract the share once, so the double uint64 subtraction equals one subtraction of the share |
| Payer.PayoutsProcessor.constructor | payouts/payer.go:59-64 | a new processor is not halted, has no failure, and has made no call |
| Payer.PayoutsProcessor.Invoke | payouts/payer.go:224 | a ledger call is traced, and it changes the ledger only when it succeeds |
| Payer.PayoutsProcessor.SendTransaction | payouts/payer.go:214 | a transfer is traced and answers the wallet's hash, with the ledger untouched |
| Payer.PayoutsProcessor.Fail | payouts/payer.go:226-228 | a failure latches the halt and records the failed call |
| Payer.PayoutsProcessor.PayMember | payouts/payer.go:222-250 | one batch member's lock, debit and record, stopping and latching at the first failure |
| Payer.PayoutsProcessor.PayBatch | payouts/payer.go:222-254 | the batch loop performs the batch plan; a failure latches the halt and breaks |
| Payer.PayoutsProcessor.PayIntegratedMember | payouts/payer.go:258-294 | one integrated destination's lock, debit, transfer and record, stopping and latching at the first failure |
| Payer.PayoutsProcessor.PayIntegrated | payouts/payer.go:257-299 | the integrated loop performs the integrated plan; a failure latches the halt and ends it |
| Payer.PayoutsProcessor.Process | payouts/payer.go:112-300 | a run leaves the latch, the ledger and the calls exactly as `Run` prescribes |
| Payer.PayoutsProcessor.PaySelected | payouts/payer.go:191-300 | the solvency check, fee split, batch transfer and both loops leave the state as `PaySelection` prescribes |
| Payer.PayoutsProcessor.ResolvePayouts | payouts/payer.go:359-380 | the recovery pass leaves the ledger and the calls as `ResolvePass` prescribes, and the latch untouched |
| Payer.PayoutsProcessor.CreditBack | payouts/payer.go:365-377 | the credit loop then the unlock perform the rollback plan, stopping at the first failure |
| Payer.PayoutsProcessor.Start | payouts/payer.go:66-98 | start-up leaves the state as `StartRun` prescribes |

## Left out

- Logging, `formatPendingPayments` and `bgSave` are not modelled: they have no effect on the modelled state. The counter `totalAmount` is used only in log lines, and `minersPaid` only decides on the left-out `bgSave` call.
- The timer and goroutine that repeat `process` in `Start` are left out. `Start` is modelled up to its first run: concurrency and scheduling are not logic.
- The `sync.RWMutex` of a template, the atomic `Store` (modelled as one assignment) and `go s.broadcastNewJobs()` are left out: concurrency.
- The `RESOLVE_PAYOUT` environment variable read by `mustResolvePayout` becomes the `Mode` parameter of `Start`.
- All RPC clients are oracle inputs rather than code: wallet balance, transfers, peer count (`checkPeers` is the boolean `peersOk` per check), `VerifySolution`, `SubmitBlock`, `GetWork` and `GetLatestBlock`.
- `storage/redis.go` is not part of this model. The ledger effects of its calls are the assumption stated above. A store read (`GetBalance`, `GetThreshold`) is taken from the ledger maps with 0 for a missing login, because the source discards those errors.
- `util.TargetHexToDiff` is the `targetToDiff` parameter of a refresh. `util.Shannon` is the `weiPerShannon` field of the settings. The `TxGas * TxGasPrice` product of `util.String2Big` values is the `txCharges` field.
- `util.ToHexUint`, `common.HexToHash`, the unused `ethash` hasher and the unused parsed `nonce` are not modelled. A verifier request carries the height and difficulty as numbers, not as their hex text.
- `GasHex`, `GasPriceHex` and `isUnlockedAccount` are not modelled: the run never calls them.
- Miner.ProcessShare: takes the nonce as "0x" followed by hex digits, so it does not model a signed or non-hex nonce (which `big.Int.SetString` accepts or rejects, changing what `%#018x` prints), nor the panic on a nonce shorter than two characters. It requires a blob of at least 20 characters on the block path, where a shorter one panics at the splice. The block difficulty written to the backend is the full integer, without the truncation of `h.diff.Int64()`. The backend's duplicate answer is assumed to be "this fingerprint is already recorded", because `storage/redis.go` is not part of this model.
- The nil dereference when `VerifySolution` returns an error is not modelled: the verifier oracle always answers a boolean.
- `GetPendingBlockCache` and the template's `nonces` map are not modelled: the refresh and the classification do not read them.
- Blocks.NewTemplateHeight: states the height only for a "0x"-prefixed digit string whose value fits in 64 bits. Other inputs follow `ParseUint`'s error values (0 or the largest uint64), as modelled in `Hex.ParseDigits`.
- Payouts.FeeDeductionTotal: states the exact total only when no batch entry is smaller than its fee share. Otherwise the uint64 subtraction wraps, and `ApplyFee` states that per entry.
- Payouts.RunSettles, Payouts.BatchSettles, Payouts.IntegratedSettles: settle from a ledger with nothing pending and payouts unlocked, the state `Start` requires before a run. They assume that Go's map iteration visits each key exactly once.
- Payouts.BatchDebits, Payouts.IntegratedDebits: state the balances for distinct logins only. A run passes the enumeration of a map's keys, which has no repeats.
- The payment log's own contents on failure paths are not stated beyond "nothing pending" or "one pending".
- A failure in the batch member loop latches the halt and breaks, but the source then still runs the integrated loop in the same run. The model does the same, and `Payouts.Run` says so.
