# SomniaTx scripts, modelled in Dafny

SomniaTx is a set of Node.js scripts that drive wallets on the Somnia test
network. This project models the decision logic of seven of them:

- the memecoin trading contest's one-shot SUSDT mint with its `track.json` table;
- its automatic trader, which picks sell / buy-more / buy-new and a token pair from the balances;
- its interactive swap loop;
- the PONG/PING pool's automatic trader, interactive swap loop and faucet mint;
- the official faucet claim: proxy selection, proxy-id extraction and the delay before the next run.

Everything a script asks of the outside world is an input of the model:

- `Math.random()` draws (`Draws.Draw`, a real in [0, 1));
- prompt answers;
- balances, allowances and the latest block's base fee;
- whether a simulation or a transaction succeeded.

The model records what a script sends to the chain as a trace of `Chain.Call` values:

- `Approve`;
- `Simulate`, the `callStatic` dry run;
- `Execute`, the transaction itself.

Modules and what they hold:

- `Wrappers`, `Draws`, `Text`, `Tokens` and `Chain` hold what the scripts share:
  - `Math.floor(r * n)`;
  - `toLowerCase`, `trim`, `split('\n')` and `String(id)`;
  - the token lists;
  - wallet lookup, the fee cap, gas limits, the swap intent, the call trace, the approval gate and the manual-loop state.
- There is one module per script: `MemecoinMint`, `MemecoinRandom`, `MemecoinSwap`, `SomniaRandom`, `SomniaSwap`, `SomniaMint` and `FaucetClaim`.
- State the scripts change in place is a class:
  - the tracking table is `MemecoinMint.Tracker`;
  - the `keepSwapping` / `currentWallet` loop is `SwapSession` in each manual swap module.
- Loops are methods proved against a specification function of their inputs:
  - `ProcessWallet` against `RoundOutcomes` / `RoundsUntilFailure`;
  - `Run` against `Replay`;
  - the mint loops against `MintRun` / `AllMints`;
  - `ClaimEach` against `RequestFor`.

No script retries a failed simulate-and-send step, and none pauses before trying again. Each failure is handled exactly once:

- with `continue` in the memecoin trader and both manual loops;
- with `return` in the PONG/PING trader, which ends the current wallet, so its remaining rounds are not played.

## Model

| member | source | states |
|---|---|---|
| Draws.RandomIndex | actions/memecoin_trading_contest/random.js:124 | `Math.floor(Math.random() * n)` is an index below n for every draw |
| Draws.RandomInt | actions/memecoin_trading_contest/mint.js:67-71 | `Math.floor(r * (hi - lo + 1)) + lo` lies in [lo, hi] for every draw |
| Draws.RandomIndexOnto | actions/memecoin_trading_contest/random.js:124 | every index below n is picked by some draw, so the candidate pick can reach every candidate |
| Draws.RandomIntOnto | actions/memecoin_trading_contest/mint.js:67-71 | every integer of [lo, hi] is produced by some draw, so the gas and swap-count ranges are tight |
| Draws.ScaledFloorBounds | actions/memecoin_trading_contest/mint.js:70 | for a draw r and n > 0, the floor of r * n is in [0, n) |
| Text.Lower | actions/memecoin_trading_contest/mint.js:75 | `toLowerCase` keeps the length and lowers each character on its own |
| Text.LowerIdempotent | actions/memecoin_trading_contest/mint.js:75 | lowering twice equals lowering once |
| Text.TrimStart | actions/faucets/official_faucet/claim.js:41 | drops exactly the leading whitespace: the rest is a suffix that does not start with whitespace |
| Text.TrimEnd | actions/faucets/official_faucet/claim.js:41 | drops exactly the trailing whitespace: the rest is a prefix that does not end with whitespace |
| Text.Trim | actions/faucets/official_faucet/claim.js:45 | `trim()` gives a string no longer than its input that neither starts nor ends with whitespace |
| Text.TrimIsSlice | actions/faucets/official_faucet/claim.js:45 | the trimmed line is the slice of the line between its leading and trailing whitespace, and everything outside that slice is whitespace |
| Text.TrimEmptyIffBlank | actions/faucets/official_faucet/claim.js:41 | `line.trim() !== ''` holds exactly when the line has a character that is not whitespace |
| Text.SplitLines | actions/faucets/official_faucet/claim.js:41 | `split('\n')` gives at least one piece, no piece holds '\n', and joining the pieces with '\n' gives the text back |
| Text.DigitsSnoc | actions/memecoin_trading_contest/swap.js:87 | appending a digit to a numeral multiplies its value by ten and adds the digit |
| Text.NatString | actions/memecoin_trading_contest/swap.js:87 | `String(n)` of a natural number is a non-empty run of digits denoting n, with no leading zero: a numeral starting with '0' is "0" itself |
| Text.NatStringInjective | actions/SomniaSwap/swap.js:74 | two numbers with the same numeral are equal |
| Text.DecimalString | actions/SomniaSwap/swap.js:74 | `String(n)` is non-empty and starts with '-' exactly for a negative n |
| Text.DecimalStringInjective | actions/SomniaSwap/swap.js:74 | `String(id)` tells ids apart, so at most one id matches a typed answer |
| Chain.WalletIndex | actions/memecoin_trading_contest/swap.js:87 | the index of the first wallet whose `String(id)` is the typed answer, or -1 exactly when none matches |
| Chain.FindWallet | actions/SomniaSwap/swap.js:74-78 | `wallets.find` gives the first listed wallet with that id, and nothing exactly when no wallet has it |
| Chain.FeePlus10Percent | actions/memecoin_trading_contest/mint.js:103-105 | `baseFee.mul(110).div(100)` is floor(1.1 * baseFee), never below the base fee |
| Chain.BasePlusExtraFee | actions/memecoin_trading_contest/swap.js:146-149 | `baseFee + baseFee*10/100` is the same number as `baseFee*110/100` and is at least the base fee |
| Chain.MintGasLimit | actions/SomniaSwap/mint.js:45-49 | the mint gas limit lies in [80000, 150000] |
| Chain.SwapCount | actions/SomniaSwap/random.js:112 | `numSwaps` lies in [10, 18] |
| Chain.ApprovalGate | actions/memecoin_trading_contest/random.js:61-72 | `checkAndApproveToken` sends nothing exactly when the allowance covers the amount, otherwise one approval of MaxUint256 |
| Chain.AllowanceAfterGate | actions/memecoin_trading_contest/random.js:61-72 | after the gate, the allowance covers any uint256 amount and never decreases unless it becomes MaxUint256 |
| Chain.ApprovalGateIdempotent | actions/memecoin_trading_contest/random.js:61-72 | a second gate with the same amount right after the first sends nothing |
| Chain.TraceAppendOne | actions/SomniaSwap/random.js:161-189 | appending a call that is not a swap, or a swap right after its successful simulation, keeps every swap preceded by its simulation, and adds one to the transaction count exactly for a swap |
| Chain.ExecutionsAppend | actions/SomniaSwap/random.js:176-189 | the number of swap transactions in two traces adds up |
| Chain.SimulatedAppend | actions/SomniaSwap/random.js:161-189 | two traces that simulate before each swap still do so when joined, if the second does not open with a swap |
| Chain.TraceAppend | actions/memecoin_trading_contest/random.js:184-213 | joining the trace of one more round keeps the simulate-first order and the fixed intent shape, and adds up the transactions |
| Chain.SimulatedSwapCalls | actions/SomniaSwap/random.js:148-189 | the calls open with exactly the approval gate for tokenA, then the simulation, and the swap is sent only after a successful simulation, with intent {tokenA, tokenB, fee 500, wallet, amount, 0, 0} |
| Chain.SimulatedSwapTrace | actions/SomniaSwap/random.js:151-189 | a simulated swap sends its transaction only right after a successful simulation of the same intent, and exactly one when the simulation succeeds |
| Chain.IntentsForSession | actions/SomniaSwap/swap.js:102-110 | a trace paid to one listed wallet is paid to one of the wallets |
| Chain.SessionIntentsAppend | actions/SomniaSwap/swap.js:69-144 | the traces of successive passes join into one whose intents all have the fixed shape and a listed recipient |
| Chain.AppendWalletTrace | actions/SomniaSwap/random.js:200-205 | the calls of one more listed wallet keep a session trace's simulate-first order and listed recipients, and add their transactions to the count |
| Chain.ActiveWallet | actions/memecoin_trading_contest/swap.js:83-92 | a pass uses the current wallet, or looks up the typed id only when there is none |
| Chain.KeepsWallet | actions/memecoin_trading_contest/swap.js:197-199 | the wallet is dropped exactly on the answers "n" and "N"; every other answer, the empty default included, keeps it |
| MemecoinMint.FindEntry | actions/memecoin_trading_contest/mint.js:75 | `findIndex` gives the first record whose lower-cased address matches, or -1 exactly when none does |
| MemecoinMint.Updated | actions/memecoin_trading_contest/mint.js:74-80 | a known address has only its first record's flag changed, same length; an unknown address gets one record appended; afterwards the first record for the address carries the new flag |
| MemecoinMint.FindEntrySameAddresses | actions/memecoin_trading_contest/mint.js:75 | the lookup depends only on the addresses, not on the flags |
| MemecoinMint.UpdatedKeepsUnique | actions/memecoin_trading_contest/mint.js:74-80 | if no two records share a lower-cased address, `updateTrack` keeps it so |
| MemecoinMint.AllMintedSkipsEveryWallet | actions/memecoin_trading_contest/mint.js:39-47 | with one record per address, `allMinted` means every wallet would hit the skip at the top of the loop |
| MemecoinMint.AllMintedNeedsUniqueRecords | actions/memecoin_trading_contest/mint.js:39-43 | with a duplicated address, `allMinted` (any matching record) can hold while the skip (first matching record) does not |
| MemecoinMint.MintStep | actions/memecoin_trading_contest/mint.js:86-130 | a marked wallet is skipped with no mint and no table change; an unmarked wallet with a base fee gets its mint, and without one gets none; it is then marked minted exactly when its transaction was confirmed, both fee fields at the base fee plus 10 % and gas in [80000, 150000] |
| MemecoinMint.MintRunKeepsUnique | actions/memecoin_trading_contest/mint.js:84-131 | a whole run keeps one record per address |
| MemecoinMint.AllMintedRunIsNoOp | actions/memecoin_trading_contest/mint.js:44-47 | when every wallet is marked, the loop would change nothing and send nothing, so exiting early loses nothing |
| MemecoinMint.Tracker.constructor | actions/memecoin_trading_contest/mint.js:28-36 | the table starts as the loaded records |
| MemecoinMint.Tracker.UpdateTrack | actions/memecoin_trading_contest/mint.js:74-80 | the table becomes `Updated` of the old table |
| MemecoinMint.Tracker.MintWallet | actions/memecoin_trading_contest/mint.js:86-130 | one pass of the loop changes the table and sends the mint as `MintStep` says |
| MemecoinMint.Tracker.RunScript | actions/memecoin_trading_contest/mint.js:39-133 | the script exits untouched when `allMinted` holds, otherwise the final table and the mints sent are those of `MintRun` |
| MemecoinRandom.FilterHeld | actions/memecoin_trading_contest/random.js:119 | the held-token filter keeps exactly the listed tokens with a positive balance, never SUSDT |
| MemecoinRandom.FilterUnheld | actions/memecoin_trading_contest/random.js:136 | the zero-balance filter keeps exactly the listed tokens with balance 0, never SUSDT |
| MemecoinRandom.DrawAction | actions/memecoin_trading_contest/random.js:102-115 | buy_new when only SUSDT is held; otherwise sell below 0.33, buy more in [0.33, 0.66), buy new above |
| MemecoinRandom.BuyNewPair | actions/memecoin_trading_contest/random.js:135-142 | buy_new goes from SUSDT to a non-SUSDT token, an unheld one whenever one exists |
| MemecoinRandom.SelectPair | actions/memecoin_trading_contest/random.js:117-143 | the skip happens exactly for sell_existing with nothing held; otherwise exactly one side is SUSDT, a sale sells a held token, buying more buys a held token or falls back to buy_new, and buy_new buys an unheld token when there is one |
| MemecoinRandom.NothingToSellUnreachable | actions/memecoin_trading_contest/random.js:102-122 | with balances that are never negative, the "No non-SUSDT tokens available to sell" skip cannot happen |
| MemecoinRandom.RoundPair | actions/memecoin_trading_contest/random.js:117-143 | a round's pair, when it has one, has exactly one SUSDT side |
| MemecoinRandom.RoundOutcomeOf | actions/memecoin_trading_contest/random.js:117-213 | nothing to sell exactly when no pair can be drawn; otherwise the round stops on a zero source balance, then on a zero amount, and swaps exactly with a nonzero balance, a positive amount, a successful simulation and a confirmed transaction; a transaction is attempted only after a successful simulation |
| MemecoinRandom.RoundCallsTrace | actions/memecoin_trading_contest/random.js:170-213 | a round sends its swap only right after a successful simulation of the same intent, and sends one exactly when it reached execution |
| MemecoinRandom.PlayRound | actions/memecoin_trading_contest/random.js:93-221 | the loop body ends as `RoundOutcomeOf` says and makes the calls of `RoundCalls` |
| MemecoinRandom.RoundOutcomes | actions/memecoin_trading_contest/random.js:90-222 | one outcome per round played |
| MemecoinRandom.RoundOutcomesAt | actions/memecoin_trading_contest/random.js:90-222 | round k ends as `RoundOutcomeOf` says for round k: an earlier failure only skips its own round |
| MemecoinRandom.PlayRoundKeepsInvariant | actions/memecoin_trading_contest/random.js:90-222 | one more round keeps the outcomes in step with the rounds, the trace well formed, and one transaction per round that reached execution |
| MemecoinRandom.RoundsCallsSnoc | actions/memecoin_trading_contest/random.js:90-222 | one more round adds exactly its own calls after those of the rounds before it |
| MemecoinRandom.ProcessWallet | actions/memecoin_trading_contest/random.js:74-223 | no rounds and no calls without native balance; otherwise exactly `numSwaps` rounds, each as `RoundOutcomeOf` says, making exactly the calls of those rounds in order (`RoundsCalls`); every transaction follows a successful simulation of its intent, and one per round that reached execution |
| MemecoinRandom.AllCallsSnoc | actions/memecoin_trading_contest/random.js:225-230 | one more wallet adds exactly its own calls after those of the wallets before it |
| MemecoinRandom.SubmittedAllSnoc | actions/memecoin_trading_contest/random.js:225-230 | one more wallet's attempted swaps add to those of the wallets before it |
| MemecoinRandom.AppendRunTrace | actions/memecoin_trading_contest/random.js:225-230 | one more wallet's calls keep the run's simulate-first order and listed recipients, and the transaction count stays one per attempted swap |
| MemecoinRandom.ProcessAllWallets | actions/memecoin_trading_contest/random.js:225-230 | every wallet gets its own `processWallet` result, and the run's calls are exactly each wallet's calls in turn (`AllCalls`); over the run every swap follows its simulation and is paid to a listed wallet, one per round that reached execution |
| MemecoinSwap.Target | actions/memecoin_trading_contest/swap.js:111-125 | a SUSDT source swaps to the non-SUSDT target picked, any other source to SUSDT; source and target always differ |
| MemecoinSwap.SwapGasLimit | actions/memecoin_trading_contest/swap.js:150 | the swap gas limit lies in [120000, 200000] |
| MemecoinSwap.SwapOptions | actions/memecoin_trading_contest/swap.js:145-156 | both fee fields are the base fee plus 10 %, at least the base fee, and the gas limit is in [120000, 200000] |
| MemecoinSwap.PassCalls | actions/memecoin_trading_contest/swap.js:139-172 | exactly the approval gate for the source token, then one swap with the fixed intent shape, the chosen pair and the computed options, and no simulation |
| MemecoinSwap.NoSimulationAppend | actions/memecoin_trading_contest/swap.js:171-172 | traces without simulations join into one without simulations |
| MemecoinSwap.Step | actions/memecoin_trading_contest/swap.js:82-202 | an unknown id exits with no call; a failed swap loops with the same wallet and no prompt; declining ends the loop; "n"/"N" drops the wallet and any other answer keeps it |
| MemecoinSwap.ReplayTrace | actions/memecoin_trading_contest/swap.js:79-202 | over a whole session the current wallet stays a listed one, every swap has the fixed shape and a listed recipient, and nothing is simulated |
| MemecoinSwap.SwapSession.constructor | actions/memecoin_trading_contest/swap.js:80-81 | the loop starts with `keepSwapping` set and no current wallet |
| MemecoinSwap.SwapSession.Iterate | actions/memecoin_trading_contest/swap.js:82-202 | one pass updates the loop variables and the trace as `Step` says |
| MemecoinSwap.SwapSession.Run | actions/memecoin_trading_contest/swap.js:79-204 | the loop over the answers ends in the state and trace of `Replay` |
| SomniaRandom.Direction | actions/SomniaSwap/random.js:121 | the direction is 0 or 1 |
| SomniaRandom.SwapPair | actions/SomniaSwap/random.js:122-123 | direction d swaps token d for the other one, so the two sides always differ |
| SomniaRandom.DirectionByDraw | actions/SomniaSwap/random.js:121-123 | draws below 0.5 swap PONG for PING and the others PING for PONG |
| SomniaRandom.RoundOutcomeOf | actions/SomniaSwap/random.js:121-189 | two zero balances end the round first, then a zero amount; a round swaps exactly when neither applies, the simulation succeeded and the transaction was confirmed; a transaction is attempted only after a successful simulation |
| SomniaRandom.RoundCallsTrace | actions/SomniaSwap/random.js:148-189 | a round sends its swap only right after a successful simulation of the same intent, and one exactly when it reached execution |
| SomniaRandom.PlayRoundKeepsTrace | actions/SomniaSwap/random.js:115-197 | one more round keeps the trace well formed with one transaction per round that reached execution |
| SomniaRandom.PlayRound | actions/SomniaSwap/random.js:115-197 | the loop body ends as `RoundOutcomeOf` says and makes the calls of `RoundCalls` |
| SomniaRandom.RoundsUntilFailure | actions/SomniaSwap/random.js:115-197 | no more outcomes than rounds |
| SomniaRandom.RoundsUntilFailureAt | actions/SomniaSwap/random.js:115-197 | each round played ends as `RoundOutcomeOf` says, and every round before the last one played swapped |
| SomniaRandom.RoundsUntilFailureStops | actions/SomniaSwap/random.js:131-189 | a failed round ends the wallet: stopping early means the last round played did not swap |
| SomniaRandom.UntilFailureStep | actions/SomniaSwap/random.js:115-197 | from round i on, the wallet plays round i and goes on to the later rounds only if round i swapped, for both the outcomes and the calls |
| SomniaRandom.ProcessWallet | actions/SomniaSwap/random.js:91-198 | nothing without native balance or with both balances zero; otherwise the first `numSwaps` rounds until one fails, making exactly the calls of those rounds (`CallsUntilFailure`); every transaction follows its simulation, one per round that reached execution |
| SomniaRandom.AllCallsSnoc | actions/SomniaSwap/random.js:200-205 | one more wallet adds exactly its own calls after those of the wallets before it |
| SomniaRandom.SubmittedAllSnoc | actions/SomniaSwap/random.js:200-205 | one more wallet's attempted swaps add to those of the wallets before it |
| SomniaRandom.AppendRunTrace | actions/SomniaSwap/random.js:200-205 | one more wallet's calls keep the run's simulate-first order and listed recipients, and the transaction count stays one per attempted swap |
| SomniaRandom.ProcessAllWallets | actions/SomniaSwap/random.js:200-205 | a failure ends only its own wallet; every wallet gets its own `processWallet` result, the run's calls are exactly each wallet's calls in turn (`AllCalls`), and the joined trace keeps the simulate-first order with listed recipients |
| SomniaSwap.OtherIndices | actions/SomniaSwap/swap.js:87 | the indices below n other than the source, each once, in increasing order |
| SomniaSwap.TargetChoices | actions/SomniaSwap/swap.js:86-89 | the target list offers exactly the tokens other than the source, with their original index |
| SomniaSwap.TargetIsTheOtherToken | actions/SomniaSwap/swap.js:86-89 | with two tokens the only target offered is the other one |
| SomniaSwap.PassCalls | actions/SomniaSwap/swap.js:100-130 | exactly the approval gate for the source token, then the simulation, and the swap of the chosen pair only when the simulation succeeded |
| SomniaSwap.PassCallsTrace | actions/SomniaSwap/swap.js:102-130 | a pass sends its swap only right after a successful simulation of the same intent, and exactly one when the simulation succeeded |
| SomniaSwap.Step | actions/SomniaSwap/swap.js:69-144 | an unknown id exits with no call; a failed simulation or swap loops with the same wallet and no prompt; declining ends the loop; "n"/"N" drops the wallet and any other answer keeps it |
| SomniaSwap.ReplayTrace | actions/SomniaSwap/swap.js:66-146 | over a whole session the current wallet stays a listed one, every swap follows its successful simulation, and every intent has the fixed shape and a listed recipient |
| SomniaSwap.SwapSession.constructor | actions/SomniaSwap/swap.js:67-68 | the loop starts with `keepSwapping` set and no current wallet |
| SomniaSwap.SwapSession.Iterate | actions/SomniaSwap/swap.js:69-144 | one pass updates the loop variables and the trace as `Step` says |
| SomniaSwap.SwapSession.Run | actions/SomniaSwap/swap.js:66-146 | the loop over the answers ends in the state and trace of `Replay` |
| SomniaMint.TokenMints | actions/SomniaSwap/mint.js:79-100 | at most one mint per remaining token, and at least one while a token remains |
| SomniaMint.TokenMintsShape | actions/SomniaSwap/mint.js:72-100 | mints go out in list order, each of 10^21 to the wallet with the fee cap and gas in [80000, 150000]; all but the last were confirmed, and the loop stops early only after a failure |
| SomniaMint.WalletMints | actions/SomniaSwap/mint.js:57-62 | a wallet mints nothing exactly when the block gave no base fee |
| SomniaMint.WalletMintsShape | actions/SomniaSwap/mint.js:57-103 | PONG first and then PING, each of 10^21 to the wallet at the base fee plus 10 %; a single mint means it failed |
| SomniaMint.EveryWalletAttempted | actions/SomniaSwap/mint.js:52-104 | every wallet whose block read gave a base fee has its PONG mint in the run, whatever happened to the others |
| SomniaMint.MintTokens | actions/SomniaSwap/mint.js:79-100 | the inner loop sends the mints of `TokenMints`, breaking after the first failure |
| SomniaMint.MintAllWallets | actions/SomniaSwap/mint.js:51-106 | the loop over the wallets sends the mints of `AllMints` |
| FaucetClaim.RunLength | actions/faucets/official_faucet/claim.js:8 | the run of characters other than '-' starting at a position ends at the first '-' or at the end |
| FaucetClaim.MatchLengthIsRun | actions/faucets/official_faucet/claim.js:8 | a match's group is the whole run after "-session-" |
| FaucetClaim.MatchLengthUnique | actions/faucets/official_faucet/claim.js:8 | at one position the pattern matches with one group length at most |
| FaucetClaim.MatchAt | actions/faucets/official_faucet/claim.js:8 | decides whether `/-session-([^-]+)-sessTime/` matches at a position, and with which group |
| FaucetClaim.FindMatch | actions/faucets/official_faucet/claim.js:8 | finds the leftmost matching position, or none when the pattern occurs nowhere |
| FaucetClaim.ExtractProxyId | actions/faucets/official_faucet/claim.js:6-10 | "None" without a proxy or for the empty one; otherwise the id is never empty and never holds '-' |
| FaucetClaim.ExtractProxyIdLeftmost | actions/faucets/official_faucet/claim.js:8-9 | when the pattern occurs, the id is the group of its leftmost match |
| FaucetClaim.ExtractProxyIdNoMatch | actions/faucets/official_faucet/claim.js:9 | when the pattern does not occur, the id is "Unknown" |
| FaucetClaim.NonBlankLines | actions/faucets/official_faucet/claim.js:41 | the filter keeps no more lines than it is given |
| FaucetClaim.NonBlankLinesKept | actions/faucets/official_faucet/claim.js:41 | the filter keeps exactly the lines whose trimmed text is not empty, untrimmed |
| FaucetClaim.NonBlankLinesAppend | actions/faucets/official_faucet/claim.js:41 | the filter keeps the original order: filtering two pieces is filtering each |
| FaucetClaim.ProxyList | actions/faucets/official_faucet/claim.js:39-41 | no proxy of the list is blank |
| FaucetClaim.ProxyFor | actions/faucets/official_faucet/claim.js:44-45 | wallet id k gets line k - 1 trimmed, and null when there is no such line |
| FaucetClaim.ProxyForListed | actions/faucets/official_faucet/claim.js:41-45 | with the list read from `proxies.txt`, id k gets a proxy exactly when there are k non-blank lines, and that proxy is not empty |
| FaucetClaim.ProcessWallets | actions/faucets/official_faucet/claim.js:34-48 | every wallet sends one claim request, in file order, through the proxy its id selects; a failed claim request never stops the next |
| FaucetClaim.ClaimEach | actions/faucets/official_faucet/claim.js:43-47 | the loop makes one request per wallet, request i being that of wallet i |
| FaucetClaim.NextClaimDelay | actions/faucets/official_faucet/claim.js:62-69 | the pause is 1470 to 1560 minutes, split into hours and minutes below 60 that add back up, and waited as minutes * 60000 ms |
| FaucetClaim.ScheduleNext | actions/faucets/official_faucet/claim.js:61-75 | a next run is scheduled exactly when the answer was "y" or "Y" |

## Left out

- Every ethers / JSON-RPC call: `getBalance`, `balanceOf`, `decimals`, `allowance`, `approve`, `callStatic`, `exactInputSingle`, `mint`, `tx.wait()` and `getBlock`. Their results are inputs, and their success or failure is a boolean input.
- An exception thrown outside a `try` block is not modelled. This covers `getProxyIP` in the faucet claim (it rethrows every error, so later wallets get no claim and `claimLoop` schedules no next run), balance reads, `getTokenDecimals` of the source token, `checkAndApproveToken`, and a `parseUnits` of an amount that is not a number. Such an exception rejects the script's `main` promise.
- MemecoinSwap.Pass and SomniaSwap.Pass: a typed negative amount is allowed (`amountIn` is an integer). It needs no approval, because any allowance covers it. The uint256 encoding failure that follows, like one for an amount above 2^256 - 1, is not derived from the amount. It is the `executed = false` input in the memecoin swap and the `simulated = false` input in the PONG/PING swap, which both continue the loop.
- A block without `baseFeePerGas` in the manual memecoin swap is not modelled. The script then calls `mul` on `undefined`. `MemecoinSwap.Pass.baseFee` is always a number.
- Floating point is left out:
  - `Number(formatUnits(...))` balances are exact reals;
  - the 40-100 % percentage, `toFixed(3)` and `parseUnits` are replaced by an abstract swap amount in base units;
  - the zero-amount check is on that amount.
- `Draws.RandomIndex` works on exact reals. It does not model the rounding of the double product `Math.random() * n`.
- Text.Lower: lowers ASCII letters only, because wallet addresses and the y/n answers are ASCII. Unicode case mapping is not modelled.
- Chain.WalletIndex: takes wallet ids as unbounded integers. An id stored as a string in `wallets.json` is not modelled. Ids above 2^53, which a JavaScript number cannot hold exactly, are compared as exact integers.
- Text.NatString: prints every natural number in plain decimal digits. JavaScript's `String(n)` switches to exponent notation ("1e+21") from 10^21, and that form is not modelled.
- Text.DecimalString: the same plain-digit form for negative integers; exponent notation from 10^21 in absolute value is not modelled.
- The wallet shuffle `wallets.sort(() => Math.random() - 0.5)` in both random scripts is not modelled. Their `ProcessAllWallets` methods take the wallets in whatever order they are given, so every order is covered.
- `setTimeout` pauses are left out. So is `claimLoop`'s re-invocation of itself after the delay: `ScheduleNext` gives the delay, not a second run.
- File I/O is left out:
  - reading `wallets.json`, `proxies.txt` and `track.json`;
  - the `writeFileSync` in `updateTrack`.
  The tracking table lives in memory.
- Other files are not part of this model:
  - the faucet HTTP request and the public-IP lookup through the proxy (`scripts/apis.js`);
  - the menu (`index.js`);
  - the balance and transaction-count utilities;
  - `ABI.js`, whose addresses are distinct tokens of `Tokens`.
- Private keys and signers are left out. A wallet is its id and address.
- Console output is left out, and so is `clear()` in the memecoin swap loop.
- MemecoinSwap.SwapSession.Run: runs until the loop stops or the list of passes runs out. A session that goes on answering forever is only covered up to the length of that list.
- SomniaSwap.SwapSession.Run: the same bound on the list of passes applies.
- MemecoinRandom.ProcessWallet: requires at least `numSwaps` rounds of inputs. The inputs of rounds the script never plays are never looked at.
- SomniaRandom.ProcessWallet: the same requirement on round inputs applies.
