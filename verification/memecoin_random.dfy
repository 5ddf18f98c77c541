/**
 * The automatic trader of the memecoin trading contest. For each wallet with
 * gas money it runs 10 to 18 rounds; each round picks an action from the
 * balances (sell a held token, buy more of a held token, buy a new one) and a
 * (tokenA, tokenB) pair with exactly one side SUSDT, then approves if needed,
 * simulates and executes the swap. Any failure only skips the round.
 */
module MemecoinRandom {
  import opened Wrappers
  import opened Draws
  import opened Chain
  import opened Tokens

  /** The formatted balances of SOMINI, SOMSOM and SOMI read at the start of a round. */
  datatype Holdings = Holdings(somini: real, somsom: real, somi: real)

  function Balance(h: Holdings, t: ContestToken): real
    requires t != SUSDT
  {
    match t
    case SOMINI => h.somini
    case SOMSOM => h.somsom
    case SOMI => h.somi
  }

  /** `nonSusdtBalances.filter(item => item.balance > 0)`, as tokens in list order. */
  function FilterHeld(h: Holdings, ts: seq<ContestToken>): (r: seq<ContestToken>)
    requires SUSDT !in ts
    ensures SUSDT !in r
    ensures forall t :: t in r <==> t in ts && Balance(h, t) > 0.0
  {
    if ts == [] then []
    else (if Balance(h, ts[0]) > 0.0 then [ts[0]] else []) + FilterHeld(h, ts[1..])
  }

  /** `nonSusdtBalances.filter(item => item.balance === 0)`, as tokens in list order. */
  function FilterUnheld(h: Holdings, ts: seq<ContestToken>): (r: seq<ContestToken>)
    requires SUSDT !in ts
    ensures SUSDT !in r
    ensures forall t :: t in r <==> t in ts && Balance(h, t) == 0.0
  {
    if ts == [] then []
    else (if Balance(h, ts[0]) == 0.0 then [ts[0]] else []) + FilterUnheld(h, ts[1..])
  }

  /** The non-SUSDT tokens the wallet holds. */
  function Held(h: Holdings): seq<ContestToken>
  {
    FilterHeld(h, NonSusdtTokens)
  }

  /** The non-SUSDT tokens whose balance is zero. */
  function Unheld(h: Holdings): seq<ContestToken>
  {
    FilterUnheld(h, NonSusdtTokens)
  }

  /** `onlySusdt`: every non-SUSDT balance is zero. */
  predicate OnlySusdt(h: Holdings)
  {
    h.somini == 0.0 && h.somsom == 0.0 && h.somi == 0.0
  }

  datatype Action = SellExisting | BuyMoreExisting | BuyNew

  /**
   * The action drawn for a round: buy_new when the wallet holds only SUSDT,
   * otherwise the draw picks sell_existing below 0.33, buy_more_existing
   * below 0.66 and buy_new above. Selling or buying more is only drawn for a
   * wallet that holds something besides SUSDT.
   */
  function DrawAction(h: Holdings, r: Draw): (action: Action)
    ensures OnlySusdt(h) ==> action == BuyNew
    ensures action != BuyNew ==> !OnlySusdt(h)
    ensures !OnlySusdt(h) ==> (action == SellExisting <==> r < 0.33)
    ensures !OnlySusdt(h) ==> (action == BuyMoreExisting <==> 0.33 <= r < 0.66)
  {
    if OnlySusdt(h) then BuyNew
    else if r < 0.33 then SellExisting
    else if r < 0.66 then BuyMoreExisting
    else BuyNew
  }

  /**
   * The buy_new choice: SUSDT for a token not held, drawn from all non-SUSDT
   * tokens only when every one of them is held.
   */
  function BuyNewPair(h: Holdings, pick: Draw): (pair: (ContestToken, ContestToken))
    ensures pair.0 == SUSDT && pair.1 in NonSusdtTokens
    ensures Unheld(h) != [] ==> Balance(h, pair.1) == 0.0
  {
    var zeroCandidates := Unheld(h);
    if |zeroCandidates| > 0 then (SUSDT, zeroCandidates[RandomIndex(pick, |zeroCandidates|)])
    else (SUSDT, NonSusdtTokens[RandomIndex(pick, |NonSusdtTokens|)])
  }

  /**
   * The (tokenA, tokenB) pair of a round, or None for the "No non-SUSDT
   * tokens available to sell" skip. Exactly one side is SUSDT. Selling takes
   * a held token to SUSDT; buying more takes SUSDT to a held token and falls
   * back to buy_new when nothing is held; buy_new takes SUSDT to an unheld
   * token whenever there is one.
   */
  function SelectPair(h: Holdings, action: Action, pick: Draw): (pair: Option<(ContestToken, ContestToken)>)
    ensures pair.None? <==> action == SellExisting && Held(h) == []
    ensures pair.Some? ==> (pair.value.0 == SUSDT) != (pair.value.1 == SUSDT)
    ensures pair.Some? && action == SellExisting ==>
              pair.value.1 == SUSDT && Balance(h, pair.value.0) > 0.0
    ensures pair.Some? && action != SellExisting ==> pair.value.0 == SUSDT
    ensures pair.Some? && action == BuyMoreExisting && Held(h) != [] ==> Balance(h, pair.value.1) > 0.0
    ensures pair.Some? && (action == BuyNew || (action == BuyMoreExisting && Held(h) == [])) && Unheld(h) != [] ==>
              Balance(h, pair.value.1) == 0.0
  {
    var candidates := Held(h);
    match action
    case SellExisting =>
      if |candidates| == 0 then None
      else Some((candidates[RandomIndex(pick, |candidates|)], SUSDT))
    case BuyMoreExisting =>
      if |candidates| == 0 then Some(BuyNewPair(h, pick))
      else Some((SUSDT, candidates[RandomIndex(pick, |candidates|)]))
    case BuyNew =>
      Some(BuyNewPair(h, pick))
  }

  /**
   * Balances are never negative, so the "nothing to sell" skip cannot
   * happen: sell_existing is only drawn when some balance is not zero, and a
   * balance that is not zero is then positive.
   */
  lemma NothingToSellUnreachable(h: Holdings, actionDraw: Draw, pick: Draw)
    requires h.somini >= 0.0 && h.somsom >= 0.0 && h.somi >= 0.0
    ensures SelectPair(h, DrawAction(h, actionDraw), pick).Some?
  {
    if DrawAction(h, actionDraw) == SellExisting {
      var t := if h.somini != 0.0 then SOMINI else if h.somsom != 0.0 then SOMSOM else SOMI;
      assert t in NonSusdtTokens && Balance(h, t) > 0.0;
      assert t in Held(h);
    }
  }

  /** The chain's answers and the draws during one round of `processWallet`'s loop. */
  datatype Round = Round(
    holdings: Holdings,
    actionDraw: Draw,
    pickDraw: Draw,
    sourceBalance: real,  // tokenA's balance, read again before the swap
    amount: nat,          // 40-100 % of that balance, in base units
    allowance: nat,       // the router's allowance for tokenA
    simulated: bool,      // the simulation and tokenB's decimals read, in one try, both returned
    executed: bool)       // exactInputSingle was broadcast and confirmed; false also when the send threw

  /** How far a round with a token pair got. */
  datatype SwapResult = ZeroSourceBalance | ZeroAmount | SimulationFailed | ExecutionFailed | Swapped

  datatype RoundOutcome =
    | NothingToSell
    | Attempted(tokenA: ContestToken, tokenB: ContestToken, result: SwapResult)

  /** A swap transaction was attempted in this round (it may have thrown before broadcasting). */
  predicate Submitted(outcome: RoundOutcome)
  {
    outcome.Attempted? && (outcome.result == ExecutionFailed || outcome.result == Swapped)
  }

  /** How many rounds attempted a swap transaction. */
  function SubmittedRounds(outcomes: seq<RoundOutcome>): nat
  {
    if outcomes == [] then 0
    else SubmittedRounds(outcomes[..|outcomes| - 1]) + if Submitted(outcomes[|outcomes| - 1]) then 1 else 0
  }

  /** The token pair a round works with, drawn from the balances it read, or None when there is nothing to sell. */
  function RoundPair(round: Round): (pair: Option<(ContestToken, ContestToken)>)
    ensures pair.Some? ==> (pair.value.0 == SUSDT) != (pair.value.1 == SUSDT)
  {
    SelectPair(round.holdings, DrawAction(round.holdings, round.actionDraw), round.pickDraw)
  }

  /**
   * How one round ends: the pair selection, then the `continue`s on a zero
   * source balance, a zero amount, a failed simulation and a failed
   * execution, in that order.
   */
  function RoundOutcomeOf(round: Round): (outcome: RoundOutcome)
    ensures outcome.Attempted? ==> (outcome.tokenA == SUSDT) != (outcome.tokenB == SUSDT)
    ensures outcome.NothingToSell? <==> RoundPair(round).None?
    ensures outcome.Attempted? ==> (outcome.tokenA, outcome.tokenB) == RoundPair(round).value
    ensures outcome.Attempted? ==> (outcome.result == ZeroSourceBalance <==> round.sourceBalance == 0.0)
    ensures outcome.Attempted? ==> (outcome.result == ZeroAmount <==> round.sourceBalance != 0.0 && round.amount == 0)
    ensures outcome.Attempted? ==>
              (outcome.result == Swapped <==> round.sourceBalance != 0.0 && round.amount > 0 && round.simulated && round.executed)
    ensures Submitted(outcome) ==> round.amount > 0 && round.simulated
  {
    match RoundPair(round)
    case None => NothingToSell
    case Some((tokenA, tokenB)) =>
      Attempted(tokenA, tokenB,
        if round.sourceBalance == 0.0 then ZeroSourceBalance
        else if round.amount == 0 then ZeroAmount
        else if !round.simulated then SimulationFailed
        else if !round.executed then ExecutionFailed
        else Swapped)
  }

  /** The calls a round makes: none before its pair has a positive amount, then a simulated swap. */
  function RoundCalls(wallet: Wallet, round: Round): seq<Call<ContestToken>>
  {
    match RoundOutcomeOf(round)
    case NothingToSell => []
    case Attempted(tokenA, tokenB, result) =>
      if result == ZeroSourceBalance || result == ZeroAmount then []
      else SimulatedSwapCalls(tokenA, tokenB, wallet.address, round.amount, round.allowance, round.simulated, round.executed)
  }

  /**
   * A round's swap transaction comes right after a successful simulation of
   * the same intent, its intents have the fixed shape, and it sends one
   * transaction exactly when RoundOutcomeOf says it reached execution.
   */
  lemma RoundCallsTrace(wallet: Wallet, round: Round)
    ensures var calls := RoundCalls(wallet, round);
            && SimulatedBeforeExecuted(calls) && IntentsFor(calls, wallet.address)
            && (calls != [] ==> !calls[0].Execute?)
            && Executions(calls) == if Submitted(RoundOutcomeOf(round)) then 1 else 0
  {
    var outcome := RoundOutcomeOf(round);
    if outcome.Attempted? && outcome.result != ZeroSourceBalance && outcome.result != ZeroAmount {
      SimulatedSwapTrace(outcome.tokenA, outcome.tokenB, wallet.address, round.amount, round.allowance,
                         round.simulated, round.executed);
    }
  }

  /** One pass of `processWallet`'s loop body: its outcome and the calls it makes. */
  method PlayRound(wallet: Wallet, round: Round) returns (outcome: RoundOutcome, calls: seq<Call<ContestToken>>)
    ensures outcome == RoundOutcomeOf(round)
    ensures calls == RoundCalls(wallet, round)
  {
    calls := [];
    var action := DrawAction(round.holdings, round.actionDraw);
    var pair := SelectPair(round.holdings, action, round.pickDraw);
    assert pair == RoundPair(round);
    if pair.None? {
      return NothingToSell, calls;
    }
    var tokenA, tokenB := pair.value.0, pair.value.1;
    if round.sourceBalance == 0.0 {
      return Attempted(tokenA, tokenB, ZeroSourceBalance), calls;
    }
    if round.amount == 0 {
      return Attempted(tokenA, tokenB, ZeroAmount), calls;
    }
    calls := ApprovalGate(tokenA, round.allowance, round.amount);
    var swapParams := SwapIntent(tokenA, tokenB, PoolFee, wallet.address, round.amount, 0, 0);
    calls := calls + [Simulate(swapParams, round.simulated)];
    if !round.simulated {
      return Attempted(tokenA, tokenB, SimulationFailed), calls;
    }
    calls := calls + [Execute(swapParams, None, round.executed)];
    if !round.executed {
      return Attempted(tokenA, tokenB, ExecutionFailed), calls;
    }
    outcome := Attempted(tokenA, tokenB, Swapped);
  }

  /** The outcomes of a sequence of rounds, each played on its own. */
  function RoundOutcomes(rounds: seq<Round>): (outcomes: seq<RoundOutcome>)
    ensures |outcomes| == |rounds|
  {
    if rounds == [] then []
    else RoundOutcomes(rounds[..|rounds| - 1]) + [RoundOutcomeOf(rounds[|rounds| - 1])]
  }

  /** Round k's outcome is the one RoundOutcomeOf gives for round k: no round depends on an earlier failure. */
  lemma {:induction false} RoundOutcomesAt(rounds: seq<Round>, k: nat)
    requires k < |rounds|
    ensures RoundOutcomes(rounds)[k] == RoundOutcomeOf(rounds[k])
  {
    var n := |rounds| - 1;
    var prefix := RoundOutcomes(rounds[..n]);
    var last := RoundOutcomeOf(rounds[n]);
    assert RoundOutcomes(rounds) == prefix + [last];
    if k < n {
      RoundOutcomesAt(rounds[..n], k);
      assert rounds[..n][k] == rounds[k];
      SnocAt(prefix, last, k);
    } else {
      SnocAt(prefix, last, k);
    }
  }

  /** The calls of a sequence of rounds, each played on its own, in order. */
  function RoundsCalls(wallet: Wallet, rounds: seq<Round>): seq<Call<ContestToken>>
  {
    if rounds == [] then []
    else RoundsCalls(wallet, rounds[..|rounds| - 1]) + RoundCalls(wallet, rounds[|rounds| - 1])
  }

  /** One more round adds exactly its own calls after those of the rounds before it. */
  lemma RoundsCallsSnoc(wallet: Wallet, played: seq<Round>, round: Round)
    ensures RoundsCalls(wallet, played + [round]) == RoundsCalls(wallet, played) + RoundCalls(wallet, round)
  {
    assert (played + [round])[..|played|] == played;
  }

  /**
   * Playing one more round keeps `processWallet`'s loop invariant: the
   * outcomes are those of the rounds played, the trace is well formed, and
   * it holds one transaction per round that reached execution.
   */
  lemma {:induction false} PlayRoundKeepsInvariant(wallet: Wallet, played: seq<Round>, round: Round,
                                                   outcomes: seq<RoundOutcome>, calls: seq<Call<ContestToken>>)
    requires outcomes == RoundOutcomes(played)
    requires SimulatedBeforeExecuted(calls) && IntentsFor(calls, wallet.address)
    requires Executions(calls) == SubmittedRounds(outcomes)
    ensures outcomes + [RoundOutcomeOf(round)] == RoundOutcomes(played + [round])
    ensures var after := calls + RoundCalls(wallet, round);
            && SimulatedBeforeExecuted(after) && IntentsFor(after, wallet.address)
            && Executions(after) == SubmittedRounds(outcomes + [RoundOutcomeOf(round)])
  {
    var outcome := RoundOutcomeOf(round);
    RoundCallsTrace(wallet, round);
    TraceAppend(calls, RoundCalls(wallet, round), wallet.address);
    assert (played + [round])[..|played|] == played;
    DropLast(outcomes, outcome);
  }

  /**
   * `processWallet`: nothing without native balance; otherwise exactly
   * `numSwaps` rounds, each ending as RoundOutcomeOf says, since every failure
   * only skips its round. Every swap transaction follows a successful
   * simulation of the same intent, every intent has the fixed shape, and one
   * transaction is sent per round that reached execution.
   */
  method ProcessWallet(wallet: Wallet, nativeBalance: nat, countDraw: Draw, rounds: seq<Round>)
    returns (outcomes: seq<RoundOutcome>, calls: seq<Call<ContestToken>>)
    requires |rounds| >= SwapCount(countDraw)
    ensures nativeBalance == 0 ==> outcomes == [] && calls == []
    ensures nativeBalance > 0 ==> outcomes == RoundOutcomes(rounds[..SwapCount(countDraw)])
    ensures nativeBalance > 0 ==> calls == RoundsCalls(wallet, rounds[..SwapCount(countDraw)])
    ensures SimulatedBeforeExecuted(calls)
    ensures IntentsFor(calls, wallet.address)
    ensures Executions(calls) == SubmittedRounds(outcomes)
  {
    outcomes, calls := [], [];
    if nativeBalance == 0 {
      return;
    }
    var numSwaps := SwapCount(countDraw);
    for i := 0 to numSwaps
      invariant outcomes == RoundOutcomes(rounds[..i])
      invariant calls == RoundsCalls(wallet, rounds[..i])
      invariant SimulatedBeforeExecuted(calls)
      invariant IntentsFor(calls, wallet.address)
      invariant Executions(calls) == SubmittedRounds(outcomes)
    {
      var outcome, roundCalls := PlayRound(wallet, rounds[i]);
      PlayRoundKeepsInvariant(wallet, rounds[..i], rounds[i], outcomes, calls);
      RoundsCallsSnoc(wallet, rounds[..i], rounds[i]);
      PrefixSnoc(rounds, i);
      calls := calls + roundCalls;
      outcomes := outcomes + [outcome];
    }
  }
  /** The chain's answers and the draws while one wallet is processed. */
  datatype WalletRun = WalletRun(nativeBalance: nat, countDraw: Draw, rounds: seq<Round>)

  /** The draws and answers last for every round the wallet may play. */
  predicate Playable(run: WalletRun)
  {
    |run.rounds| >= SwapCount(run.countDraw)
  }

  /** The outcomes `processWallet` produces for one wallet. */
  function WalletOutcomes(run: WalletRun): seq<RoundOutcome>
    requires Playable(run)
  {
    if run.nativeBalance == 0 then [] else RoundOutcomes(run.rounds[..SwapCount(run.countDraw)])
  }

  /** The calls `processWallet` makes for one wallet. */
  function WalletCalls(wallet: Wallet, run: WalletRun): seq<Call<ContestToken>>
    requires Playable(run)
  {
    if run.nativeBalance == 0 then [] else RoundsCalls(wallet, run.rounds[..SwapCount(run.countDraw)])
  }

  /** The calls of a whole run: each wallet's calls, one wallet after the other. */
  function AllCalls(wallets: seq<Wallet>, runs: seq<WalletRun>): seq<Call<ContestToken>>
    requires |runs| == |wallets|
    requires forall i :: 0 <= i < |runs| ==> Playable(runs[i])
  {
    if wallets == [] then []
    else
      var n := |wallets| - 1;
      AllCalls(wallets[..n], runs[..n]) + WalletCalls(wallets[n], runs[n])
  }

  /** One more wallet adds exactly its own calls after those of the wallets before it. */
  lemma AllCallsSnoc(wallets: seq<Wallet>, runs: seq<WalletRun>, i: nat)
    requires |runs| == |wallets| && i < |wallets|
    requires forall k :: 0 <= k < |runs| ==> Playable(runs[k])
    ensures AllCalls(wallets[..i + 1], runs[..i + 1]) == AllCalls(wallets[..i], runs[..i]) + WalletCalls(wallets[i], runs[i])
  {
    assert wallets[..i + 1][..i] == wallets[..i] && runs[..i + 1][..i] == runs[..i];
  }

  /** How many rounds attempted a swap transaction, over several wallets. */
  function SubmittedAll(results: seq<seq<RoundOutcome>>): nat
  {
    if results == [] then 0
    else SubmittedAll(results[..|results| - 1]) + SubmittedRounds(results[|results| - 1])
  }

  /** `main`'s trace invariant survives one more wallet's calls. */
  lemma AppendRunTrace(wallets: seq<Wallet>, i: nat, calls: seq<Call<ContestToken>>, walletCalls: seq<Call<ContestToken>>,
                       results: seq<seq<RoundOutcome>>, outcomes: seq<RoundOutcome>)
    requires i < |wallets|
    requires SimulatedBeforeExecuted(calls) && SessionIntents(calls, wallets)
    requires Executions(calls) == SubmittedAll(results)
    requires SimulatedBeforeExecuted(walletCalls) && IntentsFor(walletCalls, wallets[i].address)
    requires Executions(walletCalls) == SubmittedRounds(outcomes)
    ensures SimulatedBeforeExecuted(calls + walletCalls) && SessionIntents(calls + walletCalls, wallets)
    ensures Executions(calls + walletCalls) == SubmittedAll(results + [outcomes])
  {
    AppendWalletTrace(wallets, i, calls, walletCalls);
    SubmittedAllSnoc(results, outcomes);
  }

  /** One more wallet's attempted swaps add to those of the wallets before it. */
  lemma SubmittedAllSnoc(results: seq<seq<RoundOutcome>>, outcomes: seq<RoundOutcome>)
    ensures SubmittedAll(results + [outcomes]) == SubmittedAll(results) + SubmittedRounds(outcomes)
  {
    DropLast(results, outcomes);
  }

  /**
   * `main`: `processWallet` for every wallet, in the (shuffled) order given.
   * Each wallet plays its own rounds whatever happened to the others; over
   * the whole run every swap transaction follows a successful simulation of
   * the same intent, is paid to one of the wallets, and one is sent per round
   * that reached execution.
   */
  method ProcessAllWallets(wallets: seq<Wallet>, runs: seq<WalletRun>) returns (results: seq<seq<RoundOutcome>>, calls: seq<Call<ContestToken>>)
    requires |runs| == |wallets|
    requires forall i :: 0 <= i < |runs| ==> Playable(runs[i])
    ensures |results| == |wallets|
    ensures forall i :: 0 <= i < |wallets| ==> results[i] == WalletOutcomes(runs[i])
    ensures calls == AllCalls(wallets, runs)
    ensures SimulatedBeforeExecuted(calls)
    ensures SessionIntents(calls, wallets)
    ensures Executions(calls) == SubmittedAll(results)
  {
    results, calls := [], [];
    for i := 0 to |wallets|
      invariant |results| == i
      invariant forall k :: 0 <= k < i ==> results[k] == WalletOutcomes(runs[k])
      invariant calls == AllCalls(wallets[..i], runs[..i])
      invariant SimulatedBeforeExecuted(calls)
      invariant SessionIntents(calls, wallets)
      invariant Executions(calls) == SubmittedAll(results)
    {
      var run := runs[i];
      var outcomes, walletCalls := ProcessWallet(wallets[i], run.nativeBalance, run.countDraw, run.rounds);
      assert walletCalls == WalletCalls(wallets[i], run);
      AllCallsSnoc(wallets, runs, i);
      AppendRunTrace(wallets, i, calls, walletCalls, results, outcomes);
      assert outcomes == WalletOutcomes(run);
      forall k | 0 <= k <= i
        ensures (results + [outcomes])[k] == WalletOutcomes(runs[k])
      {
        SnocAt(results, outcomes, k);
      }
      calls := calls + walletCalls;
      results := results + [outcomes];
    }
    assert wallets[..|wallets|] == wallets && runs[..|runs|] == runs;
  }
}
