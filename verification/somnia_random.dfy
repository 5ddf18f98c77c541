/**
 * The automatic PONG/PING trader. A wallet without gas money or without
 * either token is skipped; otherwise it runs 10 to 18 rounds in a random
 * direction, and the first round that cannot complete ends the whole wallet.
 */
module SomniaRandom {
  import opened Wrappers
  import opened Draws
  import opened Chain
  import opened Tokens

  /** `Math.floor(Math.random() * 2)`: the direction of a round. */
  function Direction(r: Draw): (d: nat)
    ensures d < 2
  {
    RandomIndex(r, 2)
  }

  /**
   * (tokenA, tokenB) for a direction: 0 swaps PONG for PING, 1 swaps PING
   * for PONG; the two sides are always the two different pool tokens.
   */
  function SwapPair(d: nat): (pair: (PoolToken, PoolToken))
    requires d < 2
    ensures pair.0 != pair.1
    ensures pair.0 == PoolTokens[d] && pair.1 == PoolTokens[1 - d]
  {
    var tokenA := if d == 0 then PoolTokens[0] else PoolTokens[1];
    var tokenB := if d == 0 then PoolTokens[1] else PoolTokens[0];
    (tokenA, tokenB)
  }

  /** Both directions occur: draws below 0.5 swap PONG for PING, the others PING for PONG. */
  lemma DirectionByDraw(r: Draw)
    ensures SwapPair(Direction(r)) == if r < 0.5 then (PONG, PING) else (PING, PONG)
  {
    if r < 0.5 {
      assert r * 2 as real < 1.0;
    } else {
      assert r * 2 as real >= 1.0;
    }
  }

  /** The chain's answers and the draws during one round of `processWallet`'s loop. */
  datatype Round = Round(
    directionDraw: Draw,
    balanceA: real,    // tokenA's formatted balance
    balanceB: real,    // tokenB's formatted balance
    amount: nat,       // 40-100 % of tokenA's balance, in base units
    allowance: nat,    // the router's allowance for tokenA
    simulated: bool,   // the simulation and tokenB's decimals read, in one try, both returned
    executed: bool)    // exactInputSingle was broadcast and confirmed; false also when the send threw

  /** How far a round got. Everything but Swapped ends the wallet. */
  datatype SwapResult = BothZero | ZeroAmount | SimulationFailed | ExecutionFailed | Swapped

  datatype RoundOutcome = RoundOutcome(tokenA: PoolToken, tokenB: PoolToken, result: SwapResult)

  /** A swap transaction was attempted in this round (it may have thrown before broadcasting). */
  predicate Submitted(outcome: RoundOutcome)
  {
    outcome.result == ExecutionFailed || outcome.result == Swapped
  }

  /** How many rounds attempted a swap transaction. */
  function SubmittedRounds(outcomes: seq<RoundOutcome>): nat
  {
    if outcomes == [] then 0
    else SubmittedRounds(outcomes[..|outcomes| - 1]) + if Submitted(outcomes[|outcomes| - 1]) then 1 else 0
  }

  /**
   * How one round ends: the direction, then the `return`s on two zero
   * balances, a zero amount, a failed simulation and a failed execution.
   */
  function RoundOutcomeOf(round: Round): (outcome: RoundOutcome)
    ensures outcome.tokenA != outcome.tokenB
    ensures outcome.result == BothZero <==> round.balanceA == 0.0 && round.balanceB == 0.0
    ensures outcome.result == ZeroAmount <==> !(round.balanceA == 0.0 && round.balanceB == 0.0) && round.amount == 0
    ensures outcome.result == Swapped <==>
              !(round.balanceA == 0.0 && round.balanceB == 0.0) && round.amount > 0 && round.simulated && round.executed
    ensures Submitted(outcome) ==> round.amount > 0 && round.simulated
  {
    var pair := SwapPair(Direction(round.directionDraw));
    RoundOutcome(pair.0, pair.1,
      if round.balanceA == 0.0 && round.balanceB == 0.0 then BothZero
      else if round.amount == 0 then ZeroAmount
      else if !round.simulated then SimulationFailed
      else if !round.executed then ExecutionFailed
      else Swapped)
  }

  /** The calls a round makes: none on two zero balances or a zero amount, otherwise a simulated swap. */
  function RoundCalls(wallet: Wallet, round: Round): seq<Call<PoolToken>>
  {
    var outcome := RoundOutcomeOf(round);
    if outcome.result == BothZero || outcome.result == ZeroAmount then []
    else SimulatedSwapCalls(outcome.tokenA, outcome.tokenB, wallet.address, round.amount, round.allowance,
                            round.simulated, round.executed)
  }

  /**
   * A round's swap transaction comes right after a successful simulation of
   * the same intent, its intents have the fixed shape, and it sends one
   * transaction exactly when RoundOutcomeOf says it reached execution.
   */
  lemma RoundCallsTrace(wallet: Wallet, round: Round)
    ensures var calls := RoundCalls(wallet, round);
            && SimulatedBeforeExecuted(calls) && IntentsFor(calls, wallet.address)
            && (calls != [] ==> !calls[0].Execute?)
            && Executions(calls) == if Submitted(RoundOutcomeOf(round)) then 1 else 0
  {
    var outcome := RoundOutcomeOf(round);
    if outcome.result != BothZero && outcome.result != ZeroAmount {
      SimulatedSwapTrace(outcome.tokenA, outcome.tokenB, wallet.address, round.amount, round.allowance,
                         round.simulated, round.executed);
    }
  }

  /**
   * Playing one more round keeps the trace part of `processWallet`'s loop
   * invariant: the trace stays well formed and holds one transaction per
   * round that reached execution.
   */
  lemma PlayRoundKeepsTrace(wallet: Wallet, round: Round, outcomes: seq<RoundOutcome>, calls: seq<Call<PoolToken>>)
    requires SimulatedBeforeExecuted(calls) && IntentsFor(calls, wallet.address)
    requires Executions(calls) == SubmittedRounds(outcomes)
    ensures var after := calls + RoundCalls(wallet, round);
            && SimulatedBeforeExecuted(after) && IntentsFor(after, wallet.address)
            && Executions(after) == SubmittedRounds(outcomes + [RoundOutcomeOf(round)])
  {
    RoundCallsTrace(wallet, round);
    TraceAppend(calls, RoundCalls(wallet, round), wallet.address);
    DropLast(outcomes, RoundOutcomeOf(round));
  }

  /** One pass of `processWallet`'s loop body: its outcome and the calls it makes. */
  method PlayRound(wallet: Wallet, round: Round) returns (outcome: RoundOutcome, calls: seq<Call<PoolToken>>)
    ensures outcome == RoundOutcomeOf(round)
    ensures calls == RoundCalls(wallet, round)
  {
    calls := [];
    var swapDirection := Direction(round.directionDraw);
    var (tokenA, tokenB) := SwapPair(swapDirection);
    if round.balanceA == 0.0 && round.balanceB == 0.0 {
      return RoundOutcome(tokenA, tokenB, BothZero), calls;
    }
    if round.amount == 0 {
      return RoundOutcome(tokenA, tokenB, ZeroAmount), calls;
    }
    calls := ApprovalGate(tokenA, round.allowance, round.amount);
    var swapParams := SwapIntent(tokenA, tokenB, PoolFee, wallet.address, round.amount, 0, 0);
    calls := calls + [Simulate(swapParams, round.simulated)];
    if !round.simulated {
      return RoundOutcome(tokenA, tokenB, SimulationFailed), calls;
    }
    calls := calls + [Execute(swapParams, None, round.executed)];
    if !round.executed {
      return RoundOutcome(tokenA, tokenB, ExecutionFailed), calls;
    }
    outcome := RoundOutcome(tokenA, tokenB, Swapped);
  }

  /** The rounds played in order until the first one that does not swap, which ends the wallet. */
  function RoundsUntilFailure(rounds: seq<Round>): (outcomes: seq<RoundOutcome>)
    ensures |outcomes| <= |rounds|
  {
    if rounds == [] then []
    else
      var outcome := RoundOutcomeOf(rounds[0]);
      if outcome.result != Swapped then [outcome] else [outcome] + RoundsUntilFailure(rounds[1..])
  }

  /** Each round played ends as RoundOutcomeOf says, and every round but the last one played swapped. */
  lemma {:induction false} RoundsUntilFailureAt(rounds: seq<Round>, k: nat)
    requires k < |RoundsUntilFailure(rounds)|
    ensures RoundsUntilFailure(rounds)[k] == RoundOutcomeOf(rounds[k])
    ensures k < |RoundsUntilFailure(rounds)| - 1 ==> RoundsUntilFailure(rounds)[k].result == Swapped
  {
    if k > 0 {
      RoundsUntilFailureAt(rounds[1..], k - 1);
      assert rounds[1..][k - 1] == rounds[k];
    }
  }

  /**
   * A failed round ends the wallet: at least one round is played when there
   * is one, and stopping before the end means the last round played failed.
   */
  lemma {:induction false} RoundsUntilFailureStops(rounds: seq<Round>)
    ensures var outcomes := RoundsUntilFailure(rounds);
            && (rounds != [] ==> 1 <= |outcomes|)
            && (0 < |outcomes| < |rounds| ==> outcomes[|outcomes| - 1].result != Swapped)
  {
    if rounds != [] && RoundOutcomeOf(rounds[0]).result == Swapped {
      RoundsUntilFailureStops(rounds[1..]);
    }
  }

  /** The calls of the rounds played in order until the first one that does not swap. */
  function CallsUntilFailure(wallet: Wallet, rounds: seq<Round>): seq<Call<PoolToken>>
  {
    if rounds == [] then []
    else
      RoundCalls(wallet, rounds[0]) +
        if RoundOutcomeOf(rounds[0]).result != Swapped then [] else CallsUntilFailure(wallet, rounds[1..])
  }

  /** Playing from round i: round i's outcome and calls, then the later rounds only if round i swapped. */
  lemma UntilFailureStep(wallet: Wallet, rounds: seq<Round>, i: nat, n: nat)
    requires i < n <= |rounds|
    ensures var o := RoundOutcomeOf(rounds[i]);
            && RoundsUntilFailure(rounds[i..n]) ==
                 [o] + (if o.result != Swapped then [] else RoundsUntilFailure(rounds[i + 1..n]))
            && CallsUntilFailure(wallet, rounds[i..n]) ==
                 RoundCalls(wallet, rounds[i]) + (if o.result != Swapped then [] else CallsUntilFailure(wallet, rounds[i + 1..n]))
  {
    SliceDropFirst(rounds, i, n);
  }

  /**
   * `processWallet`: nothing without native balance or when both token
   * balances are zero; otherwise the first `numSwaps` rounds are played
   * until one fails. Every swap transaction follows a successful simulation
   * of the same intent, and one is sent per round that reached execution.
   */
  method ProcessWallet(wallet: Wallet, nativeBalance: nat, pongBalance: real, pingBalance: real,
                       countDraw: Draw, rounds: seq<Round>)
    returns (outcomes: seq<RoundOutcome>, calls: seq<Call<PoolToken>>)
    requires |rounds| >= SwapCount(countDraw)
    ensures nativeBalance == 0 || (pongBalance == 0.0 && pingBalance == 0.0) ==> outcomes == [] && calls == []
    ensures nativeBalance > 0 && (pongBalance != 0.0 || pingBalance != 0.0) ==>
              outcomes == RoundsUntilFailure(rounds[..SwapCount(countDraw)])
    ensures nativeBalance > 0 && (pongBalance != 0.0 || pingBalance != 0.0) ==>
              calls == CallsUntilFailure(wallet, rounds[..SwapCount(countDraw)])
    ensures SimulatedBeforeExecuted(calls)
    ensures IntentsFor(calls, wallet.address)
    ensures Executions(calls) == SubmittedRounds(outcomes)
  {
    outcomes, calls := [], [];
    if nativeBalance == 0 {
      return;
    }
    if pongBalance == 0.0 && pingBalance == 0.0 {
      return;
    }
    var numSwaps := SwapCount(countDraw);
    ghost var goal := RoundsUntilFailure(rounds[..numSwaps]);
    ghost var callsGoal := CallsUntilFailure(wallet, rounds[..numSwaps]);
    assert rounds[0..numSwaps] == rounds[..numSwaps];
    for i := 0 to numSwaps
      invariant outcomes + RoundsUntilFailure(rounds[i..numSwaps]) == goal
      invariant calls + CallsUntilFailure(wallet, rounds[i..numSwaps]) == callsGoal
      invariant SimulatedBeforeExecuted(calls)
      invariant IntentsFor(calls, wallet.address)
      invariant Executions(calls) == SubmittedRounds(outcomes)
    {
      var outcome, roundCalls := PlayRound(wallet, rounds[i]);
      PlayRoundKeepsTrace(wallet, rounds[i], outcomes, calls);
      UntilFailureStep(wallet, rounds, i, numSwaps);
      ghost var restOutcomes := if outcome.result != Swapped then [] else RoundsUntilFailure(rounds[i + 1..numSwaps]);
      ghost var restCalls := if outcome.result != Swapped then [] else CallsUntilFailure(wallet, rounds[i + 1..numSwaps]);
      ConcatAssociative(outcomes, [outcome], restOutcomes);
      ConcatAssociative(calls, roundCalls, restCalls);
      calls := calls + roundCalls;
      outcomes := outcomes + [outcome];
      if outcome.result != Swapped {
        assert restOutcomes == [] && restCalls == [];
        return;
      }
    }
  }
  /** The chain's answers and the draws while one wallet is processed. */
  datatype WalletRun = WalletRun(nativeBalance: nat, pongBalance: real, pingBalance: real, countDraw: Draw, rounds: seq<Round>)

  /** The draws and answers last for every round the wallet may play. */
  predicate Playable(run: WalletRun)
  {
    |run.rounds| >= SwapCount(run.countDraw)
  }

  /** The outcomes `processWallet` produces for one wallet. */
  function WalletOutcomes(run: WalletRun): seq<RoundOutcome>
    requires Playable(run)
  {
    if run.nativeBalance == 0 || (run.pongBalance == 0.0 && run.pingBalance == 0.0) then []
    else RoundsUntilFailure(run.rounds[..SwapCount(run.countDraw)])
  }

  /** The calls `processWallet` makes for one wallet. */
  function WalletCalls(wallet: Wallet, run: WalletRun): seq<Call<PoolToken>>
    requires Playable(run)
  {
    if run.nativeBalance == 0 || (run.pongBalance == 0.0 && run.pingBalance == 0.0) then []
    else CallsUntilFailure(wallet, run.rounds[..SwapCount(run.countDraw)])
  }

  /** The calls of a whole run: each wallet's calls, one wallet after the other. */
  function AllCalls(wallets: seq<Wallet>, runs: seq<WalletRun>): seq<Call<PoolToken>>
    requires |runs| == |wallets|
    requires forall i :: 0 <= i < |runs| ==> Playable(runs[i])
  {
    if wallets == [] then []
    else
      var n := |wallets| - 1;
      AllCalls(wallets[..n], runs[..n]) + WalletCalls(wallets[n], runs[n])
  }

  /** One more wallet adds exactly its own calls after those of the wallets before it. */
  lemma AllCallsSnoc(wallets: seq<Wallet>, runs: seq<WalletRun>, i: nat)
    requires |runs| == |wallets| && i < |wallets|
    requires forall k :: 0 <= k < |runs| ==> Playable(runs[k])
    ensures AllCalls(wallets[..i + 1], runs[..i + 1]) == AllCalls(wallets[..i], runs[..i]) + WalletCalls(wallets[i], runs[i])
  {
    assert wallets[..i + 1][..i] == wallets[..i] && runs[..i + 1][..i] == runs[..i];
  }

  /** How many rounds attempted a swap transaction, over several wallets. */
  function SubmittedAll(results: seq<seq<RoundOutcome>>): nat
  {
    if results == [] then 0
    else SubmittedAll(results[..|results| - 1]) + SubmittedRounds(results[|results| - 1])
  }

  /** `main`'s trace invariant survives one more wallet's calls. */
  lemma AppendRunTrace(wallets: seq<Wallet>, i: nat, calls: seq<Call<PoolToken>>, walletCalls: seq<Call<PoolToken>>,
                       results: seq<seq<RoundOutcome>>, outcomes: seq<RoundOutcome>)
    requires i < |wallets|
    requires SimulatedBeforeExecuted(calls) && SessionIntents(calls, wallets)
    requires Executions(calls) == SubmittedAll(results)
    requires SimulatedBeforeExecuted(walletCalls) && IntentsFor(walletCalls, wallets[i].address)
    requires Executions(walletCalls) == SubmittedRounds(outcomes)
    ensures SimulatedBeforeExecuted(calls + walletCalls) && SessionIntents(calls + walletCalls, wallets)
    ensures Executions(calls + walletCalls) == SubmittedAll(results + [outcomes])
  {
    AppendWalletTrace(wallets, i, calls, walletCalls);
    SubmittedAllSnoc(results, outcomes);
  }

  /** One more wallet's attempted swaps add to those of the wallets before it. */
  lemma SubmittedAllSnoc(results: seq<seq<RoundOutcome>>, outcomes: seq<RoundOutcome>)
    ensures SubmittedAll(results + [outcomes]) == SubmittedAll(results) + SubmittedRounds(outcomes)
  {
    DropLast(results, outcomes);
  }

  /**
   * `main`: `processWallet` for every wallet, in the (shuffled) order given.
   * A failure ends only its own wallet: the next wallet plays its rounds all
   * the same. Over the whole run every swap transaction follows a successful
   * simulation of the same intent, is paid to one of the wallets, and one is
   * sent per round that reached execution.
   */
  method ProcessAllWallets(wallets: seq<Wallet>, runs: seq<WalletRun>) returns (results: seq<seq<RoundOutcome>>, calls: seq<Call<PoolToken>>)
    requires |runs| == |wallets|
    requires forall i :: 0 <= i < |runs| ==> Playable(runs[i])
    ensures |results| == |wallets|
    ensures forall i :: 0 <= i < |wallets| ==> results[i] == WalletOutcomes(runs[i])
    ensures calls == AllCalls(wallets, runs)
    ensures SimulatedBeforeExecuted(calls)
    ensures SessionIntents(calls, wallets)
    ensures Executions(calls) == SubmittedAll(results)
  {
    results, calls := [], [];
    for i := 0 to |wallets|
      invariant |results| == i
      invariant forall k :: 0 <= k < i ==> results[k] == WalletOutcomes(runs[k])
      invariant calls == AllCalls(wallets[..i], runs[..i])
      invariant SimulatedBeforeExecuted(calls)
      invariant SessionIntents(calls, wallets)
      invariant Executions(calls) == SubmittedAll(results)
    {
      var run := runs[i];
      var outcomes, walletCalls := ProcessWallet(wallets[i], run.nativeBalance, run.pongBalance, run.pingBalance,
                                                 run.countDraw, run.rounds);
      assert walletCalls == WalletCalls(wallets[i], run);
      AllCallsSnoc(wallets, runs, i);
      AppendRunTrace(wallets, i, calls, walletCalls, results, outcomes);
      assert outcomes == WalletOutcomes(run);
      forall k | 0 <= k <= i
        ensures (results + [outcomes])[k] == WalletOutcomes(runs[k])
      {
        SnocAt(results, outcomes, k);
      }
      calls := calls + walletCalls;
      results := results + [outcomes];
    }
    assert wallets[..|wallets|] == wallets && runs[..|runs|] == runs;
  }
}
