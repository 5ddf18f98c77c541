/**
 * The interactive swap of the memecoin trading contest. Each pass of the
 * loop asks for a wallet when none is current, a source token and, for a
 * SUSDT source, a target; it approves the router if needed and sends the
 * swap with a gas limit in [120000, 200000] and fees at the base fee plus
 * 10 %, without simulating it first. A failed swap goes round again with the
 * same wallet; declining another swap ends the loop; answering "n" to the
 * same-wallet question makes the next pass ask for a wallet again.
 */
module MemecoinSwap {
  import opened Wrappers
  import opened Draws
  import opened Chain
  import opened Tokens
  import opened Text

  /** A token of the target list: every contest token but SUSDT. */
  type NonSusdtToken = t: ContestToken | t != SUSDT witness SOMINI

  /**
   * tokenB: the target picked from the list when the source is SUSDT, and
   * SUSDT, with no prompt, for any other source. Exactly one side is SUSDT.
   */
  function Target(source: ContestToken, picked: NonSusdtToken): (target: ContestToken)
    ensures target != source
    ensures source == SUSDT ==> target == picked && target in NonSusdtTokens
    ensures source != SUSDT ==> target == SUSDT
  {
    if source == SUSDT then picked else SUSDT
  }

  /** `Math.floor(Math.random() * (200000 - 120000 + 1)) + 120000`. */
  function SwapGasLimit(r: Draw): (gas: nat)
    ensures 120000 <= gas <= 200000
  {
    RandomInt(r, 120000, 200000)
  }

  /** The options the swap is sent with: the random gas limit and both fee fields at the base fee plus 10 %. */
  function SwapOptions(baseFee: nat, gasDraw: Draw): (options: TxOptions)
    ensures 120000 <= options.gasLimit <= 200000
    ensures options.maxFeePerGas == options.maxPriorityFeePerGas == FeePlus10Percent(baseFee)
    ensures baseFee <= options.maxFeePerGas
  {
    var fee := BasePlusExtraFee(baseFee);
    TxOptions(SwapGasLimit(gasDraw), fee, fee)
  }

  /** The answers, draws and chain results one pass of the loop consumes. */
  datatype Pass = Pass(
    walletId: string,        // typed only when there is no current wallet
    source: ContestToken,    // the source list's answer
    picked: NonSusdtToken,   // the target list's answer, asked only for a SUSDT source
    amountIn: int,           // parseUnits(amountToSwap, decimals); negative for a typed "-1"
    allowance: nat,          // the router's allowance for the source token
    baseFee: nat,            // the latest block's baseFeePerGas
    gasDraw: Draw,
    executed: bool,          // exactInputSingle was broadcast and confirmed; false also when the send threw
    anotherSwap: bool,
    useSameWallet: string)

  /** The calls a pass makes with its wallet: the approval gate, then the swap, with no simulation. */
  function PassCalls(wallet: Wallet, pass: Pass): (calls: seq<Call<ContestToken>>)
    ensures calls != [] && calls[|calls| - 1].Execute?
    ensures calls == ApprovalGate(pass.source, pass.allowance, pass.amountIn) + [calls[|calls| - 1]]
    ensures Executions(calls) == 1
    ensures NoSimulation(calls)
    ensures IntentsFor(calls, wallet.address)
    ensures var swap := calls[|calls| - 1];
            && swap.intent.tokenIn == pass.source
            && swap.intent.tokenOut == Target(pass.source, pass.picked)
            && swap.intent.amountIn == pass.amountIn
            && swap.options == Some(SwapOptions(pass.baseFee, pass.gasDraw))
            && swap.succeeded == pass.executed
  {
    var gate := ApprovalGate(pass.source, pass.allowance, pass.amountIn);
    var intent := SwapIntent(pass.source, Target(pass.source, pass.picked), PoolFee, wallet.address, pass.amountIn, 0, 0);
    var calls := gate + [Execute(intent, Some(SwapOptions(pass.baseFee, pass.gasDraw)), pass.executed)];
    assert calls[..|calls| - 1] == gate;
    assert Executions(gate) == 0 by {
      if gate != [] {
        assert gate[..0] == [];
      }
    }
    calls
  }

  /** The trace holds no simulation call. */
  predicate NoSimulation(calls: seq<Call<ContestToken>>)
  {
    forall k :: 0 <= k < |calls| ==> !calls[k].Simulate?
  }

  /** Traces without simulation concatenate. */
  lemma NoSimulationAppend(a: seq<Call<ContestToken>>, b: seq<Call<ContestToken>>)
    requires NoSimulation(a) && NoSimulation(b)
    ensures NoSimulation(a + b)
  {
    forall k | 0 <= k < |a + b|
      ensures !(a + b)[k].Simulate?
    {
      if k >= |a| {
        assert (a + b)[k] == b[k - |a|];
      }
    }
  }

  /**
   * One pass of `while (keepSwapping)`: the loop state afterwards and the
   * calls made. An unknown wallet id exits with no call. Otherwise the swap
   * is sent; a failure keeps the wallet and the loop without further
   * prompts; declining another swap ends the loop; otherwise the wallet is
   * dropped exactly on "n" or "N".
   */
  function Step(wallets: seq<Wallet>, s: Session, pass: Pass): (r: (Session, seq<Call<ContestToken>>))
    requires Running(s)
    ensures var active := ActiveWallet(wallets, s.currentWallet, pass.walletId);
            && (r.0.exited <==> active.None?)
            && (active.None? ==> r.1 == [])
            && (active.Some? ==> r.1 == PassCalls(active.value, pass))
            && (active.Some? && !pass.executed ==> r.0 == Session(true, active, false))
            && (active.Some? && pass.executed && !pass.anotherSwap ==> !r.0.keepSwapping && !r.0.exited)
            && (active.Some? && pass.executed && pass.anotherSwap ==>
                  && Running(r.0)
                  && (r.0.currentWallet.None? <==> pass.useSameWallet == "n" || pass.useSameWallet == "N")
                  && (r.0.currentWallet.Some? ==> r.0.currentWallet == active))
  {
    var active := ActiveWallet(wallets, s.currentWallet, pass.walletId);
    if active.None? then (Session(s.keepSwapping, None, true), [])
    else
      var calls := PassCalls(active.value, pass);
      if !pass.executed then (Session(true, active, false), calls)
      else if !pass.anotherSwap then (Session(false, active, false), calls)
      else (Session(true, if KeepsWallet(pass.useSameWallet) then active else None, false), calls)
  }

  /** The loop over a list of passes: it stops on an exit, on a declined swap, or when the answers run out. */
  function Replay(wallets: seq<Wallet>, s: Session, passes: seq<Pass>): (r: (Session, seq<Call<ContestToken>>))
    decreases passes
  {
    if !Running(s) || passes == [] then (s, [])
    else
      var step := Step(wallets, s, passes[0]);
      var rest := Replay(wallets, step.0, passes[1..]);
      (rest.0, step.1 + rest.1)
  }

  /** One running pass of the loop, then the rest of the passes. */
  lemma ReplayUnfold(wallets: seq<Wallet>, s: Session, passes: seq<Pass>)
    requires Running(s) && passes != []
    ensures var step := Step(wallets, s, passes[0]);
            var rest := Replay(wallets, step.0, passes[1..]);
            Replay(wallets, s, passes) == (rest.0, step.1 + rest.1)
  {
  }

  /** The current wallet, when there is one, comes from `wallets.json`. */
  predicate KnownWallet(wallets: seq<Wallet>, s: Session)
  {
    s.currentWallet.Some? ==> s.currentWallet.value in wallets
  }

  /**
   * Over a whole session, every call is an approval or a swap of the fixed
   * shape paid to one of the wallets, and none is a simulation.
   */
  lemma {:induction false} ReplayTrace(wallets: seq<Wallet>, s: Session, passes: seq<Pass>)
    requires KnownWallet(wallets, s)
    ensures KnownWallet(wallets, Replay(wallets, s, passes).0)
    ensures SessionIntents(Replay(wallets, s, passes).1, wallets)
    ensures NoSimulation(Replay(wallets, s, passes).1)
    decreases passes
  {
    if Running(s) && passes != [] {
      var step := Step(wallets, s, passes[0]);
      var active := ActiveWallet(wallets, s.currentWallet, passes[0].walletId);
      if active.Some? {
        IntentsForSession(step.1, active.value, wallets);
      }
      ReplayTrace(wallets, step.0, passes[1..]);
      var rest := Replay(wallets, step.0, passes[1..]);
      ReplayUnfold(wallets, s, passes);
      SessionIntentsAppend(step.1, rest.1, wallets);
      NoSimulationAppend(step.1, rest.1);
    }
  }

  /** The state of `main`: the loop variables, and the calls made so far. */
  class SwapSession {
    const wallets: seq<Wallet>
    var keepSwapping: bool
    var currentWallet: Option<Wallet>
    var exited: bool
    var calls: seq<Call<ContestToken>>

    /** The loop variables as a value. */
    function State(): Session
      reads this
    {
      Session(keepSwapping, currentWallet, exited)
    }

    /** `let keepSwapping = true; let currentWallet = null;` */
    constructor (wallets: seq<Wallet>)
      ensures this.wallets == wallets
      ensures State() == Session(true, None, false) && calls == []
    {
      this.wallets := wallets;
      keepSwapping, currentWallet, exited := true, None, false;
      calls := [];
    }

    /** The body of `while (keepSwapping)`. */
    method Iterate(pass: Pass)
      requires Running(State())
      modifies this
      ensures State() == Step(wallets, old(State()), pass).0
      ensures calls == old(calls) + Step(wallets, old(State()), pass).1
    {
      if currentWallet.None? {
        currentWallet := FindWallet(wallets, pass.walletId);
        if currentWallet.None? {
          exited := true;
          return;
        }
      }
      var walletAddress := currentWallet.value.address;
      var tokenA := pass.source;
      var tokenB := if tokenA == SUSDT then pass.picked else SUSDT;
      ghost var before := calls;
      var gate := ApprovalGate(tokenA, pass.allowance, pass.amountIn);
      calls := calls + gate;
      var baseFee := pass.baseFee;
      var extraFee := baseFee * 10 / 100;
      var maxFeePerGas := baseFee + extraFee;
      var maxPriorityFeePerGas := baseFee + extraFee;
      var gasLimit := RandomInt(pass.gasDraw, 120000, 200000);
      var txOptions := TxOptions(gasLimit, maxFeePerGas, maxPriorityFeePerGas);
      var swapParams := SwapIntent(tokenA, tokenB, PoolFee, walletAddress, pass.amountIn, 0, 0);
      var swap := Execute(swapParams, Some(txOptions), pass.executed);
      calls := calls + [swap];
      assert txOptions == SwapOptions(pass.baseFee, pass.gasDraw);
      assert gate + [swap] == PassCalls(currentWallet.value, pass);
      ConcatAssociative(before, gate, [swap]);
      if !pass.executed {
        return;
      }
      if !pass.anotherSwap {
        keepSwapping := false;
        return;
      }
      if Lower(pass.useSameWallet) == "n" {
        currentWallet := None;
      }
    }

    /** `main`'s loop, fed with a finite list of passes. */
    method Run(passes: seq<Pass>)
      modifies this
      ensures State() == Replay(wallets, old(State()), passes).0
      ensures calls == old(calls) + Replay(wallets, old(State()), passes).1
    {
      ghost var goal := Replay(wallets, State(), passes);
      ghost var start := calls;
      var i := 0;
      while Running(State()) && i < |passes|
        invariant 0 <= i <= |passes|
        invariant goal.0 == Replay(wallets, State(), passes[i..]).0
        invariant start + goal.1 == calls + Replay(wallets, State(), passes[i..]).1
      {
        ghost var before, beforeCalls := State(), calls;
        ghost var step := Step(wallets, before, passes[i]);
        ghost var rest := Replay(wallets, step.0, passes[i + 1..]);
        ReplayUnfold(wallets, before, passes[i..]);
        assert passes[i..][1..] == passes[i + 1..];
        Iterate(passes[i]);
        ConcatAssociative(beforeCalls, step.1, rest.1);
        i := i + 1;
      }
    }
  }
}
