/**
 * The interactive PONG/PING swap. Each pass of the loop asks for a wallet
 * when none is current, a source token and a target among the other tokens;
 * it approves the router if needed, simulates the swap and sends it only
 * when the simulation went through. A failed simulation or a failed swap goes
 * round again with the same wallet; declining another swap ends the loop;
 * answering "n" to the same-wallet question makes the next pass ask for a
 * wallet again.
 */
module SomniaSwap {
  import opened Wrappers
  import opened Chain
  import opened Tokens
  import opened Text

  /** An answer of the source list: an index into `tokens`. */
  type TokenIndex = i: nat | i < |PoolTokens|

  /**
   * The indices below n other than `source`, in increasing order: the
   * target list `tokens.filter((_, idx) => idx !== sourceIndex)`, each entry
   * keeping its index in `tokens`.
   */
  function OtherIndices(n: nat, source: nat): (choices: seq<nat>)
    ensures forall k :: 0 <= k < |choices| ==> choices[k] < n && choices[k] != source
    ensures forall t :: 0 <= t < n && t != source ==> t in choices
    ensures forall k, l :: 0 <= k < l < |choices| ==> choices[k] < choices[l]
  {
    if n == 0 then []
    else OtherIndices(n - 1, source) + if n - 1 != source then [n - 1] else []
  }

  /** The target list offered for a source: every other token, in list order. */
  function TargetChoices(source: TokenIndex): (choices: seq<nat>)
    ensures forall k :: 0 <= k < |choices| ==> choices[k] < |PoolTokens| && choices[k] != source
    ensures forall t :: 0 <= t < |PoolTokens| && t != source ==> t in choices
  {
    OtherIndices(|PoolTokens|, source)
  }

  /** With the two pool tokens, the only target offered is the other one. */
  lemma TargetIsTheOtherToken(source: TokenIndex)
    ensures TargetChoices(source) == [1 - source]
  {
    var choices := TargetChoices(source);
    assert 1 - source in choices;
    assert OtherIndices(0, source) == [];
    if source == 0 {
      assert OtherIndices(1, source) == [];
    } else {
      assert OtherIndices(1, source) == [0];
    }
  }

  /** The answers and chain results one pass of the loop consumes. */
  datatype Pass = Pass(
    walletId: string,      // typed only when there is no current wallet
    source: TokenIndex,    // the source list's answer
    target: nat,           // the target list's answer
    amountIn: int,         // parseUnits(amountToSwap, decimals); negative for a typed "-1"
    allowance: nat,        // the router's allowance for the source token
    simulated: bool,       // the simulation and tokenB's decimals read, in one try, both returned
    executed: bool,        // exactInputSingle was broadcast and confirmed; false also when the send threw
    anotherSwap: bool,
    useSameWallet: string)

  /** The target list only offers the entries of TargetChoices. */
  predicate ListAnswers(pass: Pass)
  {
    pass.target in TargetChoices(pass.source)
  }

  /**
   * The calls a pass makes with its wallet: the approval gate, the
   * simulation, and the swap of the source token for the target only when the
   * simulation went through.
   */
  function PassCalls(wallet: Wallet, pass: Pass): (calls: seq<Call<PoolToken>>)
    requires ListAnswers(pass)
    ensures var gate := ApprovalGate(PoolTokens[pass.source], pass.allowance, pass.amountIn);
            |calls| > |gate| && calls[..|gate|] == gate && calls[|gate|].Simulate?
    ensures calls != [] && !calls[0].Execute?
    ensures calls[|calls| - 1].Execute? <==> pass.simulated
    ensures calls[|calls| - 1].Simulate? <==> !pass.simulated
    ensures var swap := calls[|calls| - 1];
            && swap.intent.tokenIn == PoolTokens[pass.source]
            && swap.intent.tokenOut == PoolTokens[pass.target]
            && swap.intent.amountIn == pass.amountIn
            && swap.succeeded == if pass.simulated then pass.executed else false
  {
    SimulatedSwapCalls(PoolTokens[pass.source], PoolTokens[pass.target], wallet.address, pass.amountIn,
                       pass.allowance, pass.simulated, pass.executed)
  }

  /**
   * A pass sends its swap only right after a successful simulation of the
   * same intent, every intent has the fixed shape with the two tokens
   * different, and a pass sends exactly one swap when its simulation went
   * through and none otherwise.
   */
  lemma PassCallsTrace(wallet: Wallet, pass: Pass)
    requires ListAnswers(pass)
    ensures var calls := PassCalls(wallet, pass);
            && SimulatedBeforeExecuted(calls) && IntentsFor(calls, wallet.address)
            && Executions(calls) == if pass.simulated then 1 else 0
  {
    TargetIsTheOtherToken(pass.source);
    SimulatedSwapTrace(PoolTokens[pass.source], PoolTokens[pass.target], wallet.address, pass.amountIn,
                       pass.allowance, pass.simulated, pass.executed);
  }

  /**
   * One pass of `while (keepSwapping)`: the loop state afterwards and the
   * calls made. An unknown wallet id exits with no call. Otherwise a failed
   * simulation or swap keeps the wallet and the loop without further
   * prompts; declining another swap ends the loop; otherwise the wallet is
   * dropped exactly on "n" or "N".
   */
  function Step(wallets: seq<Wallet>, s: Session, pass: Pass): (r: (Session, seq<Call<PoolToken>>))
    requires Running(s) && ListAnswers(pass)
    ensures var active := ActiveWallet(wallets, s.currentWallet, pass.walletId);
            && (r.0.exited <==> active.None?)
            && (active.None? ==> r.1 == [])
            && (active.Some? ==> r.1 == PassCalls(active.value, pass))
            && (active.Some? && !(pass.simulated && pass.executed) ==> r.0 == Session(true, active, false))
            && (active.Some? && pass.simulated && pass.executed && !pass.anotherSwap ==> !r.0.keepSwapping && !r.0.exited)
            && (active.Some? && pass.simulated && pass.executed && pass.anotherSwap ==>
                  && Running(r.0)
                  && (r.0.currentWallet.None? <==> pass.useSameWallet == "n" || pass.useSameWallet == "N")
                  && (r.0.currentWallet.Some? ==> r.0.currentWallet == active))
  {
    var active := ActiveWallet(wallets, s.currentWallet, pass.walletId);
    if active.None? then (Session(s.keepSwapping, None, true), [])
    else
      var calls := PassCalls(active.value, pass);
      if !pass.simulated || !pass.executed then (Session(true, active, false), calls)
      else if !pass.anotherSwap then (Session(false, active, false), calls)
      else (Session(true, if KeepsWallet(pass.useSameWallet) then active else None, false), calls)
  }

  /** Every pass's answers come from the lists offered. */
  predicate AllListAnswers(passes: seq<Pass>)
  {
    forall k :: 0 <= k < |passes| ==> ListAnswers(passes[k])
  }

  /** The loop over a list of passes: it stops on an exit, on a declined swap, or when the answers run out. */
  function Replay(wallets: seq<Wallet>, s: Session, passes: seq<Pass>): (r: (Session, seq<Call<PoolToken>>))
    requires AllListAnswers(passes)
    decreases passes
  {
    if !Running(s) || passes == [] then (s, [])
    else
      var step := Step(wallets, s, passes[0]);
      var rest := Replay(wallets, step.0, passes[1..]);
      (rest.0, step.1 + rest.1)
  }

  /** One running pass of the loop, then the rest of the passes. */
  lemma ReplayUnfold(wallets: seq<Wallet>, s: Session, passes: seq<Pass>)
    requires Running(s) && passes != [] && AllListAnswers(passes)
    ensures AllListAnswers(passes[1..])
    ensures var step := Step(wallets, s, passes[0]);
            var rest := Replay(wallets, step.0, passes[1..]);
            Replay(wallets, s, passes) == (rest.0, step.1 + rest.1)
  {
  }

  /** The current wallet, when there is one, comes from `wallets.json`. */
  predicate KnownWallet(wallets: seq<Wallet>, s: Session)
  {
    s.currentWallet.Some? ==> s.currentWallet.value in wallets
  }

  /**
   * Over a whole session, every swap transaction comes right after a
   * successful simulation of the same intent, and every swap call has the
   * fixed shape and is paid to one of the wallets.
   */
  lemma {:induction false} ReplayTrace(wallets: seq<Wallet>, s: Session, passes: seq<Pass>)
    requires KnownWallet(wallets, s) && AllListAnswers(passes)
    ensures KnownWallet(wallets, Replay(wallets, s, passes).0)
    ensures SimulatedBeforeExecuted(Replay(wallets, s, passes).1)
    ensures SessionIntents(Replay(wallets, s, passes).1, wallets)
    decreases passes
  {
    if Running(s) && passes != [] {
      ReplayUnfold(wallets, s, passes);
      var step := Step(wallets, s, passes[0]);
      var active := ActiveWallet(wallets, s.currentWallet, passes[0].walletId);
      if active.Some? {
        PassCallsTrace(active.value, passes[0]);
        IntentsForSession(step.1, active.value, wallets);
      }
      ReplayTrace(wallets, step.0, passes[1..]);
      var rest := Replay(wallets, step.0, passes[1..]);
      SessionIntentsAppend(step.1, rest.1, wallets);
      SimulatedAppend(step.1, rest.1);
    }
  }

  /** The state of `main`: the loop variables, and the calls made so far. */
  class SwapSession {
    const wallets: seq<Wallet>
    var keepSwapping: bool
    var currentWallet: Option<Wallet>
    var exited: bool
    var calls: seq<Call<PoolToken>>

    /** The loop variables as a value. */
    function State(): Session
      reads this
    {
      Session(keepSwapping, currentWallet, exited)
    }

    /** `let keepSwapping = true; let currentWallet = null;` */
    constructor (wallets: seq<Wallet>)
      ensures this.wallets == wallets
      ensures State() == Session(true, None, false) && calls == []
    {
      this.wallets := wallets;
      keepSwapping, currentWallet, exited := true, None, false;
      calls := [];
    }

    /** The body of `while (keepSwapping)`. */
    method Iterate(pass: Pass)
      requires Running(State()) && ListAnswers(pass)
      modifies this
      ensures State() == Step(wallets, old(State()), pass).0
      ensures calls == old(calls) + Step(wallets, old(State()), pass).1
    {
      if currentWallet.None? {
        currentWallet := FindWallet(wallets, pass.walletId);
        if currentWallet.None? {
          exited := true;
          return;
        }
      }
      var walletAddress := currentWallet.value.address;
      var tokenA := PoolTokens[pass.source];
      var tokenB := PoolTokens[pass.target];
      calls := calls + ApprovalGate(tokenA, pass.allowance, pass.amountIn);
      var swapParams := SwapIntent(tokenA, tokenB, PoolFee, walletAddress, pass.amountIn, 0, 0);
      calls := calls + [Simulate(swapParams, pass.simulated)];
      if !pass.simulated {
        return;
      }
      calls := calls + [Execute(swapParams, None, pass.executed)];
      if !pass.executed {
        return;
      }
      if !pass.anotherSwap {
        keepSwapping := false;
        return;
      }
      if Lower(pass.useSameWallet) == "n" {
        currentWallet := None;
      }
    }

    /** `main`'s loop, fed with a finite list of passes. */
    method Run(passes: seq<Pass>)
      requires AllListAnswers(passes)
      modifies this
      ensures State() == Replay(wallets, old(State()), passes).0
      ensures calls == old(calls) + Replay(wallets, old(State()), passes).1
    {
      ghost var goal := Replay(wallets, State(), passes);
      ghost var start := calls;
      var i := 0;
      while Running(State()) && i < |passes|
        invariant 0 <= i <= |passes|
        invariant AllListAnswers(passes[i..])
        invariant goal.0 == Replay(wallets, State(), passes[i..]).0
        invariant start + goal.1 == calls + Replay(wallets, State(), passes[i..]).1
      {
        ghost var before, beforeCalls := State(), calls;
        ReplayUnfold(wallets, before, passes[i..]);
        assert passes[i..][1..] == passes[i + 1..];
        ghost var step := Step(wallets, before, passes[i]);
        ghost var rest := Replay(wallets, step.0, passes[i + 1..]);
        Iterate(passes[i]);
        ConcatAssociative(beforeCalls, step.1, rest.1);
        i := i + 1;
      }
    }
  }
}
