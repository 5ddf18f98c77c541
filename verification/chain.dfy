/**
 * What the scripts share about wallets, fees, gas and the router: wallet
 * lookup, the base-fee-plus-10% fee cap, the mint gas limit, the swap intent
 * passed to `exactInputSingle`, the trace of router calls and the approval gate.
 */
module Chain {
  import opened Wrappers
  import opened Draws
  import opened Text

  /** An entry of `wallets.json`; the private key only builds a signer and is left out. */
  datatype Wallet = Wallet(id: int, address: string)

  /** Index of the first wallet whose `String(id)` is the typed answer, or -1 when none is. */
  function WalletIndex(wallets: seq<Wallet>, input: string): (k: int)
    ensures -1 <= k < |wallets|
    ensures k >= 0 ==> DecimalString(wallets[k].id) == input
    ensures k >= 0 ==> forall j :: 0 <= j < k ==> DecimalString(wallets[j].id) != input
    ensures k < 0 ==> forall j :: 0 <= j < |wallets| ==> DecimalString(wallets[j].id) != input
  {
    if wallets == [] then -1
    else if DecimalString(wallets[0].id) == input then 0
    else
      var k := WalletIndex(wallets[1..], input);
      if k < 0 then -1 else k + 1
  }

  /** `wallets.find(w => String(w.id) === input)`: the first wallet with that id, if any. */
  function FindWallet(wallets: seq<Wallet>, input: string): (found: Option<Wallet>)
    ensures found.None? <==> forall j :: 0 <= j < |wallets| ==> DecimalString(wallets[j].id) != input
    ensures found.Some? ==> found.value in wallets && DecimalString(found.value.id) == input
    ensures found.Some? ==> exists k :: 0 <= k < |wallets| && found.value == wallets[k] &&
                                        forall j :: 0 <= j < k ==> DecimalString(wallets[j].id) != input
  {
    var k := WalletIndex(wallets, input);
    if k < 0 then None else Some(wallets[k])
  }

  /**
   * `baseFee.mul(110).div(100)`: the base fee plus 10 %, rounded down as
   * BigNumber division does; never below the base fee.
   */
  function FeePlus10Percent(baseFee: nat): (fee: nat)
    ensures 100 * fee <= 110 * baseFee < 100 * fee + 100
    ensures baseFee <= fee
  {
    baseFee * 110 / 100
  }

  /**
   * `baseFee.add(baseFee.mul(10).div(100))`: the manual swap's form of the
   * cap; it is the same number as the mint scripts' `mul(110).div(100)`.
   */
  function BasePlusExtraFee(baseFee: nat): (fee: nat)
    ensures fee == FeePlus10Percent(baseFee)
    ensures baseFee <= fee
  {
    var q, m := baseFee / 10, baseFee % 10;
    assert baseFee == 10 * q + m;
    assert baseFee * 10 == 100 * q + 10 * m;
    assert baseFee * 110 == 100 * (11 * q + m) + 10 * m;
    baseFee + baseFee * 10 / 100
  }

  /** `getRandomGasLimit()` of both mint scripts: an integer in [80000, 150000]. */
  function MintGasLimit(r: Draw): (gas: nat)
    ensures 80000 <= gas <= 150000
  {
    RandomInt(r, 80000, 150000)
  }

  /** `Math.floor(Math.random() * (18 - 10 + 1)) + 10`: how many swaps a random script runs for a wallet. */
  function SwapCount(r: Draw): (n: nat)
    ensures 10 <= n <= 18
  {
    RandomInt(r, 10, 18)
  }

  /** What `provider.getBlock('latest')` gave: an exception, a block (or none) without base fee, or a base fee. */
  datatype BlockRead = Threw | NoBaseFee | BaseFee(fee: nat)

  /** The options object passed with a transaction. */
  datatype TxOptions = TxOptions(gasLimit: nat, maxFeePerGas: nat, maxPriorityFeePerGas: nat)

  /** The fee tier every swap script uses. */
  const PoolFee: nat := 500

  /** `ethers.constants.MaxUint256`. */
  const MaxUint256: nat := 0xFFFF_FFFF_FFFF_FFFF_FFFF_FFFF_FFFF_FFFF_FFFF_FFFF_FFFF_FFFF_FFFF_FFFF_FFFF_FFFF

  /** The `swapParams` object handed to the router's `exactInputSingle`. */
  datatype SwapIntent<T> = SwapIntent(
    tokenIn: T,
    tokenOut: T,
    fee: nat,
    recipient: string,
    amountIn: int,         // parseUnits accepts a negative amount; the router call then fails to encode it
    amountOutMinimum: nat,
    sqrtPriceLimitX96: nat)

  /** What every script's `swapParams` promises: fee 500, no minimum output, no price limit, paid to the wallet. */
  predicate IsScriptIntent<T(==)>(intent: SwapIntent<T>, recipient: string)
  {
    && intent.fee == PoolFee
    && intent.recipient == recipient
    && intent.amountOutMinimum == 0
    && intent.sqrtPriceLimitX96 == 0
    && intent.tokenIn != intent.tokenOut
  }

  /** One call the scripts make on the chain, with its outcome where the script looks at it. */
  datatype Call<T> =
    | Approve(token: T, amount: nat)                                        // approve(router, MaxUint256), awaited
    | Simulate(intent: SwapIntent<T>, succeeded: bool)                      // callStatic.exactInputSingle
    | Execute(intent: SwapIntent<T>, options: Option<TxOptions>, succeeded: bool) // exactInputSingle, then tx.wait()

  /** The call at k, if it is a swap transaction, comes right after a successful simulation of its intent. */
  predicate SimulatedAt<T(==)>(calls: seq<Call<T>>, k: nat)
    requires k < |calls|
  {
    calls[k].Execute? ==> 0 < k && calls[k - 1] == Simulate(calls[k].intent, true)
  }

  /** Every swap transaction comes right after a simulation of the same intent that succeeded. */
  predicate SimulatedBeforeExecuted<T(==)>(calls: seq<Call<T>>)
  {
    forall k: nat :: k < |calls| ==> SimulatedAt(calls, k)
  }

  /** How many swap transactions the trace holds. */
  function Executions<T>(calls: seq<Call<T>>): nat
  {
    if calls == [] then 0
    else Executions(calls[..|calls| - 1]) + if calls[|calls| - 1].Execute? then 1 else 0
  }

  /** Every swap call in the trace carries an intent of the scripts' fixed shape for that wallet. */
  predicate IntentsFor<T(==)>(calls: seq<Call<T>>, recipient: string)
  {
    forall k :: 0 <= k < |calls| && !calls[k].Approve? ==> IsScriptIntent(calls[k].intent, recipient)
  }

  /** Appending one call that is not a swap transaction, or a swap right after its successful simulation. */
  lemma TraceAppendOne<T>(calls: seq<Call<T>>, c: Call<T>, recipient: string)
    requires SimulatedBeforeExecuted(calls) && IntentsFor(calls, recipient)
    requires c.Execute? ==> calls != [] && calls[|calls| - 1] == Simulate(c.intent, true)
    requires !c.Approve? ==> IsScriptIntent(c.intent, recipient)
    ensures SimulatedBeforeExecuted(calls + [c]) && IntentsFor(calls + [c], recipient)
    ensures Executions(calls + [c]) == Executions(calls) + if c.Execute? then 1 else 0
  {
    var r := calls + [c];
    assert r[..|r| - 1] == calls;
    forall k: nat | k < |r|
      ensures SimulatedAt(r, k)
    {
      if k < |calls| {
        assert SimulatedAt(calls, k);
      }
    }
  }

  /** Counting the swap transactions of a trace piece by piece. */
  lemma {:induction false} ExecutionsAppend<T>(a: seq<Call<T>>, b: seq<Call<T>>)
    ensures Executions(a + b) == Executions(a) + Executions(b)
  {
    if b == [] {
      assert a + b == a;
    } else {
      var n := |b| - 1;
      assert (a + b)[..|a + b| - 1] == a + b[..n];
      assert b[..n] == b[..|b| - 1];
      ExecutionsAppend(a, b[..n]);
    }
  }

  /** Two traces that each simulate before executing still do so together, when the second does not open with a swap. */
  lemma SimulatedAppend<T>(a: seq<Call<T>>, b: seq<Call<T>>)
    requires SimulatedBeforeExecuted(a) && SimulatedBeforeExecuted(b)
    requires b != [] ==> !b[0].Execute?
    ensures SimulatedBeforeExecuted(a + b)
  {
    var r := a + b;
    forall k: nat | k < |r|
      ensures SimulatedAt(r, k)
    {
      if k < |a| {
        assert SimulatedAt(a, k);
      } else {
        assert r[k] == b[k - |a|];
        assert SimulatedAt(b, k - |a|);
        if r[k].Execute? {
          assert r[k - 1] == b[k - |a| - 1];
        }
      }
    }
  }

  /** The trace properties survive appending the calls of one more round that does not open with a swap. */
  lemma TraceAppend<T>(a: seq<Call<T>>, b: seq<Call<T>>, recipient: string)
    requires SimulatedBeforeExecuted(a) && SimulatedBeforeExecuted(b)
    requires IntentsFor(a, recipient) && IntentsFor(b, recipient)
    requires b != [] ==> !b[0].Execute?
    ensures SimulatedBeforeExecuted(a + b)
    ensures IntentsFor(a + b, recipient)
    ensures Executions(a + b) == Executions(a) + Executions(b)
  {
    SimulatedAppend(a, b);
    var r := a + b;
    forall k | 0 <= k < |r| && !r[k].Approve?
      ensures IsScriptIntent(r[k].intent, recipient)
    {
      if k >= |a| {
        assert r[k] == b[k - |a|];
      }
    }
    ExecutionsAppend(a, b);
  }

  /**
   * The calls of one simulated swap: the approval gate, the simulation, and
   * the swap transaction only when the simulation went through. Both carry
   * the intent of the scripts' fixed shape for the wallet.
   */
  function SimulatedSwapCalls<T>(tokenA: T, tokenB: T, recipient: string, amount: int, allowance: nat,
                                 simulated: bool, executed: bool): (calls: seq<Call<T>>)
    ensures var gate := ApprovalGate(tokenA, allowance, amount);
            && |calls| == |gate| + (if simulated then 2 else 1)
            && calls[..|gate|] == gate
            && calls[|gate|] == Simulate(SwapIntent(tokenA, tokenB, PoolFee, recipient, amount, 0, 0), simulated)
    ensures calls != [] && !calls[0].Execute?
    ensures calls[|calls| - 1].Execute? <==> simulated
    ensures calls[|calls| - 1].Simulate? <==> !simulated
    ensures calls[|calls| - 1].intent == SwapIntent(tokenA, tokenB, PoolFee, recipient, amount, 0, 0)
    ensures calls[|calls| - 1].Execute? ==> calls[|calls| - 1].succeeded == executed && calls[|calls| - 1].options.None?
  {
    var intent := SwapIntent(tokenA, tokenB, PoolFee, recipient, amount, 0, 0);
    var simulation := ApprovalGate(tokenA, allowance, amount) + [Simulate(intent, simulated)];
    if simulated then simulation + [Execute(intent, None, executed)] else simulation
  }

  /**
   * A simulated swap sends its transaction only right after a successful
   * simulation of the same intent, and sends exactly one when the simulation
   * went through and none otherwise.
   */
  lemma SimulatedSwapTrace<T>(tokenA: T, tokenB: T, recipient: string, amount: int, allowance: nat,
                              simulated: bool, executed: bool)
    requires tokenA != tokenB
    ensures var calls := SimulatedSwapCalls(tokenA, tokenB, recipient, amount, allowance, simulated, executed);
            && SimulatedBeforeExecuted(calls) && IntentsFor(calls, recipient)
            && Executions(calls) == if simulated then 1 else 0
  {
    var gate := ApprovalGate(tokenA, allowance, amount);
    var intent := SwapIntent(tokenA, tokenB, PoolFee, recipient, amount, 0, 0);
    assert SimulatedBeforeExecuted(gate) && IntentsFor(gate, recipient) && Executions(gate) == 0 by {
      if gate != [] {
        assert gate == [] + [gate[0]];
        TraceAppendOne([], gate[0], recipient);
      }
    }
    TraceAppendOne(gate, Simulate(intent, simulated), recipient);
    if simulated {
      TraceAppendOne(gate + [Simulate(intent, simulated)], Execute(intent, None, executed), recipient);
    }
  }

  /** Regrouping a trace made of three parts. */
  lemma ConcatAssociative<T>(a: seq<T>, b: seq<T>, c: seq<T>)
    ensures (a + b) + c == a + (b + c)
  {
  }

  /** A prefix one element longer is the shorter prefix with that element appended. */
  lemma PrefixSnoc<T>(s: seq<T>, i: nat)
    requires i < |s|
    ensures s[..i + 1] == s[..i] + [s[i]]
  {
  }

  /** A slice without its first element is the slice that starts one further. */
  lemma SliceDropFirst<T>(s: seq<T>, i: nat, n: nat)
    requires i < n <= |s|
    ensures s[i..n] != [] && s[i..n][0] == s[i] && s[i..n][1..] == s[i + 1..n]
  {
  }

  /** Dropping the element just appended gives the sequence back. */
  lemma DropLast<T>(s: seq<T>, x: T)
    ensures (s + [x])[..|s|] == s
  {
  }

  /** Indexing a sequence with one element appended. */
  lemma SnocAt<T>(a: seq<T>, x: T, k: nat)
    requires k <= |a|
    ensures (a + [x])[k] == if k < |a| then a[k] else x
  {
  }

  /** The addresses of the wallets in `wallets.json`. */
  function Addresses(wallets: seq<Wallet>): set<string>
  {
    set w | w in wallets :: w.address
  }

  /**
   * A manual session's trace: every swap call carries an intent of the fixed
   * shape, paid to one of the wallets.
   */
  predicate SessionIntents<T(==)>(calls: seq<Call<T>>, wallets: seq<Wallet>)
  {
    forall k :: 0 <= k < |calls| && !calls[k].Approve? ==>
      IsScriptIntent(calls[k].intent, calls[k].intent.recipient) && calls[k].intent.recipient in Addresses(wallets)
  }

  /** A trace paid to one wallet is a session trace of any wallet list holding that wallet. */
  lemma IntentsForSession<T>(calls: seq<Call<T>>, wallet: Wallet, wallets: seq<Wallet>)
    requires IntentsFor(calls, wallet.address) && wallet in wallets
    ensures SessionIntents(calls, wallets)
  {
  }

  /** Session traces concatenate. */
  lemma SessionIntentsAppend<T>(a: seq<Call<T>>, b: seq<Call<T>>, wallets: seq<Wallet>)
    requires SessionIntents(a, wallets) && SessionIntents(b, wallets)
    ensures SessionIntents(a + b, wallets)
  {
    forall k | 0 <= k < |a + b| && !(a + b)[k].Approve?
      ensures IsScriptIntent((a + b)[k].intent, (a + b)[k].intent.recipient)
      ensures (a + b)[k].intent.recipient in Addresses(wallets)
    {
      if k >= |a| {
        assert (a + b)[k] == b[k - |a|];
      }
    }
  }

  /**
   * The loop state of the manual swap scripts: `keepSwapping`, `currentWallet`,
   * and whether the script called `process.exit(1)` on an unknown wallet id.
   */
  datatype Session = Session(keepSwapping: bool, currentWallet: Option<Wallet>, exited: bool)

  /** The loop keeps going while `keepSwapping` holds and the process is alive. */
  predicate Running(s: Session)
  {
    s.keepSwapping && !s.exited
  }

  /** The wallet a pass works with: the current one, or else the one the typed id finds. */
  function ActiveWallet(wallets: seq<Wallet>, current: Option<Wallet>, walletId: string): (w: Option<Wallet>)
    ensures current.Some? ==> w == current
    ensures current.None? ==> w == FindWallet(wallets, walletId)
    ensures current.None? && w.Some? ==> w.value in wallets
  {
    if current.Some? then current else FindWallet(wallets, walletId)
  }

  /**
   * `useSameWallet.toLowerCase() !== 'n'`: the wallet is kept for any answer
   * but "n" and "N", the empty default included.
   */
  function KeepsWallet(useSameWallet: string): (keep: bool)
    ensures keep <==> !(useSameWallet == "n" || useSameWallet == "N")
  {
    var lowered := Lower(useSameWallet);
    assert lowered == "n" <==> useSameWallet == "n" || useSameWallet == "N" by {
      if lowered == "n" {
        assert LowerChar(useSameWallet[0]) == 'n';
      }
    }
    lowered != "n"
  }

  /**
   * A session trace survives the calls of one more listed wallet: they keep
   * simulate-before-execute, are paid to a listed wallet, and add their
   * transactions to the count.
   */
  lemma AppendWalletTrace<T>(wallets: seq<Wallet>, i: nat, calls: seq<Call<T>>, walletCalls: seq<Call<T>>)
    requires i < |wallets|
    requires SimulatedBeforeExecuted(calls) && SessionIntents(calls, wallets)
    requires SimulatedBeforeExecuted(walletCalls) && IntentsFor(walletCalls, wallets[i].address)
    ensures SimulatedBeforeExecuted(calls + walletCalls) && SessionIntents(calls + walletCalls, wallets)
    ensures Executions(calls + walletCalls) == Executions(calls) + Executions(walletCalls)
  {
    IntentsForSession(walletCalls, wallets[i], wallets);
    if walletCalls != [] {
      assert SimulatedAt(walletCalls, 0);
    }
    SimulatedAppend(calls, walletCalls);
    SessionIntentsAppend(calls, walletCalls, wallets);
    ExecutionsAppend(calls, walletCalls);
  }

  /**
   * `checkAndApproveToken`: the calls it makes. Nothing when the allowance
   * covers the amount, otherwise one approval of MaxUint256.
   */
  function ApprovalGate<T>(token: T, allowance: nat, amount: int): (calls: seq<Call<T>>)
    ensures calls == [] <==> amount <= allowance
    ensures calls != [] ==> calls == [Approve(token, MaxUint256)]
  {
    if allowance >= amount then [] else [Approve(token, MaxUint256)]
  }

  /**
   * The router's allowance once the gate has returned: unchanged when it
   * sent nothing, MaxUint256 (what `approve` sets) when it approved. It then
   * covers every amount a uint256 can hold.
   */
  function AllowanceAfterGate(allowance: nat, amount: int): (after: nat)
    ensures amount <= MaxUint256 ==> amount <= after
    ensures allowance <= after || after == MaxUint256
  {
    if allowance >= amount then allowance else MaxUint256
  }

  /** A second gate with the same amount, right after the first, sends nothing. */
  lemma ApprovalGateIdempotent<T>(token: T, allowance: nat, amount: int)
    requires amount <= MaxUint256
    ensures ApprovalGate(token, AllowanceAfterGate(allowance, amount), amount) == []
  {
  }
}
