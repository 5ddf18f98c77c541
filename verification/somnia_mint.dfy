/**
 * The PONG/PING faucet mint. On every run, every wallet mints 10^21 base
 * units of PONG and then of PING, each transaction capped at the base fee
 * plus 10 % with a random gas limit. A block without base fee skips the
 * wallet; a failed mint ends that wallet's remaining tokens, and the next
 * wallet is processed all the same. Nothing is recorded between runs.
 */
module SomniaMint {
  import opened Draws
  import opened Chain
  import opened Tokens

  /** `MINT_AMOUNT`: 10^21 base units of each token. */
  const MintAmount: nat := 1_000_000_000_000_000_000_000

  /** The gas-limit draw for one token's mint and whether that mint was sent and confirmed. */
  datatype TokenAttempt = TokenAttempt(gasDraw: Draw, confirmed: bool)

  /** The chain's answers while one wallet is processed: the block read, then one attempt per pool token. */
  datatype WalletEnv = WalletEnv(block: BlockRead, pong: TokenAttempt, ping: TokenAttempt)

  /** The attempt for the token at index j of `tokensToMint`. */
  function Attempt(env: WalletEnv, j: nat): TokenAttempt
    requires j < |PoolTokens|
  {
    if j == 0 then env.pong else env.ping
  }

  /** One `mint(walletAddress, MINT_AMOUNT, options)` transaction and whether it was confirmed. */
  datatype MintCall = MintCall(token: PoolToken, to: string, amount: nat, options: TxOptions, confirmed: bool)

  /** The inner loop from the token at index j on: one mint per token, stopping after the first failure. */
  function TokenMints(address: string, cap: nat, env: WalletEnv, j: nat): (calls: seq<MintCall>)
    requires j <= |PoolTokens|
    decreases |PoolTokens| - j
    ensures |calls| <= |PoolTokens| - j
    ensures j < |PoolTokens| ==> calls != []
  {
    if j == |PoolTokens| then []
    else
      var attempt := Attempt(env, j);
      var call := MintCall(PoolTokens[j], address, MintAmount, TxOptions(MintGasLimit(attempt.gasDraw), cap, cap), attempt.confirmed);
      if call.confirmed then [call] + TokenMints(address, cap, env, j + 1) else [call]
  }

  /**
   * The token loop sends its mints in list order, every one to the wallet,
   * of 10^21, with the given fee cap and a gas limit in [80000, 150000];
   * every mint but the last was confirmed, and the loop stops before the end
   * of the list only after a failed mint.
   */
  lemma {:induction false} TokenMintsShape(address: string, cap: nat, env: WalletEnv, j: nat)
    requires j <= |PoolTokens|
    decreases |PoolTokens| - j
    ensures var calls := TokenMints(address, cap, env, j);
            && (forall k :: 0 <= k < |calls| ==>
                  && calls[k].token == PoolTokens[j + k]
                  && calls[k].to == address
                  && calls[k].amount == MintAmount
                  && calls[k].options.maxFeePerGas == cap
                  && calls[k].options.maxPriorityFeePerGas == cap
                  && 80000 <= calls[k].options.gasLimit <= 150000)
            && (forall k :: 0 <= k < |calls| - 1 ==> calls[k].confirmed)
            && (0 < |calls| < |PoolTokens| - j ==> !calls[|calls| - 1].confirmed)
  {
    if j < |PoolTokens| && Attempt(env, j).confirmed {
      TokenMintsShape(address, cap, env, j + 1);
    }
  }

  /** The mints one wallet sends: none without a base fee, otherwise the token loop from PONG on. */
  function WalletMints(wallet: Wallet, env: WalletEnv): (calls: seq<MintCall>)
    ensures calls == [] <==> !env.block.BaseFee?
  {
    match env.block
    case BaseFee(fee) => TokenMints(wallet.address, FeePlus10Percent(fee), env, 0)
    case _ => []
  }

  /**
   * A wallet with a base fee mints PONG first and then PING, stopping only
   * after a failure, each of 10^21 to the wallet with both caps at the base
   * fee plus 10 % and a gas limit in [80000, 150000].
   */
  lemma WalletMintsShape(wallet: Wallet, env: WalletEnv)
    ensures var calls := WalletMints(wallet, env);
            && |calls| <= 2
            && (forall k :: 0 <= k < |calls| ==>
                  && calls[k].token == PoolTokens[k]
                  && calls[k].to == wallet.address
                  && calls[k].amount == MintAmount
                  && calls[k].options.maxFeePerGas == FeePlus10Percent(env.block.fee)
                  && calls[k].options.maxPriorityFeePerGas == FeePlus10Percent(env.block.fee)
                  && 80000 <= calls[k].options.gasLimit <= 150000)
            && (|calls| == 2 ==> calls[0].confirmed)
            && (|calls| == 1 ==> !calls[0].confirmed)
  {
    if env.block.BaseFee? {
      TokenMintsShape(wallet.address, FeePlus10Percent(env.block.fee), env, 0);
    }
  }

  /** `main`'s loop over the wallets, in file order: every mint transaction sent. */
  function AllMints(wallets: seq<Wallet>, envs: seq<WalletEnv>): seq<MintCall>
    requires |envs| == |wallets|
  {
    if wallets == [] then []
    else
      var n := |wallets| - 1;
      AllMints(wallets[..n], envs[..n]) + WalletMints(wallets[n], envs[n])
  }

  /**
   * Every wallet is attempted on every run: a wallet whose block read gave a
   * base fee has its PONG mint in the run, whatever happened to the others.
   */
  lemma {:induction false} EveryWalletAttempted(wallets: seq<Wallet>, envs: seq<WalletEnv>, i: nat)
    requires |envs| == |wallets| && i < |wallets|
    requires envs[i].block.BaseFee?
    ensures WalletMints(wallets[i], envs[i]) != []
    ensures var c := WalletMints(wallets[i], envs[i])[0];
            c in AllMints(wallets, envs) && c.token == PONG && c.to == wallets[i].address
  {
    WalletMintsShape(wallets[i], envs[i]);
    var n := |wallets| - 1;
    var c := WalletMints(wallets[i], envs[i])[0];
    var before := AllMints(wallets[..n], envs[..n]);
    assert AllMints(wallets, envs) == before + WalletMints(wallets[n], envs[n]);
    if i < n {
      EveryWalletAttempted(wallets[..n], envs[..n], i);
      assert c in before;
    } else {
      assert AllMints(wallets, envs)[|before|] == c;
    }
  }

  /**
   * `main`'s inner loop over `tokensToMint` for one wallet: one mint per
   * token, both fee fields at the capped fee, breaking out after the first
   * mint that fails.
   */
  method MintTokens(wallet: Wallet, env: WalletEnv, baseFeePlus10: nat) returns (walletCalls: seq<MintCall>)
    ensures walletCalls == TokenMints(wallet.address, baseFeePlus10, env, 0)
  {
    var maxFeePerGas, maxPriorityFeePerGas := baseFeePlus10, baseFeePlus10;
    walletCalls := [];
    for j := 0 to |PoolTokens|
      invariant walletCalls + TokenMints(wallet.address, baseFeePlus10, env, j)
                == TokenMints(wallet.address, baseFeePlus10, env, 0)
    {
      var attempt := Attempt(env, j);
      var gasLimit := MintGasLimit(attempt.gasDraw);
      var call := MintCall(PoolTokens[j], wallet.address, MintAmount,
                           TxOptions(gasLimit, maxFeePerGas, maxPriorityFeePerGas), attempt.confirmed);
      walletCalls := walletCalls + [call];
      if !attempt.confirmed {
        break;
      }
    }
  }

  /**
   * `main`: the loop over the wallets. A wallet without base fee is passed
   * over; the others mint their tokens until one fails.
   */
  method MintAllWallets(wallets: seq<Wallet>, envs: seq<WalletEnv>) returns (calls: seq<MintCall>)
    requires |envs| == |wallets|
    ensures calls == AllMints(wallets, envs)
  {
    calls := [];
    for i := 0 to |wallets|
      invariant calls == AllMints(wallets[..i], envs[..i])
    {
      PrefixSnoc(wallets, i);
      PrefixSnoc(envs, i);
      assert wallets[..i + 1][..i] == wallets[..i] && envs[..i + 1][..i] == envs[..i];
      var env := envs[i];
      if !env.block.BaseFee? {
        continue;
      }
      var baseFeePlus10 := FeePlus10Percent(env.block.fee);
      var walletCalls := MintTokens(wallets[i], env, baseFeePlus10);
      calls := calls + walletCalls;
    }
    assert wallets[..|wallets|] == wallets && envs[..|envs|] == envs;
  }
}
