/**
 * The one-shot SUSDT mint of the memecoin trading contest. A tracking table of
 * `{address, has_minted}` records decides which wallets still need to mint;
 * every attempted wallet gets its record updated, true only once the mint
 * transaction is confirmed.
 */
module MemecoinMint {
  import opened Wrappers
  import opened Draws
  import opened Text
  import opened Chain
  import opened Tokens

  /** One record of the tracking table. */
  datatype Entry = Entry(address: string, hasMinted: bool)

  /** Addresses are compared after `toLowerCase()`. */
  predicate SameAddress(a: string, b: string)
  {
    Lower(a) == Lower(b)
  }

  /** No two records share a lower-cased address. */
  predicate UniqueAddresses(entries: seq<Entry>)
  {
    forall i, j :: 0 <= i < j < |entries| ==> !SameAddress(entries[i].address, entries[j].address)
  }

  /** `trackData.findIndex(...)`: the first record for the address, or -1. */
  function FindEntry(entries: seq<Entry>, address: string): (k: int)
    ensures -1 <= k < |entries|
    ensures k >= 0 ==> SameAddress(entries[k].address, address)
    ensures k >= 0 ==> forall j :: 0 <= j < k ==> !SameAddress(entries[j].address, address)
    ensures k < 0 ==> forall j :: 0 <= j < |entries| ==> !SameAddress(entries[j].address, address)
  {
    if entries == [] then -1
    else if SameAddress(entries[0].address, address) then 0
    else
      var k := FindEntry(entries[1..], address);
      if k < 0 then -1 else k + 1
  }

  /**
   * The table after `updateTrack(address, hasMinted)`: the first record for
   * the address gets the flag and nothing else moves; an unknown address gets
   * one new record at the end. Either way the address then has a record with
   * that flag.
   */
  function Updated(entries: seq<Entry>, address: string, hasMinted: bool): (r: seq<Entry>)
    ensures FindEntry(entries, address) >= 0 ==>
              && |r| == |entries|
              && r[FindEntry(entries, address)] == Entry(entries[FindEntry(entries, address)].address, hasMinted)
              && forall j :: 0 <= j < |r| && j != FindEntry(entries, address) ==> r[j] == entries[j]
    ensures FindEntry(entries, address) < 0 ==> r == entries + [Entry(address, hasMinted)]
    ensures 0 <= FindEntry(r, address) && r[FindEntry(r, address)].hasMinted == hasMinted
  {
    var k := FindEntry(entries, address);
    if k >= 0 then
      var r := entries[k := entries[k].(hasMinted := hasMinted)];
      assert FindEntry(r, address) == k by {
        assert forall j :: 0 <= j < |r| ==> r[j].address == entries[j].address;
        FindEntrySameAddresses(entries, r, address);
      }
      r
    else
      var r := entries + [Entry(address, hasMinted)];
      assert FindEntry(r, address) == |entries| by {
        assert forall j :: 0 <= j < |entries| ==> r[j] == entries[j];
        assert SameAddress(r[|entries|].address, address);
      }
      r
  }

  /** FindEntry only looks at addresses. */
  lemma {:induction false} FindEntrySameAddresses(a: seq<Entry>, b: seq<Entry>, address: string)
    requires |a| == |b|
    requires forall j :: 0 <= j < |a| ==> a[j].address == b[j].address
    ensures FindEntry(a, address) == FindEntry(b, address)
  {
    if a != [] && !SameAddress(a[0].address, address) {
      FindEntrySameAddresses(a[1..], b[1..], address);
    }
  }

  /** `updateTrack` never creates a second record for an address. */
  lemma UpdatedKeepsUnique(entries: seq<Entry>, address: string, hasMinted: bool)
    requires UniqueAddresses(entries)
    ensures UniqueAddresses(Updated(entries, address, hasMinted))
  {
    var r := Updated(entries, address, hasMinted);
    if FindEntry(entries, address) >= 0 {
      assert forall j :: 0 <= j < |r| ==> r[j].address == entries[j].address;
    } else {
      forall i, j | 0 <= i < j < |r|
        ensures !SameAddress(r[i].address, r[j].address)
      {
        if j == |entries| {
          assert r[i] == entries[i];
        }
      }
    }
  }

  /** The `allMinted` check: some wallet, and each has a record marked as minted. */
  predicate AllMinted(wallets: seq<Wallet>, entries: seq<Entry>)
  {
    && |wallets| > 0
    && forall w :: w in wallets ==>
         exists e :: e in entries && SameAddress(e.address, w.address) && e.hasMinted
  }

  /** The skip at the top of `main`'s loop: the first record for the wallet says it has minted. */
  predicate AlreadyMinted(entries: seq<Entry>, address: string)
  {
    var k := FindEntry(entries, address);
    k >= 0 && entries[k].hasMinted
  }

  /**
   * With one record per address, `allMinted` means every wallet would be
   * skipped, so exiting early loses nothing.
   */
  lemma AllMintedSkipsEveryWallet(wallets: seq<Wallet>, entries: seq<Entry>)
    requires UniqueAddresses(entries)
    requires AllMinted(wallets, entries)
    ensures forall w :: w in wallets ==> AlreadyMinted(entries, w.address)
  {
    forall w | w in wallets
      ensures AlreadyMinted(entries, w.address)
    {
      var e :| e in entries && SameAddress(e.address, w.address) && e.hasMinted;
      var i :| 0 <= i < |entries| && entries[i] == e;
      assert FindEntry(entries, w.address) == i;
    }
  }

  /**
   * Without one record per address the early exit and the skip disagree: a
   * table whose first record for a wallet is unminted and whose second is
   * minted counts as "all minted", yet the wallet would not be skipped.
   */
  lemma AllMintedNeedsUniqueRecords()
    ensures var entries := [Entry("0xAB", false), Entry("0xab", true)];
            var wallets := [Wallet(1, "0xab")];
            AllMinted(wallets, entries) && !AlreadyMinted(entries, "0xab")
  {
    var entries := [Entry("0xAB", false), Entry("0xab", true)];
    assert SameAddress(entries[0].address, "0xab");
    assert entries[1] in entries && SameAddress(entries[1].address, "0xab");
  }

  /** The chain's answers during one wallet's attempt. */
  datatype MintEnv = MintEnv(block: BlockRead, gasDraw: Draw, confirmed: bool)

  /** One parameterless `mint()` transaction to the SUSDT contract, and whether it was confirmed. */
  datatype MintTx = MintTx(token: ContestToken, from: string, options: TxOptions, confirmed: bool)

  /**
   * One pass of `main`'s loop: the table afterwards and the mint transaction
   * sent, if any. A skipped wallet changes nothing; any other wallet ends up
   * marked minted exactly when its transaction was confirmed, and a mint is
   * sent exactly when the block read gave a base fee, capped at the base fee
   * plus 10 %.
   */
  function MintStep(entries: seq<Entry>, wallet: Wallet, env: MintEnv): (r: (seq<Entry>, Option<MintTx>))
    ensures AlreadyMinted(entries, wallet.address) ==> r == (entries, None)
    ensures !AlreadyMinted(entries, wallet.address) ==>
              (AlreadyMinted(r.0, wallet.address) <==> r.1.Some? && r.1.value.confirmed)
    ensures !AlreadyMinted(entries, wallet.address) ==> r.0 == Updated(entries, wallet.address, r.1.Some? && r.1.value.confirmed)
    ensures !AlreadyMinted(entries, wallet.address) && env.block.BaseFee? ==> r.1.Some? && r.1.value.confirmed == env.confirmed
    ensures r.1.Some? ==> env.block.BaseFee? && r.1.value.token == SUSDT && r.1.value.from == wallet.address
    ensures r.1.Some? ==> && r.1.value.options.maxFeePerGas == FeePlus10Percent(env.block.fee)
                          && r.1.value.options.maxPriorityFeePerGas == FeePlus10Percent(env.block.fee)
                          && 80000 <= r.1.value.options.gasLimit <= 150000
  {
    if AlreadyMinted(entries, wallet.address) then (entries, None)
    else
      match env.block
      case Threw => (Updated(entries, wallet.address, false), None)
      case NoBaseFee => (Updated(entries, wallet.address, false), None)
      case BaseFee(fee) =>
        var cap := FeePlus10Percent(fee);
        var tx := MintTx(SUSDT, wallet.address, TxOptions(MintGasLimit(env.gasDraw), cap, cap), env.confirmed);
        (Updated(entries, wallet.address, env.confirmed), Some(tx))
  }

  /** `main`'s loop over the wallets, in file order: the final table and the mint transactions sent. */
  function MintRun(entries: seq<Entry>, wallets: seq<Wallet>, envs: seq<MintEnv>): (r: (seq<Entry>, seq<MintTx>))
    requires |envs| == |wallets|
  {
    if wallets == [] then (entries, [])
    else
      var n := |wallets| - 1;
      var before := MintRun(entries, wallets[..n], envs[..n]);
      var step := MintStep(before.0, wallets[n], envs[n]);
      (step.0, before.1 + if step.1.Some? then [step.1.value] else [])
  }

  /** A whole run keeps one record per address. */
  lemma {:induction false} MintRunKeepsUnique(entries: seq<Entry>, wallets: seq<Wallet>, envs: seq<MintEnv>)
    requires |envs| == |wallets|
    requires UniqueAddresses(entries)
    ensures UniqueAddresses(MintRun(entries, wallets, envs).0)
  {
    if wallets != [] {
      var n := |wallets| - 1;
      MintRunKeepsUnique(entries, wallets[..n], envs[..n]);
      var before := MintRun(entries, wallets[..n], envs[..n]);
      if !AlreadyMinted(before.0, wallets[n].address) {
        UpdatedKeepsUnique(before.0, wallets[n].address, MintStep(before.0, wallets[n], envs[n]).1.Some? && envs[n].confirmed);
      }
    }
  }

  /**
   * When every wallet is already marked (one record per address), running
   * the loop would change nothing and send nothing: the early exit is sound.
   */
  lemma {:induction false} AllMintedRunIsNoOp(entries: seq<Entry>, wallets: seq<Wallet>, envs: seq<MintEnv>)
    requires |envs| == |wallets|
    requires UniqueAddresses(entries)
    requires forall w :: w in wallets ==> AlreadyMinted(entries, w.address)
    ensures MintRun(entries, wallets, envs) == (entries, [])
  {
    if wallets != [] {
      var n := |wallets| - 1;
      assert forall w :: w in wallets[..n] ==> w in wallets;
      AllMintedRunIsNoOp(entries, wallets[..n], envs[..n]);
      assert wallets[n] in wallets;
      assert MintStep(entries, wallets[n], envs[n]) == (entries, None);
      var r := MintRun(entries, wallets, envs);
      assert r.0 == entries;
      assert r.1 == [];
    }
  }

  /** The in-memory tracking table (`trackData`), loaded once at start. */
  class Tracker {
    var entries: seq<Entry>

    constructor (loaded: seq<Entry>)
      ensures entries == loaded
    {
      entries := loaded;
    }

    /** `updateTrack`: sets the flag of the first matching record, or appends a record. */
    method UpdateTrack(address: string, hasMinted: bool)
      modifies this
      ensures entries == Updated(old(entries), address, hasMinted)
    {
      var index := FindEntry(entries, address);
      if index >= 0 {
        entries := entries[index := entries[index].(hasMinted := hasMinted)];
      } else {
        entries := entries + [Entry(address, hasMinted)];
      }
    }

    /** The body of `main`'s loop for one wallet: skip, or attempt the mint and record its outcome. */
    method MintWallet(wallet: Wallet, env: MintEnv) returns (tx: Option<MintTx>)
      modifies this
      ensures (entries, tx) == MintStep(old(entries), wallet, env)
    {
      tx := None;
      if AlreadyMinted(entries, wallet.address) {
        return;
      }
      match env.block {
        case Threw =>
          UpdateTrack(wallet.address, false);
        case NoBaseFee =>
          UpdateTrack(wallet.address, false);
        case BaseFee(fee) =>
          var baseFeePlus10 := FeePlus10Percent(fee);
          var gasLimit := MintGasLimit(env.gasDraw);
          tx := Some(MintTx(SUSDT, wallet.address, TxOptions(gasLimit, baseFeePlus10, baseFeePlus10), env.confirmed));
          if env.confirmed {
            UpdateTrack(wallet.address, true);
          } else {
            UpdateTrack(wallet.address, false);
          }
      }
    }

    /**
     * The script's top level: exit when every wallet is already marked,
     * otherwise `main`'s loop, which skips marked wallets and records the
     * outcome of every other attempt.
     */
    method RunScript(wallets: seq<Wallet>, envs: seq<MintEnv>) returns (allMinted: bool, sent: seq<MintTx>)
      requires |envs| == |wallets|
      modifies this
      ensures allMinted == AllMinted(wallets, old(entries))
      ensures allMinted ==> entries == old(entries) && sent == []
      ensures !allMinted ==> (entries, sent) == MintRun(old(entries), wallets, envs)
    {
      allMinted := AllMinted(wallets, entries);
      sent := [];
      if allMinted {
        return;
      }
      for i := 0 to |wallets|
        invariant (entries, sent) == MintRun(old(entries), wallets[..i], envs[..i])
      {
        assert wallets[..i + 1][..i] == wallets[..i] && envs[..i + 1][..i] == envs[..i];
        ghost var before := entries;
        var tx := MintWallet(wallets[i], envs[i]);
        if tx.Some? {
          sent := sent + [tx.value];
        }
        ghost var expected := MintRun(old(entries), wallets[..i + 1], envs[..i + 1]);
        assert expected.0 == MintStep(before, wallets[i], envs[i]).0 == entries;
        assert expected.1 == sent;
      }
      assert wallets[..|wallets|] == wallets && envs[..|envs|] == envs;
    }
  }
}
