/** What the aggregation of `getTokenTransactions` guarantees: the window,
    the per-mint invariant, at most one append per transaction and mint,
    amounts that only grow, failed fetches that change nothing, and names. */
module HeliusLemmas {
  import opened Numbers
  import opened Helius

  /** Classification keeps the identity and trade times of a summary and
      never lowers its counts or amounts. */
  lemma ClassifyKeeps(m: TradeMeta, tx: TokenTx, mint: string)
    requires AmountsValid(m)
    ensures var r := Classify(m, tx, mint);
      r.Some? ==>
        && AmountsValid(r.value)
        && r.value.investedSol >= m.investedSol && r.value.totalSolReceived >= m.totalSolReceived
        && r.value.buys >= m.buys && r.value.sells >= m.sells
        && r.value.id == m.id && r.value.wallet == m.wallet && r.value.tokenAddress == m.tokenAddress
        && r.value.tokenName == m.tokenName
        && r.value.firstTrade == m.firstTrade && r.value.lastTrade == m.lastTrade
  {
    if tx.success && tx.solMovement.Some? {
      var pre := AmountOf(FindByMint(tx.preTokenBalances, mint));
      var post := AmountOf(FindByMint(tx.postTokenBalances, mint));
      if pre.Some? && post.Some? {
        TradeRules(m, post.value - pre.value, tx.solMovement.value.solChange);
      }
    }
  }

  /** The classification rules: a transaction counts only when it succeeded
      and moved SOL; it then throws exactly when the first pre or post balance
      of the mint cannot be read; the token difference is taken between those
      first balances (0 for a missing one or a null `uiAmount`); a difference
      of at most 1e-6 changes nothing, a larger one is applied as a trade, a
      buy when tokens rose and SOL fell, a sell when tokens fell and SOL rose. */
  lemma ClassifyRules(m: TradeMeta, tx: TokenTx, mint: string)
    ensures var r := Classify(m, tx, mint);
      var counted := tx.success && tx.solMovement.Some?;
      var pre := AmountOf(FindByMint(tx.preTokenBalances, mint));
      var post := AmountOf(FindByMint(tx.postTokenBalances, mint));
      && (!counted ==> r == Some(m))
      && (counted ==> (r.None? <==> !FirstReadable(tx.preTokenBalances, mint)
                                    || !FirstReadable(tx.postTokenBalances, mint)))
      && (counted && r.Some? ==>
            var tokenDiff := post.value - pre.value;
            var solChange := tx.solMovement.value.solChange;
            && (Abs(tokenDiff) <= EPSILON ==> r == Some(m))
            && (Abs(tokenDiff) > EPSILON ==> r == Some(ApplyTrade(m, tokenDiff, solChange)))
            && (r.value.buys == m.buys + 1 <==> tokenDiff > EPSILON && solChange < 0.0)
            && (r.value.buys != m.buys + 1 ==> r.value.buys == m.buys)
            && (r.value.sells == m.sells + 1 <==> tokenDiff < -EPSILON && solChange > 0.0)
            && (r.value.sells != m.sells + 1 ==> r.value.sells == m.sells))
  {
    if tx.success && tx.solMovement.Some? {
      var pre := AmountOf(FindByMint(tx.preTokenBalances, mint));
      var post := AmountOf(FindByMint(tx.postTokenBalances, mint));
      if pre.Some? && post.Some? {
        var tokenDiff := post.value - pre.value;
        var solChange := tx.solMovement.value.solChange;
        if Abs(tokenDiff) > EPSILON {
          var r := ApplyTrade(m, tokenDiff, solChange);
          assert Classify(m, tx, mint) == Some(r);
          match SideOf(tokenDiff, solChange)
          case Buy => assert r.buys == m.buys + 1 && r.sells == m.sells;
          case Sell => assert r.sells == m.sells + 1 && r.buys == m.buys;
          case Neither => assert r.buys == m.buys && r.sells == m.sells;
        }
      }
    }
  }

  lemma MinMaxAppend(txs: seq<TokenTx>, t: TokenTx)
    requires |txs| > 0
    ensures MinTime(txs + [t]) == (if t.blockTime < MinTime(txs) then t.blockTime else MinTime(txs))
    ensures MaxTime(txs + [t]) == (if t.blockTime > MaxTime(txs) then t.blockTime else MaxTime(txs))
  {
    assert (txs + [t])[..|txs|] == txs;
  }

  /** Entries only grow: a mint once present stays, its list is only
      extended and its counts and amounts never decrease. */
  ghost predicate Grows(a: Aggregate, b: Aggregate)
  {
    forall m :: m in a.byMint ==>
      && m in b.byMint
      && a.byMint[m].transactions <= b.byMint[m].transactions
      && b.byMint[m].metadata.buys >= a.byMint[m].metadata.buys
      && b.byMint[m].metadata.sells >= a.byMint[m].metadata.sells
      && b.byMint[m].metadata.investedSol >= a.byMint[m].metadata.investedSol
      && b.byMint[m].metadata.totalSolReceived >= a.byMint[m].metadata.totalSolReceived
  }

  /** Every recorded transaction carries one of the signatures in `sigs`. */
  ghost predicate SignedBy(agg: Aggregate, sigs: set<string>)
  {
    forall m, i :: m in agg.byMint && 0 <= i < |agg.byMint[m].transactions| ==>
      agg.byMint[m].transactions[i].signature in sigs
  }

  /** One visit registers the mint exactly once, gives it an entry whose list
      is its old list with the transaction appended, and leaves every other
      mint's entry as it was. */
  lemma RecordMintFrame(agg: Aggregate, address: string, tx: TokenTx, mint: string)
    ensures var r := RecordMint(agg, address, tx, mint).agg;
      && r.byMint.Keys == agg.byMint.Keys + {mint}
      && (forall m :: m in agg.byMint && m != mint ==> r.byMint[m] == agg.byMint[m])
      && r.byMint[mint].transactions == TxsOf(agg, mint) + [tx]
      && mint in r.mints
      && (mint in agg.mints ==> r.mints == agg.mints)
      && (mint !in agg.mints ==> r.mints == agg.mints + [mint])
  {
    RecordMintShape(agg, address, tx, mint);
  }

  /** `RecordMint` registers the mint and replaces its entry, nothing else. */
  lemma RecordMintShape(agg: Aggregate, address: string, tx: TokenTx, mint: string)
    ensures var r := RecordMint(agg, address, tx, mint).agg;
      && r.mints == (if mint in agg.mints then agg.mints else agg.mints + [mint])
      && r.byMint == agg.byMint[mint := EntryOf(agg, address, tx, mint)]
  {
  }

  /** The entry is valid and unnamed, holds the old list with `tx` appended,
      and its counts and amounts have not gone down. */
  lemma EntryOfValid(agg: Aggregate, address: string, tx: TokenTx, mint: string)
    requires Valid(agg, address) && Unnamed(agg)
    ensures var e := EntryOf(agg, address, tx, mint);
      && MintValid(address, mint, e)
      && e.metadata.tokenName == UNKNOWN
      && e.transactions == TxsOf(agg, mint) + [tx]
      && (mint in agg.byMint ==> MetaGrows(agg.byMint[mint].metadata, e.metadata))
  {
    var touched := Touch(agg, address, tx, mint);
    TouchEntry(agg, address, tx, mint);
    ClassifyKeeps(touched.metadata, tx, mint);
  }

  /** Pushing the transaction and widening the trade times keeps the entry
      valid and leaves its counts and amounts as they were. */
  lemma TouchEntry(agg: Aggregate, address: string, tx: TokenTx, mint: string)
    requires Valid(agg, address) && Unnamed(agg)
    ensures var touched := Touch(agg, address, tx, mint);
      && MintValid(address, mint, touched)
      && touched.metadata.tokenName == UNKNOWN
      && touched.transactions == TxsOf(agg, mint) + [tx]
      && (mint in agg.byMint ==> MetaGrows(agg.byMint[mint].metadata, touched.metadata))
      && (mint in agg.byMint ==> SameTotals(agg.byMint[mint].metadata, touched.metadata))
      && (mint !in agg.byMint ==>
            && touched.metadata.buys == 0 && touched.metadata.sells == 0
            && touched.metadata.investedSol == 0.0 && touched.metadata.totalSolReceived == 0.0
            && touched.metadata.realizedPnl == 0.0 && touched.metadata.roi == 0.0)
  {
    if mint in agg.byMint {
      MinMaxAppend(agg.byMint[mint].transactions, tx);
    } else {
      assert [] + [tx] == [tx];
    }
  }

  function TxsOf(agg: Aggregate, mint: string): seq<TokenTx>
  {
    if mint in agg.byMint then agg.byMint[mint].transactions else []
  }

  /** Counts, amounts, PnL and ROI are all equal. */
  ghost predicate SameTotals(a: TradeMeta, b: TradeMeta)
  {
    && b.buys == a.buys && b.sells == a.sells
    && b.investedSol == a.investedSol && b.totalSolReceived == a.totalSolReceived
    && b.realizedPnl == a.realizedPnl && b.roi == a.roi
  }

  ghost predicate MetaGrows(a: TradeMeta, b: TradeMeta)
  {
    b.buys >= a.buys && b.sells >= a.sells
    && b.investedSol >= a.investedSol && b.totalSolReceived >= a.totalSolReceived
  }

  /** `r` is `agg` with `mint` registered and its entry replaced by `e`. */
  ghost predicate Replaced(agg: Aggregate, r: Aggregate, mint: string, e: MintData)
  {
    && r.mints == (if mint in agg.mints then agg.mints else agg.mints + [mint])
    && r.byMint == agg.byMint[mint := e]
  }

  lemma ReplacedValid(agg: Aggregate, r: Aggregate, address: string, mint: string, e: MintData)
    requires Valid(agg, address) && Unnamed(agg) && Replaced(agg, r, mint, e)
    requires MintValid(address, mint, e) && e.metadata.tokenName == UNKNOWN
    ensures Valid(r, address) && Unnamed(r)
  {
    assert mint in agg.byMint <==> mint in agg.mints;
    forall i, j | 0 <= i < j < |r.mints| ensures r.mints[i] != r.mints[j] {
      if mint !in agg.mints && j == |agg.mints| {
        assert r.mints[i] == agg.mints[i];
      }
    }
  }

  lemma ReplacedGrows(agg: Aggregate, r: Aggregate, tx: TokenTx, mint: string, e: MintData)
    requires Replaced(agg, r, mint, e) && e.transactions == TxsOf(agg, mint) + [tx]
    requires mint in agg.byMint ==> MetaGrows(agg.byMint[mint].metadata, e.metadata)
    ensures Grows(agg, r)
  {
  }

  lemma ReplacedSigned(agg: Aggregate, r: Aggregate, tx: TokenTx, mint: string, e: MintData, sigs: set<string>)
    requires SignedBy(agg, sigs) && tx.signature in sigs
    requires Replaced(agg, r, mint, e) && e.transactions == TxsOf(agg, mint) + [tx]
    ensures SignedBy(r, sigs)
  {
    forall m, i | m in r.byMint && 0 <= i < |r.byMint[m].transactions|
      ensures r.byMint[m].transactions[i].signature in sigs
    {
      if m == mint && i < |TxsOf(agg, mint)| {
        assert e.transactions[i] == TxsOf(agg, mint)[i];
      }
    }
  }

  lemma RecordMintValid(agg: Aggregate, address: string, tx: TokenTx, mint: string)
    requires Valid(agg, address) && Unnamed(agg)
    ensures var r := RecordMint(agg, address, tx, mint).agg;
      Valid(r, address) && Unnamed(r)
  {
    RecordMintShape(agg, address, tx, mint);
    EntryOfValid(agg, address, tx, mint);
    ReplacedValid(agg, RecordMint(agg, address, tx, mint).agg, address, mint, EntryOf(agg, address, tx, mint));
  }

  lemma RecordMintGrows(agg: Aggregate, address: string, tx: TokenTx, mint: string)
    requires Valid(agg, address) && Unnamed(agg)
    ensures Grows(agg, RecordMint(agg, address, tx, mint).agg)
  {
    RecordMintShape(agg, address, tx, mint);
    EntryOfValid(agg, address, tx, mint);
    ReplacedGrows(agg, RecordMint(agg, address, tx, mint).agg, tx, mint, EntryOf(agg, address, tx, mint));
  }

  lemma RecordMintSigned(agg: Aggregate, address: string, tx: TokenTx, mint: string, sigs: set<string>)
    requires Valid(agg, address) && Unnamed(agg) && SignedBy(agg, sigs) && tx.signature in sigs
    ensures SignedBy(RecordMint(agg, address, tx, mint).agg, sigs)
  {
    RecordMintShape(agg, address, tx, mint);
    EntryOfValid(agg, address, tx, mint);
    ReplacedSigned(agg, RecordMint(agg, address, tx, mint).agg, tx, mint, EntryOf(agg, address, tx, mint), sigs);
  }

  /** The forEach keeps the invariant, whatever it stops on. */
  lemma {:induction false} RecordBalancesPreserves(agg: Aggregate, address: string, tx: TokenTx,
                                                   balances: seq<TokenBalance>, processed: set<string>, sigs: set<string>)
    requires Valid(agg, address) && Unnamed(agg) && SignedBy(agg, sigs) && tx.signature in sigs
    ensures var r := RecordBalances(agg, address, tx, balances, processed).agg;
      Valid(r, address) && Unnamed(r) && Grows(agg, r) && SignedBy(r, sigs)
    decreases |balances|
  {
    if balances != [] && balances[0].mint !in processed {
      var s := RecordMint(agg, address, tx, balances[0].mint);
      RecordMintValid(agg, address, tx, balances[0].mint);
      RecordMintGrows(agg, address, tx, balances[0].mint);
      RecordMintSigned(agg, address, tx, balances[0].mint, sigs);
      if !s.threw {
        RecordBalancesPreserves(s.agg, address, tx, balances[1..], processed + {balances[0].mint}, sigs);
      }
    } else if balances != [] {
      RecordBalancesPreserves(agg, address, tx, balances[1..], processed, sigs);
    }
  }

  lemma {:induction false} ProcessSignaturePreserves(agg: Aggregate, address: string, sig: Signature,
                                                     fetched: RpcResult<RawTx>, sigs: set<string>)
    requires Valid(agg, address) && Unnamed(agg) && SignedBy(agg, sigs) && sig.signature in sigs
    ensures var r := ProcessSignature(agg, address, sig, fetched);
      Valid(r, address) && Unnamed(r) && Grows(agg, r) && SignedBy(r, sigs)
  {
    if fetched.RpcOk? && fetched.value.meta.Some? {
      var tx := fetched.value;
      var meta := tx.meta.value;
      if meta.preTokenBalances.Some? && meta.postTokenBalances.Some? {
        var pre := OwnedBy(meta.preTokenBalances.value, address);
        var post := OwnedBy(meta.postTokenBalances.value, address);
        var movement := SolMovementOf(address, tx.accountKeys, meta);
        RecordBalancesPreserves(agg, address, ToTokenTx(sig, tx, meta, pre, post, movement), pre + post, {}, sigs);
      }
    }
  }

  /** The loop over signatures keeps the invariant; amounts only grow. */
  lemma {:induction false} ProcessAllPreserves(agg: Aggregate, address: string, sigs: seq<Signature>,
                                               getTx: string -> RpcResult<RawTx>, signatures: set<string>)
    requires Valid(agg, address) && Unnamed(agg) && SignedBy(agg, signatures)
    requires forall s :: s in sigs ==> s.signature in signatures
    ensures var r := ProcessAll(agg, address, sigs, getTx);
      Valid(r, address) && Unnamed(r) && Grows(agg, r) && SignedBy(r, signatures)
    decreases |sigs|
  {
    if sigs != [] {
      var next := ProcessSignature(agg, address, sigs[0], getTx(sigs[0].signature));
      ProcessSignaturePreserves(agg, address, sigs[0], getTx(sigs[0].signature), signatures);
      ProcessAllPreserves(next, address, sigs[1..], getTx, signatures);
    }
  }

  function TxCount(agg: Aggregate, mint: string): nat
  {
    if mint in agg.byMint then |agg.byMint[mint].transactions| else 0
  }

  function MintsOf(balances: seq<TokenBalance>): set<string>
  {
    set b | b in balances :: b.mint
  }

  /** The mints of the wallet's token balances in a fetched transaction, when
      it gets as far as the forEach. */
  function HeldMints(address: string, fetched: RpcResult<RawTx>): set<string>
  {
    if fetched.RpcOk? && fetched.value.meta.Some?
       && fetched.value.meta.value.preTokenBalances.Some? && fetched.value.meta.value.postTokenBalances.Some?
    then
      MintsOf(OwnedBy(fetched.value.meta.value.preTokenBalances.value, address)
              + OwnedBy(fetched.value.meta.value.postTokenBalances.value, address))
    else {}
  }

  /** No reading of a token amount in these balances throws. */
  predicate Readable(balances: seq<TokenBalance>)
  {
    forall b :: b in balances ==> !b.uiTokenAmount.MissingUiTokenAmount?
  }

  /** Reading the amount of the first balance with `mint` does not throw. */
  predicate FirstReadable(balances: seq<TokenBalance>, mint: string)
  {
    var b := FindByMint(balances, mint);
    b.None? || !b.value.uiTokenAmount.MissingUiTokenAmount?
  }

  /** Classification throws only when the first pre or post balance of the
      mint lacks `uiTokenAmount`. */
  lemma ClassifyReadable(m: TradeMeta, tx: TokenTx, mint: string)
    requires FirstReadable(tx.preTokenBalances, mint) && FirstReadable(tx.postTokenBalances, mint)
    ensures Classify(m, tx, mint).Some?
  {
  }

  /** Every balance readable means the first balance of any mint is. */
  lemma ReadableFirst(balances: seq<TokenBalance>, mint: string)
    requires Readable(balances)
    ensures FirstReadable(balances, mint)
  {
  }

  /** Within one transaction the forEach appends it to each mint at most
      once, touches no mint outside the balances, and, when nothing throws,
      appends it to every mint of the balances not yet processed. */
  lemma {:induction false} RecordBalancesOnce(agg: Aggregate, address: string, tx: TokenTx,
                                              balances: seq<TokenBalance>, processed: set<string>, mint: string)
    ensures var r := RecordBalances(agg, address, tx, balances, processed);
      && TxCount(r.agg, mint) <= TxCount(agg, mint) + (if mint in processed then 0 else 1)
      && (mint !in MintsOf(balances) || mint in processed ==>
            (mint in r.agg.byMint <==> mint in agg.byMint)
            && (mint in agg.byMint ==> r.agg.byMint[mint] == agg.byMint[mint]))
      && (!r.threw && mint in MintsOf(balances) && mint !in processed ==>
            TxCount(r.agg, mint) == TxCount(agg, mint) + 1)
    decreases |balances|
  {
    if balances != [] {
      var b := balances[0];
      assert MintsOf(balances) == {b.mint} + MintsOf(balances[1..]) by {
        assert forall x :: x in balances <==> x == b || x in balances[1..];
      }
      if b.mint in processed {
        RecordBalancesOnce(agg, address, tx, balances[1..], processed, mint);
      } else {
        var s := RecordMint(agg, address, tx, b.mint);
        if !s.threw {
          RecordBalancesOnce(s.agg, address, tx, balances[1..], processed + {b.mint}, mint);
        }
      }
    }
  }

  /** With readable balances the forEach runs to its end. */
  lemma {:induction false} RecordBalancesCompletes(agg: Aggregate, address: string, tx: TokenTx,
                                                   balances: seq<TokenBalance>, processed: set<string>)
    requires Readable(tx.preTokenBalances) && Readable(tx.postTokenBalances)
    ensures !RecordBalances(agg, address, tx, balances, processed).threw
    decreases |balances|
  {
    if balances != [] {
      if balances[0].mint in processed {
        RecordBalancesCompletes(agg, address, tx, balances[1..], processed);
      } else {
        var s := RecordMint(agg, address, tx, balances[0].mint);
        ReadableFirst(tx.preTokenBalances, balances[0].mint);
        ReadableFirst(tx.postTokenBalances, balances[0].mint);
        ClassifyReadable(Touch(agg, address, tx, balances[0].mint).metadata, tx, balances[0].mint);
        RecordBalancesCompletes(s.agg, address, tx, balances[1..], processed + {balances[0].mint});
      }
    }
  }

  /** One transaction adds itself at most once to any mint's list, and leaves
      every mint the wallet did not hold in it untouched; in particular a
      transaction that only moved SOL adds no entry. When its token amounts
      are all readable, every mint the wallet held gets it exactly once. */
  lemma AtMostOncePerTransaction(agg: Aggregate, address: string, sig: Signature,
                                 fetched: RpcResult<RawTx>, mint: string)
    ensures var r := ProcessSignature(agg, address, sig, fetched);
      && TxCount(r, mint) <= TxCount(agg, mint) + 1
      && (mint !in HeldMints(address, fetched) ==>
            (mint in r.byMint <==> mint in agg.byMint)
            && (mint in agg.byMint ==> r.byMint[mint] == agg.byMint[mint]))
      && (mint in HeldMints(address, fetched)
          && Readable(fetched.value.meta.value.preTokenBalances.value)
          && Readable(fetched.value.meta.value.postTokenBalances.value) ==>
            TxCount(r, mint) == TxCount(agg, mint) + 1)
  {
    if fetched.RpcOk? && fetched.value.meta.Some? {
      var tx := fetched.value;
      var meta := tx.meta.value;
      if meta.preTokenBalances.Some? && meta.postTokenBalances.Some? {
        var pre := OwnedBy(meta.preTokenBalances.value, address);
        var post := OwnedBy(meta.postTokenBalances.value, address);
        var movement := SolMovementOf(address, tx.accountKeys, meta);
        var t := ToTokenTx(sig, tx, meta, pre, post, movement);
        RecordBalancesOnce(agg, address, t, pre + post, {}, mint);
        if Readable(meta.preTokenBalances.value) && Readable(meta.postTokenBalances.value) {
          RecordBalancesCompletes(agg, address, t, pre + post, {});
        }
      }
    }
  }

  /** A transaction whose fetch throws is skipped: the result is the one
      obtained without it. */
  lemma {:induction false} FailedFetchIsSkipped(agg: Aggregate, address: string, sigs: seq<Signature>,
                                                getTx: string -> RpcResult<RawTx>, k: nat)
    requires k < |sigs| && getTx(sigs[k].signature).RpcFailed?
    ensures ProcessAll(agg, address, sigs, getTx) == ProcessAll(agg, address, sigs[..k] + sigs[k + 1..], getTx)
    decreases k
  {
    if k == 0 {
      assert sigs[..0] + sigs[1..] == sigs[1..];
    } else {
      var next := ProcessSignature(agg, address, sigs[0], getTx(sigs[0].signature));
      FailedFetchIsSkipped(next, address, sigs[1..], getTx, k - 1);
      var rest := sigs[..k] + sigs[k + 1..];
      assert rest[0] == sigs[0];
      assert rest[1..] == sigs[1..][..k - 1] + sigs[1..][k..];
    }
  }

  /** Filling in names touches nothing but the names. */
  lemma FillNamesOnlyRenames(agg: Aggregate, metadata: map<string, TokenInfo>)
    ensures var r := FillNames(agg, metadata);
      && r.mints == agg.mints && r.byMint.Keys == agg.byMint.Keys
      && forall m :: m in r.byMint ==>
           r.byMint[m] == Renamed(agg.byMint[m], if m in metadata then metadata[m].name
                                                 else agg.byMint[m].metadata.tokenName)
  {
  }

  /** The result of getTokenTransactions: every entry satisfies the
      invariant (trade times are the min and max of its transactions), every
      recorded transaction came from a signature inside the window, and a
      mint's name is the looked-up one exactly when its lookup answered,
      `Unknown` otherwise. */
  lemma {:induction false} TokenTransactionsSound(address: string, startTime: int, endTime: int,
                                                  signatures: RpcResult<seq<Signature>>,
                                                  getTx: string -> RpcResult<RawTx>,
                                                  getAsset: string -> RpcResult<Asset>)
    ensures var r := TokenTransactions(address, startTime, endTime, signatures, getTx, getAsset);
      && (r.None? <==> signatures.RpcFailed?)
      && (r.Some? ==>
            && Valid(r.value, address)
            && (forall m :: m in r.value.byMint ==>
                  r.value.byMint[m].metadata.firstTrade <= r.value.byMint[m].metadata.lastTrade)
            && (forall m :: m in r.value.byMint ==>
                  r.value.byMint[m].metadata.tokenName
                    == if getAsset(m).RpcOk? then InfoOf(getAsset(m).value).name else UNKNOWN)
            && (forall m, i :: m in r.value.byMint && 0 <= i < |r.value.byMint[m].transactions| ==>
                  exists s :: s in signatures.value && InWindow(s, startTime, endTime)
                              && s.signature == r.value.byMint[m].transactions[i].signature))
  {
    if signatures.RpcOk? && |signatures.value| > 0 {
      var sigs := FilterSignatures(signatures.value, startTime, endTime);
      var names := set s | s in sigs :: s.signature;
      ProcessAllPreserves(EMPTY, address, sigs, getTx, names);
      var agg := ProcessAll(EMPTY, address, sigs, getTx);
      var r := FillNames(agg, TokenMetadata(agg.mints, getAsset));
      FillNamesSound(agg, address, getAsset, names);
      forall m, i | m in r.byMint && 0 <= i < |r.byMint[m].transactions|
        ensures exists s :: s in signatures.value && InWindow(s, startTime, endTime)
                            && s.signature == r.byMint[m].transactions[i].signature
      {
        var name := r.byMint[m].transactions[i].signature;
        assert name in names;
        var s :| s in sigs && s.signature == name;
      }
    }
  }

  /** Naming an aggregate kept by the loop keeps its invariant and its
      signatures, and gives each mint its looked-up name or `Unknown`. */
  lemma FillNamesSound(agg: Aggregate, address: string, getAsset: string -> RpcResult<Asset>, names: set<string>)
    requires Valid(agg, address) && Unnamed(agg) && SignedBy(agg, names)
    ensures var r := FillNames(agg, TokenMetadata(agg.mints, getAsset));
      && Valid(r, address) && SignedBy(r, names)
      && (forall m :: m in r.byMint ==> r.byMint[m].metadata.firstTrade <= r.byMint[m].metadata.lastTrade)
      && (forall m :: m in r.byMint ==>
            r.byMint[m].metadata.tokenName
              == if getAsset(m).RpcOk? then InfoOf(getAsset(m).value).name else UNKNOWN)
  {
    var r := FillNames(agg, TokenMetadata(agg.mints, getAsset));
    FillNamesOnlyRenames(agg, TokenMetadata(agg.mints, getAsset));
    forall m | m in r.byMint
      ensures MintValid(address, m, r.byMint[m])
      ensures r.byMint[m].metadata.firstTrade <= r.byMint[m].metadata.lastTrade
      ensures r.byMint[m].transactions == agg.byMint[m].transactions
    {
      var txs := agg.byMint[m].transactions;
      assert txs[0].blockTime <= MaxTime(txs);
    }
  }
}
