/** The procedures of helius-helper.js as they are written: loops that update
    local state, each proved to compute the function of the `Helius` module
    that specifies it. */
module HeliusProcedures {
  import opened Numbers
  import opened Helius
  import opened HeliusLemmas

  /** The loop over `accountKeys` that stops at the first key naming the
      wallet. */
  method FindAccountIndex(keys: seq<AccountKey>, address: string) returns (index: int)
    ensures index == AccountIndex(keys, address)
  {
    index := -1;
    var i := 0;
    while i < |keys|
      invariant 0 <= i <= |keys| && index == -1
      invariant AccountIndex(keys, address) == AccountIndexFrom(keys, address, i)
    {
      match keys[i] {
        case KeyString(s) =>
          if s == address {
            index := i;
            break;
          }
        case KeyObject(pubkey) =>
          if pubkey.Some? && pubkey.value != "" && pubkey.value == address {
            index := i;
            break;
          }
      }
      i := i + 1;
    }
  }

  /** The body of the forEach for a mint not yet visited in this
      transaction: register the mint, create or fetch its entry, push the
      transaction, widen the trade times, then classify. */
  method RecordMintInPlace(byMint: map<string, MintData>, uniqueMints: seq<string>,
                           address: string, tx: TokenTx, mint: string)
    returns (byMint': map<string, MintData>, uniqueMints': seq<string>, threw: bool)
    ensures Step(Aggregate(byMint', uniqueMints'), threw)
         == RecordMint(Aggregate(byMint, uniqueMints), address, tx, mint)
  {
    uniqueMints' := uniqueMints;
    if mint !in uniqueMints' {
      uniqueMints' := uniqueMints' + [mint];
    }
    byMint' := byMint;
    if mint !in byMint' {
      byMint' := byMint'[mint := MintData(NewMeta(address, mint, tx.blockTime), [])];
    }
    var transactions := byMint'[mint].transactions + [tx];
    var meta := byMint'[mint].metadata;
    if tx.blockTime < meta.firstTrade {
      meta := meta.(firstTrade := tx.blockTime);
    }
    if tx.blockTime > meta.lastTrade {
      meta := meta.(lastTrade := tx.blockTime);
    }
    assert MintData(meta, transactions) == Touch(Aggregate(byMint, uniqueMints), address, tx, mint);
    var classified := Classify(meta, tx, mint);
    threw := classified.None?;
    if threw {
      byMint' := byMint'[mint := MintData(meta, transactions)];
    } else {
      byMint' := byMint'[mint := MintData(classified.value, transactions)];
    }
  }

  /** The forEach over one transaction's wallet-owned balances, skipping
      mints already visited and stopping when reading an amount throws. */
  method RecordTransaction(agg: Aggregate, address: string, tx: TokenTx, balances: seq<TokenBalance>)
    returns (s: Step)
    ensures s == RecordBalances(agg, address, tx, balances, {})
  {
    var byMint := agg.byMint;
    var uniqueMints := agg.mints;
    var processed: set<string> := {};
    var i := 0;
    while i < |balances|
      invariant 0 <= i <= |balances|
      invariant RecordBalances(agg, address, tx, balances, {})
             == RecordBalances(Aggregate(byMint, uniqueMints), address, tx, balances[i..], processed)
    {
      assert balances[i..][1..] == balances[i + 1..];
      var mint := balances[i].mint;
      if mint !in processed {
        processed := processed + {mint};
        var threw;
        byMint, uniqueMints, threw := RecordMintInPlace(byMint, uniqueMints, address, tx, mint);
        if threw {
          return Step(Aggregate(byMint, uniqueMints), true);
        }
      }
      i := i + 1;
    }
    s := Step(Aggregate(byMint, uniqueMints), false);
  }

  /** One iteration of the loop over signatures, from the fetched answer. */
  method ProcessTransaction(agg: Aggregate, address: string, sig: Signature, fetched: RpcResult<RawTx>)
    returns (next: Aggregate)
    ensures next == ProcessSignature(agg, address, sig, fetched)
  {
    next := agg;
    if !fetched.RpcOk? {
      return;
    }
    var tx := fetched.value;
    if tx.meta.None? {
      return;
    }
    var meta := tx.meta.value;
    if meta.preTokenBalances.None? || meta.postTokenBalances.None? {
      return;
    }
    var pre := OwnedBy(meta.preTokenBalances.value, address);
    var post := OwnedBy(meta.postTokenBalances.value, address);
    var movement: Option<SolMovement> := None;
    var index := FindAccountIndex(tx.accountKeys, address);
    if index != -1 && meta.preBalances.Some? && meta.postBalances.Some?
       && index < |meta.preBalances.value| && index < |meta.postBalances.value|
    {
      var preSol := meta.preBalances.value[index] as real / LAMPORTS_PER_SOL;
      var postSol := meta.postBalances.value[index] as real / LAMPORTS_PER_SOL;
      var solDiff := postSol - preSol;
      if Abs(solDiff) > EPSILON {
        movement := Some(SolMovement(preSol, postSol, solDiff));
      }
    }
    assert movement == SolMovementOf(address, tx.accountKeys, meta);
    if |pre| > 0 || |post| > 0 || movement.Some? {
      var s := RecordTransaction(agg, address, ToTokenTx(sig, tx, meta, pre, post, movement), pre + post);
      next := s.agg;
    }
  }

  /** getTokenMetadata's loop: one lookup per mint; a lookup that throws or
      answers without a result adds nothing. */
  method GetTokenMetadata(mints: seq<string>, getAsset: string -> RpcResult<Asset>)
    returns (metadata: map<string, TokenInfo>)
    ensures metadata == TokenMetadata(mints, getAsset)
  {
    metadata := map[];
    for i := 0 to |mints|
      invariant metadata == TokenMetadata(mints[..i], getAsset)
    {
      assert mints[..i + 1] == mints[..i] + [mints[i]];
      TokenMetadataSnoc(mints[..i], mints[i], getAsset);
      match getAsset(mints[i]) {
        case RpcOk(asset) => metadata := metadata[mints[i] := InfoOf(asset)];
        case _ =>
      }
    }
    assert mints[..|mints|] == mints;
  }

  /** One more lookup: an answered one adds its entry, a failed one nothing. */
  lemma TokenMetadataSnoc(prefix: seq<string>, mint: string, getAsset: string -> RpcResult<Asset>)
    ensures TokenMetadata(prefix + [mint], getAsset)
         == if getAsset(mint).RpcOk? then TokenMetadata(prefix, getAsset)[mint := InfoOf(getAsset(mint).value)]
            else TokenMetadata(prefix, getAsset)
  {
    assert (prefix + [mint])[..|prefix|] == prefix;
  }

  /** The loop over `transactionsByMint` that fills in token names. */
  method NameTokens(agg: Aggregate, metadata: map<string, TokenInfo>) returns (named: Aggregate)
    requires forall m :: m in agg.byMint <==> m in agg.mints
    ensures named == FillNames(agg, metadata)
  {
    var byMint := agg.byMint;
    ghost var visited: set<string> := {};
    for i := 0 to |agg.mints|
      invariant byMint.Keys == agg.byMint.Keys
      invariant forall m :: m in agg.mints[..i] <==> m in visited
      invariant forall m :: m in byMint ==>
        byMint[m] == if m in visited && m in metadata then Renamed(agg.byMint[m], metadata[m].name) else agg.byMint[m]
    {
      var mint := agg.mints[i];
      assert agg.mints[..i + 1] == agg.mints[..i] + [mint];
      if mint in metadata {
        byMint := byMint[mint := Renamed(byMint[mint], metadata[mint].name)];
      }
      visited := visited + {mint};
    }
    assert agg.mints[..|agg.mints|] == agg.mints;
    named := Aggregate(byMint, agg.mints);
  }

  /** The `for` loop over the filtered signatures. */
  method ProcessSignatures(address: string, filtered: seq<Signature>, getTx: string -> RpcResult<RawTx>)
    returns (agg: Aggregate)
    ensures agg == ProcessAll(EMPTY, address, filtered, getTx)
  {
    agg := EMPTY;
    var i := 0;
    while i < |filtered|
      invariant 0 <= i <= |filtered|
      invariant ProcessAll(EMPTY, address, filtered, getTx) == ProcessAll(agg, address, filtered[i..], getTx)
    {
      assert filtered[i..][1..] == filtered[i + 1..];
      agg := ProcessTransaction(agg, address, filtered[i], getTx(filtered[i].signature));
      i := i + 1;
    }
    assert filtered[|filtered|..] == [];
  }

  /** getTokenTransactions: fetch, filter, fold, look up names, fill them in. */
  method GetTokenTransactions(address: string, startTime: int, endTime: int,
                              signatures: RpcResult<seq<Signature>>,
                              getTx: string -> RpcResult<RawTx>,
                              getAsset: string -> RpcResult<Asset>)
    returns (result: Option<Aggregate>)
    ensures result == TokenTransactions(address, startTime, endTime, signatures, getTx, getAsset)
  {
    if signatures.RpcFailed? {
      return None;
    }
    if signatures.RpcNull? || |signatures.value| == 0 {
      return Some(EMPTY);
    }
    var filtered := FilterSignatures(signatures.value, startTime, endTime);
    var agg := ProcessSignatures(address, filtered, getTx);
    ProcessAllPreserves(EMPTY, address, filtered, getTx, set s | s in filtered :: s.signature);
    var metadata := GetTokenMetadata(agg.mints, getAsset);
    var named := NameTokens(agg, metadata);
    return Some(named);
  }
}
