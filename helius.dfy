/** The per-token trade aggregation of `HeliusHelper.getTokenTransactions`:
    a wallet's signatures are filtered to a time window, each decoded
    transaction is reduced to the wallet's token balances and SOL movement,
    and every token (mint) the wallet held in it gets the transaction appended
    to its list, its first/last trade times widened and, for a successful
    transaction that moved SOL, a buy or sell counted.

    The RPC calls are replaced by their answers: `signatures` is the answer
    to getSignaturesForAddress, `getTx` maps a signature to the answer of
    getTransaction, `getAsset` maps a mint to the answer of getAsset.
    Times are integers in milliseconds; SOL amounts are exact reals. */
module Helius {
  import opened Numbers

  /** Lamports in one SOL. */
  const LAMPORTS_PER_SOL: real := 1000000000.0
  /** Movements of at most 1e-6 (SOL, or token units) count as no movement. */
  const EPSILON: real := 0.000001
  /** The name a token keeps until its metadata lookup succeeds. */
  const UNKNOWN: string := "Unknown"

  // ---------------------------------------------------------------- input

  /** An entry of getSignaturesForAddress; `blockTime` in seconds. */
  datatype Signature = Signature(signature: string, blockTime: int)

  /** `uiTokenAmount` of a token balance: a number, a null `uiAmount`, or no
      `uiTokenAmount` object at all (reading `.uiAmount` then throws). */
  datatype UiTokenAmount = UiAmount(amount: real) | NullUiAmount | MissingUiTokenAmount

  datatype TokenBalance = TokenBalance(owner: string, mint: string, uiTokenAmount: UiTokenAmount)

  /** An entry of `transaction.message.accountKeys`: a bare string, or a parsed
      object whose `pubkey` may be absent. */
  datatype AccountKey = KeyString(key: string) | KeyObject(pubkey: Option<string>)

  /** `tx.meta`: `failed` is `err !== null`; `fee` and the balances in lamports;
      a missing array is `None`. */
  datatype TxMeta = TxMeta(
    failed: bool,
    fee: int,
    preBalances: Option<seq<int>>,
    postBalances: Option<seq<int>>,
    preTokenBalances: Option<seq<TokenBalance>>,
    postTokenBalances: Option<seq<TokenBalance>>)

  /** A decoded transaction; `blockTime` in seconds. */
  datatype RawTx = RawTx(slot: int, blockTime: int, accountKeys: seq<AccountKey>, meta: Option<TxMeta>)

  /** The answer of getAsset, reduced to the three fields a name is read from. */
  datatype Asset = Asset(name: Option<string>, contentSymbol: Option<string>, symbol: Option<string>)

  // --------------------------------------------------------------- output

  datatype SolMovement = SolMovement(preSol: real, postSol: real, solChange: real)

  /** The record pushed onto each touched mint's list; `blockTime` in ms. */
  datatype TokenTx = TokenTx(
    signature: string,
    blockTime: int,
    slot: int,
    preTokenBalances: seq<TokenBalance>,
    postTokenBalances: seq<TokenBalance>,
    solMovement: Option<SolMovement>,
    success: bool,
    fee: real)

  /** The `metadata` summary kept per mint. */
  datatype TradeMeta = TradeMeta(
    id: string,
    wallet: string,
    tokenName: string,
    tokenAddress: string,
    firstTrade: int,
    lastTrade: int,
    buys: nat,
    sells: nat,
    investedSol: real,
    totalSolReceived: real,
    realizedPnl: real,
    roi: real)

  datatype MintData = MintData(metadata: TradeMeta, transactions: seq<TokenTx>)

  /** `transactionsByMint` with its key order; `mints` is also the insertion
      order of the `uniqueMints` set, which receives exactly the same keys. */
  datatype Aggregate = Aggregate(byMint: map<string, MintData>, mints: seq<string>)

  datatype TokenInfo = TokenInfo(name: string, symbol: Option<string>)

  /** What the forEach over one transaction's balances left behind, and
      whether it stopped on an exception. */
  datatype Step = Step(agg: Aggregate, threw: bool)

  datatype Side = Buy | Sell | Neither

  const EMPTY: Aggregate := Aggregate(map[], [])

  // ---------------------------------------------------------- time filter

  predicate InWindow(sig: Signature, startTime: int, endTime: int)
  {
    startTime < sig.blockTime * 1000 <= endTime
  }

  /** The signatures whose block time lies in (startTime, endTime], in order. */
  function FilterSignatures(sigs: seq<Signature>, startTime: int, endTime: int): (r: seq<Signature>)
    ensures |r| <= |sigs|
    ensures forall s :: s in r <==> s in sigs && InWindow(s, startTime, endTime)
  {
    if sigs == [] then []
    else
      (if InWindow(sigs[0], startTime, endTime) then [sigs[0]] else [])
      + FilterSignatures(sigs[1..], startTime, endTime)
  }

  /** The filter keeps order and multiplicity: filtering a concatenation
      filters each part in turn, and one signature is kept exactly when it is
      in the window. */
  lemma {:induction false} FilterSignaturesOrder(a: seq<Signature>, b: seq<Signature>, startTime: int, endTime: int)
    ensures FilterSignatures(a + b, startTime, endTime)
         == FilterSignatures(a, startTime, endTime) + FilterSignatures(b, startTime, endTime)
    ensures forall s :: FilterSignatures([s], startTime, endTime) == if InWindow(s, startTime, endTime) then [s] else []
    decreases |a|
  {
    if a == [] {
      assert a + b == b;
    } else {
      assert (a + b)[0] == a[0];
      assert (a + b)[1..] == a[1..] + b;
      FilterSignaturesOrder(a[1..], b, startTime, endTime);
      var head := if InWindow(a[0], startTime, endTime) then [a[0]] else [];
      assert head + (FilterSignatures(a[1..], startTime, endTime) + FilterSignatures(b, startTime, endTime))
          == (head + FilterSignatures(a[1..], startTime, endTime)) + FilterSignatures(b, startTime, endTime);
    }
    forall s | true
      ensures FilterSignatures([s], startTime, endTime) == if InWindow(s, startTime, endTime) then [s] else []
    {
      FilterSignaturesOne(s, startTime, endTime);
    }
  }

  lemma FilterSignaturesOne(s: Signature, startTime: int, endTime: int)
    ensures FilterSignatures([s], startTime, endTime) == if InWindow(s, startTime, endTime) then [s] else []
  {
    assert [s][1..] == [];
  }

  // -------------------------------------------------- the wallet's entries

  /** The balances owned by `address`, in order. */
  function OwnedBy(balances: seq<TokenBalance>, address: string): (r: seq<TokenBalance>)
    ensures |r| <= |balances|
    ensures forall b :: b in r <==> b in balances && b.owner == address
  {
    if balances == [] then []
    else
      (if balances[0].owner == address then [balances[0]] else [])
      + OwnedBy(balances[1..], address)
  }

  /** The owner filter keeps order and multiplicity: filtering a
      concatenation filters each part in turn, and one balance is kept exactly
      when the wallet owns it. */
  lemma OwnedByOrder(a: seq<TokenBalance>, b: seq<TokenBalance>, address: string)
    ensures OwnedBy(a + b, address) == OwnedBy(a, address) + OwnedBy(b, address)
    ensures forall x :: OwnedBy([x], address) == if x.owner == address then [x] else []
  {
    OwnedByAppend(a, b, address);
    forall x | true
      ensures OwnedBy([x], address) == if x.owner == address then [x] else []
    {
      OwnedByOne(x, address);
    }
  }

  lemma {:induction false} OwnedByAppend(a: seq<TokenBalance>, b: seq<TokenBalance>, address: string)
    ensures OwnedBy(a + b, address) == OwnedBy(a, address) + OwnedBy(b, address)
    decreases |a|
  {
    if a == [] {
      assert a + b == b;
    } else {
      var ab := a + b;
      var head := if a[0].owner == address then [a[0]] else [];
      assert ab != [] && ab[0] == a[0];
      assert ab[1..] == a[1..] + b;
      OwnedByAppend(a[1..], b, address);
      calc {
        OwnedBy(ab, address);
        head + OwnedBy(a[1..] + b, address);
        head + (OwnedBy(a[1..], address) + OwnedBy(b, address));
        (head + OwnedBy(a[1..], address)) + OwnedBy(b, address);
        OwnedBy(a, address) + OwnedBy(b, address);
      }
    }
  }

  lemma OwnedByOne(x: TokenBalance, address: string)
    ensures OwnedBy([x], address) == if x.owner == address then [x] else []
  {
    assert [x][1..] == [];
  }

  /** An account key names `address`: a string equal to it, or an object
      whose truthy `pubkey` equals it. */
  predicate KeyIs(k: AccountKey, address: string)
  {
    match k
    case KeyString(s) => s == address
    case KeyObject(p) => p.Some? && p.value != "" && p.value == address
  }

  /** The first index of `keys` at or after `from` naming `address`, or -1. */
  function AccountIndexFrom(keys: seq<AccountKey>, address: string, from: nat): (i: int)
    requires from <= |keys|
    ensures i == -1 || from <= i < |keys|
    ensures i >= 0 ==> KeyIs(keys[i], address)
    ensures forall j :: from <= j < |keys| && (i == -1 || j < i) ==> !KeyIs(keys[j], address)
    decreases |keys| - from
  {
    if from == |keys| then -1
    else if KeyIs(keys[from], address) then from
    else AccountIndexFrom(keys, address, from + 1)
  }

  function AccountIndex(keys: seq<AccountKey>, address: string): int
  {
    AccountIndexFrom(keys, address, 0)
  }

  /** The wallet's SOL movement: present only when its account index is
      found, both lamport arrays exist and reach that index (otherwise the
      JavaScript difference is NaN), and the change exceeds 1e-6 SOL. */
  function SolMovementOf(address: string, keys: seq<AccountKey>, meta: TxMeta): Option<SolMovement>
  {
    var i := AccountIndex(keys, address);
    if i != -1 && meta.preBalances.Some? && meta.postBalances.Some?
       && i < |meta.preBalances.value| && i < |meta.postBalances.value|
    then
      var preSol := meta.preBalances.value[i] as real / LAMPORTS_PER_SOL;
      var postSol := meta.postBalances.value[i] as real / LAMPORTS_PER_SOL;
      var solDiff := postSol - preSol;
      if Abs(solDiff) > EPSILON then Some(SolMovement(preSol, postSol, solDiff)) else None
    else None
  }

  /** The SOL threshold in lamports: a movement is recorded exactly when the
      wallet's account is found in range and its lamports changed by more
      than 1000; the recorded change is that lamport change in SOL. */
  lemma SolMovementRule(address: string, keys: seq<AccountKey>, meta: TxMeta)
    ensures var i := AccountIndex(keys, address);
      var found := i != -1 && meta.preBalances.Some? && meta.postBalances.Some?
        && i < |meta.preBalances.value| && i < |meta.postBalances.value|;
      && (SolMovementOf(address, keys, meta).Some? <==>
           found && (meta.postBalances.value[i] - meta.preBalances.value[i] > 1000
                     || meta.preBalances.value[i] - meta.postBalances.value[i] > 1000))
      && (SolMovementOf(address, keys, meta).Some? ==>
           SolMovementOf(address, keys, meta).value.solChange
             == (meta.postBalances.value[i] - meta.preBalances.value[i]) as real / LAMPORTS_PER_SOL)
  {
    var i := AccountIndex(keys, address);
    if i != -1 && meta.preBalances.Some? && meta.postBalances.Some?
       && i < |meta.preBalances.value| && i < |meta.postBalances.value|
    {
      var pre := meta.preBalances.value[i];
      var post := meta.postBalances.value[i];
      var d := post as real / LAMPORTS_PER_SOL - pre as real / LAMPORTS_PER_SOL;
      assert d == (post - pre) as real / LAMPORTS_PER_SOL;
      assert d > EPSILON <==> post - pre > 1000;
      assert d < -EPSILON <==> pre - post > 1000;
    }
  }

  // ------------------------------------------------------- classification

  /** `Array.prototype.find` by mint: the first balance with that mint. */
  function FindByMint(balances: seq<TokenBalance>, mint: string): (r: Option<TokenBalance>)
    ensures r.Some? ==> exists i :: 0 <= i < |balances| && balances[i] == r.value && r.value.mint == mint
                                    && forall j :: 0 <= j < i ==> balances[j].mint != mint
    ensures r.None? <==> forall b :: b in balances ==> b.mint != mint
  {
    if balances == [] then None
    else if balances[0].mint == mint then Some(balances[0])
    else FindByMint(balances[1..], mint)
  }

  /** `b ? Number(b.uiTokenAmount.uiAmount || 0) : 0`; `None` when it throws. */
  function AmountOf(b: Option<TokenBalance>): Option<real>
  {
    match b
    case None => Some(0.0)
    case Some(bal) =>
      match bal.uiTokenAmount
      case UiAmount(v) => Some(v)
      case NullUiAmount => Some(0.0)
      case MissingUiTokenAmount => None
  }

  function SideOf(tokenDiff: real, solChange: real): Side
  {
    if tokenDiff > 0.0 && solChange < 0.0 then Buy
    else if tokenDiff < 0.0 && solChange > 0.0 then Sell
    else Neither
  }

  /** Invested and received amounts are non-negative four-place decimals. */
  predicate AmountsValid(m: TradeMeta)
  {
    m.investedSol >= 0.0 && OnGrid4(m.investedSol)
    && m.totalSolReceived >= 0.0 && OnGrid4(m.totalSolReceived)
  }

  /** Recompute PnL and ROI from the unrounded totals, then round. */
  function Reprice(m: TradeMeta, invested: real, received: real): TradeMeta
  {
    var pnl := received - invested;
    var roi := if invested > 0.0 then pnl / invested * 100.0 else 0.0;
    m.(investedSol := Round4(invested), totalSolReceived := Round4(received),
       realizedPnl := Round4(pnl), roi := Round2(roi))
  }

  /** The update of one mint's summary for a token movement beyond epsilon. */
  function ApplyTrade(m: TradeMeta, tokenDiff: real, solChange: real): TradeMeta
  {
    match SideOf(tokenDiff, solChange)
    case Buy => Reprice(m.(buys := m.buys + 1), m.investedSol + Abs(solChange), m.totalSolReceived)
    case Sell => Reprice(m.(sells := m.sells + 1), m.investedSol, m.totalSolReceived + solChange)
    case Neither => Reprice(m, m.investedSol, m.totalSolReceived)
  }

  /** A buy adds one buy and |solChange| to the invested total, a sell one sell
      and solChange to the received total, anything else neither; the totals
      never decrease and stay valid; PnL and ROI come from the new unrounded
      totals, with ROI 0 when nothing is invested. */
  lemma {:induction false} TradeRules(m: TradeMeta, tokenDiff: real, solChange: real)
    requires AmountsValid(m)
    ensures var r := ApplyTrade(m, tokenDiff, solChange);
      var side := SideOf(tokenDiff, solChange);
      var invested := if side == Buy then m.investedSol - solChange else m.investedSol;
      var received := if side == Sell then m.totalSolReceived + solChange else m.totalSolReceived;
      && AmountsValid(r)
      && r.investedSol >= m.investedSol && r.totalSolReceived >= m.totalSolReceived
      && (side == Buy ==> r.buys == m.buys + 1 && r.sells == m.sells
                          && r.investedSol == Round4(m.investedSol + Abs(solChange))
                          && r.totalSolReceived == m.totalSolReceived)
      && (side == Sell ==> r.sells == m.sells + 1 && r.buys == m.buys
                           && r.totalSolReceived == Round4(m.totalSolReceived + solChange)
                           && r.investedSol == m.investedSol)
      && (side == Neither ==> r.buys == m.buys && r.sells == m.sells
                              && r.investedSol == m.investedSol
                              && r.totalSolReceived == m.totalSolReceived)
      && r.realizedPnl == Round4(received - invested)
      && (invested == 0.0 ==> r.roi == 0.0)
      && (invested > 0.0 ==> r.roi == Round2((received - invested) / invested * 100.0))
      && r.id == m.id && r.tokenName == m.tokenName && r.tokenAddress == m.tokenAddress
      && r.wallet == m.wallet && r.firstTrade == m.firstTrade && r.lastTrade == m.lastTrade
  {
    match SideOf(tokenDiff, solChange)
    case Buy =>
      assert solChange < 0.0;
      Round4Fixes(m.totalSolReceived);
      Round4Grows(m.investedSol, Abs(solChange));
      Round4OnGrid(m.investedSol + Abs(solChange));
      RepriceRules(m.(buys := m.buys + 1), m.investedSol - solChange, m.totalSolReceived);
    case Sell =>
      Round4Fixes(m.investedSol);
      Round4Grows(m.totalSolReceived, solChange);
      Round4OnGrid(m.totalSolReceived + solChange);
      RepriceRules(m.(sells := m.sells + 1), m.investedSol, m.totalSolReceived + solChange);
    case Neither =>
      Round4Fixes(m.investedSol);
      Round4Fixes(m.totalSolReceived);
      RepriceRules(m, m.investedSol, m.totalSolReceived);
  }

  /** Repricing sets the two totals and PnL to their roundings and the ROI
      from the unrounded totals, and keeps everything else. */
  lemma RepriceRules(m: TradeMeta, invested: real, received: real)
    requires invested >= 0.0
    ensures var r := Reprice(m, invested, received);
      && r.investedSol == Round4(invested) && r.totalSolReceived == Round4(received)
      && r.realizedPnl == Round4(received - invested)
      && (invested == 0.0 ==> r.roi == 0.0)
      && (invested > 0.0 ==> r.roi == Round2((received - invested) / invested * 100.0))
      && r.buys == m.buys && r.sells == m.sells
      && r.id == m.id && r.tokenName == m.tokenName && r.tokenAddress == m.tokenAddress
      && r.wallet == m.wallet && r.firstTrade == m.firstTrade && r.lastTrade == m.lastTrade
  {
    if invested == 0.0 {
      assert Round2(0.0) == 0.0 by {
        FloorNear(0.0 * 100.0 + 0.5, 0);
      }
    }
  }

  /** A first buy below half of the fourth decimal: with nothing invested or
      received yet, buying for 0.00002 SOL stores `invested_sol` as 0 after
      rounding, while the ROI, computed from the unrounded total, is -100. */
  lemma SubGridBuy(m: TradeMeta)
    requires m.investedSol == 0.0 && m.totalSolReceived == 0.0
    ensures ApplyTrade(m, 1.0, -0.00002).buys == m.buys + 1
    ensures ApplyTrade(m, 1.0, -0.00002).investedSol == 0.0
    ensures ApplyTrade(m, 1.0, -0.00002).roi == -100.0
  {
    assert SideOf(1.0, -0.00002) == Buy;
    FloorNear(0.00002 * 10000.0 + 0.5, 0);
    assert Round4(0.00002) == 0.0;
    assert (0.0 - 0.00002) / 0.00002 * 100.0 == -100.0;
    FloorNear(100.0 * 100.0 + 0.5, 10000);
    assert Round2(-100.0) == -100.0;
  }

  /** The classification of one (transaction, mint) pair; `None` when reading
      a token amount throws. */
  function Classify(m: TradeMeta, tx: TokenTx, mint: string): Option<TradeMeta>
  {
    if !(tx.success && tx.solMovement.Some?) then Some(m)
    else
      var pre := AmountOf(FindByMint(tx.preTokenBalances, mint));
      var post := AmountOf(FindByMint(tx.postTokenBalances, mint));
      if pre.None? || post.None? then None
      else
        var tokenDiff := post.value - pre.value;
        if Abs(tokenDiff) > EPSILON then Some(ApplyTrade(m, tokenDiff, tx.solMovement.value.solChange))
        else Some(m)
  }

  // ------------------------------------------------------- per-mint update

  function NewMeta(address: string, mint: string, time: int): TradeMeta
  {
    TradeMeta(address + "|" + mint, address, UNKNOWN, mint, time, time, 0, 0, 0.0, 0.0, 0.0, 0.0)
  }

  /** A mint's entry once the transaction is pushed and the trade times are
      widened; a mint seen for the first time starts from a fresh summary
      whose trade times are this transaction's. */
  function Touch(agg: Aggregate, address: string, tx: TokenTx, mint: string): MintData
  {
    var data := if mint in agg.byMint then agg.byMint[mint]
                else MintData(NewMeta(address, mint, tx.blockTime), []);
    var m := data.metadata;
    var first := if tx.blockTime < m.firstTrade then tx.blockTime else m.firstTrade;
    var last := if tx.blockTime > m.lastTrade then tx.blockTime else m.lastTrade;
    MintData(m.(firstTrade := first, lastTrade := last), data.transactions + [tx])
  }

  /** The entry stored for a visited mint: touched, then classified; when
      classification throws, the entry keeps the push and the new trade
      times. */
  function EntryOf(agg: Aggregate, address: string, tx: TokenTx, mint: string): MintData
  {
    var touched := Touch(agg, address, tx, mint);
    var classified := Classify(touched.metadata, tx, mint);
    if classified.None? then touched else touched.(metadata := classified.value)
  }

  /** The body of the forEach for one not yet visited mint: register it and
      store its new entry; `threw` when classification throws. */
  function RecordMint(agg: Aggregate, address: string, tx: TokenTx, mint: string): Step
  {
    var mints := if mint in agg.mints then agg.mints else agg.mints + [mint];
    var touched := Touch(agg, address, tx, mint);
    Step(Aggregate(agg.byMint[mint := EntryOf(agg, address, tx, mint)], mints),
         Classify(touched.metadata, tx, mint).None?)
  }

  /** The forEach over `[...pre, ...post]` with its `processedMints` set;
      an exception ends it, keeping what was already done. */
  function RecordBalances(agg: Aggregate, address: string, tx: TokenTx,
                          balances: seq<TokenBalance>, processed: set<string>): Step
    decreases |balances|
  {
    if balances == [] then Step(agg, false)
    else if balances[0].mint in processed then RecordBalances(agg, address, tx, balances[1..], processed)
    else
      var s := RecordMint(agg, address, tx, balances[0].mint);
      if s.threw then s
      else RecordBalances(s.agg, address, tx, balances[1..], processed + {balances[0].mint})
  }

  function ToTokenTx(sig: Signature, tx: RawTx, meta: TxMeta, pre: seq<TokenBalance>,
                     post: seq<TokenBalance>, movement: Option<SolMovement>): TokenTx
  {
    TokenTx(sig.signature, tx.blockTime * 1000, tx.slot, pre, post, movement,
            !meta.failed, meta.fee as real / LAMPORTS_PER_SOL)
  }

  /** One iteration of the loop over signatures. A failed fetch, a missing
      result, a missing meta or a missing token-balance array leave the
      aggregate as it was; so does a transaction with neither a wallet-owned
      token balance nor a SOL movement. */
  function ProcessSignature(agg: Aggregate, address: string, sig: Signature, fetched: RpcResult<RawTx>): Aggregate
  {
    match fetched
    case RpcFailed => agg
    case RpcNull => agg
    case RpcOk(tx) =>
      if tx.meta.None? then agg
      else
        var meta := tx.meta.value;
        if meta.preTokenBalances.None? || meta.postTokenBalances.None? then agg
        else
          var pre := OwnedBy(meta.preTokenBalances.value, address);
          var post := OwnedBy(meta.postTokenBalances.value, address);
          var movement := SolMovementOf(address, tx.accountKeys, meta);
          if |pre| > 0 || |post| > 0 || movement.Some? then
            RecordBalances(agg, address, ToTokenTx(sig, tx, meta, pre, post, movement), pre + post, {}).agg
          else agg
  }

  /** The loop over the filtered signatures. */
  function ProcessAll(agg: Aggregate, address: string, sigs: seq<Signature>,
                      getTx: string -> RpcResult<RawTx>): Aggregate
    decreases |sigs|
  {
    if sigs == [] then agg
    else ProcessAll(ProcessSignature(agg, address, sigs[0], getTx(sigs[0].signature)), address, sigs[1..], getTx)
  }

  // ------------------------------------------------------------ invariant

  /** The earliest block time of a non-empty list of transactions. */
  function MinTime(txs: seq<TokenTx>): (r: int)
    requires |txs| > 0
    ensures forall i :: 0 <= i < |txs| ==> r <= txs[i].blockTime
    ensures exists i :: 0 <= i < |txs| && r == txs[i].blockTime
    decreases |txs|
  {
    if |txs| == 1 then txs[0].blockTime
    else
      var p := MinTime(txs[..|txs| - 1]);
      var t := txs[|txs| - 1].blockTime;
      if t < p then t else p
  }

  /** The latest block time of a non-empty list of transactions. */
  function MaxTime(txs: seq<TokenTx>): (r: int)
    requires |txs| > 0
    ensures forall i :: 0 <= i < |txs| ==> txs[i].blockTime <= r
    ensures exists i :: 0 <= i < |txs| && r == txs[i].blockTime
    decreases |txs|
  {
    if |txs| == 1 then txs[0].blockTime
    else
      var p := MaxTime(txs[..|txs| - 1]);
      var t := txs[|txs| - 1].blockTime;
      if t > p then t else p
  }

  /** One mint's entry: it has at least one transaction, its trade times
      are the earliest and latest of them, it is keyed `wallet|mint`, and its
      amounts are valid. */
  ghost predicate MintValid(address: string, mint: string, d: MintData)
  {
    && |d.transactions| > 0
    && d.metadata.firstTrade == MinTime(d.transactions)
    && d.metadata.lastTrade == MaxTime(d.transactions)
    && d.metadata.id == address + "|" + mint
    && d.metadata.wallet == address
    && d.metadata.tokenAddress == mint
    && AmountsValid(d.metadata)
  }

  /** The aggregate kept by the loop: `mints` lists each key once. */
  ghost predicate Valid(agg: Aggregate, address: string)
  {
    && (forall i, j :: 0 <= i < j < |agg.mints| ==> agg.mints[i] != agg.mints[j])
    && (forall m :: m in agg.byMint <==> m in agg.mints)
    && (forall m :: m in agg.byMint ==> MintValid(address, m, agg.byMint[m]))
  }

  /** No name has been filled in yet. */
  ghost predicate Unnamed(agg: Aggregate)
  {
    forall m :: m in agg.byMint ==> agg.byMint[m].metadata.tokenName == UNKNOWN
  }

  // ---------------------------------------------------------------- names

  predicate Truthy(o: Option<string>)
  {
    o.Some? && o.value != ""
  }

  /** `name || content symbol || symbol || 'Unknown'`, and the symbol. */
  function InfoOf(a: Asset): TokenInfo
  {
    TokenInfo(
      if Truthy(a.name) then a.name.value
      else if Truthy(a.contentSymbol) then a.contentSymbol.value
      else if Truthy(a.symbol) then a.symbol.value
      else UNKNOWN,
      if Truthy(a.contentSymbol) then a.contentSymbol else a.symbol)
  }

  /** getTokenMetadata: an entry for exactly the mints whose lookup answered
      with a result; a failing lookup is dropped without touching the rest. */
  function TokenMetadata(mints: seq<string>, getAsset: string -> RpcResult<Asset>): (r: map<string, TokenInfo>)
    ensures forall m :: m in r <==> m in mints && getAsset(m).RpcOk?
    ensures forall m :: m in r ==> r[m] == InfoOf(getAsset(m).value)
    decreases |mints|
  {
    if mints == [] then map[]
    else
      var rest := TokenMetadata(mints[..|mints| - 1], getAsset);
      var m := mints[|mints| - 1];
      assert forall x :: x in mints <==> x in mints[..|mints| - 1] || x == m;
      match getAsset(m)
      case RpcOk(a) => rest[m := InfoOf(a)]
      case _ => rest
  }

  function Renamed(d: MintData, name: string): MintData
  {
    d.(metadata := d.metadata.(tokenName := name))
  }

  /** The fill-in loop: a mint with a metadata entry takes its name. */
  function FillNames(agg: Aggregate, metadata: map<string, TokenInfo>): Aggregate
  {
    Aggregate(
      map m | m in agg.byMint ::
        if m in metadata then Renamed(agg.byMint[m], metadata[m].name) else agg.byMint[m],
      agg.mints)
  }

  /** getTokenTransactions: `None` when fetching the signatures throws (the
      error is rethrown); an empty aggregate when there are none. */
  function TokenTransactions(address: string, startTime: int, endTime: int,
                             signatures: RpcResult<seq<Signature>>,
                             getTx: string -> RpcResult<RawTx>,
                             getAsset: string -> RpcResult<Asset>): Option<Aggregate>
  {
    match signatures
    case RpcFailed => None
    case RpcNull => Some(EMPTY)
    case RpcOk(sigs) =>
      if |sigs| == 0 then Some(EMPTY)
      else
        var agg := ProcessAll(EMPTY, address, FilterSignatures(sigs, startTime, endTime), getTx);
        Some(FillNames(agg, TokenMetadata(agg.mints, getAsset)))
  }
}
