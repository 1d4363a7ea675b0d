/** The wallet sync job: merging freshly aggregated trades into the rows
    already stored, choosing where to resume fetching, and running every
    configured wallet in turn. */
module WalletSync {
  import opened Numbers
  import opened Helius
  import HeliusLemmas
  import HeliusProcedures

  /** The mint key that is never turned into a trade. */
  const NATIVE_MINT: string := "SOL"

  // ------------------------------------------------------------ parseNumber

  /** A value as the database driver may hand it back: numeric columns arrive
      as strings or numbers; a null or any other value is `JsOther`. */
  datatype JsValue = JsString(s: string) | JsNumber(n: real) | JsOther

  /** StrWhiteSpaceChar: the white space and line terminators that parseFloat
      skips before the number. */
  predicate IsSpace(c: char)
  {
    c == ' ' || c == '\t' || c == '\n' || c == '\r' || c == '\U{000B}' || c == '\U{000C}'
    || c == '\U{00A0}' || c == '\U{1680}' || ('\U{2000}' <= c <= '\U{200A}')
    || c == '\U{2028}' || c == '\U{2029}' || c == '\U{202F}' || c == '\U{205F}'
    || c == '\U{3000}' || c == '\U{FEFF}'
  }

  function LeadingSpace(s: string): (n: nat)
    ensures n <= |s|
    ensures forall i :: 0 <= i < n ==> IsSpace(s[i])
    ensures n < |s| ==> !IsSpace(s[n])
  {
    if |s| == 0 || !IsSpace(s[0]) then 0 else 1 + LeadingSpace(s[1..])
  }

  /** An exponent part `e`/`E`, optional sign, at least one digit; anything
      else after the digits is ignored, and so is an incomplete exponent. */
  function ExponentOf(s: string): int
  {
    if |s| >= 2 && (s[0] == 'e' || s[0] == 'E') then
      var digits := if s[1] == '+' || s[1] == '-' then s[1..][1..] else s[1..];
      var n := DigitRun(digits);
      if n == 0 then 0
      else if s[1] == '-' then 0 - DigitsValue(digits[..n]) as int
      else DigitsValue(digits[..n])
    else 0
  }

  function Scale(e: int): real
  {
    if e >= 0 then Pow10(e) as real else 1.0 / Pow10(-e) as real
  }

  /** The number written by decimal digits `whole` and fraction digits `frac`. */
  function DecimalValue(whole: string, frac: string): real
    requires AllDigits(whole) && AllDigits(frac)
  {
    DigitsValue(whole) as real + DigitsValue(frac) as real / Pow10(|frac|) as real
  }

  /** The fraction digits after a leading point of `rest`, if it has one. */
  function Fraction(rest: string): (frac: string)
    ensures AllDigits(frac)
  {
    if |rest| > 0 && rest[0] == '.' then rest[1..][..DigitRun(rest[1..])] else ""
  }

  /** The value of the unsigned decimal literal at the start of `u`. */
  function ParseUnsigned(u: string): Option<real>
  {
    UnsignedFrom(u[..DigitRun(u)], u[DigitRun(u)..])
  }

  /** The literal made of the digit run `whole` and whatever follows it:
      an optional fraction, then an optional exponent part. */
  function UnsignedFrom(whole: string, rest: string): Option<real>
    requires AllDigits(whole)
  {
    var frac := Fraction(rest);
    if |whole| == 0 && |frac| == 0 then None
    else
      var after := if |rest| > 0 && rest[0] == '.' then rest[1 + |frac|..] else rest;
      Some(Literal(whole, frac, after))
  }

  /** The number written by digits, fraction digits and an exponent part. */
  function Literal(whole: string, frac: string, after: string): real
    requires AllDigits(whole) && AllDigits(frac)
  {
    DecimalValue(whole, frac) * Scale(ExponentOf(after))
  }

  /** `parseFloat`: the longest prefix (after white space) that is a signed
      decimal literal, `None` standing for NaN. */
  function ParseFloat(s: string): Option<real>
  {
    var t := s[LeadingSpace(s)..];
    if |t| > 0 && (t[0] == '-' || t[0] == '+') then
      var magnitude := ParseUnsigned(t[1..]);
      if magnitude.Some? && t[0] == '-' then Some(-magnitude.value) else magnitude
    else ParseUnsigned(t)
  }

  /** mergeTrades' `parseNumber`: a string is parsed (NaN, and zero, give 0),
      a number is kept, anything else is 0. */
  function ParseNumber(v: JsValue): (r: real)
    ensures v.JsNumber? ==> r == v.n
    ensures v.JsOther? ==> r == 0.0
    ensures v.JsString? && ParseFloat(v.s).None? ==> r == 0.0
  {
    match v
    case JsString(s) => if ParseFloat(s).Some? then ParseFloat(s).value else 0.0
    case JsNumber(n) => n
    case JsOther => 0.0
  }

  lemma ParseUnsignedDecimal(whole: string, frac: string)
    requires |whole| > 0 && AllDigits(whole) && AllDigits(frac)
    ensures ParseUnsigned(whole + "." + frac) == Some(DecimalValue(whole, frac))
  {
    var u := whole + "." + frac;
    assert u == whole + ("." + frac);
    DigitRunOf(whole, "." + frac);
    assert u[..|whole|] == whole;
    assert u[|whole|..] == "." + frac;
    assert ("." + frac)[1..] == frac;
    DigitRunOf(frac, "");
    assert frac + "" == frac;
    assert Fraction("." + frac) == frac;
    assert ("." + frac)[1 + |frac|..] == "";
    assert UnsignedFrom(whole, "." + frac) == Some(Literal(whole, frac, ""));
    NoExponent(whole, frac);
  }

  /** A literal with nothing after its digits has no exponent part. */
  lemma NoExponent(whole: string, frac: string)
    requires AllDigits(whole) && AllDigits(frac)
    ensures Literal(whole, frac, "") == DecimalValue(whole, frac)
  {
    assert ExponentOf("") == 0;
    assert Scale(0) == 1.0;
  }

  /** A literal starting with a digit is read as it is; a minus sign in
      front negates it. */
  lemma ParseFloatOfDigitStart(u: string)
    requires |u| > 0 && IsDigit(u[0])
    ensures ParseFloat(u) == ParseUnsigned(u)
  {
    NoLeadingSpace(u);
  }

  lemma ParseFloatOfMinus(u: string)
    requires |u| > 0 && IsDigit(u[0])
    ensures ParseFloat("-" + u) == if ParseUnsigned(u).Some? then Some(-ParseUnsigned(u).value) else None
  {
    var s := "-" + u;
    NoLeadingSpace(s);
    ParseFloatOfSign(s);
    assert s[1..] == u;
  }

  /** With no white space in front, a leading minus negates the unsigned
      literal after it. */
  lemma ParseFloatOfSign(s: string)
    requires |s| > 0 && s[0] == '-' && LeadingSpace(s) == 0
    ensures ParseFloat(s) == if ParseUnsigned(s[1..]).Some? then Some(-ParseUnsigned(s[1..]).value) else None
  {
    var t := s[LeadingSpace(s)..];
    assert |t| > 0 && t[0] == '-' && t[1..] == s[1..];
  }

  lemma NoLeadingSpace(s: string)
    requires |s| > 0 && (IsDigit(s[0]) || s[0] == '-')
    ensures LeadingSpace(s) == 0
  {
    assert !IsSpace(s[0]);
  }

  lemma PrependSign(sign: string, whole: string, frac: string)
    ensures sign + whole + "." + frac == sign + (whole + "." + frac)
  {
  }

  /** A plain decimal literal, such as the driver's rendering of a NUMERIC
      column, parses back to the number it writes, and with a minus sign in
      front to its negation. */
  lemma ParseDecimal(whole: string, frac: string)
    requires |whole| > 0 && AllDigits(whole) && AllDigits(frac)
    ensures ParseNumber(JsString(whole + "." + frac)) == DecimalValue(whole, frac)
    ensures ParseNumber(JsString("-" + whole + "." + frac)) == -DecimalValue(whole, frac)
  {
    var u := whole + "." + frac;
    ParseUnsignedDecimal(whole, frac);
    assert IsDigit(u[0]);
    ParseFloatOfMinus(u);
    ParseFloatOfDigitStart(u);
    PrependSign("-", whole, frac);
  }

  lemma ParseUnsignedInteger(whole: string)
    requires |whole| > 0 && AllDigits(whole)
    ensures ParseUnsigned(whole) == Some(DigitsValue(whole) as real)
  {
    assert DigitRun(whole) == |whole| by {
      DigitRunOf(whole, "");
      assert whole + "" == whole;
    }
    assert whole[..|whole|] == whole && whole[|whole|..] == "";
    assert UnsignedFrom(whole, "") == Some(Literal(whole, "", ""));
    WholeValue(whole);
  }

  /** Digits with no fraction and no exponent part. */
  lemma WholeValue(whole: string)
    requires AllDigits(whole)
    ensures Literal(whole, "", "") == DigitsValue(whole) as real
  {
    NoExponent(whole, "");
    assert DigitsValue("") == 0;
    assert Pow10(0) == 1;
  }

  /** A string of digits only, such as the driver's rendering of a BIGINT
      column, parses back to the integer it writes, and with a minus sign in
      front to its negation. */
  lemma ParseInteger(whole: string)
    requires |whole| > 0 && AllDigits(whole)
    ensures ParseNumber(JsString(whole)) == DigitsValue(whole) as real
    ensures ParseNumber(JsString("-" + whole)) == -(DigitsValue(whole) as real)
  {
    ParseUnsignedInteger(whole);
    assert IsDigit(whole[0]);
    ParseFloatOfMinus(whole);
    ParseFloatOfDigitStart(whole);
  }

  /** A string that does not start (after white space) with a digit, a sign
      or a point counts as 0, and so does a lone sign. */
  lemma ParseNumberOfJunk(s: string)
    requires var t := s[LeadingSpace(s)..];
      |t| == 0 || (!IsDigit(t[0]) && t[0] != '.' && (t[0] == '-' || t[0] == '+' ==> |t| == 1))
    ensures ParseNumber(JsString(s)) == 0.0
  {
  }

  // ------------------------------------------------------------ mergeTrades

  /** The columns of a stored `trades` row that the merge reads; the times
      are `None` when the column is null. */
  datatype StoredTrade = StoredTrade(
    tokenAddress: string,
    firstTrade: Option<int>,
    lastTrade: Option<int>,
    buys: JsValue,
    sells: JsValue,
    investedSol: JsValue,
    realizedPnl: JsValue)

  /** A trade record as the job builds it and hands it to the upsert; times in
      ms since the epoch. */
  datatype Trade = Trade(
    id: string,
    wallet: string,
    tokenName: string,
    tokenAddress: string,
    firstTrade: int,
    lastTrade: int,
    buys: real,
    sells: real,
    investedSol: real,
    realizedPnl: real,
    roi: real)

  function Min(a: int, b: int): int { if a <= b then a else b }
  function Max(a: int, b: int): int { if a >= b then a else b }

  /** mergeTrades: the new trade's fields, with counts and amounts summed
      (amounts to 8 places), the earlier first and later last trade time,
      and the ROI recomputed from the unrounded totals. */
  function MergeTrades(existing: StoredTrade, t: Trade): (r: Trade)
    ensures r.id == t.id && r.wallet == t.wallet
    ensures r.tokenName == t.tokenName && r.tokenAddress == t.tokenAddress
  {
    var totalInvested := ParseNumber(existing.investedSol) + ParseNumber(JsNumber(t.investedSol));
    var totalPnl := ParseNumber(existing.realizedPnl) + ParseNumber(JsNumber(t.realizedPnl));
    var first := if existing.firstTrade.Some? then existing.firstTrade.value else t.firstTrade;
    var last := if existing.lastTrade.Some? then existing.lastTrade.value else t.lastTrade;
    t.(firstTrade := Min(first, t.firstTrade),
       lastTrade := Max(last, t.lastTrade),
       buys := ParseNumber(existing.buys) + ParseNumber(JsNumber(t.buys)),
       sells := ParseNumber(existing.sells) + ParseNumber(JsNumber(t.sells)),
       investedSol := Round8(totalInvested),
       realizedPnl := Round8(totalPnl),
       roi := if totalInvested > 0.0 then Round2(totalPnl / totalInvested * 100.0) else 0.0)
  }

  /** The merged times are the earlier and the later of the two records; a
      stored null falls back to the new trade's time. */
  lemma MergeTimes(existing: StoredTrade, t: Trade)
    ensures var r := MergeTrades(existing, t);
      && r.firstTrade <= t.firstTrade
      && (existing.firstTrade.Some? ==> r.firstTrade <= existing.firstTrade.value)
      && (r.firstTrade == t.firstTrade || existing.firstTrade == Some(r.firstTrade))
      && r.lastTrade >= t.lastTrade
      && (existing.lastTrade.Some? ==> r.lastTrade >= existing.lastTrade.value)
      && (r.lastTrade == t.lastTrade || existing.lastTrade == Some(r.lastTrade))
  {
  }

  /** The row the upsert stores for a trade, read back. */
  function Stored(t: Trade): StoredTrade
  {
    StoredTrade(t.tokenAddress, Some(t.firstTrade), Some(t.lastTrade), JsNumber(t.buys), JsNumber(t.sells),
                JsNumber(t.investedSol), JsNumber(t.realizedPnl))
  }

  /** Merging a trade into its own stored row doubles its counts and amounts,
      keeps its times, and gives the ROI of its own totals (invested amounts
      with at most 8 decimals, as the merge stores them). */
  lemma MergeWithItself(t: Trade)
    requires OnGrid8(t.investedSol) && OnGrid8(t.realizedPnl)
    ensures var r := MergeTrades(Stored(t), t);
      && r.buys == 2.0 * t.buys && r.sells == 2.0 * t.sells
      && r.investedSol == 2.0 * t.investedSol && r.realizedPnl == 2.0 * t.realizedPnl
      && r.firstTrade == t.firstTrade && r.lastTrade == t.lastTrade
      && r.roi == if t.investedSol > 0.0 then Round2(t.realizedPnl / t.investedSol * 100.0) else 0.0
  {
    MergeSums(Stored(t), t);
    DoubleOnGrid(t.investedSol);
    DoubleOnGrid(t.realizedPnl);
    if t.investedSol > 0.0 {
      RatioOfDoubles(t.realizedPnl, t.investedSol);
    }
  }

  lemma DoubleOnGrid(x: real)
    requires OnGrid8(x)
    ensures Round8(x + x) == 2.0 * x
  {
    OnGrid8Add(x, x);
    Round8Fixes(x + x);
  }

  lemma RatioOfDoubles(p: real, i: real)
    requires i > 0.0
    ensures (p + p) / (i + i) * 100.0 == p / i * 100.0
  {
    assert (p + p) / (i + i) == p / i;
  }

  /** Counts and amounts are sums; the ROI is 0 when the unrounded total
      invested is not positive, and is otherwise the rounded PnL ratio. A
      stored value that does not parse contributes 0. */
  lemma MergeSums(existing: StoredTrade, t: Trade)
    ensures var invested := ParseNumber(existing.investedSol) + t.investedSol;
      var pnl := ParseNumber(existing.realizedPnl) + t.realizedPnl;
      var r := MergeTrades(existing, t);
      && r.buys == ParseNumber(existing.buys) + t.buys
      && r.sells == ParseNumber(existing.sells) + t.sells
      && r.investedSol == Round8(invested)
      && r.realizedPnl == Round8(pnl)
      && (invested <= 0.0 ==> r.roi == 0.0)
      && (invested > 0.0 ==> r.roi == Round2(pnl / invested * 100.0))
  {
  }

  // ------------------------------------------------------------ processWallet

  /** The fetch start: the latest stored trade time when there is one strictly
      after the lookback bound, the bound otherwise. */
  function StartTime(latest: Option<int>, maxLookback: int): (start: int)
    ensures start >= maxLookback
    ensures start == maxLookback || latest == Some(start)
    ensures latest.Some? && latest.value > maxLookback ==> start == latest.value
  {
    if latest.Some? && latest.value > maxLookback then latest.value else maxLookback
  }

  /** existingTradesMap: the stored rows keyed by token address, a later row
      replacing an earlier one with the same address. */
  function IndexRows(rows: seq<StoredTrade>): (index: map<string, StoredTrade>)
    ensures forall k :: k in index <==> exists j :: 0 <= j < |rows| && rows[j].tokenAddress == k
    decreases |rows|
  {
    if rows == [] then map[]
    else
      var prefix := rows[..|rows| - 1];
      var row := rows[|rows| - 1];
      assert forall j :: 0 <= j < |prefix| ==> prefix[j] == rows[j];
      IndexRows(prefix)[row.tokenAddress := row]
  }

  /** The row an address maps to is the last row with that address. */
  lemma {:induction false} IndexRowsLastWins(rows: seq<StoredTrade>, j: nat)
    requires j < |rows|
    requires forall k :: j < k < |rows| ==> rows[k].tokenAddress != rows[j].tokenAddress
    ensures IndexRows(rows)[rows[j].tokenAddress] == rows[j]
    decreases |rows|
  {
    if j < |rows| - 1 {
      var prefix := rows[..|rows| - 1];
      assert prefix[j] == rows[j];
      IndexRowsLastWins(prefix, j);
    }
  }

  /** The reduce that builds existingTradesMap. */
  method IndexStoredTrades(rows: seq<StoredTrade>) returns (index: map<string, StoredTrade>)
    ensures index == IndexRows(rows)
  {
    index := map[];
    for i := 0 to |rows|
      invariant index == IndexRows(rows[..i])
    {
      assert rows[..i + 1][..i] == rows[..i];
      index := index[rows[i].tokenAddress := rows[i]];
    }
    assert rows[..|rows|] == rows;
  }

  /** `Object.entries(transactionsByMint)`, in key insertion order. */
  function Entries(agg: Aggregate): (entries: seq<(string, MintData)>)
    ensures forall e :: e in entries ==> e.0 in agg.byMint && e.1 == agg.byMint[e.0] && e.0 in agg.mints
    ensures forall m :: m in agg.mints && m in agg.byMint ==> exists e :: e in entries && e.0 == m
    ensures forall i, j :: 0 <= i < j < |entries| ==> entries[i].0 != entries[j].0
    decreases |agg.mints|
  {
    if agg.mints == [] then []
    else
      var rest := Entries(Aggregate(agg.byMint, agg.mints[..|agg.mints| - 1]));
      var m := agg.mints[|agg.mints| - 1];
      assert forall x :: x in agg.mints <==> x in agg.mints[..|agg.mints| - 1] || x == m;
      if m in agg.byMint && m !in agg.mints[..|agg.mints| - 1] then rest + [(m, agg.byMint[m])] else rest
  }

  /** The base trade built from one mint's aggregate. */
  function NewTrade(wallet: string, mint: string, data: MintData): Trade
  {
    var m := data.metadata;
    Trade(wallet + "|" + mint, wallet, m.tokenName, mint, m.firstTrade, m.lastTrade,
          m.buys as real, m.sells as real, m.investedSol, m.realizedPnl, m.roi)
  }

  /** The trade pushed for one entry: merged with the stored row of the same
      token address when there is one. */
  function TradeFor(wallet: string, entry: (string, MintData), index: map<string, StoredTrade>): (t: Trade)
    ensures t.id == wallet + "|" + entry.0 && t.wallet == wallet && t.tokenAddress == entry.0
    ensures entry.0 in index ==> t == MergeTrades(index[entry.0], NewTrade(wallet, entry.0, entry.1))
    ensures entry.0 !in index ==> t == NewTrade(wallet, entry.0, entry.1)
    ensures entry.0 !in index ==> t.buys == entry.1.metadata.buys as real && t.sells == entry.1.metadata.sells as real
                                  && t.investedSol == entry.1.metadata.investedSol
  {
    var plain := NewTrade(wallet, entry.0, entry.1);
    if entry.0 in index then MergeTrades(index[entry.0], plain) else plain
  }

  /** The forEach over the entries: one trade per entry, in order, skipping
      the `SOL` key. */
  function TradesFor(wallet: string, entries: seq<(string, MintData)>, index: map<string, StoredTrade>)
    : (trades: seq<Trade>)
    ensures |trades| <= |entries|
    ensures forall t :: t in trades ==> t.tokenAddress != NATIVE_MINT
    ensures forall t :: t in trades ==> exists e :: e in entries && t == TradeFor(wallet, e, index)
    ensures forall e :: e in entries && e.0 != NATIVE_MINT ==> TradeFor(wallet, e, index) in trades
    decreases |entries|
  {
    if entries == [] then []
    else
      var prefix := entries[..|entries| - 1];
      var e := entries[|entries| - 1];
      assert forall x :: x in entries <==> x in prefix || x == e;
      TradesFor(wallet, prefix, index) + if e.0 == NATIVE_MINT then [] else [TradeFor(wallet, e, index)]
  }

  /** No two trades are for the same token address. */
  ghost predicate Distinct(trades: seq<Trade>)
  {
    forall i, j :: 0 <= i < j < |trades| ==> trades[i].tokenAddress != trades[j].tokenAddress
  }

  /** At most one trade per mint: distinct keys give distinct trades, each
      with id `wallet|mint`. */
  lemma {:induction false} OneTradePerMint(wallet: string, entries: seq<(string, MintData)>,
                                           index: map<string, StoredTrade>)
    requires forall i, j :: 0 <= i < j < |entries| ==> entries[i].0 != entries[j].0
    ensures Distinct(TradesFor(wallet, entries, index))
    decreases |entries|
  {
    if entries != [] {
      var prefix := entries[..|entries| - 1];
      var e := entries[|entries| - 1];
      OneTradePerMint(wallet, prefix, index);
      var before := TradesFor(wallet, prefix, index);
      forall t | t in before
        ensures t.tokenAddress != e.0
      {
        var x :| x in prefix && t == TradeFor(wallet, x, index);
        var k :| 0 <= k < |prefix| && prefix[k] == x;
        assert entries[k] == x;
      }
      var trades := TradesFor(wallet, entries, index);
      forall i, j | 0 <= i < j < |trades|
        ensures trades[i].tokenAddress != trades[j].tokenAddress
      {
        if e.0 == NATIVE_MINT {
          assert trades == before;
          assert trades[i].tokenAddress != trades[j].tokenAddress;
        } else {
          assert trades == before + [TradeFor(wallet, e, index)];
          assert trades[i] == before[i];
          if j < |before| {
            assert trades[j] == before[j];
            assert trades[i].tokenAddress != trades[j].tokenAddress;
          } else {
            assert trades[j] == TradeFor(wallet, e, index);
            assert before[i] in before;
            assert trades[i].tokenAddress != trades[j].tokenAddress;
          }
        }
      }
    }
  }

  /** What one wallet's run is given: the lookback bound and the current
      time (both from the clock), what the database answers, and what the
      RPC node answers. */
  datatype WalletInputs = WalletInputs(
    maxLookback: int,
    now: int,
    latest: Option<int>,
    stored: seq<StoredTrade>,
    signatures: RpcResult<seq<Signature>>,
    getTx: string -> RpcResult<RawTx>,
    getAsset: string -> RpcResult<Asset>)

  /** The trades one wallet's run hands to the upsert, or `None` when fetching
      its transactions throws. */
  function SyncTrades(wallet: string, inputs: WalletInputs): Option<seq<Trade>>
  {
    var start := StartTime(inputs.latest, inputs.maxLookback);
    var fetched := TokenTransactions(wallet, start, inputs.now, inputs.signatures, inputs.getTx, inputs.getAsset);
    if fetched.None? then None
    else Some(TradesFor(wallet, Entries(fetched.value), IndexRows(inputs.stored)))
  }

  /** processWallet's result: the number of trades built, 0 on failure. */
  function TradesProcessed(wallet: string, inputs: WalletInputs): nat
  {
    var trades := SyncTrades(wallet, inputs);
    if trades.None? then 0 else |trades.value|
  }

  /** A wallet whose signatures cannot be fetched reports 0 and upserts
      nothing; otherwise every trade is for that wallet, none is for `SOL`,
      and no two are for the same mint. */
  lemma SyncTradesRules(wallet: string, inputs: WalletInputs)
    ensures inputs.signatures.RpcFailed? <==> SyncTrades(wallet, inputs).None?
    ensures inputs.signatures.RpcFailed? ==> TradesProcessed(wallet, inputs) == 0
    ensures var trades := SyncTrades(wallet, inputs);
      trades.Some? ==>
        && Distinct(trades.value)
        && forall t :: t in trades.value ==>
             t.wallet == wallet && t.id == wallet + "|" + t.tokenAddress && t.tokenAddress != NATIVE_MINT
  {
    var start := StartTime(inputs.latest, inputs.maxLookback);
    HeliusLemmas.TokenTransactionsSound(wallet, start, inputs.now, inputs.signatures, inputs.getTx, inputs.getAsset);
    var fetched := TokenTransactions(wallet, start, inputs.now, inputs.signatures, inputs.getTx, inputs.getAsset);
    if fetched.Some? {
      var entries := Entries(fetched.value);
      var index := IndexRows(inputs.stored);
      OneTradePerMint(wallet, entries, index);
      var trades := TradesFor(wallet, entries, index);
      assert SyncTrades(wallet, inputs) == Some(trades);
      forall t | t in trades
        ensures t.wallet == wallet && t.id == wallet + "|" + t.tokenAddress
      {
        var e :| e in entries && t == TradeFor(wallet, e, index);
      }
    }
  }

  /** The forEach that builds the trades, pushing one per entry. */
  method BuildTrades(wallet: string, entries: seq<(string, MintData)>, index: map<string, StoredTrade>)
    returns (trades: seq<Trade>)
    ensures trades == TradesFor(wallet, entries, index)
  {
    trades := [];
    for i := 0 to |entries|
      invariant trades == TradesFor(wallet, entries[..i], index)
    {
      assert entries[..i + 1][..i] == entries[..i];
      var (mint, data) := entries[i];
      if mint != NATIVE_MINT {
        var plain := NewTrade(wallet, mint, data);
        var merged := if mint in index then MergeTrades(index[mint], plain) else plain;
        assert merged == TradeFor(wallet, entries[i], index);
        trades := trades + [merged];
      }
    }
    assert entries[..|entries|] == entries;
  }

  /** processWallet: the trades built and their number; a throw from
      getTokenTransactions is caught and reported as 0. The upsert's outcome
      only decides what is logged. */
  method ProcessWallet(wallet: string, inputs: WalletInputs) returns (upserted: seq<Trade>, count: nat)
    ensures count == TradesProcessed(wallet, inputs) == |upserted|
    ensures SyncTrades(wallet, inputs).Some? ==> upserted == SyncTrades(wallet, inputs).value
  {
    var start := StartTime(inputs.latest, inputs.maxLookback);
    var index := IndexStoredTrades(inputs.stored);
    var fetched := HeliusProcedures.GetTokenTransactions(wallet, start, inputs.now, inputs.signatures,
                                                         inputs.getTx, inputs.getAsset);
    if fetched.None? {
      return [], 0;
    }
    upserted := BuildTrades(wallet, Entries(fetched.value), index);
    count := |upserted|;
  }

  datatype WalletResult = WalletResult(wallet: string, tradesProcessed: nat)

  /** The results of the handler's loop over `wallets`. */
  function Results(wallets: seq<string>, inputs: string -> WalletInputs): (results: seq<WalletResult>)
    ensures |results| == |wallets|
    ensures forall i :: 0 <= i < |wallets| ==>
      results[i] == WalletResult(wallets[i], TradesProcessed(wallets[i], inputs(wallets[i])))
    decreases |wallets|
  {
    if wallets == [] then []
    else
      var w := wallets[|wallets| - 1];
      Results(wallets[..|wallets| - 1], inputs) + [WalletResult(w, TradesProcessed(w, inputs(w)))]
  }

  /** handler: the wallets one after another, one result each, in order. */
  method Handler(wallets: seq<string>, inputs: string -> WalletInputs) returns (results: seq<WalletResult>)
    ensures results == Results(wallets, inputs)
  {
    results := [];
    for i := 0 to |wallets|
      invariant results == Results(wallets[..i], inputs)
    {
      assert wallets[..i + 1][..i] == wallets[..i];
      var batch, count := ProcessWallet(wallets[i], inputs(wallets[i]));
      results := results + [WalletResult(wallets[i], count)];
    }
    assert wallets[..|wallets|] == wallets;
  }
}
