# Wallet trade sync and schema migrations, modelled in Dafny

This project models three parts of the potion backend and proves what they
guarantee:

- **Per-token trade aggregation** (`HeliusHelper.getTokenTransactions` and
  `getTokenMetadata`):
  - a wallet's signatures are filtered to a time window;
  - each decoded transaction is reduced to the wallet's token balances and
    its SOL movement;
  - each token (mint) the wallet held gets the transaction appended, its
    first/last trade times widened, and a buy or sell counted with invested
    and received SOL, PnL and ROI;
  - finally token names are filled in from a best-effort metadata lookup.
- **The wallet sync job** (`mergeTrades`, `parseNumber`, `processWallet`,
  `handler`):
  - it chooses where to resume fetching;
  - it indexes the stored trade rows by token address;
  - it builds one trade per mint (never for `SOL`) and merges it with the
    stored row;
  - it runs every wallet in turn, reporting 0 for a wallet whose fetch throws.
- **The migration runner** (`migrate`, `getAppliedMigrations`):
  - it keeps the `.sql` files and orders them by their numeric `V<n>__`
    version;
  - it derives each description from the file name;
  - it skips versions already applied with the same checksum and stops on a
    checksum mismatch or a failed script;
  - it records each success in `schema_version`.

Layout:

| file | module | contents |
|---|---|---|
| `numbers.dfy` | `Numbers` | `Option`; the three answers of an RPC call (`RpcFailed`, `RpcNull`, `RpcOk`); `toFixed` rounding on exact reals; decimal digit runs |
| `helius.dfy` | `Helius` | the aggregation as functions over values: the time filter, owner filter, account index, SOL movement, classification, per-mint fold, name fill-in |
| `helius_lemmas.dfy` | `HeliusLemmas` | what the aggregation guarantees |
| `helius_procedures.dfy` | `HeliusProcedures` | the loops of `getTokenTransactions` and `getTokenMetadata` as methods, each proved equal to its function |
| `sync.dfy` | `WalletSync` | `parseFloat`/`parseNumber`, `mergeTrades`, the start time, trade building, `processWallet`, `handler` |
| `migrate.dfy` | `Migrate` | the two regular expressions, the version sort, the run as a function, and class `SchemaVersion`, whose `rows` field the migration appends to |

The RPC node, the database and the file system are replaced by their
answers, passed in as parameters:

- `signatures` answers getSignaturesForAddress; `getTx` maps a signature to
  the answer of getTransaction; `getAsset` maps a mint to the answer of
  getAsset.
- `latest` and `stored` are what the two trade queries return.
- `maxLookback` and `now` come from the clock.
- `lookupError` is the SQLSTATE that reading `schema_version` fails with, if
  it fails; `checksum` gives a file's digest; `succeeds` gives a script's
  execution outcome.

Times are integers in milliseconds, so the ISO-string comparisons of trade
times become integer comparisons. SOL amounts are exact reals. Lamports are
divided by 10^9, so the 1e-6 SOL threshold is exactly 1000 lamports.

## Model

| member | source | states |
|---|---|---|
| Helius.FilterSignatures | app/helpers/data/helius-helper.js:161-165 | a signature is kept iff its block time (seconds × 1000) lies in (startTime, endTime]; nothing is added |
| Helius.FilterSignaturesOrder | app/helpers/data/helius-helper.js:161-165 | the filter keeps order and multiplicity: filtering a concatenation is the concatenation of the filtered parts, and one signature is kept exactly when it is in the window |
| Helius.OwnedBy | app/helpers/data/helius-helper.js:199-206 | a token balance is kept iff its owner is the wallet; nothing is added |
| Helius.OwnedByOrder | app/helpers/data/helius-helper.js:199-206 | the owner filter keeps order and multiplicity: filtering a concatenation is the concatenation of the filtered parts, and one balance is kept exactly when the wallet owns it; this order is the visit order of the forEach and so the key order of the result |
| Helius.AccountIndexFrom | app/helpers/data/helius-helper.js:211-223 | the result is -1 or the first index whose key names the wallet (a string equal to it, or an object with a truthy equal `pubkey`); no earlier key names it |
| HeliusProcedures.FindAccountIndex | app/helpers/data/helius-helper.js:211-223 | the loop with `break` returns exactly that first index, or -1 |
| Helius.SolMovementRule | app/helpers/data/helius-helper.js:225-237 | a SOL movement is present iff the account index is found, both lamport arrays reach it, and the lamports changed by more than 1000 either way; its change is that lamport difference in SOL |
| Helius.FindByMint | app/helpers/data/helius-helper.js:298-299 | `find` by mint: a found balance is the FIRST one in the list with that mint; none is found iff no balance has it |
| Helius.TradeRules | app/helpers/data/helius-helper.js:306-327 | a buy adds 1 buy and Round4(invested + abs(solChange)); a sell adds 1 sell and Round4(received + solChange); any other movement leaves counts and amounts alone; invested and received never decrease and stay non-negative 4-place values; PnL is Round4(received − invested) and ROI is 0 when nothing is invested, otherwise Round2 of the ratio × 100, all from the unrounded totals; identity and trade times are kept |
| Helius.RepriceRules | app/helpers/data/helius-helper.js:315-325 | after the counts move, invested, received and PnL become the 4-place roundings of the new totals and their difference, ROI is 0 when nothing is invested and otherwise the 2-place rounding of PnL / invested × 100 from the unrounded values; counts, identity and times are untouched |
| Helius.SubGridBuy | app/helpers/data/helius-helper.js:307-327 | with nothing invested yet, a buy of 0.00002 SOL counts one buy and stores `invested_sol` 0 after rounding while ROI is -100, because ROI is computed before rounding |
| Numbers.Round4OnGrid | app/helpers/data/helius-helper.js:324-325 | `parseFloat(x.toFixed(4))` has at most four decimals |
| Numbers.Round4Fixes | app/helpers/data/helius-helper.js:324-325 | rounding a value that already has four decimals leaves it unchanged |
| Numbers.Round4Grows | app/helpers/data/helius-helper.js:310-325 | adding a non-negative amount and rounding never goes below the starting 4-place value |
| Numbers.Round8Fixes | app/deployments/main/wallets/jobs/sync.js:37-38 | `toFixed(8)` leaves a value with eight decimals unchanged |
| HeliusLemmas.ClassifyKeeps | app/helpers/data/helius-helper.js:297-329 | classifying a transaction for a mint keeps identity, name and trade times, keeps the amounts valid and never lowers counts or amounts |
| HeliusLemmas.ClassifyRules | app/helpers/data/helius-helper.js:297-328 | `Classify`: a failed transaction or one without SOL movement leaves the summary as it is; otherwise it throws exactly when the first pre or post balance of the mint lacks `uiTokenAmount`; the token difference is taken between those first balances; a difference of at most 1e-6 leaves the summary as it is, a larger one applies the trade; a buy is counted iff tokens rose by more than 1e-6 and SOL fell, a sell iff tokens fell by more than 1e-6 and SOL rose |
| HeliusLemmas.ClassifyReadable | app/helpers/data/helius-helper.js:298-302 | classification does not throw when the first pre and the first post balance of the mint both carry `uiTokenAmount` |
| HeliusLemmas.MinMaxAppend | app/helpers/data/helius-helper.js:286-294 | widening first/last trade by the pushed transaction yields the minimum/maximum block time of the extended list |
| HeliusLemmas.TouchEntry | app/helpers/data/helius-helper.js:260-294 | creating or reusing a mint's entry, pushing the transaction and widening the times gives a valid `Unknown`-named entry whose list is the old one plus the transaction; an existing entry keeps its buys, sells, invested, received, PnL and ROI exactly; a new entry starts with all of them 0 |
| HeliusLemmas.RecordMintFrame | app/helpers/data/helius-helper.js:258-281 | after one visit the keys are the old keys plus the mint; every other mint's entry is unchanged; the mint's list is its old list (empty for a new mint) with the transaction appended; the mint is listed in `uniqueMints`, appended at the end only when it was not there |
| HeliusLemmas.EntryOfValid | app/helpers/data/helius-helper.js:260-329 | the visited mint's new entry, whether or not classification throws, is valid: its list is the old list plus the transaction, its first/last trade are the min/max block time, its id joins wallet and mint, and its counts and amounts have not gone down |
| HeliusLemmas.RecordMintValid | app/helpers/data/helius-helper.js:254-329 | one visit keeps the aggregate invariant: keys listed once each, every entry valid and still `Unknown` |
| HeliusLemmas.RecordMintGrows | app/helpers/data/helius-helper.js:280-316 | one visit only extends lists and never lowers buys, sells, invested or received |
| HeliusLemmas.RecordMintSigned | app/helpers/data/helius-helper.js:241-281 | after one visit, every recorded transaction still carries a known signature |
| HeliusLemmas.RecordBalancesPreserves | app/helpers/data/helius-helper.js:254-330 | the forEach over `[...pre, ...post]` keeps the invariant, growth and signatures, including when it stops on an exception |
| HeliusLemmas.RecordBalancesOnce | app/helpers/data/helius-helper.js:254-258 | with `processedMints`, the forEach appends the transaction to a mint at most once; it leaves mints outside the balances untouched; without an exception it appends to every unprocessed mint |
| HeliusLemmas.RecordBalancesCompletes | app/helpers/data/helius-helper.js:255-330 | with every `uiTokenAmount` present, the forEach does not throw |
| HeliusLemmas.ProcessSignaturePreserves | app/helpers/data/helius-helper.js:188-331 | one signature's iteration keeps the invariant, growth and signatures |
| HeliusLemmas.AtMostOncePerTransaction | app/helpers/data/helius-helper.js:240-258 | a transaction adds itself at most once to a mint's list, even when the mint is in both pre and post balances; mints the wallet did not hold in it (so all mints, for a SOL-only movement) are untouched; with readable amounts every held mint gets it exactly once |
| HeliusLemmas.ProcessAllPreserves | app/helpers/data/helius-helper.js:173-337 | the loop over signatures keeps the invariant, only grows entries, and records only transactions of the given signatures |
| HeliusLemmas.FailedFetchIsSkipped | app/helpers/data/helius-helper.js:333-336 | a signature whose fetch throws gives the same result as leaving that signature out |
| HeliusLemmas.FillNamesOnlyRenames | app/helpers/data/helius-helper.js:339-345 | the fill-in loop changes nothing but `token_name`, and only for mints with a metadata entry |
| HeliusLemmas.FillNamesSound | app/helpers/data/helius-helper.js:339-345 | after the fill-in, entries stay valid with first_trade ≤ last_trade, and a mint's name is the looked-up name iff its own lookup answered, `Unknown` otherwise |
| HeliusLemmas.TokenTransactionsSound | app/helpers/data/helius-helper.js:131-354 | getTokenTransactions throws iff fetching the signatures throws; otherwise every entry is valid, first_trade ≤ last_trade equal the min/max block time of its transactions, every recorded transaction has a signature from inside the window, and names are as above |
| Helius.TokenMetadata | app/helpers/data/helius-helper.js:101-122 | the metadata has an entry exactly for the mints whose lookup answered, named the first non-empty of name, content symbol and symbol, else `Unknown`; a failed lookup drops only its own mint |
| HeliusProcedures.GetTokenMetadata | app/helpers/data/helius-helper.js:96-129 | the loop that fills the `metadata` object computes exactly that map |
| HeliusProcedures.RecordMintInPlace | app/helpers/data/helius-helper.js:256-329 | the in-place visit of one mint (set add, entry creation, push, time and metadata updates) gives the same state and exception as its function |
| HeliusProcedures.RecordTransaction | app/helpers/data/helius-helper.js:254-330 | the forEach with its `processedMints` set computes the function's result, stopping at the first exception |
| HeliusProcedures.ProcessTransaction | app/helpers/data/helius-helper.js:188-331 | one iteration of the signature loop (skips, filters, SOL movement, forEach) computes the function's result |
| HeliusProcedures.ProcessSignatures | app/helpers/data/helius-helper.js:173-337 | the loop over the filtered signatures computes the fold over them |
| HeliusProcedures.NameTokens | app/helpers/data/helius-helper.js:341-345 | the loop over the entries renames exactly as the fill-in function does |
| HeliusProcedures.GetTokenTransactions | app/helpers/data/helius-helper.js:131-354 | the whole method returns what the function gives: `None` for a throw, `{}` for no signatures, else the named aggregate |
| WalletSync.ParseNumber | app/deployments/main/wallets/jobs/sync.js:15-20 | a number is returned as it is; any other non-string value gives 0; a string that does not parse gives 0 |
| WalletSync.ParseUnsignedDecimal | app/deployments/main/wallets/jobs/sync.js:17 | `parseFloat` of an unsigned literal `digits.digits` reads its decimal value |
| WalletSync.ParseInteger | app/deployments/main/wallets/jobs/sync.js:15-20 | a string of digits, as a BIGINT column is returned, parses to the integer it writes, and with a leading `-` to its negation |
| WalletSync.ParseDecimal | app/deployments/main/wallets/jobs/sync.js:15-20 | a decimal literal string, as a NUMERIC column is returned, parses to the value it writes, and with a leading `-` to its negation |
| WalletSync.ParseNumberOfJunk | app/deployments/main/wallets/jobs/sync.js:16-17 | a string that starts (after white space) with no digit, sign or point, or is a lone sign, gives 0 (this includes `Infinity`, see "Left out") |
| WalletSync.MergeTrades | app/deployments/main/wallets/jobs/sync.js:25-26 | id, wallet, token name and token address of the merged trade come from the new trade |
| WalletSync.MergeTimes | app/deployments/main/wallets/jobs/sync.js:27-34 | the merged first trade is the earlier and the last trade the later of the two; a null stored time falls back to the new trade's |
| WalletSync.MergeSums | app/deployments/main/wallets/jobs/sync.js:22-39 | buys and sells are summed; invested and PnL are the 8-place roundings of the sums; ROI is 0 when the unrounded total invested is not positive, otherwise Round2(PnL/invested × 100) |
| WalletSync.MergeWithItself | app/deployments/main/wallets/jobs/sync.js:22-39 | merging a trade into its own stored row doubles buys, sells, invested and PnL, keeps its times, and gives the ROI of its own totals |
| WalletSync.StartTime | app/deployments/main/wallets/jobs/sync.js:58-60 | the start is never before `maxLookback`; it is either `maxLookback` or the latest stored time; it is the latest time whenever that is strictly after `maxLookback` |
| WalletSync.IndexRows | app/deployments/main/wallets/jobs/sync.js:71-74 | the index has a key for exactly the token addresses of the stored rows |
| WalletSync.IndexRowsLastWins | app/deployments/main/wallets/jobs/sync.js:71-74 | an address maps to the last row that has it |
| WalletSync.IndexStoredTrades | app/deployments/main/wallets/jobs/sync.js:71-74 | the reduce loop builds that index |
| WalletSync.Entries | app/deployments/main/wallets/jobs/sync.js:81 | `Object.entries` lists every mint of the aggregate once, with its data |
| WalletSync.TradeFor | app/deployments/main/wallets/jobs/sync.js:84-101 | a built trade has id joining wallet and mint with a bar, the wallet and the mint as token address; it is the merge with the stored row of that address when there is one, and otherwise the plain new trade carrying the aggregate's counts and invested amount |
| WalletSync.TradesFor | app/deployments/main/wallets/jobs/sync.js:81-103 | no trade is for `SOL`; every trade is built from an entry; every non-`SOL` entry yields its trade |
| WalletSync.OneTradePerMint | app/deployments/main/wallets/jobs/sync.js:81-103 | distinct mints give trades for distinct token addresses, so at most one trade per mint |
| WalletSync.BuildTrades | app/deployments/main/wallets/jobs/sync.js:79-103 | the forEach pushing into `trades` builds exactly those trades |
| WalletSync.SyncTradesRules | app/deployments/main/wallets/jobs/sync.js:43-122 | a wallet yields no trades iff its signatures cannot be fetched, and then reports 0; otherwise its trades are for that wallet, never for `SOL`, with id joining wallet and mint with a bar, one per mint |
| WalletSync.ProcessWallet | app/deployments/main/wallets/jobs/sync.js:43-122 | processWallet returns the number of trades it hands to the upsert, and those are the trades above |
| WalletSync.Results | app/deployments/main/wallets/jobs/sync.js:129-133 | one result per wallet, in input order, each with that wallet's trade count (0 when it fails) |
| WalletSync.Handler | app/deployments/main/wallets/jobs/sync.js:124-145 | the handler's loop produces exactly those results |
| Migrate.SqlFiles | db/migrate.js:81-82 | a file is kept iff its name ends in `.sql`; nothing is added |
| Migrate.SqlFilesOrder | db/migrate.js:81-82 | the filter keeps listing order and multiplicity: filtering a concatenation is the concatenation of the filtered parts, and one file is kept exactly when it ends in `.sql` |
| Migrate.VersionAt | db/migrate.js:93 | a match of `V(\d+)__` at a position yields a non-empty run of digits, found right after `V` and followed by `__` |
| Migrate.Version | db/migrate.js:93 | the version of a file, when it has one, is a non-empty string of digits |
| Migrate.LineRun | db/migrate.js:94 | `.` in the description pattern stops at the first line terminator |
| Migrate.LastSql | db/migrate.js:94 | the greedy `(.+)` ends at the last `.sql` on the line that leaves at least one character before it |
| Migrate.Spaced | db/migrate.js:94 | `replace(/_/g, ' ')` turns every `_` into a space and keeps every other character |
| Migrate.FileNameRoundTrip | db/migrate.js:93-94 | for `V<digits>__<body>.sql` with a one-line body, the version is `<digits>` and the description is `<body>` with `_` read as space |
| Migrate.SortBy | db/migrate.js:83-87 | the sort yields a permutation of its input, ordered by the key |
| Migrate.SortByVersion | db/migrate.js:81-87 | the `.sql` files are visited in ascending numeric version order, a permutation of the filtered listing |
| Migrate.AppliedMigrations | db/migrate.js:19-33 | the stored rows when the query succeeds; none when the table is missing (`42P01`); any other error propagates |
| Migrate.SchemaVersion.GetAppliedMigrations | db/migrate.js:19-33 | the method answers exactly that against the table's rows |
| Migrate.FindApplied | db/migrate.js:96 | a found row is the FIRST applied row with that version, so its checksum is the one compared when versions repeat; none is found iff no applied row has it |
| Migrate.VisitRules | db/migrate.js:93-122 | `VisitFile`: no version or no description stops the run; an applied version stops it with a checksum mismatch when the first applied row's checksum differs and is skipped when it matches; a new version is recorded with its version, description, file and checksum when its script succeeds and stops the run as a failed execution otherwise |
| Migrate.AppliedNotExecuted | db/migrate.js:99-105 | for an applied version the outcome does not depend on the script's execution at all; it is never recorded and never a failed execution |
| Migrate.RunAppend | db/migrate.js:91-123 | a failure within the first files ends the run there, so nothing later executes; otherwise the rows of both parts are recorded in order |
| Migrate.StopsAt | db/migrate.js:99-122 | at the first file that fails (checksum mismatch, failed execution, no version or description), the rows recorded before it stay recorded and the run fails with that file |
| Migrate.RecordedRows | db/migrate.js:108-118 | every recorded row is for a file of the run that executed successfully; it carries that file's version, description and checksum; its version was not applied before, so an applied version is never recorded again |
| Migrate.CompletedCoversAll | db/migrate.js:91-123 | after a completed run every file was either already applied with the same checksum or recorded |
| Migrate.RecordedOnce | db/migrate.js:110-118 | with distinct file names, no two recorded rows are for the same script |
| Migrate.SchemaVersion.RunInOrder | db/migrate.js:91-123 | the loop appends exactly the rows of the run to `schema_version`, so the applied rows only grow, and ends as the run does |
| Migrate.SchemaVersion.Migrate | db/migrate.js:76-124 | migrate appends exactly the planned rows to `schema_version` and ends as planned: unsortable listing, failed lookup, or the run over the sorted `.sql` files |

## Left out

- RPC transport, rate limiting, logging and the price and balance calls are
  not modelled; each RPC call is its answer, passed in as a parameter.
- Floating point: amounts are exact reals, not IEEE doubles. `toFixed`
  rounds the exact value half away from zero, which is not the rounding of
  a binary double.
- The local-time "start of day 30 days ago" and `new Date()` are parameters
  (`maxLookback`, `now`).
- ISO timestamp strings are millisecond integers; string comparison of
  same-format ISO times agrees with integer comparison.
- Malformed RPC answers are not modelled, apart from a missing
  `uiTokenAmount` and missing arrays; a `null` account key, which would
  throw, has no representation.
- WalletSync.ParseNumber: `parseFloat` of `Infinity` is not recognised, so
  such a string counts as 0 instead of Infinity; a NaN number is not
  representable.
- WalletSync.ParseNumberOfJunk: for the same reason its 0 result also covers
  strings starting with `Infinity`, which the source reads as Infinity.
- Migrate.Key: versions are exact naturals; `parseInt` loses precision above
  2^53.
- Migrate.SortBy: files with equal versions keep their listing order, as
  in the engine's stable sort, but no lemma states it.
- Migrate.SchemaVersion.Migrate: an unsortable listing fails without naming
  the file that the comparator met.
- File reading, SHA-256, script execution and `process.exit` are parameters
  (`checksum`, `succeeds`) or not modelled. A failing checksum read or a
  failing `INSERT` into `schema_version` is not modelled.
- `m.version === version` compares strings; the `version` column is
  assumed to come back as a string.
- Two files with the same version in one run both execute: the applied rows
  are read once before the loop, exactly as in the source.
- The handler's outer `catch` is unreachable, because processWallet catches
  everything, so it is not modelled.
- The upsert's result only decides what is logged, so it is not modelled;
  the database-side upsert is not part of this model.
- WalletSync.Results: a wallet listed twice gets the same stored rows both
  times; in the source its second pass would read the rows its first pass
  upserted. Repeated wallets are not modelled, because the upsert is not.
- Helius.TradeRules: ROI is 0 when the unrounded invested total is 0; the
  stored 4-place `invested_sol` can be 0 while ROI is not, after a buy
  below 0.00005 SOL; Helius.SubGridBuy proves this for a first buy of
  0.00002 SOL (invested 0, ROI -100).
- An exception in the middle of a transaction's forEach keeps what it already
  did: earlier mints keep their updates, and the current mint keeps the push
  and its new trade times. HeliusLemmas.RecordBalancesPreserves covers that
  state; it is not rolled back.
- WalletSync.Entries: `Object.entries` orders integer-like keys first; mint
  addresses are never integer-like, so insertion order is used.
