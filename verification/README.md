# A model of the indexer and its store

The indexer replays the logs of the token contracts into an ordered key-value store and answers
queries from indexes it builds by hand. This project models `store.go` and `indexer.go` and proves
what the pair keeps over whole runs, including runs that are stopped between any two writes.

There are three linked parts.

**The ledger.** Mint, burn and transfer update supply, balances, a 64-bit holder counter and a second
copy of the balances ordered by address. `Ledger` is the plain account of one token and its laws;
`Plans` names the sequence of writes each store operation issues; `Accounts` proves that those writes
are the ledger step; `EventStream` relates the logs a contract emits to the operations they stand for,
down to the contract's own numbers, and `Transfers` reads the ledger back from the stored history.

**The key space.** `Keys` names keys by their fields and encodes them as text, `Database` stores rows
under that text and walks them in byte order, `Scans` holds the two scan shapes, and `EventIndex`,
`Listings`, `Identities` and `Freezes` say what the queries and indexes mean. `Notices` gives the records
of wallets and assets as functions of what the contracts announce, and `Declarations` says which token
and party an event should be filed under and which events are not.

**Delivery.** `Node` reports heads and answers log requests, or fails, as it likes. `Indexer` handles,
backfills and polls; `Chains`, `Sessions`, `Delivery` and `Replay` say what one run delivers, what a
stop leaves, what a restart takes up, and what is repaired by doing it again. `Runs` ties a run, and
`Lives` any number of stopped and restarted runs, back to the plain ledger; `Gaps` does the same for the
secondary indexes.

A mutating method is specified by the list of writes it issues (`history`) and the table they lead to
(`table`). A stop is a prefix of that list, so every statement about stops covers every pair of
consecutive writes. No lemma relies on automatic induction: where the argument is inductive, the lemma
calls itself.

## Assumptions

- A log request fails or returns exactly the chain's logs of the range, in (block, log index) order; there are no reorgs.
- Heads are below 2^64 - 1001 and may move backwards between calls.
- At the start either there is no cursor, or the configured start is at most the cursor plus one.
- In the `Indexer` class handling does not fail at run time: `Logs.Readable` (a forced transfer carries its amount word; the string of a URI or plugin event decodes without an out-of-range slice, see `Abi.OutOfRangeExactly`). The statements of `Delivery` do not assume it: there a log that fails is a stop before its first write.
- Token ids in keys are digits; addresses are 42 characters starting with `0x`, without a colon.
- A delivery statement is about logs with at least one topic; the others are no-ops and do not move the cursor.

## Where the code does less than one might expect

- A stop between two logs of one block loses the rest of the block: the cursor already names it, and a restart begins after it. `Delivery.NoLossExactly` gives the exact condition.
- Handling a log again after a stop inside it does not always repair the ledger: debits and credits may be applied twice. `Replay.RepairsExactly` says for which amounts, balances and stops it does, `Replay.ReplaySafeExactly` for which logs it always does, and `Lives.LifeAccounts` what the accounts are after any stops.
- A stop between an identity row and its country entry, or between an event and its index entries, leaves the row unlisted if the log is one that the restart leaves out (`Gaps.LifeComplete`, `Gaps.GapsOpen`).
- A log that fails in its handler stops every later run too, unless it is not the first of its block: then a restart skips it (`Delivery.StuckExactly`).
- With neither a cursor nor a configured start nothing is ever fetched. With a start, polling takes no effect either until the backfill has handled a log: it never does if the head or the first range was refused, or if there were no logs yet. `Indexer.Indexer.Backfill` gives the exact condition for a cursor, and `Indexer.Indexer.Run` what follows.
- With both a token and an address, `GetProtocolEvents` ignores the address: it answers what was asked on every store exactly when at most one of them is given (`IndexRuns.AnswersExactly`; `EventIndex.BothFiltersExact` for one answer, `IndexRuns.BothFiltersFail` for a store where it fails).
- `GetTokenEvents` keeps the oldest events of its window, and misses events before it (`Listings.TokenEventsExactly`, `Listings.TokenEventsFail`).
- Binding a wallet again in another country leaves its old country entry, which then lists it under both (`Identities.GuardExact` for one change, `Identities.GuardedRunExactly` for runs, `Identities.RebindStale` for such a store).
- Debits beyond the balance are clamped while the supply is not, so supply and balances drift (`Ledger.DriftLaw`), and the holder counter can wrap below zero (`Ledger.CountLaw`); `Ledger.BurnFromNothing` shows both.
- A flag set on a wallet's holding erases the frozen amount and the lockup from its record, while the contract keeps all three, and a recovery moves freeze state in the contract only. `Notices.FaithfulExactly` says when the record agrees with the contract, `Notices.FlagForgets` shows a run on which it does not.
- `GroupCreated` and `UnitMinted` are filed under the number of the group although they carry a token, and the investor of a unit is dropped (`Declarations.FiledExactly`, `Declarations.DueExactly`).
- Blocks of 13 digits sort before those of 12 (`Keys.KeyOrderBound`, `Keys.WideBlockSortsEarly`).
- Recovery of a wallet to itself removes its identity, since unbinding follows binding (`Identities.RecoverCarriesExactly`).

## Model

| member | source | states |
|---|---|---|
| Keys.EncodeInjective | packages/indexer/internal/store/store.go:13-26 | Two keys of any namespaces with the same text are the same key with the same fields, so no row of one namespace, token ("1" against "10"), address or position can overwrite another |
| Keys.NameTexts | packages/indexer/internal/store/store.go:13-26 | The literal key texts of the namespaces named by a token, address or wallet |
| Keys.NumberTexts | packages/indexer/internal/store/store.go:284-286 | The literal key texts of the namespaces with positions and countries |
| Keys.EventKeyOrder | packages/indexer/internal/store/store.go:284-286 | For blocks below 10^12 and log indexes below 10^6, byte order of event keys and of generic event keys is exactly (block, log index) order |
| Keys.KeyOrderBound | packages/indexer/internal/store/store.go:284-286 | Exactly up to 10^12, for both kinds of event key: a bound on block numbers makes later blocks sort later if and only if it is at most 10^12 |
| Keys.WideBlockSortsEarly | packages/indexer/internal/store/store.go:356-358 | Every block from 10^12 on sorts before block 10^12 - 1, in both kinds of event key |
| Keys.HolderScan | packages/indexer/internal/store/store.go:186-192 | A key starts with the holder prefix of a token exactly when it is a holder row of that very token |
| Keys.GenericScan | packages/indexer/internal/store/store.go:409-425 | Which keys a scan of the generic event prefix meets: the primaries and both index namespaces, nothing else |
| Keys.CountryScan | packages/indexer/internal/store/store.go:572-574 | A key starts with the prefix of a country exactly when it is an index entry of that country |
| KeyOrder.BelowPrefixEnd | packages/indexer/internal/store/store.go:302-311 | Being below the end marker (the prefix with its last colon turned into a semicolon) and not below the prefix is having the prefix |
| KeyOrder.AscendingUnique | packages/indexer/internal/store/store.go:297-331 | Ascending key lists with the same members are the same list: a scan result is determined by what it contains |
| Numerals.SameWidthOrder | packages/indexer/internal/store/store.go:284-286 | Zero-padded decimals of one width compare as text the way the numbers compare |
| Numerals.PaddedRoundTrip | packages/indexer/internal/store/store.go:284-286 | Reading a zero-padded decimal gives the number back, whatever the width |
| Numerals.HexRoundTrip | packages/indexer/internal/indexer/indexer.go:395-403 | Reading the fixed-width hexadecimal of a number that fits gives the number back |
| Database.Db.Put | packages/indexer/internal/store/store.go:226-232 | The row is stored under its text key, every other row stays, and exactly one write is added to the history |
| Database.Db.Get | packages/indexer/internal/store/store.go:202-217 | Looking up the text key finds the row named by the fields, or reports that there is none |
| Database.Iterator.Seek | packages/indexer/internal/store/store.go:303-304 | The iterator stands at the number of keys below the target, which is the first key not below it |
| Scans.ScanBack | packages/indexer/internal/store/store.go:297-331 | Seek past the prefix, step back, collect and reverse: the last `limit` selected rows of the prefix in ascending key order, from any contents of the database |
| Scans.ScanForward | packages/indexer/internal/store/store.go:235-252 | Seek to the prefix and walk while it lasts: all selected rows of the prefix in key order, cut at the limit when there is one |
| Scans.ReverseInPlace | packages/indexer/internal/store/store.go:326-329 | Exchanging the ends and moving inwards reverses the list |
| Ledger.DriftLaw | packages/indexer/internal/store/store.go:797-943 | On every run, self-transfers included, sum of balances minus supply grows by exactly what debits took beyond the balance they found |
| Ledger.CoveredIffNoShortfall | packages/indexer/internal/store/store.go:862-876 | That excess is zero exactly when every debit found the balance it needed |
| Ledger.SupplyConserved | packages/indexer/internal/store/store.go:797-943 | From nothing, the balances add up to the supply if and only if every debit was covered, and never to less than it |
| Ledger.CountLaw | packages/indexer/internal/store/store.go:813-822 | On every run the holder counter is, modulo 2^64, the number of positive balances plus zero credits to empty holders minus debits from empty holders |
| Ledger.BurnFromNothing | packages/indexer/internal/store/store.go:862-876 | One burn from an address that has nothing: the supply falls below zero while no balance does, and the holder counter wraps, also when the amount is zero |
| Ledger.BalanceClosedForm | packages/indexer/internal/store/store.go:887-943 | On a covered run each balance is credits minus debits |
| Ledger.SupplyClosedForm | packages/indexer/internal/store/store.go:797-884 | On every run, covered or not, supply is what was minted minus what was burned (EIP-1155, TransferSingle and TransferBatch event rules) |
| Ledger.OrderIndependence | packages/indexer/internal/store/store.go:797-943 | Two orderings of the same positive operations in which every debit is covered leave the same supply, holder counter and holder table |
| Ledger.HolderCountExact | packages/indexer/internal/store/store.go:813-822 | With positive covered amounts and fewer than 2^64 operations, the counter is the number of holder rows and of positive balances: it does not wrap |
| Accounts.OpRefines | packages/indexer/internal/store/store.go:797-943 | The rows that a mint, burn or transfer writes make exactly the ledger step on that token, the self-transfer reading its own debit, and leave the account of every other token alone |
| Accounts.TransposedOp | packages/indexer/internal/store/store.go:220-232 | The writes of an operation keep the two holder tables transposes of each other |
| Store.Store.RecordMint | packages/indexer/internal/store/store.go:797-838 | Issues exactly the planned writes of a mint in order: holder rows, then metadata, then the event |
| Store.Store.RecordBurn | packages/indexer/internal/store/store.go:841-884 | The same for a burn: both holder rows go or stay together, the count moves when the balance is used up |
| Store.Store.RecordTransfer | packages/indexer/internal/store/store.go:887-943 | The same for a transfer: the credit reads the balance left by the debit, the count may move twice; what the stored event says is read back in Transfers.HistoryIsLedger |
| Store.Store.RecordEventOnly | packages/indexer/internal/store/store.go:947-958 | A forced transfer stores its event and touches no balance |
| Store.Store.RecordGenericEvent | packages/indexer/internal/store/store.go:368-394 | The primary row first and then the index entries, so that a stop in between leaves no entry without its event |
| Declarations.FiledExactly | packages/indexer/internal/indexer/indexer.go:274-383 | A log emitted as declared leaves an event with its transaction and position under its name, its token parameter and its party parameter, if and only if it is not a created group whose number differs from its token, nor a minted unit |
| Declarations.GroupFiled | packages/contracts/src/facets/rwa/AssetGroupFacet.sol:60-63 | The events of asset groups are filed under the number of the group instead of the token |
| Declarations.StoredExactly | packages/indexer/internal/store/store.go:368-394 | From an empty store, for logs at distinct positions, a generic event is stored if and only if it is that of one of the logs |
| Declarations.DueExactly | packages/indexer/internal/indexer/indexer.go:274-383 | From an empty store, the stored events are exactly the declared ones if and only if no log is misfiled |
| Declarations.IncompleteExactly | packages/indexer/internal/indexer/indexer.go:989-1026 | A log that misses a topic, or a transfer that misses its words, moves the cursor and nothing else, if and only if it is not one of the eleven kinds filed without a check |
| Store.Store.GetProtocolEvents | packages/indexer/internal/store/store.go:397-439 | The last `limit` events of the list that the chosen route describes: index of the token, else index of the address, else every primary; without a kind nothing is left out of that list, and with one exactly the events of other kinds |
| Store.Store.GetProtocolEventsByIndex | packages/indexer/internal/store/store.go:441-485 | The last `limit` events of a kind that the index lists and that exist, in key order; without a kind all of them |
| EventIndex.PrimaryScan | packages/indexer/internal/store/store.go:409-439 | Although index entries share the prefix, scanning it yields exactly the stored events of the kind, in key order |
| EventIndex.IndexScan | packages/indexer/internal/store/store.go:441-485 | Scanning an index yields exactly the stored events it has an entry for |
| EventIndex.KindSelects | packages/indexer/internal/store/store.go:429-433 | Without a kind every stored or listed event is selected, and with one exactly those of that kind |
| EventIndex.KindOnly | packages/indexer/internal/store/store.go:475-479 | The list for a kind is the list without one, cut down to the events of that kind in the same order |
| EventIndex.IndexAgrees | packages/indexer/internal/store/store.go:397-407 | With at most one of token and address given, and sound and complete indexes, a list answers the query through the index if and only if it answers the filter over all events |
| IndexRuns.AnswersExactly | packages/indexer/internal/store/store.go:397-407 | The answer is the answer to the request for every store with sound and complete indexes, every kind and limit, if and only if at most one of token and address is given |
| EventIndex.BothFiltersExact | packages/indexer/internal/store/store.go:397-439 | With both given, at any limit, the answer is the answer to the request if and only if the events returned are all at that address; older events of the token do not matter |
| EventIndex.BothFiltersUncut | packages/indexer/internal/store/store.go:397-407 | The uncut list meets the request if and only if every event of that kind and token has that address |
| IndexRuns.BothFiltersFail | packages/indexer/internal/store/store.go:397-407 | A store where it fails: the one event of the token is at another address and is returned, where nothing was asked for |
| EventIndex.LogUnique | packages/indexer/internal/store/store.go:427-439 | A list of stored events in key order is determined by its members |
| IndexRuns.StopKeepsSound | packages/indexer/internal/store/store.go:368-389 | At every stop inside any log, each index entry points at an existing event of that token or address |
| IndexRuns.LogKeepsComplete | packages/indexer/internal/store/store.go:368-389 | A log handled to the end leaves an index entry for each event with a token and for each with an address |
| IndexRuns.RunIndexed | packages/indexer/internal/indexer/indexer.go:965-986 | Recording any logs from an empty store leaves the indexes sound and complete |
| IndexRuns.RunQueriesAgree | packages/indexer/internal/store/store.go:397-485 | So on every such store the index query and the filter have the same answers |
| Store.Store.GetRecentEvents | packages/indexer/internal/store/store.go:297-331 | The last `limit` of all stored transfer events in key order, whatever the other namespaces hold |
| Store.Store.GetTokenEvents | packages/indexer/internal/store/store.go:334-350 | The first `limit` of the token's events among the last five times `limit` events |
| Listings.FilterToken | packages/indexer/internal/store/store.go:340-349 | The filter loop with its early exit returns the first `limit` events of the token |
| Listings.TokenEventsExactly | packages/indexer/internal/store/store.go:334-350 | For a positive limit that is the token's last `limit` events if and only if the window holds exactly that many of them |
| Listings.TokenEventsFail | packages/indexer/internal/store/store.go:334-350 | Two events of one token, asked for one: the older comes back |
| Listings.WindowReach | packages/indexer/internal/store/store.go:334-350 | The window is exactly five times the limit: an event of the history is in its token's window if and only if it is among the last five times `limit` events |
| Listings.HistoryChronological | packages/indexer/internal/store/store.go:284-331 | Within the padded widths the listing is chronological |
| Store.Store.GetHolders | packages/indexer/internal/store/store.go:235-252 | The holders of the token with their balances, sorted by address, none of any other token |
| Store.Store.GetPortfolio | packages/indexer/internal/store/store.go:263-278 | The holdings of the address, sorted by token id text |
| Listings.HoldersAndPortfoliosAgree | packages/indexer/internal/store/store.go:186-278 | When the tables are transposes, an address with a balance is among the holders of a token if and only if the token with that balance is in the portfolio of the address |
| EventStream.HandledTransposed | packages/indexer/internal/indexer/indexer.go:268-389 | Handling any logs to the end keeps the tables transposes |
| Store.Store.RecordIdentity | packages/indexer/internal/store/store.go:577-586 | The identity row, then its country entry |
| Store.Store.DeleteIdentity | packages/indexer/internal/store/store.go:589-599 | The entry of the country found, then the identity row, which goes even when none was found |
| Store.Store.GetIdentitiesByCountry | packages/indexer/internal/store/store.go:619-634 | The first `limit` identities reached through the country index, sorted by wallet |
| Identities.RunKeeps | packages/indexer/internal/indexer/indexer.go:637-688 | On every run each bound identity is listed under its current country, and on runs that never rebind across countries there is no other entry |
| Identities.GuardExact | packages/indexer/internal/store/store.go:577-586 | From an index in which every entry is current and every bound wallet is listed, a single change keeps every listing truthful if and only if it binds no wallet that is bound in another country |
| Identities.GuardedRunExactly | packages/indexer/internal/indexer/indexer.go:637-688 | Along a run from an empty store every listing is truthful after every log if and only if no log of the run binds a wallet that is bound in another country |
| Identities.RebindStale | packages/indexer/internal/store/store.go:577-586 | A wallet bound in one country and then in another is reached under both |
| Identities.ExactIffTruthful | packages/indexer/internal/store/store.go:619-634 | The listing of a country is exact if and only if no entry of that country reaches an identity of another |
| Identities.GuardedRunExact | packages/indexer/internal/indexer/indexer.go:853-885 | After bindings, unbindings and recoveries that never rebind across countries, each listing holds exactly the identities of its country |
| Freezes.FoldClosedForm | packages/indexer/internal/store/store.go:741-764 | The fold of freeze events is the last flag with the last amount and the last lockup since that flag |
| Freezes.AmountLockupCommute | packages/indexer/internal/store/store.go:741-764 | A partial freeze and a lockup on one record commute |
| Freezes.LogTouches | packages/indexer/internal/indexer/indexer.go:691-797 | Any log changes the freeze record of a wallet and token by its own touch if it is about them, and not at all otherwise |
| Freezes.FreezeClosedForm | packages/indexer/internal/indexer/indexer.go:719-797 | After any run each freeze record is that closed form of the touches about it |
| Logs.WordAt | packages/indexer/internal/indexer/indexer.go:697-700 | A number encoded as the i-th word of some data is read as that number |
| Logs.FirstWord | packages/indexer/internal/indexer/indexer.go:697-700 | Also when it is the only word, and whatever follows it |
| Notices.FreezeByNumbers | packages/indexer/internal/indexer/indexer.go:691-797 | Over the announced events, wallet, token, flag, amount and expiry being numbers that the log encodes: a freeze record holds the last flag announced for the wallet and scope, and the last amount and lockup since that flag |
| Notices.HarmlessExactly | packages/contracts/src/facets/rwa/FreezeFacet.sol:44-88 | A record that says what the contract keeps still does after a log if and only if the log brings no flag while an amount is frozen or a lockup is set, and no recovery that moves anything the new wallet does not have |
| Notices.FaithfulExactly | packages/contracts/src/facets/rwa/RecoveryFacet.sol:105-146 | Over runs from an empty store: a freeze record says what the contract keeps, after every log, if and only if every announcement was harmless where it came |
| Notices.WideHarmless | packages/contracts/src/facets/rwa/FreezeFacet.sol:44-49 | Without recoveries a wallet-wide record is never wrong |
| Notices.FlagForgets | packages/indexer/internal/store/store.go:675-681 | An amount frozen and then a flag set on the same token: the contract keeps both, the record has lost the amount |
| Notices.IdentityByNumbers | packages/indexer/internal/indexer/indexer.go:637-689 | From an empty store, identity, country and binding block of every wallet number are those of its last binding, unless it was unbound or recovered from since, or those of the wallet it was recovered from |
| Notices.AssetByNumbers | packages/indexer/internal/indexer/indexer.go:472-509 | From an empty store, the asset record of a token number holds issuer, profile and block of its last registration, the last URI since then, and whether the last pause, unpause or registration was a pause |
| Abi.StringRoundTrip | packages/indexer/internal/indexer/indexer.go:548-563 | Decoding the encoding of any string returns the string (Solidity Contract ABI Specification, Formal Specification of the Encoding) |
| Abi.OutOfRangeExactly | packages/indexer/internal/indexer/indexer.go:553-563 | A slice is taken out of range exactly when the offset sum wraps, or when the length word is readable and the end sum wraps |
| Abi.DecodedInRange | packages/indexer/internal/indexer/indexer.go:609-619 | Whatever is decoded lies inside the data, where the offset and length words say |
| Logs.LogFits | packages/indexer/internal/indexer/indexer.go:268-389 | Every write a log leads to, of every handler, is a value of the kind and with the fields its key calls for |
| Logs.AddrTextInjective | packages/indexer/internal/indexer/indexer.go:395-468 | Different addresses have different texts |
| EventStream.LogRefines | packages/indexer/internal/indexer/indexer.go:395-468 | Handling a log, its generic event and cursor included, is one ledger step on the token the log stands for, or no change to any account |
| EventStream.HandledRuns | packages/indexer/internal/indexer/indexer.go:268-389 | Folding the handler over any logs is running the plain ledger on the operations they stand for |
| EventStream.EachOnce | packages/indexer/internal/indexer/indexer.go:395-465 | If each mint, burn and forced transfer is reported by a pair of logs, in either order and interleaved with anything, the logs stand for each action exactly once, in order |
| EventStream.StreamRefines | packages/indexer/internal/indexer/indexer.go:395-465 | Then every token has the account the plain ledger reaches on the actions |
| EventStream.StreamClosedForm | packages/indexer/internal/indexer/indexer.go:395-465 | And for covered actions on an empty store, supply is minted minus burned and each balance credits minus debits |
| EventStream.StreamByText | packages/indexer/internal/indexer/indexer.go:395-465 | In the contract's own numbers: the account under a decimal text is that of the actions on exactly that token number, and a text that is no number's decimal has none |
| EventStream.StreamByNumber | packages/indexer/internal/indexer/indexer.go:395-465 | So for covered actions the supply of a token number is what was minted less what was burned of that number, and the balance of an address number what it got less what it gave |
| Logs.TokenTextNumber | packages/indexer/internal/indexer/indexer.go:399-403 | The text of a token id is its number in decimal, so different numbers never share a row |
| Logs.AddrTextNumber | packages/indexer/internal/indexer/indexer.go:399-403 | The text of an address is `0x` and the number of the low 20 bytes of its topic in hexadecimal |
| Transfers.HappenedExactly | packages/indexer/internal/store/store.go:284-295 | From an empty store, for logs at distinct positions, a transfer event is stored if and only if it is that of one of the logs |
| Transfers.EventRead | packages/indexer/internal/store/store.go:926-958 | Read by its own fields, the event of a log says what the log stands for: from the zero address a mint, to it a burn, between two other addresses a transfer, and a forced transfer nothing; it bears transaction, block and position of the log |
| Transfers.HistoryEvents | packages/indexer/internal/store/store.go:297-331 | The stored history of logs handled in chain order is their events in that order |
| Transfers.HistoryIsLedger | packages/indexer/internal/store/store.go:797-958 | That history, read back event by event, runs the plain ledger to the account of every token |
| Transfers.ActionsHappened | packages/indexer/internal/indexer/indexer.go:395-468 | Every reported action has left an event with its parties, token number, amount and kind; a forced transfer has left a second one, marked as forced, with the same parties, token and amount |
| Replay.RepairsExactly | packages/indexer/internal/store/store.go:797-943 | For any store, mint, burn or transfer and number of writes done: handling it again from there ends where one handling would, if and only if the amount, that number and the balances read satisfy `Mendable` |
| Ledger.MendableExactly | packages/indexer/internal/store/store.go:797-943 | On the account: doing the step in full after a part of it equals doing it once, under exactly that condition |
| Accounts.OpPartly | packages/indexer/internal/store/store.go:797-943 | Some writes of an operation are that part of the ledger step on its token, holder rows before metadata, and nothing on any other token |
| Accounts.PlanDecided | packages/indexer/internal/store/store.go:887-943 | What an operation writes is decided by the account it leads to |
| Replay.ReplaySafeExactly | packages/indexer/internal/indexer/indexer.go:268-389 | Handling a log again repairs every stop inside it, in every store that handling logs can lead to, if and only if the log moves no ledger or is a self-transfer of nothing |
| Replay.Harmed | packages/indexer/internal/indexer/indexer.go:268-389 | For any other log there are a run of mints, and a stop inside the log, after which handling it again ends elsewhere |
| Replay.OtherLogsSafe | packages/indexer/internal/indexer/indexer.go:471-1194 | Every log outside the ledger repairs a stop anywhere inside it |
| Replay.Absorb | packages/indexer/internal/store/store.go:577-599 | Writes whose keys are all written again later leave no trace |
| Replay.RecoverDone | packages/indexer/internal/indexer/indexer.go:870-872 | After a recovery the lost wallet has no identity, also when it is the new wallet itself |
| Identities.RecoverCarriesExactly | packages/indexer/internal/indexer/indexer.go:861-872 | Recovery of a bound wallet leaves the new wallet bound to its identity and country if and only if the two wallets differ; the lost wallet ends unbound and no other wallet changes |
| Chains.PickSplit | packages/indexer/internal/indexer/indexer.go:169-197 | Adjacent block ranges answer to the whole range: nothing fetched twice, nothing skipped |
| Chains.UpToBlock | packages/indexer/internal/indexer/indexer.go:144-149 | If what was handled is what lies up to a block, it is the answer for the range up to that block, and what is left is the stream after it |
| Sessions.DeliveredPrefix | packages/indexer/internal/indexer/indexer.go:205-209 | In any legal session the handled logs are a prefix of the stream: in order, none repeated |
| Sessions.CursorBetween | packages/indexer/internal/indexer/indexer.go:254-261 | In any legal session the cursor stands at or above every handled log, at or below the next one, and never below where it started |
| Sessions.HandlingCursorLast | packages/indexer/internal/indexer/indexer.go:385-388 | Every act of the indexer ends with its cursor write and touches the cursor nowhere before |
| Sessions.StopInside | packages/indexer/internal/indexer/indexer.go:268-389 | A stop after any number of writes is a stop inside one act with all acts before it complete |
| Delivery.RestartTakesUp | packages/indexer/internal/indexer/indexer.go:144-149 | At any point of a session, what a restart would take up is the rest of the stream, less the not yet handled logs of the one block the cursor stands at |
| Delivery.StopDichotomy | packages/indexer/internal/indexer/indexer.go:205-209 | For a stop after any number of writes: if the next log lies above the cursor, the restart begins with that log, possibly half applied, and loses nothing; otherwise it repeats nothing, and what is left out lies in the block of the cursor |
| Delivery.StuckExactly | packages/indexer/internal/indexer/indexer.go:427-442 | The first log of the stream that fails in its handler, before any write, is never passed by any life of sessions that stop there if and only if it is the first to be handled of its block; otherwise the cursor can already name its block and a restart leaves it out |
| Delivery.LifeStuck | packages/indexer/internal/indexer/indexer.go:603-619 | If it is the first of its block, the cursor stays below that block over any number of sessions, stops and restarts |
| Delivery.CursorStarts | packages/indexer/internal/indexer/indexer.go:144-149 | Having handled everything below a block, a session is without a cursor if and only if it began without one and there was nothing to handle |
| Delivery.NoLossExactly | packages/indexer/internal/indexer/indexer.go:385-388 | No stop can lose a log if and only if no two logs to be handled share a block |
| Delivery.LifeOfTheIndexer | packages/indexer/internal/indexer/indexer.go:140-266 | Over any number of sessions and stops: the stored cursor never decreases, logs are completed in chain order and none twice, every log up to the cursor was completed unless a session stopped with the cursor at its block, and the event indexes are sound |
| Runs.SessionHandles | packages/indexer/internal/indexer/indexer.go:224-266 | Polls, head moves and the cursor make no difference to any other row: a session leaves the rows that handling its logs one after the other leaves |
| Runs.SessionAccounts | packages/indexer/internal/indexer/indexer.go:224-266 | So after a session each token's account is the plain ledger run on what its logs stand for |
| Runs.HolderCountListed | packages/indexer/internal/store/store.go:813-822 | After positive covered operations from an empty store, the stored holder count of a token is the length of its holder listing |
| Lives.GentleExactly | packages/indexer/internal/indexer/indexer.go:205-209 | A log that was cut is mended by handling it again if and only if it moves no ledger, or its amount, the writes done and the balances before satisfy a condition decided before the stop |
| Lives.LifeAccounts | packages/indexer/internal/indexer/indexer.go:140-266 | After any life whatever its stops, each account is the plain ledger run in which every log that was cut contributes the part of its step that was on disk, before its full step if it is taken up again |
| Lives.CutComesBack | packages/indexer/internal/indexer/indexer.go:144-149 | A log that was cut is the first that the restart takes up if it lies above the cursor, and otherwise is not taken up |
| Lives.LifeHolds | packages/indexer/internal/indexer/indexer.go:140-266 | For any plan of acts and any life whose stops fall between acts, or inside acts above the cursor where doing them again mends: the rows are those of the completed logs handled one after the other, up to handling the log that is owed, which the next session takes up first |
| Lives.LifeRows | packages/indexer/internal/indexer/indexer.go:140-266 | For the indexer: if each stop falls between logs, or above the cursor inside a log where it does no harm, then with no log owed the rows are those of handling the completed logs once each and each account is the plain ledger run on them; with one owed, handling it makes that so |
| Lives.LifeTakes | packages/indexer/internal/indexer/indexer.go:144-149 | When no two logs share a block, the completed logs and what the next start takes up are together the whole stream, whatever the stops |
| Gaps.LifeComplete | packages/indexer/internal/store/store.go:577-599 | Over any life in which no stop falls into a gap of a log that is left out: each bound wallet is listed under its country and each event under its token and address, except for what the log taken up first is still to bring |
| Gaps.HandlingCloses | packages/indexer/internal/store/store.go:368-389 | A complete log closes what is missing, a cut one leaves only its own entries missing, and none if its record is complete and its event not begun or complete |
| Gaps.GapsOpen | packages/indexer/internal/store/store.go:577-586 | Two gaps: a binding cut after its first write, an event cut after its primary |
| Lives.StopsLeaveNoTrace | packages/indexer/internal/indexer/indexer.go:140-266 | With such stops, one log a block and no log owed, the store holds what handling exactly the chain's logs up to the cursor once each makes of what it held at first |
| Indexer.Indexer.HandleLog | packages/indexer/internal/indexer/indexer.go:268-389 | Handles the next log of the run: its writes as planned with the cursor last; a log without topics changes nothing |
| Indexer.Indexer.Recover | packages/indexer/internal/indexer/indexer.go:853-877 | The new wallet is bound before the lost one is unbound, from the country read at the start |
| Indexer.Indexer.HandleRange | packages/indexer/internal/indexer/indexer.go:205-209 | Handling the answer for a range the run is ready for makes it ready for the block after the range |
| Indexer.Indexer.Fetch | packages/indexer/internal/indexer/indexer.go:180-203 | At most six requests; success means the whole range was answered, and it gives up only after six refusals in a row or a refusal that finds the run cancelled |
| Indexer.Indexer.Chunks | packages/indexer/internal/indexer/indexer.go:169-217 | The answered chunks are disjoint, consecutive and cover the blocks from the start exactly up to where it got, at most six requests for each chunk of 1001 blocks, no addition wrapping; it reaches the head if and only if no range was given up |
| Indexer.Indexer.Backfill | packages/indexer/internal/indexer/indexer.go:140-221 | It asks for a head, and stops short of it only if a range was given up, so when it is done with a start to begin from it has reached the head; wherever it stops, the handled logs are the chain's logs from the start to the cursor, in order, none repeated, and nothing is left below where it got; there is no cursor afterwards if and only if there was none and no log with topics lay in what it covered |
| Indexer.Indexer.PollNewBlocks | packages/indexer/internal/indexer/indexer.go:224-266 | With a cursor c and a head above it, by however little, exactly one log request is made; if it is answered, the range from c + 1 to the head is on record, the cursor is the head and the handled logs are the chain's logs up to the head; in every other case no log request is made; if nothing is answered nothing changes |
| Indexer.Indexer.Run | packages/indexer/internal/indexer/indexer.go:104-137 | One backfill and one poll at each tick; what the node was asked and where the cursor ends is decided by its answers, the run ends in step, and the cursor after the backfill is zero, which polls then leave so, if and only if it was zero and no log with topics lay in what the backfill covered; if the last poll was answered for a head above the cursor before it, the cursor is that head and the chain is handled up to it |
| Indexer.PollMeans | packages/indexer/internal/indexer/indexer.go:224-266 | In plain numbers, what the record of calls and the cursor are after a poll: one more head asked for; one more log request, for the blocks above the cursor up to the head, exactly when the cursor is there and the head is above it; the cursor moved to the head exactly when that was answered |
| Indexer.LastPollMeans | packages/indexer/internal/indexer/indexer.go:224-266 | The same for the last of any polls |
| Indexer.Figures | packages/indexer/internal/indexer/indexer.go:169-203 | The figures themselves: six refusals give a chunk up, 1001 blocks are one chunk and 1002 are two |
| Indexer.NoCursorNoPoll | packages/indexer/internal/indexer/indexer.go:231-236 | Over any polls the cursor never decreases, and stays zero if and only if it was |
| Indexer.Indexer.StoreFollowsChain | packages/indexer/internal/indexer/indexer.go:104-266 | In step, the store holds what handling exactly the chain's logs up to the cursor once each makes of what it held at the start, and every token's account is the plain ledger run on them |

## Left out

- JSON: values are datatypes; balances and the cursor are numbers rather than decimal text, and an index entry's value is a key reference that is no event.
- The `data` payload of generic events, and the name and symbol of an asset (`enrichAssets`, `fetchAssetNameSymbol`: calls into contracts).
- The EIP-55 mixed case of address text: `Logs.AddrText` writes lower-case hexadecimal. The store's results hold for any text of that shape.
- Keccak: the first topic is one of an enumeration of signatures.
- Disk errors and the storage engine: each Put or Delete is one atomic step that succeeds.
- Timers, back-off, cancellation other than at a retry, signals, configuration, HTTP and GraphQL.
- TransferBatch, which is not dispatched, and balances of UnitMinted, which is stored as a generic event only.
- Reorganisations of the chain.
- `GetAllTokens`, `GetAllAssets`, `GetAllIdentities`, `GetFreezes`, `GetFrozenWallets`: forward scans of the same shape as those modelled.
- The overflow of five times the limit in `GetTokenEvents`: limits are unbounded integers.
- The scan loops of the source, written out in each query, are one `ScanBack` and one `ScanForward` here, with the selection of a row as a parameter.
- Slices that the source appends to and reverses in place are sequences that the methods reassign.
- A restart is a new session from the table the stop left; the stop itself is not a step of the `Indexer` class but a prefix of its writes, and a failing handler is a stop before a log.
- What the contracts change without announcing it (`updateCountry`, the value behind `AssetConfigUpdated`, the URI given at a registration): records are compared with what is announced. The tokens whose freeze state a recovery moves are a parameter of its announcement.
