# Counterparty ledger, watcher, caches and codecs in Dafny

Counterparty keeps an append-only, event-sourced ledger over a Bitcoin chain that reorganises, and several derived
copies of that ledger which have to agree with it. This project models those parts and proves what ties them together.
Message handlers are arbitrary sequences of calls to the ledger's primitives. Hashes are symbolic, so equal hashes
have equal inputs. Tables are sequences of rows in rowid order.

`dafny verify dfyconfig.toml` checks everything.

| files | subject |
|---|---|
| `Records`, `Journal`, `Ledger`, `LedgerRollback`, `LedgerBalances`, `BalanceJournal`, `LatestRows`, `LedgerEvents`, `Rowids` | the ledger database: primitives, journal, rollback, conservation, insert-only tables against tables updated in place |
| `ApiWatcher`, `WatcherProtocol`, `WatcherUndo`, `WatcherRollback`, `WatcherTables`, `ApiDatabase`, `Replication` | the API process that replays the journal and undoes it when hashes diverge |
| `Blocks` | fork search, reorganisation, catching up, consensus hashes |
| `OrdersCache`, `OrdersRuns`, `AssetCache`, `Node`, `NodeRuns` | the caches, mempool parsing, aborted transactions |
| `OutputLoop` | the Rust and the Python output classifier |
| `HeightIndex` | the fetcher's key-value store and its height index |
| `Bytes`, `DataStream`, `TransactionFrame`, `Deserialize`, `WriteBack`, `TransactionReader` | reading transactions, against BIP 144 and BIP 141 |
| `SubassetNames`, `AssetNames` | base-68 subasset names, base-26 and numeric asset names |

Where the source works step by step the model has a class or a method with the source's loop, proved equal to a
function; what the source promises is proved about that function. Beside the laws that tie several functions together
stand statements of what a single one gives, written without it: which orders answer (`QueryAnswers`), which row a rowid
finds (`RowidFindsTheInserted`), what the derived tables hold after a log (`WatcherTables`).

## Where the code does less than one would expect

Each of these is proved, with the exact condition under which the expected law holds; a lemma named behind a semicolon
shows an input on which it does not:

- A credit that reaches the 63-bit limit is cut, and from then on balances and journal disagree
  (`CreditConservesIffNotClipped`, `CreditMatchesJournalIffNotClipped`; `ClippedCreditIsLost`).
- `held` groups by holder and asset run together, so two different pairs can fall into one group (`HeldIsRightIff`,
  `HeldConservesIff`; `HeldLosesABalance`). Transaction outputs and bech32 addresses are safe, base58 addresses of
  different lengths are not (`PlainKeysLoseNothing`, `CapitalMovesOver`).
- The event of an update may say more than its row: when a dispenser is closed from another address the watcher takes
  the sender for its source (`LatestUpdateMirrorsIff`; `CloseMirrorsIffSenderIsSource`).
- The watcher reads the previous state of an update after the update, so undoing one restores nothing
  (`UpdateIsUndoneIffAlreadyHeld`; `UpdateIsNotUndone`), and undoing an expiration deletes equal older ones
  (`ExpirationUndoneIffNew`; `EqualExpirationIsLost`, which no log of the ledger's contains). That is why rolling back
  a whole log gives every row back only when all events insert (`RollbackOfInsertsIsExact`), and otherwise rows, keys
  and everything else but the updated columns (`RollbackEventsForgetsBlocks`).
- When the API log empties because message 0 was orphaned, the hash check reads a message that is not there and raises
  (`CutBackToCommonPrefix`; `FirstBlockOrphaned`); that call leaves an empty log, the next one returns
  (`CallAfterRaiseReturns`), and a raise comes only for a message 0 that was lost (`RaisesAreBounded`,
  `AtMostTheFirstCallRaises`, `NoCallRaises`).
- After a reorganisation the consensus hash of the new block continues the orphaned chain (`ParseNewBlock`,
  `ChainedIffNoReorg`; `OrphanedHashLivesOn`).
- An announced block with an unknown parent is not parsed while the backend's chain is no longer than the table
  (`ReceiveRawBlock`).
- An orders cache drifts when a dropped order is opened again, or when the insert itself creates the cache
  (`UpdateAgreesIffNotReopening`, `BuiltByInsertAgreesIffNotOpen`; `ReopenedOrderIsMissed`, `FirstOrderIsDoubled`).
  Only the methods allow the first: an order is opened again when a match expires, 20 blocks after it was made
  (`counterparty-core/counterpartycore/lib/messages/order.py:287-299` and `932`), and up to 50 blocks after a fill that
  is safe (`InTimeAnswersAsTheTable`).
- An asset cache drifts when an invalid issuance or destruction is added (`IssuanceAgreesIffValid`,
  `DestructionAgreesIffCounts`; `InvalidIssuanceIsFiled`, `InvalidDestructionIsSubtracted`), and under a long name that
  assets share or change, such as the empty one of fairminters (`AlwaysEqualIffSettled`; `EmptyLongNamesDrift`).
- A mempool parse that meets a missing cache creates it from mempool rows (`MempoolParseIsInvisibleIff`;
  `UnconfirmedIssuanceStaysCounted`).
- The two output classifiers differ on an empty data chunk right after the destinations (`LoopsAgreeIff`;
  `BarePrefixIsMisread`).
- A transaction without witnesses, without input and with one output is misread as one with witnesses
  (`LegacyRoundTripIff`; `NoInputIsMisread`), and a length in a longer form than it needs is not written back
  (`WritingBackIff`; `PaddedTransactionShrinks`).
- The Rust loop stops listing a transaction's outputs where it stops reading them (`OutputsAreCutOff`).
- Entries of the height index written without a minimum height have no index key, and no deletion finds them
  (`NothingOutsideStaysIff`; `UnindexedEntryStays`).
- Asset id 26^12 has a name that is refused (`NumberRoundTripIff`), and numeric names have other spellings
  (`NameRoundTripIff`; `PlusSpellsAlike`).

## Model

| member | source | states |
|---|---|---|
| `Journal.EqualHashEqualPrefix` | counterparty-core/counterpartycore/lib/ledger.py:168-191 | in two hash-chained logs one equal event hash makes both logs equal up to that index |
| `BalanceJournal.RunKeepsChain` | counterparty-core/counterpartycore/lib/ledger.py:151-209 | after any run of calls, raising ones and the events of parsed transactions and blocks included, indexes count up from 0 without a gap and every hash covers its content and the hash before it |
| `Ledger.LedgerDb.Journal` | counterparty-core/counterpartycore/lib/ledger.py:151-209 | appends the message whose index follows the last one and whose hash covers the previous hash |
| `Ledger.LedgerDb.InsertRecord` | counterparty-core/counterpartycore/lib/ledger.py:32-54 | one row more in one table and one journal message; an unknown table changes nothing |
| `Ledger.LedgerDb.InsertUpdate` | counterparty-core/counterpartycore/lib/ledger.py:60-98 | appends the row found by a column or by its rowid, with the new data and the current block; the event holds data, identifier and info but no rowid; raises and changes nothing without such a row |
| `Ledger.LedgerDb.SealRow` | counterparty-core/counterpartycore/lib/blocks.py:394-428 | the UPDATE that ends a block or marks an unsupported transaction: the rows with the identifier get the new columns in place, and the event is journalled |
| `Ledger.LedgerDb.RemoveBalance` | counterparty-core/counterpartycore/lib/ledger.py:262-299 | raises and changes nothing below the quantity; a debit of zero without a row leaves no row; otherwise one row more |
| `Ledger.LedgerDb.DebitHolder` | counterparty-core/counterpartycore/lib/ledger.py:306-351 | the argument checks in their order, then balance row and debit row with its event, or no change at all |
| `Ledger.LedgerDb.CreditHolder` | counterparty-core/counterpartycore/lib/ledger.py:354-431 | the argument checks in their order, then a balance row cut at the 63-bit limit and a credit row with its event |
| `Ledger.LedgerDb.CleanTables` | counterparty-core/counterpartycore/lib/blocks.py:1050-1074 | deleting from one table after the other, in any order, deletes the rows at or above the block from all of them |
| `Ledger.LedgerDb.RollbackTo` | counterparty-core/counterpartycore/lib/blocks.py:1089-1102 | balances, messages and every table lose their rows at or above the block; at the first block the tables are built anew; the block index steps back |
| `LedgerRollback.SealsStayWithin` | counterparty-core/counterpartycore/lib/blocks.py:225-247 | the two updates in place the ledger makes change rows of their own block only, given that a transaction is parsed in the block that listed it |
| `LedgerRollback.StepAboveIsForgotten` | counterparty-core/counterpartycore/lib/blocks.py:1050-1074 | a call made at block n or above leaves nothing a rollback to n does not take away, in-place updates of rows of its own block included |
| `LedgerRollback.StepBelowStaysSettled` | counterparty-core/counterpartycore/lib/blocks.py:1050-1074 | a call below n leaves nothing a rollback to n would delete |
| `LedgerRollback.RollbackRestoresBlockEnd` | counterparty-core/counterpartycore/lib/blocks.py:1089-1102 | rolling back to n after any block-ordered run whose in-place updates stay within their blocks gives the whole database as it was at the end of block n-1 |
| `LedgerRollback.ReorgsLeaveNoTrace` | counterparty-core/counterpartycore/lib/blocks.py:1089-1102 | through any sequence of calls and rollbacks the database equals that of the surviving calls alone |
| `LedgerRollback.RollbackDbRestoresBlockEnd` | counterparty-core/counterpartycore/lib/blocks.py:1089-1102 | the same for `rollback` from a fresh database, with the rebuild at or below the first block |
| `Rowids.RowidFindsTheInserted` | counterparty-core/counterpartycore/lib/ledger.py:60-98 | a row that a call inserted as the k-th of its table: after any history of calls and rollbacks that leaves it alone an update by rowid k appends that row with the new data and block, and changes nothing else |
| `Rowids.RowidMovesOneKey` | counterparty-core/counterpartycore/lib/ledger.py:60-98 | under every column the data leaves alone that version is the newest row of its own key and of no other |
| `Rowids.BlockIsSealed` | counterparty-core/counterpartycore/lib/blocks.py:394-428 | the row of the block gets its hashes, all other rows stay, and BLOCK_PARSED tells the hashes with the index |
| `Rowids.TransactionIsSealed` | counterparty-core/counterpartycore/lib/blocks.py:225-247 | only the row of an unsupported transaction is marked, and TRANSACTION_PARSED says whether it was supported |
| `LedgerBalances.StepKeepsRange` | counterparty-core/counterpartycore/lib/ledger.py:354-380 | every balance row stays within 0 and the 63-bit limit, whatever the call |
| `LedgerBalances.CreditOutcome` | counterparty-core/counterpartycore/lib/ledger.py:383-431 | a credit succeeds exactly for a quantity from 0 to the limit of an asset other than BTC, and of XCP for a contract once that is asked; then the balance grows up to the limit and no other changes, and one credits row with all its cells is written and journalled; when it raises nothing changes |
| `LedgerBalances.DebitOutcome` | counterparty-core/counterpartycore/lib/ledger.py:262-351 | a debit succeeds exactly when the same holds of its arguments and the holder has enough; then exactly this balance falls by the quantity and one debits row with all its cells is written and journalled; when it raises nothing changes |
| `LedgerBalances.WhyMovementsRaise` | counterparty-core/counterpartycore/lib/ledger.py:306-400 | which error a credit or a debit raises: the first that applies in the order of the checks |
| `LedgerBalances.HoldingsOfAppend` | counterparty-core/counterpartycore/lib/ledger.py:2558-2582 | one more balance row moves what all holders have by its difference to the balance it replaces |
| `LedgerBalances.HeldOfAppendIff` | counterparty-core/counterpartycore/lib/ledger.py:2558-2582 | the balance queries of `held` move by that difference exactly when the last row of the new row's group shows the balance it replaces |
| `LedgerBalances.HeldIsRightIff` | counterparty-core/counterpartycore/lib/ledger.py:2558-2582 | `held` never finds more balances than there are, and finds all of them exactly when no balance other than zero is hidden behind a later row of its group |
| `LedgerBalances.PlainKeysLoseNothing` | counterparty-core/counterpartycore/lib/ledger.py:2558-2582 | transaction outputs and bech32 addresses in front of an asset name are never run together: nothing is hidden |
| `LedgerBalances.CapitalMovesOver` | counterparty-core/counterpartycore/lib/ledger.py:2558-2582 | behind any text one capital longer the asset without its first letter hides the balance of the text, whatever the amounts |
| `LedgerBalances.HeldLosesABalance` | counterparty-core/counterpartycore/lib/ledger.py:2558-2582 | 5 of TBCDE disappear behind 7 of BCDE whose holder ends in T |
| `LedgerBalances.StepConserves` | counterparty-core/counterpartycore/lib/ledger.py:262-431 | an unclipped call keeps the balances of all holders = credited - debited, for every asset |
| `LedgerBalances.RunConserves` | counterparty-core/counterpartycore/lib/ledger.py:262-431 | over every run without clipping, for every asset, the balances of all holders equal total credits minus total debits and every row stays in range |
| `LedgerBalances.ReorgsConserve` | counterparty-core/counterpartycore/lib/blocks.py:1089-1102 | conservation and range through any number of reorganisations |
| `LedgerBalances.HeldConservesIff` | counterparty-core/counterpartycore/lib/ledger.py:2558-2582 | after any run with reorganisations the balance queries of `held` agree with credits minus debits exactly when no balance is hidden in its group |
| `LedgerBalances.CreditConservesIffNotClipped` | counterparty-core/counterpartycore/lib/ledger.py:354-380 | an accepted credit keeps the books balanced exactly when the 63-bit limit does not cut it |
| `LedgerBalances.ClippedCreditIsLost` | counterparty-core/counterpartycore/lib/ledger.py:354-380 | after a credit of the limit one unit more is accepted and gone |
| `BalanceJournal.RunMatchesJournal` | counterparty-core/counterpartycore/lib/ledger.py:262-431 | over every run without clipping each latest balance equals the credits minus the debits of the journal |
| `BalanceJournal.CreditMatchesJournalIffNotClipped` | counterparty-core/counterpartycore/lib/ledger.py:354-380 | an accepted credit keeps balances and journal in agreement exactly when the limit does not cut it |
| `LatestRows.UpdateTouchesOneKey` | counterparty-core/counterpartycore/lib/ledger.py:60-98 | appending a new version of one row never changes what is read under another key |
| `LatestRows.ApiRowOfUpdate` | counterparty-core/counterpartycore/lib/api/api_watcher.py:162-190 | an in-place UPDATE under one key changes the row read under that key and no other |
| `LatestRows.UpdateMirrorsIff` | counterparty-core/counterpartycore/lib/ledger.py:60-98 | after an update by a column or by any rowid the latest row of the ledger and the updated row of the API are the same exactly when the row found agrees with the latest version, as the event changes it, outside the data |
| `LatestRows.LatestUpdateMirrorsIff` | counterparty-core/counterpartycore/lib/ledger.py:60-98 | an update of the latest version mirrors exactly when what its event adds repeats the row |
| `LatestRows.CloseMirrorsIffSenderIsSource` | counterparty-core/counterpartycore/lib/messages/dispenser.py:801-806 | closing a dispenser tells the watcher the sender as its source: the rows stay the same exactly when the sender is the dispenser's address |
| `LatestRows.OptionsMirror` | counterparty-core/counterpartycore/lib/messages/broadcast.py:266-277 | setting the options of an address, whose data repeats the key, always mirrors |
| `LatestRows.LatestRowsMirrorInPlaceRows` | counterparty-core/counterpartycore/lib/ledger.py:32-98 | after any run of inserts, updates by column or rowid and in-place updates that tell the watcher what they do, the latest row under every key is the API row inserted once and updated in place, up to columns only one side keeps |
| `ApiDatabase.ApiDb.MoveBalance` | counterparty-core/counterpartycore/lib/api/api_watcher.py:290-342 | a credit or debit event, or its reversal, moves one balance in place or adds one row |
| `ApiDatabase.ApiDb.NoteAddresses` | counterparty-core/counterpartycore/lib/api/api_watcher.py:598-610 | one address event for each address field of the event, in order |
| `ApiDatabase.ApiDb.ParseOne` | counterparty-core/counterpartycore/lib/api/api_watcher.py:655-674 | all effects of one event, with the previous state read after they happened; a skipped event is only stored |
| `ApiDatabase.ApiDb.RollbackOne` | counterparty-core/counterpartycore/lib/api/api_watcher.py:232-275 | undoes one event, or raises and changes nothing when its row is gone |
| `ApiDatabase.ApiDb.RollbackBlocks` | counterparty-core/counterpartycore/lib/api/api_watcher.py:278-287 | undoes the events of a block and above, last first; when one raises, exactly those before it stay undone |
| `ApiDatabase.ApiDb.CheckEventHashes` | counterparty-core/counterpartycore/lib/api/api_watcher.py:732-749 | leaves exactly the longest common prefix of the two logs, and raises exactly when the API log is not empty and does not share message 0 |
| `ApiDatabase.ApiDb.ParseNextEventOf` | counterparty-core/counterpartycore/lib/api/api_watcher.py:758-782 | cuts back, then parses the event after the common prefix and returns it; raises, with an empty log and nothing parsed, exactly when message 0 is there and not shared |
| `ApiDatabase.ApiDb.CatchUp` | counterparty-core/counterpartycore/lib/api/api_watcher.py:677-700 | terminates with the API log equal to the ledger log, or raises with an empty one when message 0 is not shared |
| `WatcherProtocol.UndoLastKeepsSound` | counterparty-core/counterpartycore/lib/api/api_watcher.py:232-275 | undoing the last message never raises in a sound API database and leaves a sound one, one message shorter |
| `WatcherProtocol.CutBackToCommonPrefix` | counterparty-core/counterpartycore/lib/api/api_watcher.py:732-749 | the hash check stops exactly at the longest common prefix of the two logs, raising exactly when message 0 is there and not shared |
| `WatcherProtocol.ParseNextExtendsCommonPrefix` | counterparty-core/counterpartycore/lib/api/api_watcher.py:732-782 | one call leaves the common prefix and the next ledger event, in a sound database; it raises exactly when message 0 is there and not shared, and then leaves nothing |
| `WatcherProtocol.CallAfterRaiseReturns` | counterparty-core/counterpartycore/lib/api/api_watcher.py:732-782 | the call after one that raised never raises, whatever the ledger log is by then |
| `WatcherProtocol.QuietCallsExtend` | counterparty-core/counterpartycore/lib/api/api_watcher.py:758-782 | with the ledger quiet, n calls leave the common prefix and one event more for each call that returned; only the first call may raise, when message 0 is not shared, and from then on every call returns |
| `WatcherProtocol.QuietLedgerIsCaughtUp` | counterparty-core/counterpartycore/lib/api/api_watcher.py:758-782 | n quiet calls end on equal logs exactly when n is at least ledger length minus common prefix, and one more when message 0 is not shared |
| `LedgerEvents.RunStaysFollowable` | counterparty-core/counterpartycore/lib/ledger.py:32-98 | after every run of calls whose events carry the keys of the rows they touch, each update event of the log names a row that an earlier event inserted |
| `Replication.EveryCallEndsOnAPrefix` | counterparty-core/counterpartycore/lib/api/api_watcher.py:758-782 | after every interleaving of ledger calls, ledger rollbacks and watcher calls, the next watcher call ends on the common prefix plus one event, or raises, exactly when message 0 is there and not shared |
| `Replication.NoCallRaises` | counterparty-core/counterpartycore/lib/api/api_watcher.py:732-749 | once the ledger has a first message that no reorganisation takes, shared with the API, no watcher call of any interleaving raises |
| `Replication.FirstBlockOrphaned` | counterparty-core/counterpartycore/lib/api/api_watcher.py:732-749 | a lawful run that replaces the very first block, after which the next watcher call raises and the one after it returns |
| `Replication.RaisesAreBounded` | counterparty-core/counterpartycore/lib/api/api_watcher.py:732-782 | in every run from every start, calls raise at most once for a message 0 that is not shared at the start, and once for each time the ledger loses its message 0 |
| `Replication.AtMostTheFirstCallRaises` | counterparty-core/counterpartycore/lib/api/api_watcher.py:732-782 | once the ledger has a first message that no reorganisation takes, one call of a run raises when the API starts with another message 0, and otherwise none; after any call none is pending |
| `Replication.QuietDatabasesAgree` | counterparty-core/counterpartycore/lib/api/api_watcher.py:758-782 | from every start and after any interleaving without a clipped surviving credit, raises included, enough quiet calls end on equal logs and equal balances for every holder and asset |
| `Replication.EqualLogsEqualBalances` | counterparty-core/counterpartycore/lib/api/api_watcher.py:290-334 | after every interleaving the API has one row per holder and asset, and when the logs are equal its quantities are the ledger's latest balances, provided no surviving credit was clipped |
| `Replication.ApiStaysSound` | counterparty-core/counterpartycore/lib/api/api_watcher.py:758-782 | every interleaving keeps the API database sound and its quantities equal to the net movements of its own log |
| `WatcherUndo.EventMovesBalances` | counterparty-core/counterpartycore/lib/api/api_watcher.py:290-342 | one event, or its reversal, moves every quantity by what the journal says, and no key gets a second row |
| `WatcherUndo.UndoRestoresAddressEvents` | counterparty-core/counterpartycore/lib/api/api_watcher.py:598-618 | deleting by event index gives back exactly the address events from before |
| `WatcherUndo.InsertIsUndone` | counterparty-core/counterpartycore/lib/api/api_watcher.py:232-275 | undoing an insert event right after parsing it restores messages, rows, address events and quantities |
| `WatcherUndo.ExpirationUndoneIffNew` | counterparty-core/counterpartycore/lib/api/api_watcher.py:345-377 | an expiration event is undone exactly when no equal expiration was there before |
| `WatcherUndo.EqualExpirationIsLost` | counterparty-core/counterpartycore/lib/api/api_watcher.py:363-377 | undone after an equal expiration, an order's expiration takes the older one along; the keys of the ledger's tables keep such a pair out of its log |
| `WatcherUndo.UpdateIsUndoneIffAlreadyHeld` | counterparty-core/counterpartycore/lib/api/api_watcher.py:655-674 | the previous state is read after the update: undoing raises exactly when no row had the event's key, otherwise changes no table, and so restores them exactly when every row with the key already held the new columns |
| `WatcherUndo.UpdateIsNotUndone` | counterparty-core/counterpartycore/lib/api/api_watcher.py:655-674 | an open order stays filled when the event that filled it is undone |
| `WatcherRollback.RollbackNeverRaises` | counterparty-core/counterpartycore/lib/api/api_watcher.py:278-287 | in a sound API database `rollback_events` never raises and leaves a sound one |
| `WatcherRollback.RollbackEventsForgetsBlocks` | counterparty-core/counterpartycore/lib/api/api_watcher.py:278-287 | after any log with updates, parse events and skipped events, rolling back to block n does not raise and gives the same messages, address events, expirations and quantities, and in every table the same rowids and keys, as parsing only the events below n |
| `WatcherRollback.RollbackOfInsertsIsExact` | counterparty-core/counterpartycore/lib/api/api_watcher.py:278-287 | when the log has only insert events every row is the same in all its columns |
| `WatcherTables.EachFieldHasItsRow` | counterparty-core/counterpartycore/lib/api/api_watcher.py:598-610 | after any log each event has noted each of its address fields, in order and in a row of its own, and an event that is skipped or has no such fields nothing |
| `WatcherTables.AddressEventsOfLog` | counterparty-core/counterpartycore/lib/api/api_watcher.py:598-610 | an address is in the table for an event exactly when the event is not skipped and one of its address fields holds it |
| `WatcherTables.FieldsOfEvents` | counterparty-core/counterpartycore/lib/api/api_watcher.py:60-87 | field by field, which events name an address in it |
| `WatcherTables.IdsOfEvents` | counterparty-core/counterpartycore/lib/api/api_watcher.py:20-33 | by which column each update event names its row |
| `WatcherTables.ExpirationsAreNamed` | counterparty-core/counterpartycore/lib/api/api_watcher.py:35-42 | orders, games and bets expire by hash, under their own kind |
| `WatcherTables.MatchExpirationsAreNamed` | counterparty-core/counterpartycore/lib/api/api_watcher.py:35-42 | and their matches by id |
| `WatcherTables.ExpirationsOfLog` | counterparty-core/counterpartycore/lib/api/api_watcher.py:345-360 | an expiration is in the table exactly when an event of the log says it |
| `WatcherTables.RowidsOfLog` | counterparty-core/counterpartycore/lib/api/api_watcher.py:162-220 | from an empty table each insert event of a log adds one row, and the rowids count from 1 |
| `WatcherTables.BalanceRowsOfLog` | counterparty-core/counterpartycore/lib/api/api_watcher.py:290-334 | a holder and asset have a row exactly when an event of the log moves them, output before address, and the row keeps the `utxo_address` of the first such event |
| `Blocks.LinkedEqualBelow` | counterparty-core/counterpartycore/lib/blocks.py:1233-1262 | in hash-linked chains one equal block makes everything before it equal |
| `Blocks.ForkIsCommonPrefix` | counterparty-core/counterpartycore/lib/blocks.py:1233-1262 | the first agreement met from above is the longest common prefix |
| `Blocks.CallsAboveAreForgotten` | counterparty-core/counterpartycore/lib/blocks.py:1089-1102 | a rollback undoes every call of the blocks it removes |
| `Blocks.RollbackReplay` | counterparty-core/counterpartycore/lib/blocks.py:1089-1102 | rolling a replayed chain back to its k-th block is replaying its first k blocks |
| `Blocks.BlockParser.FindFork` | counterparty-core/counterpartycore/lib/blocks.py:1233-1262 | the downward search terminates at the last block both chains share |
| `Blocks.BlockParser.RollbackTo` | counterparty-core/counterpartycore/lib/blocks.py:1089-1102 | the blocks table and the ledger become those of the shorter chain; at or below the first block both are empty again |
| `Blocks.BlockParser.InsertBlock` | counterparty-core/counterpartycore/lib/blocks.py:1270-1316 | one block more, its handlers run, and a consensus hash over the previous hash it was given and exactly the calls that the block was parsed into on this ledger and at this height |
| `Blocks.HashStandsForLedger` | counterparty-core/counterpartycore/lib/blocks.py:382-393 | in a chained table running the calls under the last consensus hash gives the ledger of the node |
| `Blocks.EqualHashesEqualLedgers` | counterparty-core/counterpartycore/lib/blocks.py:382-393 | two nodes that start alike, with any handlers and chains: chained tables that end on one consensus hash have as many blocks and the same ledger |
| `Blocks.BlockParser.ParseNewBlock` | counterparty-core/counterpartycore/lib/blocks.py:1223-1316 | a decoded block that goes on from the table is added; for any other the table becomes the common prefix with the backend's chain and its next block; from a chained table the consensus hashes stay chained exactly when no block was rolled back |
| `Blocks.BlockParser.ReceiveRawBlock` | counterparty-core/counterpartycore/lib/follow.py:117-131 | an announced block of the backend's chain changes nothing when it is known, or has an unknown parent and the chain is no longer than the table; otherwise the table becomes a prefix of the chain beyond the old common prefix |
| `Blocks.BlockParser.CatchUp` | counterparty-core/counterpartycore/lib/blocks.py:1339-1412 | from a shared first block and a longer backend chain it terminates with the table equal to the chain and the ledger equal to a replay of it; otherwise nothing changes |
| `Blocks.ChainedIffNoReorg` | counterparty-core/counterpartycore/lib/blocks.py:1235-1316 | a row hashed on top of the old last row continues the remaining table exactly when nothing was removed |
| `Blocks.OrphanedHashLivesOn` | counterparty-core/counterpartycore/lib/blocks.py:1235-1316 | two blocks at one height: the second one's hash continues the orphaned first |
| `OrdersCache.OrderBySorts` | counterparty-core/counterpartycore/lib/ledger.py:1975-2006 | ordering by index and hash sorts rows with distinct hashes |
| `OrdersCache.SortedIsUnique` | counterparty-core/counterpartycore/lib/ledger.py:1975-2006 | two sorted lists with the same orders are the same list |
| `OrdersCache.LatestPairsAreLatest` | counterparty-core/counterpartycore/lib/ledger.py:1993-2006 | the grouped query finds, once each, exactly the orders whose last paired row is their latest version |
| `OrdersCache.InStepAnswersAlike` | counterparty-core/counterpartycore/lib/ledger.py:1975-2006 | a cache in step with the table answers every matching query as the table does, in the same order |
| `OrdersCache.QueryAnswers` | counterparty-core/counterpartycore/lib/ledger.py:1990-2006 | an order is in the answer exactly when it is the newest version of its hash, another hash than the one asked for, gives what is asked and asks for what is given, and is open; by transaction index, then by hash |
| `OrdersRuns.DropStaleKeepsMatches` | counterparty-core/counterpartycore/lib/ledger.py:1932-1940 | the 50-block cleaning never changes an answer |
| `OrdersRuns.BuildIsInStep` | counterparty-core/counterpartycore/lib/ledger.py:1884-1930 | a cache built from a table without mempool rows is in step with it |
| `OrdersRuns.UpdateAgreesIffNotReopening` | counterparty-core/counterpartycore/lib/ledger.py:1957-2027 | after an update both queries agree on every argument exactly when it does not open an order the cache has dropped |
| `OrdersRuns.ReopenedOrderIsMissed` | counterparty-core/counterpartycore/lib/ledger.py:1932-1973 | an order filled at block 100 is missing from a cache built at block 200 after it is opened again; no handler reopens one that late |
| `OrdersRuns.BuiltByInsertAgreesIffNotOpen` | counterparty-core/counterpartycore/lib/ledger.py:2015-2018 | a cache first built by the insert itself has the new order twice: the queries agree exactly when that order is not open |
| `OrdersRuns.FirstOrderIsDoubled` | counterparty-core/counterpartycore/lib/ledger.py:2015-2018 | the open order whose insert creates the cache is in it twice |
| `OrdersRuns.CacheAnswersAsTheTable` | counterparty-core/counterpartycore/lib/ledger.py:1884-2064 | after any run of inserts, updates, fills and cleanings, without rollback and without reopening, both queries answer alike |
| `OrdersRuns.InTimeAnswersAsTheTable` | counterparty-core/counterpartycore/lib/ledger.py:1932-1973 | after any such run in which orders are touched only while unexpired and within 50 blocks of being filled, reopening included, both queries answer alike |
| `OrdersRuns.OrdersCacheDb.constructor` | counterparty-core/counterpartycore/lib/ledger.py:1884-1930 | the loop over the grouped rows and the last cleaning build that cache |
| `OrdersRuns.InsertStaysInStep` | counterparty-core/counterpartycore/lib/ledger.py:1942-1955 | a new confirmed order, put into table and cache, leaves the cache in step: one row a hash, always the latest version, no open order missing |
| `OrdersRuns.UpdateStaysInStep` | counterparty-core/counterpartycore/lib/ledger.py:1957-1973 | an update of status and remaining columns leaves the cache in step unless it opens an order that is not in it |
| `OrdersRuns.OrdersCacheDb.GetMatchingOrders` | counterparty-core/counterpartycore/lib/ledger.py:1975-2006 | a cache in step returns what the query without cache returns, exactly the orders that answer and in their order |
| `OrdersRuns.WhatCleaningDrops` | counterparty-core/counterpartycore/lib/ledger.py:1932-1940 | within 50 blocks of the last cleaning nothing, and otherwise the filled orders last touched more than 50 blocks ago |
| `OrdersRuns.BuiltHoldsNewest` | counterparty-core/counterpartycore/lib/ledger.py:1914-1930 | a built cache holds every newest version that is lively, and only newest versions that are not expired |
| `OrdersRuns.FillMarksUsedUp` | counterparty-core/counterpartycore/lib/ledger.py:2030-2064 | of the two orders named, those with nothing left on one side, and of the source when one is asked for, get a filled version; no other order changes |
| `AssetCache.SettledKeyAgrees` | counterparty-core/counterpartycore/lib/ledger.py:1036-1091 | under a settled key, filing the groups of the first query and every issuance since gives the row that filing the groups of a new query gives, whatever the orders of both |
| `AssetCache.UnsettledKeyDiffers` | counterparty-core/counterpartycore/lib/ledger.py:1036-1091 | under any other key two orders give different rows |
| `AssetCache.KeyOfOneAssetIsSettled` | counterparty-core/counterpartycore/lib/ledger.py:1036-1091 | a key under which all valid rows of one asset are filed and no others is settled |
| `AssetCache.TotalsOfAppendIff` | counterparty-core/counterpartycore/lib/ledger.py:1081-1101 | adding a row's quantity to the running total is summing the table again exactly when the row is valid with a total to show, or invalid with no quantity or a zero on a summed asset |
| `AssetCache.CacheEqualsRebuilt` | counterparty-core/counterpartycore/lib/ledger.py:1029-1112 | from any tables, invalid rows and any names included: after any rollback-free run in which an existing cache only gets valid issuances and counting destructions both totals are those of the tables, and every settled key shows the row of a rebuilt cache, whatever order either query returns |
| `AssetCache.AlwaysEqualIffSettled` | counterparty-core/counterpartycore/lib/ledger.py:1029-1112 | after such a run the cache equals a rebuilt one for all orders exactly when every key is settled |
| `AssetCache.EmptyLongNamesDrift` | counterparty-core/counterpartycore/lib/messages/fairminter.py:533-556 | two fairminters issue assets with the empty long name: the cache shows another row under it than a rebuilt one |
| `AssetCache.IssuanceAgreesIffValid` | counterparty-core/counterpartycore/lib/ledger.py:1081-1091 | `add_issuance` ignores the status: after it the cache equals a rebuilt one for all orders exactly when the row is valid, with a quantity or of an asset already summed, and every key is settled |
| `AssetCache.DestructionAgreesIffCounts` | counterparty-core/counterpartycore/lib/ledger.py:1093-1101 | so does `add_destroyed`: exactly when the row is such a one, or an invalid one without quantity or with a zero on a summed asset, and every key is settled |
| `AssetCache.InvalidIssuanceIsFiled` | counterparty-core/counterpartycore/lib/ledger.py:1081-1091 | an invalid issuance becomes the asset's last one in the cache |
| `AssetCache.InvalidDestructionIsSubtracted` | counterparty-core/counterpartycore/lib/ledger.py:1093-1101 | an invalid destruction is in the cache's total |
| `AssetCache.AssetCacheDb.constructor` | counterparty-core/counterpartycore/lib/ledger.py:1036-1079 | the loop over the groups files each under asset and long name, then both totals are read |
| `AssetCache.IssuanceDb.InsertRecord` | counterparty-core/counterpartycore/lib/ledger.py:38-54 | writes the row, then passes it to the cache or creates the cache from tables that have it |
| `Node.MempoolStepKeepsCachesIff` | counterparty-core/counterpartycore/lib/ledger.py:39-54 | while parsing the mempool a call leaves every cache alone exactly when it does not create one |
| `Node.MempoolParseIsInvisibleIff` | counterparty-core/counterpartycore/lib/mempool.py:9-92 | a mempool parse leaves tables and caches as they were exactly when it reads no cache that is still missing |
| `Node.UnconfirmedIssuanceStaysCounted` | counterparty-core/counterpartycore/lib/mempool.py:44-74 | an asset cache created while parsing the mempool counts an issuance whose row is gone after the abort, and counts it again when a block confirms it |
| `Node.MempoolParsesAreInvisible` | counterparty-core/counterpartycore/lib/mempool.py:9-92 | with the caches built, inserting any number of mempool parses between blocks changes no ledger table and no cache |
| `Node.StepsCover` | counterparty-core/counterpartycore/lib/ledger.py:408-415 | within a transaction every known UTXO stays known, and outside the mempool each new one gets known |
| `Node.UtxoCacheNeverMisses` | counterparty-core/counterpartycore/lib/ledger.py:465-484 | after any sequence of committed or aborted blocks, mempool parses and reorganisations every UTXO with a balance row is in the cache |
| `Node.NodeProcess.RunInTransaction` | counterparty-core/counterpartycore/lib/blocks.py:1281-1316 | an exception restores the database and nothing else: the caches keep what they learnt |
| `Node.NodeProcess.ParseMempoolTransactions` | counterparty-core/counterpartycore/lib/mempool.py:9-92 | the flag goes up and down again, the database is aborted, only the collected events are stored, and the caches are as before exactly when no read met a missing one |
| `Node.NodeProcess.UtxoHasBalance` | counterparty-core/counterpartycore/lib/ledger.py:465-484 | answers from the cache, creating it when missing; a UTXO with a balance row is always known |
| `Node.NodeProcess.GetInputsWithBalance` | counterparty-core/counterpartycore/lib/gettxinfo.py:565-576 | returns exactly the inputs in the cache, each position in order, where a cache created by the call knows exactly the outputs with a balance row; an input holding any asset is never missed |
| `NodeRuns.OrdersFollow` | counterparty-core/counterpartycore/lib/ledger.py:2016-2064 | whatever else a block does, table and cache of the orders go the way of the calls on orders |
| `NodeRuns.NodeAnswersAsTheTable` | counterparty-core/counterpartycore/lib/ledger.py:2009-2027 | so a block that opens no dropped order again leaves a cache that answers as the table does |
| `NodeRuns.MissingOrdersAreBuilt` | counterparty-core/counterpartycore/lib/ledger.py:1884-1930 | a missing cache is built from the table as the call leaves it, and then gets the call |
| `NodeRuns.AssetsFollow` | counterparty-core/counterpartycore/lib/ledger.py:38-54 | table and cache of the assets go the way of the issuances and destructions of a block |
| `NodeRuns.NodeCountsAsTheTables` | counterparty-core/counterpartycore/lib/ledger.py:1029-1112 | so a block of valid issuances and counting destructions leaves the totals of the tables and under every settled key the row of a rebuilt cache |
| `NodeRuns.UtxosFollow` | counterparty-core/counterpartycore/lib/ledger.py:408-415 | in a block the cache of outputs learns exactly the outputs of accepted credits and of moves, and forgets none |
| `NodeRuns.MissingOutputsAreBuilt` | counterparty-core/counterpartycore/lib/ledger.py:465-484 | a missing cache is created by the first call that needs it, and only then, from the outputs with a balance row |
| `NodeRuns.MempoolEventsAreTheNew` | counterparty-core/counterpartycore/lib/mempool.py:44-88 | the events a mempool parse stores are exactly those of the aborted run with an index above the last one before, in order; none when there was no message |
| `OutputLoop.PyBody` | counterparty-core/counterpartycore/lib/gettxinfo.py:283-340 | one turn of the Python loop, None for `DecodeError` |
| `OutputLoop.RustLoopHasShape` | counterparty-rs/src/indexer/bitcoin_client.rs:409-472 | without an empty first data chunk the Rust loop computes: leading destinations, then data, stopping at change, with amount, fee and dispensers read so far |
| `OutputLoop.EmptyChunkBecomesNone` | counterparty-core/counterpartycore/lib/gettxinfo.py:283-340 | an empty first data chunk makes the Python loop record a destination None |
| `OutputLoop.BarePrefixIsMisread` | counterparty-core/counterpartycore/lib/gettxinfo.py:283-340 | a lone OP_RETURN with nothing behind the prefix gives Python the destination None and Rust none |
| `OutputLoop.LoopsAgreeIff` | counterparty-core/counterpartycore/lib/gettxinfo.py:273-342 | when either loop returns, both give the same destinations, amount, fee, data and dispensers exactly when no empty data chunk comes first after the destinations; without one they also fail together and have the declared shape |
| `OutputLoop.OneOutput` | counterparty-rs/src/indexer/bitcoin_client.rs:107-472 | both loops accept one output alone exactly when its script decodes and its kind is known by then, and tell its value, destination, data and possible dispenser |
| `OutputLoop.BurnStandsAlone` | counterparty-core/counterpartycore/lib/gettxinfo.py:318-331 | once the burn address is the first destination it stays the only one in both loops |
| `OutputLoop.ParseTransactionVouts` | counterparty-core/counterpartycore/lib/gettxinfo.py:273-342 | the Python loop, against its recursive form and the declared shape |
| `OutputLoop.OutputsAreCutOff` | counterparty-rs/src/indexer/bitcoin_client.rs:409-472 | without an empty first data chunk the list of outputs ends with the first one that is neither a leading destination nor data |
| `OutputLoop.ToBlockOutputs` | counterparty-rs/src/indexer/bitcoin_client.rs:409-472 | the Rust loop, against its recursive form and the declared shape, and the outputs it lists, which end where it stops; before multisig addresses every transaction is an error and lists all |
| `HeightIndex.HeightOrderIsKeyOrder` | counterparty-rs/src/indexer/database.rs:230-279 | a lower height has the smaller key, whatever bytes follow the big-endian height |
| `HeightIndex.FromPrefixIsFromHeight` | counterparty-rs/src/indexer/database.rs:237-247 | a key is at or after the prefix of a height exactly when its own height is |
| `HeightIndex.RotateIsInjective` | counterparty-rs/src/indexer/database.rs:242-247 | rotating the height behind the rest loses nothing: different index keys give different entry keys |
| `HeightIndex.PutStaysPaired` | counterparty-rs/src/indexer/database.rs:180-200 | writing an entry keeps index keys and entry keys in one-to-one correspondence exactly when it comes with its index key or already has one |
| `HeightIndex.NothingOutsideStaysIff` | counterparty-rs/src/indexer/database.rs:230-279 | after a deletion by range no entry outside stays exactly when none without an index key is outside; when every entry has one, exactly the range stays |
| `HeightIndex.UnindexedEntryStays` | counterparty-rs/src/indexer/database.rs:180-251 | an entry written without index key outlives a rollback below its height |
| `HeightIndex.CommitLeavesRange` | counterparty-rs/src/indexer/database.rs:230-279 | deleting the index keys outside a range and their rotations leaves the index keys in range and, of the indexed entries, exactly those in range |
| `HeightIndex.StoppingMissesNothing` | counterparty-rs/src/indexer/database.rs:262-275 | stopping at the first key that is high enough misses no lower key |
| `HeightIndex.CollectAbove` | counterparty-rs/src/indexer/database.rs:237-248 | the iteration from the prefix collects exactly the keys above the height |
| `HeightIndex.CollectBelow` | counterparty-rs/src/indexer/database.rs:258-276 | the iteration from the start collects exactly the keys below the height |
| `HeightIndex.Database.RollbackToHeight` | counterparty-rs/src/indexer/database.rs:230-251 | afterwards, of the index keys and the indexed entries, exactly those up to the height remain in every family, and the best height is set |
| `HeightIndex.Database.DeleteBelowHeight` | counterparty-rs/src/indexer/database.rs:253-279 | afterwards, of the index keys and the indexed entries, exactly those from the height on remain in every family |
| `HeightIndex.Database.PutEntries` | counterparty-rs/src/indexer/database.rs:180-200 | with a minimum height every entry gets its index key and what is too old is deleted; without one only the entries are written; under the key of a written entry its last value is found, and under other keys what was there |
| `DataStream.BCDataStream.ReadBytes` | counterparty-core/counterpartycore/lib/bc_data_stream.py:63-69 | a slice that may be short at the end, while the cursor moves on by the full length |
| `DataStream.BCDataStream.ReadUnsigned` | counterparty-core/counterpartycore/lib/bc_data_stream.py:80-91 | little-endian unsigned number; raises when bytes are missing |
| `DataStream.BCDataStream.ReadSigned` | counterparty-core/counterpartycore/lib/bc_data_stream.py:80-87 | little-endian two's complement; raises when bytes are missing |
| `DataStream.BCDataStream.ReadCompactSize` | counterparty-core/counterpartycore/lib/bc_data_stream.py:113-122 | one, three, five or nine bytes by the first of them |
| `DataStream.ReadsCompactSize` | counterparty-core/counterpartycore/lib/bc_data_stream.py:113-137 | reading inverts the writer's ranges for every length below 2^64 |
| `DataStream.CompactSizeIsShortest` | counterparty-core/counterpartycore/lib/bc_data_stream.py:113-137 | whatever is read, the writer needs no more bytes for it, and the same bytes when it needs as many |
| `DataStream.CompactSizeStandsThere` | counterparty-core/counterpartycore/lib/bc_data_stream.py:113-122 | the first byte tells how many follow, and what each of them counts |
| `Bytes.LittleByteCounts` | counterparty-core/counterpartycore/lib/bc_data_stream.py:80-91 | in a little-endian number the i-th byte counts 256 to the i-th power |
| `DataStream.ReadsCounted` | counterparty-core/counterpartycore/lib/deserialize.py:45-63 | a counted list is read back, whatever reader inverts its items' writer |
| `TransactionReader.ReadTxIn` | counterparty-core/counterpartycore/lib/deserialize.py:9-22 | the input reader does what its specification says, and fails when it does |
| `TransactionReader.ReadTxOut` | counterparty-core/counterpartycore/lib/deserialize.py:25-30 | the output reader does what its specification says, and fails when it does |
| `TransactionReader.ReadTransaction` | counterparty-core/counterpartycore/lib/deserialize.py:33-78 | version, flag with step back, loops over inputs, outputs and witnesses, lock time, and both hashed byte strings |
| `TransactionFrame.FlattenKeepsOrder` | counterparty-core/counterpartycore/lib/deserialize.py:57-66 | the witnesses of all inputs stand one after the other, input by input and each stack in its order |
| `Deserialize.TxInStandsThere` | counterparty-core/counterpartycore/lib/deserialize.py:9-22 | hash, index, script and sequence stand where they are read, and an input is a coinbase exactly when its hash is 32 zero bytes |
| `Deserialize.TxOutStandsThere` | counterparty-core/counterpartycore/lib/deserialize.py:25-30 | value in two's complement and script stand where they are read |
| `TransactionFrame.SegwitReadsBack` | counterparty-core/counterpartycore/lib/deserialize.py:33-78 | for any inverted parts, a transaction with witnesses is read back, and the identifier is taken of its bytes without marker, flag and witnesses |
| `TransactionFrame.LegacyReadsBackIff` | counterparty-core/counterpartycore/lib/deserialize.py:33-78 | for any inverted parts, what was written without witnesses is read back exactly when no flag is seen behind the version |
| `Deserialize.BitcoinPartsInvert` | counterparty-core/counterpartycore/lib/deserialize.py:9-30 | every part reader inverts its writer and stops right behind the bytes |
| `Deserialize.LegacyFlag` | counterparty-core/counterpartycore/lib/deserialize.py:38-43 | the bytes behind the version look like marker and flag exactly for no input and one output |
| `Deserialize.SegwitRoundTrip` | counterparty-core/counterpartycore/lib/deserialize.py:33-78 | a transaction with witnesses is read back, the cursor at its end, its identifier taken of the witness-free bytes |
| `Deserialize.LegacyRoundTripIff` | counterparty-core/counterpartycore/lib/deserialize.py:33-78 | a transaction without witnesses is read back exactly when it does not have no input and one output |
| `Deserialize.NoInputIsMisread` | counterparty-core/counterpartycore/lib/deserialize.py:38-43 | a transaction without input and with one output is not read back |
| `Deserialize.RoundTrip` | counterparty-core/counterpartycore/lib/deserialize.py:33-78 | every transaction with an input is read back from any place in a stream, the cursor exactly behind it |
| `WriteBack.WritingBackIff` | counterparty-core/counterpartycore/lib/deserialize.py:33-78 | whatever bytes a transaction was read from, written again it is those bytes exactly when each length that was read took no more bytes than it needs, and otherwise it takes fewer |
| `WriteBack.PaddedTransactionShrinks` | counterparty-core/counterpartycore/lib/deserialize.py:33-78 | every transaction without witnesses, its number of inputs written in three bytes instead of one, is read as the same transaction and comes back two bytes shorter |
| `SubassetNames.TablesFit` | counterparty-core/counterpartycore/lib/util.py:35-104 | the two digit tables are inverse to each other on exactly 67 characters |
| `SubassetNames.DigitsInOrder` | counterparty-core/counterpartycore/lib/util.py:34-104 | small letters count from 1, capitals from 27, figures from 53, each in their order, and then come five signs |
| `SubassetNames.CompactSubassetLongname` | counterparty-core/counterpartycore/lib/util.py:282-289 | the sum over powers of 68 in minimal big-endian bytes; a character without digit raises |
| `SubassetNames.ExpandSubassetLongname` | counterparty-core/counterpartycore/lib/util.py:292-301 | the division loop terminates and gives the base-68 digits, with -1 indexing the last character |
| `SubassetNames.NumberOfMinimalBytes` | counterparty-core/counterpartycore/lib/util.py:289-294 | bit length rounded up to bytes is enough to read the number back |
| `SubassetNames.CompactThenExpand` | counterparty-core/counterpartycore/lib/util.py:282-301 | exactly the names over the 67 characters are accepted, and each comes back |
| `SubassetNames.ExpandThenCompactIff` | counterparty-core/counterpartycore/lib/util.py:282-301 | bytes come back exactly when they have no leading zero byte and their number no zero digit in base 68 |
| `AssetNames.GenerateAssetId` | counterparty-core/counterpartycore/lib/ledger.py:578-621 | checks in their order, then the decimal number behind A or the base-26 value of the letters |
| `AssetNames.GenerateAssetName` | counterparty-core/counterpartycore/lib/ledger.py:624-653 | fixed names, too low, too high, A and decimal, or the reversed remainders of the division loop |
| `AssetNames.AcceptedIff` | counterparty-core/counterpartycore/lib/ledger.py:578-621 | a name has an id exactly when it is BTC or XCP, letters of enough and not too many characters without leading A, or with numeric names an A before a number in range |
| `AssetNames.WhyRefused` | counterparty-core/counterpartycore/lib/ledger.py:578-621 | why a name is refused: the first reason that applies in the order of the checks |
| `AssetNames.WhyUnnamed` | counterparty-core/counterpartycore/lib/ledger.py:624-641 | which ids are too low or too high for a name, and that nothing else is refused |
| `AssetNames.NumbersFollowTheAlphabet` | counterparty-core/counterpartycore/lib/ledger.py:606-615 | among letter names of one length the numbers follow the alphabet |
| `AssetNames.SpellingsOfNumber` | counterparty-core/counterpartycore/lib/ledger.py:588-592 | a number may stand between spaces and with a sign, and only a minus changes it |
| `AssetNames.UnderscoreSaysNothing` | counterparty-core/counterpartycore/lib/ledger.py:588-592 | an underscore between two figures says nothing |
| `AssetNames.NumberRoundTripIff` | counterparty-core/counterpartycore/lib/ledger.py:578-653 | with numeric names an id is its name's id exactly for 0, 1 and 26^3 to 2^64-1 without 26^12, whose 13 letters are refused |
| `AssetNames.NumberRoundTripBeforeIff` | counterparty-core/counterpartycore/lib/ledger.py:578-653 | before numeric names exactly for 0, 1 and everything from 26^3 on |
| `AssetNames.LettersAreLargeEnough` | counterparty-core/counterpartycore/lib/ledger.py:608-621 | the final check for too small an id never fails |
| `AssetNames.NameRoundTripIff` | counterparty-core/counterpartycore/lib/ledger.py:578-653 | an accepted name is its id's name exactly when it does not begin with A or has plain figures behind it, without sign, space, underscore or leading zero |
| `AssetNames.PlusSpellsAlike` | counterparty-core/counterpartycore/lib/ledger.py:588-600 | a plus sign behind the A gives another spelling of every numeric name |
| `AssetNames.NamesAreUnique` | counterparty-core/counterpartycore/lib/ledger.py:578-621 | two accepted names in plain spelling with one id are the same name |

## Left out

- SQL and SQLite: tables are sequences, `MAX(rowid) ... GROUP BY` is the last row of a group, `with db` is all or nothing; indexes, triggers, views, migrations and connection pools are not modelled.
- Message handlers in `messages/`, `parse_tx`, `list_tx` and transaction numbering: any deterministic calls of the primitives stand for them.
- `transfer` calls `debit` and `credit` without their `tx_index`; it is not modelled.
- Clocks, RPC, ZMQ, threads and the fetcher: their answers are parameters of the methods.
- SHA-256, ARC4, script decoding and address formats: hashes are symbolic, `parse_vout` and the `decode_` functions appear as the decoded output, `is_utxo_format` as the kind of holder.
- The strings `BLOCK_LEDGER` and `BLOCK_JOURNAL`: the consensus hash covers the calls of the block instead of their text.
- Protocol changes that activate in the middle of a run: the settings of one call are parameters, those of a database object constants.
- `assets_info`, XCP supply, fairminter aggregates and mempool rows of the API: they rest on process-wide caches or random indexes.
- A ledger that changes while the API's `catch_up` runs: hashes are compared once at its start, so the prefix laws are about `parse_next_event`.
- The watcher's thread ends with a raise: a later call stands for the first one of its next start, which begins with the same hash check on the database the raise left.
- Checkpoint tables, version checks, `reparse`, `replay_transactions_events` and bootstrap: constants or repetitions of what is here.
- The block reader around `read_transaction`, and the string writers of the stream, which mix text and bytes.
- HeightIndex.Database.RollbackToHeight: requires a height below 2^32-1, because adding one to that overflows in the source.
- OrdersRuns.OrdersCacheDb.GetMatchingOrders: is given the table as a ghost argument, because the cache object does not hold the ledger.
- Deserialize.RoundTrip: is about numbers and lengths that fit their fields; a transaction object that does not fit has no serialisation.
- Ledger.LedgerDb.DebitHolder: requires the `debits` table, which every database has, so that no balance row is written before a missing table is noticed.
- Ledger.LedgerDb.CreditHolder: requires the `credits` table, for the same reason.
- HeightIndex.Database.PutEntries: the values stored under index keys are not modelled, and the entries that the source writes at once and the deletions it batches are one step here.
- ApiDatabase.ApiDb.ParseOne: leaves out `assets_info`, XCP supply, fairminter aggregates and the mempool tables.
- ApiDatabase.ApiDb.RollbackOne: leaves out the same tables.
- Blocks.BlockParser.InsertBlock: handlers do not raise; what an aborted block leaves behind is `Node.NodeProcess.RunInTransaction`.
- Blocks.BlockParser.FindFork: the backend answers for every height of the table, and the first blocks agree; outside that `getblockhash` raises.
- LedgerBalances.HeldConservesIff: is about the balance queries of `held`; escrows in orders, matches and dispensers are debited balances here.
- AssetCache.CacheEqualsRebuilt: excludes adding to a total that reads NULL, which raises.
- AssetCache.IssuanceDb.InsertRecord: excludes the same calls; names the issuances and destructions tables only, the others do not touch the cache's content.
- LedgerEvents.RunStaysFollowable: that each handler passes the keys of its row to the event is a condition on the calls.
- AssetNames.GenerateAssetId: takes signs, ASCII spaces and single underscores of `int` into account but not figures of other scripts.
- OutputLoop.ToBlockOutputs: leaves the cast of output values to 64-bit signed integers unmodelled.
- Node.NodeProcess.ParseMempoolTransactions: events are kept as the journal messages of the aborted run; their timestamps and the JSON text are not modelled.
- OrdersRuns.CacheAnswersAsTheTable: the fill of an order finds it by its latest version instead of by rowid.
