# The transaction-log pipeline, modelled and proved

A Bitcoin explorer keeps its indexes by passing blocks and transactions through three
stages: log1 (a hash-linked window of blocks), log2 (an ordered log of ACCEPT, CONFIRM,
UNCONFIRM and REJECT rows) and a parser that turns those rows into key-value records.
A bootstrap loader computes the same records in one pass over the raw blocks.  This
project models these stages and proves that they fit together.

The centre is `Ledgers`: a `Ledger` is the set of unconfirmed transactions and the list
of confirmed ones with their heights, and `Legal` says which row may come next.  It is
the contract between the stages:

- **Producer** (`MemRepo`, `RemovalOrder`, `Log2Spec`, `BlockAccept`, `BlockRollback`,
  `BlockTimestamps`, `ItemRuns`, `ItemRows`, `Log2`): whatever valid log1 items arrive,
  the rows the producer writes are a legal run to the ledger that `Log2Spec.Step`
  describes without any loop: a block evicts exactly the pool transactions it
  double-spends and their descendants.  `ItemRows.Writes` says which rows each item
  writes for each transaction, in what order and with which block columns, from the pool
  before it alone.  The producer throws only when a rollback goes deeper than it keeps
  block times for.
- **Consumer** (`AddressTxs`, `AddressOrder`, `AddressUnspents`, `TxStore`, `TxParser`):
  any legal run keeps every record equal to what the ledger says.  No key is missing, no
  assertion fails, and `received - sent` of every address is what its unspent list is
  worth.  Each row changes the order of an address list, and the numbers of an unspent
  list, in just one way.
- **Blocks** (`OrphanHashes`, `BlockIndex`, `BlockMoves`, `BlockFeed`, `Txlogs`): the
  block records over any reorganisation; the rows of a coinbase, with their block
  columns, ask for legal changes only, and the loop over the log makes them.  It stops
  only at a block whose coinbase pays less than the subsidy.
- **Log1** (`Log1Chain`, `Log1Feed`): the window of recent blocks, what a restart rebuilds
  and when it fails, and that the records of a live window come at the right place for
  the producer of log2.
- **All together** (`Pipeline`, `FirstBlock`): the three stages composed over whole runs,
  with the exact conditions under which they stop, and a concrete run from empty tables
  that meets everything asked for.
- **Bootstrap** (`BootstrapTxs`, `BootstrapAddrs`, `BootstrapUnspents`, `BootstrapDump`,
  `Bootstrap`, `BootstrapBlocks`, `BootstrapRefines`): the one-pass loader leaves the
  records the parser would have, unspent lists up to their numbering.
- The self-contained parts `Merkle`, `Amount`, `Base58` and `Buffer`; `Sequences` holds
  what several modules use.

Key-value records are maps keyed by tuples or kept per address; SQL tables are sets and
sequences.  Where the original throws or fails an assertion a method returns `ok` false,
and the theorems say exactly when that happens.  An address is a number (its place in the
order of address strings) and `ExtractDestinations` is already applied to an output.

## What is assumed of the environment

- Transaction hashes and block hashes are free constructors: equal hashes mean equal
  contents, and nothing spends its own output, however indirectly.  Pool and chain are
  not assumed to be filled in spending order.
- A transaction's inputs are distinct and point at existing outputs; the address list of
  an output has no repeats; the null input of a coinbase is not listed.
- Every output of a transaction, and every running total of its outputs, is between 0
  and 21 million coins; without that `CTransaction::GetValueOut` throws
  (`Transactions.GetValueOut`).
- The halving interval is that of the main and test networks, 210,000 blocks.
- `Log2Spec.ValidItem`: log1 does not re-accept a confirmed transaction; accepted
  transactions and blocks spend only what is known and not spent by a confirmed
  transaction (spends by pool transactions are allowed, they are the conflicts); a block
  record is one step forward or one step back; no live transaction spends the coinbase
  of a block that is rolled back.  The place of a block record need not be assumed where
  the records come from a live log1 window (`Pipeline.FromLog1`).
- Block hashes are written without collision among the blocks in hand: those the index
  knows and those of the run (`BlockFeed.OneToOneOn`).
- A pushed rollback of log1 names the block the window falls back to
  (`Log1Chain.NamesParents`); that the code does not check this is shown below.
- The bootstrap loader gets blocks that are not empty, valid one after the other, and
  have a time other than 0 (0 is its mark for "no transaction yet"), and its two files
  name exactly the transactions and addresses of those blocks.

## Where code and comment differ

The comment at `jiexi/src/Log2Producer.h:32-34` allows accept, confirm, unconfirm,
reject in that order.  The code also confirms an unconfirmed transaction again (a block
accepted after a rollback) and accepts a rejected one again.  The transition table
`Ledgers.Permits` follows the code.

## What fails, and exactly when

- The block index fails an assertion at a block whose coinbase pays less than the
  subsidy, although such a block is valid; over whole runs the consumer succeeds if and
  only if every block that comes pays at least `BlockIndex.Subsidy` of its height
  (`BlockIndex.BlockStore.Run`, `Txlogs.TxlogHandler.HandleTxlogs`,
  `Pipeline.ProduceAndConsume`; a block that claims one unit less:
  `FirstBlock.CheapIsValid`).
- The log2 producer fails an assertion at a rollback when it has no block time left to
  forget.  It keeps 4032 of them; a run of valid items succeeds if and only if it never
  goes more than 4032 blocks below an earlier height, nor below its start by more than
  the times loaded then (`Log2.Log2Producer.Run`, `BlockTimestamps.KeptIsEnough`; heights
  that do: `BlockTimestamps.TooDeep`).  A live log1 window, which is no longer than
  that, never asks for it if it starts with at most one block more than there are times;
  a configured start is one block (`Log1Feed.LiveTimesSuffice`).
- The log1 producer can start again if and only if there is no log1 file yet, or there is
  a block record and every record that goes back finds more than three blocks, a count
  that depends on the heights and the limit alone (`Log1Chain.RestartSucceeds`).  Two
  blocks forward and one back are enough to fail (`Log1Chain.RestartThrows`), and so is a
  first run that clears the pool and writes no block (`Log1Chain.RestartNeedsBlock`).
- A pushed rollback of the log1 chain ends at the block it names if and only if that
  block is the one before the newest (`Log1Chain.BackwardTip`, counterexample
  `Log1Chain.SiblingIsTaken`).
- The counter `unspentTxCount` of an address is the length of its unspent list if and only
  if no transaction that pays the address was ever rejected since the store was empty:
  rejecting deletes records without counting them off (`TxParser.CountIsRight`).
- The 64-bit compression of an amount is its compression if and only if the amount is a
  multiple of 10 or at most 2049638230412172402; the next number wraps around
  (`Amount.CompressAmount`, `Amount.CompressFits`, `Amount.FirstWrapped`).
- The bootstrap loader loses an entry of an address list exactly when its block time is 0
  and another entry follows (`BootstrapAddrs.EntryIsWritten`), which is why a time is
  assumed above.  Its lookups return the neighbour of an entry that is not listed
  (`BootstrapTxs.TxHandler.Find`, `BootstrapAddrs.AddrHandler.Find`).

## Model

| member | source | states |
|---|---|---|
| Ledgers.LegalKeepsConsistent | jiexi/src/Log2Producer.h:30-50 | every legal row keeps the ledger consistent: no outpoint spent twice by live transactions, every input known, confirmed parents before children |
| Ledgers.TxLifeFollowsTable | jiexi/src/Log2Producer.h:30-50 | over every legal run the rows of each transaction follow the transition table, and its state at the end is the one its last row names |
| SpendChains.RemovalStep | jiexi/src/Log2Producer.cc:122-135 | removing the end of a spend chain keeps the removed list leaf-first and made of descendants only |
| SpendChains.RemovalEnd | jiexi/src/Log2Producer.cc:122-135 | once the starting transaction itself goes, the removed ones are exactly it and its descendants |
| SpendChains.DoomEnd | jiexi/src/Log2Producer.cc:757-767 | when a transaction fits at last, exactly those sharing an input with it and their descendants were removed |
| SpendChains.ChildHasFewerAbove | jiexi/src/Log2Producer.cc:103-119 | walking to a spender leaves fewer transactions above: the recursion ends for any insertion order |
| RemovalOrder.OneEnd | jiexi/src/Log2Producer.cc:103-119 | going on to the spender of the lowest spent output ends at one transaction only |
| MemRepo.MemTxRepository.AddTx | jiexi/src/Log2Producer.cc:34-70 | a transaction is added if and only if it is new and shares no input with the pool; the spent-outputs index stays the exact inverse of the inputs |
| MemRepo.MemTxRepository.GetSpentEndTx | jiexi/src/Log2Producer.cc:103-119 | ends at a descendant that nothing in the pool spends, always going on to the spender of the lowest spent output |
| MemRepo.MemTxRepository.GetConflictTx | jiexi/src/Log2Producer.cc:75-97 | the leaf of a chain that starts with the spender of the first shared input; the transaction itself exactly when there is no conflict; throws only for a transaction already in the pool |
| MemRepo.MemTxRepository.RemoveTx | jiexi/src/Log2Producer.cc:147-165 | throws if and only if the hash is missing; otherwise removes just it, index included |
| MemRepo.MemTxRepository.RemoveTxs | jiexi/src/Log2Producer.cc:167-171 | succeeds if and only if all hashes are present and none is listed twice; removes exactly them |
| MemRepo.MemTxRepository.RemoveTxAndChildTx | jiexi/src/Log2Producer.cc:122-135 | removes exactly the transaction and its pool descendants, each once, children before parents, each the end of the way from the transaction in what is left |
| MemRepo.MemTxRepository.RemoveSomeTx | jiexi/src/Log2Producer.cc:138-145 | removes the end of the way from the transaction with the greatest hash |
| MemRepo.MemTxRepository.DeleteInBatches | jiexi/src/Log2Producer.cc:205-223 | deleting existing rows in batches succeeds, every batch affecting as many rows as it lists |
| MemRepo.MemTxRepository.SyncToDB | jiexi/src/Log2Producer.cc:184-224 | after a commit the pool table is the set of pool hashes and nothing is pending |
| Log2Spec.RejectRun | jiexi/src/Log2Producer.cc:788-800 | rejecting a leaf-first list is a legal run that takes exactly that list out of the pool |
| Log2Spec.AcceptIsLegal | jiexi/src/Log2Producer.cc:646-689 | the ACCEPT row of a conflict-free valid transaction is legal and leads to the specified ledger |
| Log2Spec.StepKeepsValid | jiexi/src/Log2Producer.cc:834-856 | publishing rows that explain an item keeps the world valid and the whole log legal |
| BlockAccept.BlockRun | jiexi/src/Log2Producer.cc:802-823 | the ACCEPT and CONFIRM rows of a block are legal in block order and confirm exactly its transactions |
| BlockAccept.ChainStaysOutside | jiexi/src/Log2Producer.cc:757-767 | a chain of spends that starts outside a valid block never enters it, so no block transaction is evicted |
| BlockAccept.EvictSome | jiexi/src/Log2Producer.cc:749-774 | what one block transaction evicts are conflicts of the block that were not removed before |
| BlockAccept.EvictionComplete | jiexi/src/Log2Producer.cc:744-774 | when all block transactions are in, exactly the conflicts and their descendants are out |
| BlockAccept.BlockExplained | jiexi/src/Log2Producer.cc:788-829 | rejects, then accepts and confirms of a block form a legal run to the specified ledger |
| BlockRollback.UnconfirmRun | jiexi/src/Log2Producer.cc:932-941 | unconfirming the newest transactions last first is legal and moves exactly them to the pool |
| BlockRollback.RollbackExplained | jiexi/src/Log2Producer.cc:923-961 | the rows of a rollback, coinbase reject included, are a legal run to the specified ledger |
| BlockRollback.ReturnOne | jiexi/src/Log2Producer.cc:913-921 | a rolled-back transaction never meets a conflict in the pool |
| ItemRuns.EvictionMakesRoom | jiexi/src/Log2Producer.cc:744-777 | after the eviction nothing in the pool shares an input with the block, and no block transaction is among the evicted |
| ItemRuns.StepIsValid | jiexi/src/Log2Producer.cc:646-964 | every valid item leads to a valid world |
| ItemRuns.NewBlockCanGoBack | jiexi/src/Log2Producer.cc:901-964 | a block just accepted may be rolled back |
| ItemRuns.RollbackUndoesAccept | jiexi/src/Log2Producer.cc:744-964 | accepting a block and rolling it back restores the chain; the pool loses the conflicts and gains the block's transactions but its coinbase |
| ItemRows.AcceptWrites | jiexi/src/Log2Producer.cc:646-689 | one ACCEPT row for a new transaction free of conflicts, none otherwise |
| ItemRows.RejectsWrite | jiexi/src/Log2Producer.cc:691-728 | REJECT rows for a removed transaction and its descendants, or for the whole pool, one each |
| ItemRows.NewBlockWrites | jiexi/src/Log2Producer.cc:786-823 | the rows of a block, transaction by transaction, from the old pool, shared inputs and descent; rejects first, then block order; only CONFIRM names the block |
| ItemRows.RollbackWrites | jiexi/src/Log2Producer.cc:923-952 | one UNCONFIRM for every transaction of the block, and the REJECT of the coinbase, all naming the block |
| ItemRows.RunWritesRows | jiexi/src/Log2Producer.cc:1064-1117 | over whole runs the rows of a transaction are those of each item, one after the other |
| BlockTimestamps.BlockTimestamp.PushBlock | jiexi/src/Log2Producer.cc:249-263 | after the newest n heights, up to the limit, a height above them is never there already; the highest time never falls |
| BlockTimestamps.BlockTimestamp.PopBlock | jiexi/src/Log2Producer.cc:265-277 | throws if and only if no time is kept; otherwise the highest block goes and the maximum is that of the rest |
| BlockTimestamps.KeptIsEnough | jiexi/src/Log2Producer.cc:249-277 | over any path of heights, every pop finds a time if and only if no height is more than the limit below an earlier one, or more than the first count below the start |
| BlockTimestamps.TooDeep | jiexi/src/Log2Producer.cc:265-266 | a concrete path, up by one more than the limit and down again, on which one does not |
| Log2.Log2Producer.constructor | jiexi/src/Log2Producer.cc:308-437 | a restart loads the pool table in any order without a conflict and agrees with the log; of the times of the newest blocks it keeps the last 4032 |
| Log2.Log2Producer.CommitBatch | jiexi/src/Log2Producer.cc:834-856 | publishes the pending rows together with the pool table; fails, changing no row, where their number is not the expected one |
| Log2.Log2Producer.HandleTxAccept | jiexi/src/Log2Producer.cc:646-689 | never throws; the new world is the specified one, and its one ACCEPT row is written exactly for a transaction that is new and shares no input with the pool |
| Log2.Log2Producer.HandleTxReject | jiexi/src/Log2Producer.cc:691-728 | never throws; exactly the transaction and its descendants get a REJECT row, in the order the original removes them |
| Log2.Log2Producer.ClearMempoolTxs | jiexi/src/Log2Producer.cc:859-899 | never throws; the pool and its table end empty, everything in it rejected once, from the greatest hash on |
| Log2.Log2Producer.AddRemovingConflicts | jiexi/src/Log2Producer.cc:757-767 | the while-addTx loop ends, having removed exactly the double-spent transactions and their descendants, none twice, each the end of the way from the first conflict left |
| Log2.Log2Producer.EnterBlock | jiexi/src/Log2Producer.cc:744-768 | all block transactions but the coinbase end in the pool; what was known before, and in which order the conflicts went, is recorded |
| Log2.Log2Producer.HandleBlockAccept | jiexi/src/Log2Producer.cc:730-832 | never throws, the assertion on the block's time and the removal of its transactions included; the new world is the specified one; the rows are, in the order of the block and after its rejects, CONFIRM for what was in the pool, ACCEPT and CONFIRM for what was not, REJECT for every conflict and descendant of one, and nothing else; just the raw block is stored |
| Log2.Log2Producer.HandleBlockRollback | jiexi/src/Log2Producer.cc:901-964 | throws if and only if no block time is left to forget, with nothing written; never for a conflict; otherwise the new world is the specified one, every transaction of the block gets one UNCONFIRM, its coinbase a REJECT after it, and nothing else a row |
| Log2.Log2Producer.HandleBlock | jiexi/src/Log2Producer.cc:986-1016 | throws if and only if the record is neither one block forward nor one back to the parent of the newest block, or goes back with no block time left; otherwise the new world is the specified one, height and hash included, and the rows are those of the item |
| Log2.Log2Producer.Run | jiexi/src/Log2Producer.cc:1064-1117 | a sequence of valid items throws if and only if some rollback goes deeper than block times are kept for; it ends in the specified world, or with everything stored as the items before that rollback leave it; the new rows are those of these items, one after the other |
| AddressTxs.ConfirmedOfStep | jiexi/src/Parser.cc:1356-1480 | how each row changes the confirmed list of an address; a row to unconfirm is always the last of it |
| AddressTxs.AppendedAgrees | jiexi/src/Parser.cc:728-788 | an accepted transaction at the end keeps the list dense, 22_ its inverse and all totals right |
| AddressTxs.SwitchedCovers | jiexi/src/Parser.cc:1331-1354 | exchanging two unconfirmed nodes keeps the list and totals right |
| AddressTxs.ConfirmNextAgrees | jiexi/src/Parser.cc:1356-1380 | confirming the first unconfirmed node extends the confirmed part by it, in confirmation order |
| AddressTxs.UnconfirmLastAgrees | jiexi/src/Parser.cc:1454-1480 | unconfirming always meets the last confirmed node, so neither assertion can fail |
| AddressTxs.RejectLastAgrees | jiexi/src/Parser.cc:1656-1678 | removing the last, unconfirmed node keeps the list and totals right |
| AddressTxs.InOrOut | jiexi/src/Parser.cc:777-778 | of what came in and what went out one is 0, and the difference is the balance difference |
| AddressTxs.AppendedIsPlaced | jiexi/src/Parser.cc:728-788 | a new transaction gets the index txCount, and every old 21_ and 22_ entry stays |
| AddressTxs.SwitchedExchanges | jiexi/src/Parser.cc:1331-1354 | a switch exchanges two places and leaves every other entry where it is |
| AddressOrder.RowKeepsOrder | jiexi/src/Parser.cc:1389-1414 | a row that confirms the unconfirmed transaction that arrived first, or rejects the one that arrived last, keeps a list in the order of arrival |
| AddressOrder.ArrivalStep | jiexi/src/Parser.cc:728-788 | over whole runs a list whose rows all came in turn is in the order of the ACCEPT rows |
| AddressUnspents.InsertKeepsInverse | jiexi/src/Parser.cc:958-1001 | a new unspent record gets an index above all earlier ones; 23_ and 24_ stay inverse; the list is worth its value more |
| AddressUnspents.DeleteKeepsInverse | jiexi/src/Parser.cc:912-925 | deleting a record keeps 23_ and 24_ inverse; the list is worth its value less |
| AddressUnspents.AcceptMovesHoldings | jiexi/src/Parser.cc:1048-1261 | after an accept the list holds exactly the outputs of live transactions that no live transaction spends |
| AddressUnspents.AcceptFinds | jiexi/src/Parser.cc:893-928 | every 24_ lookup of an accept hits, and no new record is there already |
| AddressUnspents.RejectMovesHoldings | jiexi/src/Parser.cc:1710-1793 | after a reject the list is again exactly the unspent outputs |
| AddressUnspents.RejectFinds | jiexi/src/Parser.cc:1773-1791 | every 24_ lookup of a reject hits: a rejected transaction's outputs are unspent |
| AddressUnspents.NumberedOn | jiexi/src/Parser.cc:958-1001 | the numbers of unspent records go on from one step to the next: new ones in order above all earlier ones, old ones unchanged |
| AddressUnspents.PaidAscend | jiexi/src/Parser.cc:1139-1165 | the outputs of an accepted transaction that pay an address are numbered lowest first |
| AddressUnspents.TakenFollowInputs | jiexi/src/Parser.cc:1727-1751 | the outputs a rejected transaction gives back are numbered in the order of its inputs |
| TxStore.AcceptSpends | jiexi/src/Parser.cc:931-953 | 02_ records exactly the spends by live transactions after an accept |
| TxStore.RejectSpends | jiexi/src/Parser.cc:1737-1741 | and after a reject |
| TxParser.AddShares | jiexi/src/Parser.cc:1016-1042 | the balance map gains the value at each address of an output, once |
| TxParser.Parser.constructor | jiexi/src/Parser.cc:263-288 | an empty store agrees with the empty ledger |
| TxParser.Parser.InsertAddressUnspent | jiexi/src/Parser.cc:958-1001 | one record under a fresh index, other addresses untouched |
| TxParser.Parser.DeleteUnspents | jiexi/src/Parser.cc:899-927 | throws if and only if some address of the output has no record of it; otherwise exactly those records go |
| TxParser.Parser.SwitchTxNode | jiexi/src/Parser.cc:1331-1354 | exchanges two nodes, 22_ entries included; throws if and only if one is missing |
| TxParser.Parser.MoveNode | jiexi/src/Parser.cc:1395-1406 | the while(1) loop switches at most once and ends with the node in place; the node that was there takes its place, all others stay |
| TxParser.Parser.ConfirmAddress | jiexi/src/Parser.cc:1389-1414 | the node is moved and confirmed; the list agrees with the ledger after CONFIRM |
| TxParser.Parser.UnconfirmAddress | jiexi/src/Parser.cc:1483-1502 | no assertion fails; the list agrees with the ledger after UNCONFIRM |
| TxParser.Parser.RejectAddress | jiexi/src/Parser.cc:1682-1706 | the node is moved to the end and removed; the list agrees with the ledger after REJECT |
| TxParser.Parser.GetTxAddressBalance | jiexi/src/Parser.cc:1003-1045 | finds every previous output and gives exactly the touched addresses with their differences |
| TxParser.Parser.AcceptTx | jiexi/src/Parser.cc:1048-1261 | a legal ACCEPT throws if and only if its row does not carry height -1, changing nothing; otherwise no key is missing and all records, counters and balances agree afterwards; at every touched address the transaction goes to the end of the list and all other entries stay, and its outputs get the next unspent indexes in order |
| TxParser.Parser.ConfirmTx | jiexi/src/Parser.cc:1383-1451 | likewise for CONFIRM: the transaction changes places with the first unconfirmed one of each list |
| TxParser.Parser.UnconfirmTx | jiexi/src/Parser.cc:1483-1534 | likewise for UNCONFIRM: no entry changes its place |
| TxParser.Parser.RejectTx | jiexi/src/Parser.cc:1710-1825 | likewise for REJECT: the transaction changes places with the last one of each list and goes; what it spent gets the next unspent indexes in order |
| TxParser.Parser.Consume | jiexi/src/Parser.cc:444-498 | any legal log with right height columns is consumed without a throw; the transaction and address records are what the final ledger says, the counter of each unspent list exceeds it by the rejected outputs, its highest index grows by the records issued, 01_ has an object for every transaction ever accepted, and a list whose rows all came in turn is in the order of arrival |
| TxParser.CountIsRight | jiexi/src/Parser.cc:1773-1791 | the unspent count of an address is the length of its list if and only if no transaction that pays it was ever rejected |
| Transactions.GetValueOut | jiexi/src/bitcoin/core.cpp:109-119 | throws if and only if an output or a running total is out of the money range; otherwise the sum of the outputs |
| Transactions.InRangeIsBounded | jiexi/src/bitcoin/core.h:18-19 | in range are the transactions without a negative output that pay at most 2,100,000,000,000,000 in all |
| Transactions.ValueOutAdds | jiexi/src/bitcoin/core.cpp:109-119 | one output counts with its value, and the totals of two lists of outputs add up |
| BlockMoves.BlockRowsFit | jiexi/src/Log2Producer.cc:802-823 | the ACCEPT rows of a block carry height -1 and its CONFIRM rows the height of the block |
| BlockMoves.BlockRowsMove | jiexi/src/Log2Producer.cc:802-823 | the rows of a new block and their columns tell of that block's arrival and of nothing else |
| BlockMoves.RollbackRowsMove | jiexi/src/Log2Producer.cc:932-952 | the rows of a rollback tell of the newest block's departure and of nothing else |
| Txlogs.TxlogHandler.HandleRow | jiexi/src/Parser.cc:461-484 | one row: a coinbase's CONFIRM brings its block before the transaction, its REJECT takes it away; throws if and only if the block that comes pays less than the subsidy, with both halves as before; otherwise both end where the ledger and the chain say |
| Txlogs.TxlogHandler.HandleTxlogs | jiexi/src/Parser.cc:444-498 | every legal log whose block moves are a legal run is handled without a throw if and only if every block that comes pays at least the subsidy, and otherwise up to the first row that brings one that does not; transaction, address and block records agree at that point, and lists, numbers and counters are as for `TxParser.Parser.Consume` |
| Pipeline.Produce | jiexi/src/Log2Producer.cc:646-1016 | the new rows are legal from the old ledger to the new one, carry the heights the parser expects, tell of blocks exactly what the items do, and are for each transaction just those of the items |
| Pipeline.ProduceAndConsume | jiexi/src/Log2Producer.cc:646-1016 | over any valid log1 items: the producer succeeds if and only if no rollback goes deeper than 4032 block times allow, writes for each transaction just the rows of the items, and the parser and the block index follow its rows to its world if and only if every block that comes pays at least the subsidy; no key is missing and no other assertion fails |
| Pipeline.FromLog1 | jiexi/src/Log1Producer.cc:700-757 | the same for the records of a live log1 window, restarts included, without assuming where its blocks are placed; the producer always succeeds then |
| FirstBlock.ForthAndBack | jiexi/src/Log2Producer.cc:986-1016 | from empty tables and the genesis block, two blocks are accepted, the second is taken back and accepted again; the exact rows of its coinbase and of its other transaction, going and coming again; all preconditions above are met |
| FirstBlock.CheapIsValid | jiexi/src/Parser.cc:530-532 | a valid block that claims one unit less than the subsidy, at which the consumer stops |
| Pipeline.IndexKnowsTip | jiexi/src/Log2Producer.cc:388-393 | where the parser is up to date, the newest height of the store and its hash, which a restart reads, are those of the producer |
| Pipeline.PoolMatchesLog | jiexi/src/Log2Producer.h:30-50 | between batches every transaction's rows follow the table, and it is in memory and in the pool table exactly when its last row is ACCEPT or UNCONFIRM |
| Pipeline.NoDoubleSpend | jiexi/src/Log2Producer.cc:744-777 | no outpoint is spent by two of pool and confirmed transactions |
| OrphanHashes.SplitJoin | jiexi/src/Parser.cc:1537-1567 | cutting a joined value into 64-character hashes gives the list back |
| OrphanHashes.LessIsLexicographic | jiexi/src/Parser.cc:1537-1567 | the order of the hashes is that of the first characters in which they differ |
| OrphanHashes.InsertOrphanBlockHash | jiexi/src/Parser.cc:1551-1567 | the new value is the sorted, duplicate-free concatenation of the old hashes and the new one |
| OrphanHashes.RemoveOrphanBlockHash | jiexi/src/Parser.cc:1537-1548 | likewise without the hash |
| BlockIndex.AwayIsRejectedNotMain | jiexi/src/Parser.cc:613-648 | over any run, a block is among the orphans if and only if it was rejected at some time and is not on the main chain |
| BlockIndex.AddedObjects | jiexi/src/Parser.cc:517-583 | a new tip has the zero next-hash, its parent names it, and every other object is unchanged |
| BlockIndex.OrphanedObjects | jiexi/src/Parser.cc:1602-1636 | a rejected tip is flagged, its parent is the tip again with the zero next-hash |
| BlockIndex.BlockStore.InsertBlock | jiexi/src/Parser.cc:517-583 | throws if and only if the coinbase pays less than the subsidy, with nothing written, or a block above height 0 has no stored parent |
| BlockIndex.BlockStore.MarkOrphan | jiexi/src/Parser.cc:1602-1636 | throws if and only if the block or its parent is not stored |
| BlockIndex.BlockStore.AcceptBlock | jiexi/src/Parser.cc:613-648 | throws if and only if the coinbase pays less than the subsidy; otherwise 10_, 11_ and 13_ agree with the chain after the accept, also when the block was an orphan |
| BlockIndex.BlockStore.RejectBlock | jiexi/src/Parser.cc:1570-1639 | and after the reject of the tip |
| BlockIndex.BlockStore.Run | jiexi/src/Parser.cc:613-648 | over any reorganisation it throws if and only if some accepted block pays less than the subsidy, and stops before it: heights form a linked main chain, next-hashes are successors or zeros, 13_ lists exactly the orphans of each height |
| BlockIndex.SubsidyFalls | jiexi/src/bitcoin/chainparams.cpp:292-306 | the subsidy never rises from one height to a later one |
| BlockIndex.FirstEra | jiexi/src/bitcoin/chainparams.cpp:292-306 | 5,000,000,000 below height 210,000 |
| BlockIndex.NextEra | jiexi/src/bitcoin/chainparams.cpp:292-306 | 210,000 blocks later it is half of what it was, for every height |
| BlockIndex.LastEra | jiexi/src/bitcoin/chainparams.cpp:292-306 | 0 from 33 times 210,000 on |
| BlockIndex.TotalSupply | jiexi/src/bitcoin/chainparams.cpp:292-306 | the subsidies of all blocks add up to 2,099,999,997,690,000 |
| BlockFeed.ItemIsLegal | jiexi/src/Parser.cc:464-480 | every valid log1 item tells of a legal step of the block index, and producer and index stay at the same block |
| BlockFeed.FeedIsLegal | jiexi/src/Parser.cc:464-480 | the same over whole runs; block names need to be unique among the blocks in hand only |
| BlockFeed.PaysByItem | jiexi/src/Parser.cc:530-532 | the blocks the rows bring all pay at least the subsidy if and only if those of the items that go forward do |
| Log1Chain.LiveNextKeepsSound | jiexi/src/Log1Producer.cc:166-226 | the live window stays linked and within its limit |
| Log1Chain.PushIsTaken | jiexi/src/Log1Producer.cc:174-216 | a push succeeds if and only if its block is on top of the newest one, or goes back with room; forward, the oldest block goes exactly when the window was full |
| Log1Chain.LivePushIsTaken | jiexi/src/Log1Producer.cc:948-956 | the same at any time of a live run: the window never stops taking blocks |
| Log1Chain.LivePopIsTaken | jiexi/src/Log1Producer.cc:717-731 | a pop of the catch-up succeeds if and only if a block is left, whose record it writes |
| Log1Chain.ReplayStep | jiexi/src/Log1Producer.cc:174-216 | replaying one record throws if and only if it goes back with no more than three blocks left; otherwise the replayed window stays a suffix |
| Log1Chain.ReplayIsSuffix | jiexi/src/Log1Producer.cc:448-465 | at any time, after any number of restarts, records that can be replayed give a suffix of the live window, with the same tip, linked and within the limit |
| Log1Chain.ReplaySucceeds | jiexi/src/Log1Producer.cc:448-465 | the records of any live run can be replayed if and only if every one that goes back finds more than three blocks, counted from the heights and the limit alone; the count is the length of the rebuilt window |
| Log1Chain.RestartThrows | jiexi/src/Log1Producer.cc:189-206 | a concrete live run, two blocks forward and one back, after which the producer cannot start again |
| Log1Chain.RestartSucceeds | jiexi/src/Log1Producer.cc:407-472 | after any live run a restart succeeds if and only if nothing was written yet, or there is a block record and every one that goes back finds more than three blocks |
| Log1Chain.RestartNeedsBlock | jiexi/src/Log1Producer.cc:468-471 | a first run that writes a line but no block cannot be followed by another |
| Log1Feed.RecordIsPlaced | jiexi/src/Log1Producer.cc:700-757 | the record of a live step is one block forward on the tip or back to its parent, for a producer at the same block |
| Log1Feed.LiveItemsAreValid | jiexi/src/Log1Producer.cc:700-757 | over whole runs, items whose block records are those of a live window and whose contents are valid are valid items, and window and producer end at the same block |
| Log1Feed.LiveTimesSuffice | jiexi/src/Log1Producer.cc:218-226 | a live window within the limit never goes further back than the log2 producer keeps block times for |
| Log1Chain.BackwardTip | jiexi/src/Log1Producer.cc:191-206 | a pushed rollback ends at the block it names if and only if that is the block before the newest |
| Log1Chain.SiblingIsTaken | jiexi/src/Log1Producer.cc:191-206 | a concrete window where a sibling of that block is taken for it |
| Log1Chain.Chain.PushFirst | jiexi/src/Log1Producer.cc:166-172 | starts an empty chain; throws if and only if it is not empty |
| Log1Chain.Chain.Push | jiexi/src/Log1Producer.cc:174-216 | succeeds if and only if the block links forward, or goes back with more than three blocks and the right third hash, changing nothing otherwise; a full window gives up its oldest block only; keys stay contiguous |
| Log1Chain.Chain.Pop | jiexi/src/Log1Producer.cc:222-227 | drops the newest block, if any |
| Log1Chain.InitLog1 | jiexi/src/Log1Producer.cc:407-472 | without a file starts at the configured block; otherwise rebuilds the specified window, throwing exactly when the specification does or when the files hold no block |
| BootstrapTxs.UpperBound | jiexi.bootstrap/src/Parser.cc:337-354 | splits a sorted vector at the needle |
| BootstrapTxs.FreeSlot | jiexi.bootstrap/src/Parser.cc:407-427 | one slot is freed, the array exactly when it was the last |
| BootstrapTxs.LoadedUnspent | jiexi.bootstrap/src/Parser.cc:925-1078 | loading a transaction adds its outputs to the unspent ones and takes away those it spends |
| BootstrapTxs.TxHandler.constructor | jiexi.bootstrap/src/Parser.cc:317-332 | one entry per listed hash, sorted, holding nothing |
| BootstrapTxs.TxHandler.Find | jiexi.bootstrap/src/Parser.cc:337-354 | the entry found is that of the hash if and only if the hash is listed |
| BootstrapTxs.TxHandler.AddOutputs | jiexi.bootstrap/src/Parser.cc:360-405 | exactly the outputs of the transaction are held afterwards, at its height |
| BootstrapTxs.TxHandler.DelOutput | jiexi.bootstrap/src/Parser.cc:407-446 | throws if and only if the output is not held; otherwise just it is let go |
| BootstrapAddrs.SaveLast | jiexi.bootstrap/src/Parser.cc:831-867 | writing the remembered entry completes the stored list |
| BootstrapAddrs.ExtendedIsBehind | jiexi.bootstrap/src/Parser.cc:884-903 | a new entry makes the totals right and leaves the stored list one behind |
| BootstrapAddrs.EntryIsWritten | jiexi.bootstrap/src/Parser.cc:878-903 | for any transactions of an address, an entry of its list is there in the end if and only if it is the last one or its block time is not 0 |
| BootstrapAddrs.AddrHandler.NoteAddressTx | jiexi.bootstrap/src/Parser.cc:872-904 | writes the remembered entry unless its time is 0, remembers the new one, leaves other addresses alone |
| BootstrapAddrs.FinishedAgrees | jiexi.bootstrap/src/Parser.cc:285-301 | the final address record is the one the incremental parser keeps |
| BootstrapAddrs.AddrHandler.Find | jiexi.bootstrap/src/Parser.cc:255-275 | the entry found is that of the address if and only if the address is listed |
| BootstrapAddrs.AddrHandler.HandleAddressTxs | jiexi.bootstrap/src/Parser.cc:869-905 | after a transaction every listed address is again exactly one entry behind |
| BootstrapAddrs.AddrHandler.DumpAddressAndTxs | jiexi.bootstrap/src/Parser.cc:277-303 | every listed address ends with the record of the incremental parser |
| BootstrapUnspents.SortedIsComplete | jiexi.bootstrap/src/Parser.cc:172-174 | sorting keeps every unspent item, each once |
| BootstrapUnspents.AddItem | jiexi.bootstrap/src/Parser.cc:194-229 | numbering one item keeps 23_ and 24_ inverse, the list in the order of heights and without a gap, and the counters right |
| BootstrapUnspents.AddrUnspentHandler.Push | jiexi.bootstrap/src/Parser.cc:176-188 | appends; fails if and only if the vector is full |
| BootstrapUnspents.AddrUnspentHandler.Dump2kvdb | jiexi.bootstrap/src/Parser.cc:190-230 | each address gets exactly its items, numbered by height from 0 without a gap, and their number as its count |
| BootstrapDump.CountUnspents | jiexi.bootstrap/src/Parser.cc:457-474 | the first pass counts what the second will push |
| BootstrapDump.RoomLeft | jiexi.bootstrap/src/Parser.cc:480-497 | the vector sized by the first pass never overflows in the second |
| BootstrapDump.CollectAll | jiexi.bootstrap/src/Parser.cc:480-499 | fills the vector with every unspent output's every address, once |
| BootstrapDump.DumpUnspentOutputToFile | jiexi.bootstrap/src/Parser.cc:456-508 | every address's list is its unspent outputs, in the order of heights, numbered from 0 and counted |
| Bootstrap.LoadIsLegal | jiexi.bootstrap/src/Parser.cc:1116-1149 | the ACCEPT and CONFIRM log of the blocks ends in the ledger of their transactions, each acceptable in its turn |
| Bootstrap.PreParser.Init | jiexi.bootstrap/src/Parser.cc:696-721 | throws if and only if one of the two files is empty; otherwise the handlers know exactly what the files say |
| Bootstrap.PreParser.ParseInputs | jiexi.bootstrap/src/Parser.cc:957-1015 | no null slot is read or freed; spends are recorded, balances taken, slots freed |
| Bootstrap.PreParser.ParseTx | jiexi.bootstrap/src/Parser.cc:925-1114 | one transaction keeps slots, totals, objects and spends in agreement with the ledger |
| Bootstrap.PreParser.DumpAll | jiexi.bootstrap/src/Parser.cc:1151-1161 | unspent outputs before addresses leaves all records complete |
| Bootstrap.PreParser.Run | jiexi.bootstrap/src/Parser.cc:1116-1162 | valid blocks load without a throw into what the incremental parser keeps, block records included |
| BootstrapBlocks.BlockLoader.ParseBlock | jiexi.bootstrap/src/Parser.cc:769-803 | each block is written when its successor comes, the last one at once: 10_ and 11_ hold the main chain, next-hashes included, when the last block is in |
| BootstrapBlocks.AcceptsAreLegal | jiexi/src/Parser.cc:613-648 | accepting the blocks of a chain one by one is a legal run of the block index |
| BootstrapRefines.SameTxs | jiexi.bootstrap/src/Parser.cc:285-297 | with nothing unconfirmed the ledger determines the whole address record |
| BootstrapRefines.SameUnspents | jiexi.bootstrap/src/Parser.cc:190-230 | and the unspent list up to its numbering |
| BootstrapRefines.SameWorth | jiexi.bootstrap/src/Parser.cc:190-230 | lists of the same outpoints are worth the same, however numbered |
| BootstrapRefines.Refines | jiexi.bootstrap/src/Parser.cc:1116-1162 | the loader's store equals that of a parser that reached the same confirmed transactions by any rows, but for the numbering of unspent lists, the count of rejected outputs and the objects of rejected transactions; balances equal holdings in it too |
| BootstrapRefines.LoadBoth | jiexi/src/Parser.cc:613-1451 | loader and parser, run on the same blocks from nothing, end with the same store, transaction objects and unspent counts included, unless a file of the loader is empty, which makes it throw; the block records are the same where every coinbase pays at least the subsidy |
| Merkle.BranchLeadsToRoot | jiexi.bootstrap/src/bitcoin/core.cpp:239-268 | climbing a leaf's branch gives the root, odd levels included, for any hash function |
| Merkle.OnlyTheLeafChecks | jiexi.bootstrap/src/bitcoin/core.cpp:255-268 | for an injective hash function a value climbs the branch to the root if and only if it is the leaf |
| Merkle.PairsHaveTheRoot | jiexi.bootstrap/src/bitcoin/core.cpp:220-237 | an even level has the root of the hashes of its pairs, left one first |
| Merkle.OddRepeatsLast | jiexi.bootstrap/src/bitcoin/core.cpp:228-233 | an odd level has the root of the level that repeats its last hash |
| Merkle.HalvesJoin | jiexi.bootstrap/src/bitcoin/core.cpp:220-237 | the root of two full trees side by side is the hash of their roots |
| Merkle.ThreeLeaves | jiexi.bootstrap/src/bitcoin/core.cpp:228-233 | the third of three leaves is hashed with itself |
| Merkle.MerkleBlock.BuildMerkleTree | jiexi.bootstrap/src/bitcoin/core.cpp:220-237 | the array is the levels of the tree and the result its root |
| Merkle.MerkleBlock.GetMerkleBranch | jiexi.bootstrap/src/bitcoin/core.cpp:239-253 | the branch of the index, building the tree if need be |
| Merkle.MerkleBlock.CheckMerkleBranch | jiexi.bootstrap/src/bitcoin/core.cpp:255-268 | climbs the branch by the bits of any index; zero for index -1 |
| Merkle.BranchChecks | jiexi.bootstrap/src/bitcoin/core.cpp:220-268 | build, branch and check agree for every block and index |
| Amount.DecompressCompress | jiexi.bootstrap/src/bitcoin/core.cpp:170-213 | decompressing a compressed amount gives it back, for every natural number |
| Amount.CompressDecompress | jiexi.bootstrap/src/bitcoin/core.cpp:170-213 | compressing a decompressed number gives it back, for every natural number |
| Amount.CompressAmount | jiexi.bootstrap/src/bitcoin/core.cpp:170-187 | for every 64-bit number, the compression modulo 2^64; the compression itself if and only if the number is a multiple of 10 or at most 2049638230412172402 |
| Amount.CompressFits | jiexi.bootstrap/src/bitcoin/core.cpp:170-187 | a 64-bit number has a 64-bit compression if and only if it is a multiple of 10 or at most 2049638230412172402 |
| Amount.FirstWrapped | jiexi.bootstrap/src/bitcoin/core.cpp:170-187 | the next number is one that has none |
| Amount.DecompressFits | jiexi.bootstrap/src/bitcoin/core.cpp:189-213 | a number stands for a 64-bit amount if and only if its digits leave room for its zeros |
| Amount.CompressedLayout | jiexi.bootstrap/src/bitcoin/core.cpp:170-187 | fewer than nine zeros: nine times what stands before the last digit that is not 0, that digit less one, and the number of zeros, in this layout |
| Amount.CompressedLong | jiexi.bootstrap/src/bitcoin/core.cpp:170-187 | nine zeros or more: ten times what stands before nine of them |
| Amount.SomeAmounts | jiexi.bootstrap/src/bitcoin/core.cpp:170-187 | a hundredth of a coin is 7, a coin 9, fifty coins 50, all coins 21,000,000 |
| Amount.DecompressAmount | jiexi.bootstrap/src/bitcoin/core.cpp:189-213 | for every 64-bit number, the decompression modulo 2^64, and itself whenever it fits |
| Base58.DecodeEncode | jiexi.bootstrap/src/bitcoin/base58.h:33-125 | decoding the encoding of any bytes gives them back, leading zeros included |
| Base58.EncodeDecode | jiexi.bootstrap/src/bitcoin/base58.h:33-125 | encoding a decoded text of the alphabet gives it back |
| Base58.AlphabetIs | jiexi.bootstrap/src/bitcoin/base58.h:30 | the 58 characters, in order |
| Base58.EncodedIsSameNumber | jiexi.bootstrap/src/bitcoin/base58.h:33-71 | the text is the same number in base 58, with a 1 for every zero byte at the head |
| Base58.EncodeBase58 | jiexi.bootstrap/src/bitcoin/base58.h:33-71 | the division loop computes the encoding |
| Base58.DecodeBase58 | jiexi.bootstrap/src/bitcoin/base58.h:81-125 | the multiplication loop decodes, skipping white space around the text, and fails on any other character |
| Base58.PaddedIsRead | jiexi.bootstrap/src/bitcoin/base58.h:89-110 | a text of the alphabet with white space around it is read as that text |
| Base58.ReadIsPadded | jiexi.bootstrap/src/bitcoin/base58.h:89-110 | and only such is read without an error |
| Base58.RoundTrip | jiexi.bootstrap/src/bitcoin/base58.h:33-125 | the two loops compose to the identity on bytes |
| Buffer.StepKeepsOrder | jiexi/src/Util.h:80-103 | a push goes to the end of the waiting line and a pop takes its head |
| Buffer.RunsAreFifo | jiexi/src/Util.h:80-103 | under every interleaving, popped items followed by the waiting ones are the pushed ones |
| Buffer.RunsAreBalanced | jiexi/src/Util.h:80-97 | a sequence of operations is a run if and only if at no time more was popped than pushed, or more waits than there is room for |
| Buffer.DropsOnlyRead | jiexi/src/Util.h:80-103 | what follows the unread items in the ring is what was popped last, in order: a push into a full ring overwrites the item popped longest ago of those still there |
| Buffer.BoundedBuffer.PushFront | jiexi/src/Util.h:80-88 | the critical section is the push step |
| Buffer.BoundedBuffer.PopBack | jiexi/src/Util.h:90-97 | the critical section is the pop step |

## Left out

- MySQL, RocksDB, files, inotify, HTTP, bitcoind RPC, configuration and logging: only the tables and keys are modelled.
- FlatBuffers layout, hex, script parsing and hashing: outputs carry their addresses, hashes are constructors.
- Block times in rows and records: `max_block_timestamp` of rows, block times in 21_ and 01_, and the 14_ keys.
- The fee columns of blocks and transactions (only the assertion on the reward is modelled), sizes, scripts and the input records inside 01_; raw blocks and transactions, 12_ and the size counter of unconfirmed transactions.
- The text of the 22_ key that `_removeAddressTxNode` deletes (jiexi/src/Parser.cc:1661) passes the hash without converting it; the key meant is modelled.
- The address cache and its eviction, `TxInfoCache`, notification logs and block recognition: address records are one coherent map.
- Widths of 32 and 64 bits outside `Amount`: counters, values and heights do not wrap.
- Crashes between writes of one row or one item; the producer's restart between batches is modelled.
- Batch ids are modelled as pending and published rows.
- The two historical coinbase transactions that appear twice, which all stages skip by hash.
- Log2.Log2Producer.constructor: the height and hash of the start are parameters, which `Pipeline.IndexKnowsTip` ties to the store; the check that the parser has caught up is not modelled.
- BootstrapTxs.SortBy: std::sort may order equal keys in any way; the model's order is one of them and no theorem depends on it.
- Buffer: the unlocking through the mutex itself while a lock object holds it, and spurious wake-ups; each critical section is one step.
- TxParser.Parser.Consume: the transaction half of the loop; `Txlogs.TxlogHandler.HandleTxlogs` has both halves.
- Reading log0, the removal of old log1 files, and starting log1 again after a run that stopped with an error.
- The regression-test network, which halves the subsidy every 150 blocks.
- JSON, URIs, polling, keys, addresses on top of Base58 and pool recognition.
