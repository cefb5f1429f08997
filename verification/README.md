# Verification of the Peercoin block chain engine

This project models the consensus engine of a Peercoin full node and proves what it guarantees. The engine
receives blocks, keeps them in a tree, chooses the branch with the most accumulated trust as the main chain, and
moves the database from branch to branch when another one takes over. The main results are statements about every
state the engine can reach and about every run of its algorithms.

* `Ledger` has blocks, transactions and spend records, and the replay of a chain as a fold over its transactions.
* `TxLookup` models views by undo and redo (txlookup.go). Disconnecting a legal block inverts connecting it although
  both passes scan forwards, and a view fetched across any fork is the replay of the target branch exactly under a
  stated condition.
* `Validate` has the checks on a block (validate.go, parts of ppc.go), in place on a store and as functions;
  `Spending` shows that a chain of accepted blocks spends only existing outputs and none twice, and creates no
  transaction again when hashes do not collide; `Supply` shows that mint and money supply follow the unspent outputs and
  stay under the reward rules.
* `ConnectRules` states the rules behind those checks on the transactions of a chain alone, without views: who created an
  output, who has spent it since, how old it is, what must be paid, which scripts must accept. A block passes the checks
  exactly when it keeps all of them, and so does every block of a chain that passed.
* `Chain` is the block tree and best-chain state machine (chain.go): one class, whose invariant says that the tip's
  path, the flagged nodes and the database are one validated chain, that the side chain cache holds exactly the other
  nodes, that the child lists mirror the parent links, and that the tip has the most work of all branches that
  passed their checks.
* `Accept` adds the contextual header checks and the checkpoint lock-in (accept.go, checkpoints.go), `Orphans` the
  orphan pool, `Process` the entry point and the orphan drain (process.go).
* `Guarantees` collects what follows in every reachable state: conservation, no double spend, matured inputs with
  accepting scripts, the most trusted valid branch, monotone median time, the required targets and checkpoint finality.
* `OrphanLimit`, `ReusedHash` and `LaggingCheckpoint` are concrete runs and chains on which the code does less than its
  comments promise, or on which a hypothesis is needed; `SmallBlocks` evaluates the checks on their blocks.
* `ScriptValidator` is the parallel script validator (scriptval.go) as interleaved steps, with safety, deadlock
  freedom and termination over every schedule.
* `StakeModifier` is the 64-round stake modifier selection (kernel.go); `Hashes` has the byte order it rests on.
* `CompactBits`, `Retarget` and `Reward` hold the consensus arithmetic; `MedianTime` and `Merkle` the median rule and
  the linear merkle array; `Arith` the facts about products and quotients they share; `Wrappers` the optional value.

A view is a map from transaction hashes to spend records, and connecting a block acts on every record separately. The
specification functions therefore follow the record of one hash through a chain, and the methods that work on a whole
store are proved against them. The reference for every view is the replay of a node's ancestors from genesis, so
"the check depends only on the branch, not on where the main chain is" becomes an equality of verdicts.

One input of the checks does depend on the main chain: the coin age of a coinstake, whose code reads block times from the
current main chain by height (ppc.go:305-315) even when the block lies on a side branch. The checks therefore take the
main chain as a parameter, and a verdict is an equality of verdicts under the same main chain. `Spending.AgreeingAges`
says what of it matters: only the block times at the heights of the transactions a coinstake spends. A coinstake whose
origin lies above the main chain is refused (`Spending.StakeNeedsMainChain`), and a branch that is valid by itself passes
beside every main chain it leaves above the origins of its stakes (`Spending.ValidForkPasses`).

So "the best valid branch" needs a moment. Every node records the main chain it was offered beside, and the invariant says
that the tip has at least the trust of every node whose branch passed its checks then; the node is never looked at again
unless a child arrives, so this is what the code promises. `Guarantees` draws the conclusions without a moment: for
branches of proof-of-work blocks unconditionally, and for branches with stake that left the main chain above their origins.

## Environment and hypotheses

The invariants are met: the constructors of `Chain.BlockChain`, `Accept.BlockAcceptor`, `Orphans.OrphanPool` and
`Process.BlockProcessor` establish them, and every method that changes state keeps them.

* Hashes are numbers (bytes in `Hashes`). Hashing, scripts and signatures are arbitrary functions passed in.
* The database is the main chain as a sequence of blocks; its answers are the replay of that sequence, without I/O
  errors. The whole block tree is in memory and the chain starts from genesis, as after `GenerateInitialIndex`.
* `Accept.Collisionless` and `Orphans.Hashed` are the hypotheses about hashes: a block hash names one block and a
  transaction hash one transaction, the coinbases of a validated chain differ, and a block's hash comes after its
  parent's. Offered blocks may repeat transactions of their ancestors: the BIP 30 check refuses them on the main chain,
  and on side chains they are stored and fail later. `Accept.ChainReusesNothing` derives that a validated chain never
  creates a transaction again; `TxLookup.ViewIsReplay` and `ReusedHash.ReuseBreaksView` say what that is needed for.
* `Accept.RightCheckpoints`: a block with a checkpoint's hash lies at the checkpoint's height.
* Clock readings, the verdict of the script engine with its counts of signature operations, and the header rules outside
  this model are parameters.
* Amounts and sums are unbounded integers; the compact target form keeps its 32 bits and the stake modifier its 64.

Two places where comments and code differ; the model follows the code and states when the promise holds.

* The comment at checkpoints.go:82-85 says that the most recent available checkpoint is found, but a call after the first
  moves on by one checkpoint only. `Accept.BlockAcceptor.FindPreviousCheckpoint` finds the most recent one exactly when it
  is the first search, no checkpoint is left, or the main chain has reached none after the next one.
  `LaggingCheckpoint.LaggingLookup` is a run, five blocks from genesis, after which the lookup lags.
* The comment at chain.go:276-281 promises a limit on the number of orphans, but the oldest orphan that is dropped may
  already have left the pool. `Orphans.OrphanPool.AddOrphanBlock` keeps the limit exactly under `Orphans.KeepsLimit`,
  which looks only at the pool before the call; `OrphanLimit.OverfullPool` is a run of
  `ProcessBlock` that leaves 101 orphans.

## Model

| member | source | states |
|---|---|---|
| TxLookup.DisconnectInvertsConnect | txlookup.go:34-98 | disconnecting a legal block restores every record exactly, except that a transaction the block itself created becomes missing, although both passes scan the block forwards |
| TxLookup.UndoRestores | txlookup.go:187-203 | undoing any run of legal main-chain blocks restores the record at the fork point, or makes it missing when an undone block created it |
| TxLookup.ViewIsReplay | txlookup.go:164-231 | for every fork shape the undo/redo view equals the replay of the target branch if and only if no requested transaction was created at or below the fork, again by a detached block, and not by an attached one |
| TxLookup.ViewWithoutReuse | txlookup.go:164-231 | without repeated transaction hashes on the main chain the view is always the replay of the target branch |
| ReusedHash.ReuseBreaksView | txlookup.go:79-94 | a chain of three blocks that pass the header checks and the checks of checkConnectBlock and repeat a coinbase, on which the undone view reports an unspent transaction as missing, so that a side block that may follow is refused |
| TxLookup.TxStore.ConnectTransactions | txlookup.go:34-62 | in place, every requested record becomes its record after the block, and no index runs out of range |
| TxLookup.TxStore.DisconnectTransactions | txlookup.go:67-98 | in place, every requested record becomes its record with the block taken back |
| TxLookup.LegalConnectInRange | txlookup.go:51-57 | on a legal block the range guard never lets an index equal to the length through |
| TxLookup.LegalDisconnectInRange | txlookup.go:87-93 | the same for disconnecting a legal block |
| TxLookup.DisconnectOne | txlookup.go:193-202 | one turn of the undo loop moves the view one block further down, for all requested hashes and without leaving the range |
| TxLookup.ConnectOne | txlookup.go:216-228 | one turn of the redo loop moves the view one block further up the side chain |
| Validate.CheckTransactionSanity | validate.go:177-275 | apart from sizes, amounts and script lengths, a transaction passes exactly when it has inputs and outputs, names no outpoint twice and, unless it is a coinbase, no null outpoint |
| Validate.CheckDuplicates | validate.go:526-538 | a block passes exactly when no two of its transactions share a hash |
| Validate.CheckBlockSanity | validate.go:424-563 | passes exactly when the first transaction and no other is a coinbase, every transaction passes its own sanity check, their hashes differ, and only the second one is a coinstake, beside an empty coinbase; the other checks are left to the environment |
| Validate.CheckTransactionInputs | validate.go:673-805 | decided by the inputs on the store before the call: when every input names a known, mature, earlier transaction with that output, unspent and within the amounts, the result is the fee paid or the error of the fee rules, and otherwise the first error that applies to the first bad input; the store keeps exactly the accepted inputs marked spent, also when it stops early |
| Validate.CheckedInputs | validate.go:683-767 | a transaction that names no outpoint twice passes the input checks exactly when nothing is wrong with any input on the store before it, and then the total is the value of its inputs; otherwise the error is the first one, in the order missing, immature, out of range, spent, amount, timestamp |
| Validate.CheckAllInputs | validate.go:913-928 | checks all transactions of a block in order on one store and returns the total fees or the first error; `ConnectRules.InputsIff` says when it passes and what the fees are |
| Validate.GetCoinAgeTx | ppc.go:279-331 | the loop adds up value times age of the inputs old enough, with block times from the main chain, and fails when an origin is younger than the transaction or lies above the main chain; `ConnectRules.AgeIff` gives the sum |
| Validate.AgeByOrigins | ppc.go:279-331 | a coin age depends on the main chain only through the block times at the heights of the origins, and not on what is spent |
| Validate.CheckFeeOrReward | ppc.go:587-623 | the fee of a transaction, or the limit on the reward of a coinstake by its coin age; `ConnectRules.FeeIff` gives fee and limit in numbers |
| Validate.CheckSigOps | validate.go:876-903 | counts the signature operations of a block, with those of pay-to-script-hash inputs once their rule is active, up to the limit or the first error; `ConnectRules.OpsIff` says when the limit is kept |
| Validate.CheckOverwrites | validate.go:637-660 | a block overwrites exactly when one of its hashes is found not fully spent |
| Validate.CollectInputs | txlookup.go:236-278 | splits the hashes a block's inputs name into those an earlier transaction of the block creates, stored unspent, and exactly those the chain must be asked for |
| Validate.SumOfOutputs | validate.go:935-938 | the sum of the output values |
| Validate.DropSpentKeepsVerdict | txlookup.go:174-188 | leaving fully spent transactions out of the fetched views never changes the verdict of checkConnectBlock, signature operations and coin ages included, nor the fees, nor an error about overwriting, the coinbase value or scripts |
| Spending.AcceptedIsLegal | validate.go:685-767 | a block that passes the checks after a chain spends only existing unspent outputs, in order, and overwrites only fully spent transactions |
| Spending.ValidatedIsLegal | validate.go:819-972 | every chain whose blocks each passed the checks is a legal history for every transaction hash |
| Spending.SpentOnce | validate.go:711-724 | two inputs of a validated chain that name the same output, anywhere in it, have a re-creation of its transaction strictly between them |
| Spending.SpendsCreated | validate.go:685-723 | every input of a validated chain names an existing output of an earlier transaction |
| Spending.NothingCreatedAgain | validate.go:625-663 | along a validated chain no transaction hash is created twice, given that a hash names one transaction and coinbases differ |
| Spending.AgreeingAges | ppc.go:305-315 | two main chains whose blocks have the same times at the heights of the transactions that a block's coinstake spends give the block the same verdict |
| Spending.StakeNeedsMainChain | ppc.go:305-315 | an accepted block's coinstake spends only transactions below the height of the main chain it was checked beside |
| Spending.PassedPassesAgain | validate.go:819-972 | a chain whose blocks passed beside any main chains passes beside another one that agrees on the coin ages of the blocks they do not share |
| Spending.ValidForkPasses | validate.go:819-972 | a chain that is valid by itself passes beside every main chain that it leaves above the origins of its stakes |
| Supply.SumFlow | ppc.go:216-249 | the loop computes value in, value out and fees of a block on the fetched store |
| Supply.FlowOfTipView | ppc.go:214-270 | the amounts computed on the tip's view, which leaves out spent transactions, are those on the full replay |
| Supply.BlockConserves | ppc.go:254-265 | an accepted block changes the total of unspent outputs by exactly its value out less its value in |
| Supply.MoneySupplyIsConserved | ppc.go:254-265 | along every validated chain the recorded money supply and the total of unspent outputs change by the same amount from genesis on |
| Supply.MintIsCapped | ppc.go:587-623 | an accepted block mints its coinbase output, or the gain of its coinstake, and never more than the reward rules allow for its coin age; its fees are not negative |
| Supply.SupplyGrowthIsCapped | ppc.go:225-265 | along a validated chain the money supply grows by at most the sum of the block mint caps, each at the coin age beside the main chain of its moment |
| ConnectRules.ReplayRecords | txlookup.go:34-62 | the replay of any transactions knows the newest one with a hash and has exactly those of its outputs marked spent that some input has named since |
| ConnectRules.TxIff | validate.go:673-805 | the checks on one transaction pass exactly when it keeps the input and fee rules on the transactions before it, and then return what it pays |
| ConnectRules.AgeIff | ppc.go:279-331 | the coin age of a transaction is the sum of value times age over the inputs whose origin's block is old enough, and unknown exactly when an origin lies above the main chain |
| ConnectRules.FeeIff | ppc.go:587-623 | a transaction must pay 10000 and as much for every whole thousand bytes; a coinstake may gain the whole cents of 33 per 12053 coin-days, less the fee for its whole thousands of bytes |
| ConnectRules.InputsIff | validate.go:913-928 | the loop over all transactions of a block passes exactly when each keeps its rules on the transactions before it, and then returns the sum of what they pay |
| ConnectRules.OpsIff | validate.go:876-903 | the running count of signature operations never passes the limit exactly when the total of all scripts, with those behind script hashes, does not |
| ConnectRules.PassesIffRulesKept | validate.go:819-972 | a sane block passes checkConnectBlock exactly when it overwrites nothing unspent, each transaction keeps its rules, the signature operations and the coinbase value are within their limits and, where scripts are run, all scripts accept; the errors about overwriting, coinbase value and scripts are returned exactly when their rule is the first one broken |
| ConnectRules.ScriptErrorMeans | validate.go:954-969 | a script error means that scripts are run at that height and the script of some output that exists refuses its spender |
| ConnectRules.ChainKeepsRules | validate.go:819-972 | every transaction of a validated chain but coinbases keeps the input, fee and script rules on the transactions before it |
| ConnectRules.ScriptsHavePassed | validate.go:954-969 | along a validated chain, wherever scripts are run, every input but null outpoints names an existing output of the newest earlier transaction with that hash, and its script accepts |
| ConnectRules.SpendsKeepRules | validate.go:694-761 | along a validated chain an input that spends a coinbase lies at least the maturity above it; an origin is never later than its spender, its output exists, was not named since, and values and totals stay in range |
| ConnectRules.SigOpsWithinLimit | validate.go:876-903 | no block of a validated chain has more signature operations than allowed, those behind script hashes included |
| Chain.BlockChain.constructor | chain.go:1099-1124 | a chain that holds the genesis block satisfies the whole invariant |
| Accept.BlockAcceptor.constructor | chain.go:1099-1124 | the same with checkpoints not searched yet, for ascending checkpoints with different hashes |
| Process.BlockProcessor.constructor | chain.go:1110-1122 | an empty pool beside the chain is consistent and settled |
| Chain.BlockChain.GetReorganizeNodes | chain.go:716-753 | target path = common prefix + attach list, main path = the same prefix + reversed detach list, and no node to attach is on the main chain |
| Chain.BlockChain.ClimbToMain | chain.go:724-734 | walks up to the first ancestor on the main chain and lists the nodes passed, lowest first |
| Chain.BlockChain.DescendTo | chain.go:742-750 | lists the main-chain nodes above the ancestor, tip first |
| Chain.BlockChain.FetchTxStoreMain | txlookup.go:104-155 | exactly the requested transactions have an entry, missing until a reply fills it in, and with or without fully spent ones an output is unspent in the store exactly when it is unspent on the main chain |
| Chain.BlockChain.FetchTxStore | txlookup.go:164-231 | the view of any validated node is the replay of its ancestors, whatever the main chain is; fully spent transactions are left out when the node extends the tip |
| Chain.BlockChain.FetchInputTransactions | txlookup.go:236-296 | chain view and in-block transactions are merged so that needed hashes come from the view |
| Chain.BlockChain.CheckBIP0030 | validate.go:625-663 | fails exactly when a transaction hash of the block is on the branch and not fully spent |
| Chain.BlockChain.CheckConnectBlock | validate.go:819-972 | succeeds exactly when the block keeps all rules on the transactions of its own branch, scripts included, and returns the fees paid; it reports overwriting, coinbase value and script errors exactly when that rule is the first one broken, wherever the main chain is; when its own branch has the same block times at the origins of its stakes, the verdict is the one it would get there |
| Chain.BlockChain.VerdictByAncestors | validate.go:819-972 | beside one main chain the verdict on the fetched views follows the rules on the transactions of the branch, and agrees with the verdict on the replay of the ancestors |
| Chain.BlockChain.CalcMintAndMoneySupply | ppc.go:214-270 | records the block's mint and the money supply of the node's own path |
| Chain.BlockChain.ConnectBlock | chain.go:757-799 | succeeds exactly for a child of the tip, and then database, flag, index and tip move on together; a refusal changes nothing |
| Chain.BlockChain.DisconnectBlock | chain.go:803-836 | succeeds exactly for the tip, and takes one block off the database into the side chain cache with the invariant kept |
| Chain.BlockChain.CheckAttach | chain.go:846-881 | the dry loops succeed exactly when every block above the fork passes its checks on its own branch, although nothing was detached yet |
| Chain.BlockChain.SideIsAboveFork | chain.go:716-753 | the blocks above the fork are exactly those that do not lie on the main chain |
| Chain.BlockChain.DetachAll | chain.go:883-894 | disconnects the old branch down to the fork; every block is found and every disconnect succeeds |
| Chain.BlockChain.AttachAll | chain.go:896-905 | connects the new branch up to the target; every connect succeeds |
| Chain.BlockChain.ReorganizeChain | chain.go:846-921 | all or nothing: it succeeds exactly when every block above the fork passes its checks, success makes the target the tip, failure and dry run change no field of chain or nodes |
| Chain.BlockChain.ExtendMain | chain.go:943-975 | a child of the tip becomes the tip exactly when its block passes its checks after the main chain, also when it repeats an ancestor's transaction |
| Chain.BlockChain.ExtendSide | chain.go:981-1058 | a side block is always stored, becomes the tip exactly when it has more work and its branch passes, and a dry run takes everything back |
| Chain.BlockChain.ConnectBestChain | chain.go:936-1059 | keeps the whole invariant including tip optimality over all branches that passed when they were offered, with or without stake, never lowers the tip's work, says exactly when it succeeds and what index and tip become, and leaves everything unchanged on a dry run |
| Chain.NewTipOptimal | chain.go:1032-1054 | a new tip with at least the old tip's work is optimal |
| Chain.OldTipOptimal | chain.go:1008-1030 | a new node with no more work, or whose branch fails beside the present main chain, leaves the tip optimal |
| Chain.RemoveChildNode | chain.go:127-143 | removes the first child with that hash and nothing else |
| Chain.RemoveAppended | chain.go:995-1006 | removing the child appended last restores the list |
| Accept.ByHeight | chain.go:1100-1108 | the map holds exactly the checkpoints under their heights |
| Accept.TrustIs | ppc.go:197-211 | a positive target adds 1 to the trust of a proof-of-work block, and to a stake block's the number of times target + 1 goes into 2^256; others add nothing |
| Accept.SmallerTargetMoreTrust | ppc.go:197-211 | a stake block with a smaller target adds at least as much trust, and every proof-of-work block with a positive target adds the same |
| Accept.ChainReusesNothing | validate.go:625-663 | under the hypotheses about hashes no validated chain of offered blocks creates a transaction again |
| Retarget.LastOfKindIsNewest | ppc.go:93-119 | the result is of the wanted kind or genesis, and no newer block is of that kind |
| Accept.BlockAcceptor.GetLastBlockIndex | ppc.go:93-119 | walks to the newest ancestor of the wanted kind, or to genesis |
| Accept.BlockAcceptor.CalcNextRequiredDifficulty | ppc.go:127-168 | the bits required after a node: those `Retarget.Retargets` spells out on the newest two blocks of the kind on its path, in numbers |
| Accept.BlockAcceptor.CalcPastMedianTime | chain.go:650-698 | the result is one of the last eleven timestamps of the node's path, or of all of them near genesis; at most half of those, rounded down, are smaller and more than that are not greater |
| Accept.BlockAcceptor.VerifyCheckpoint | checkpoints.go:62-80 | true exactly when every checkpoint at that height has that hash |
| Accept.BlockAcceptor.SearchBackwards | checkpoints.go:104-118 | finds the newest checkpoint whose block is in the database |
| Accept.BlockAcceptor.CheckpointOnMain | checkpoints.go:159-173 | once the main chain has reached a checkpoint's height, looking its hash up finds the block at that height |
| Accept.BlockAcceptor.NextLookup | checkpoints.go:159-188 | the incremental lookup always finds the next checkpoint's block and moves the lock-in up |
| Accept.BlockAcceptor.InDatabaseIffReached | checkpoints.go:104-118 | a checkpoint's block is in the database exactly when the main chain has reached its height |
| Accept.BlockAcceptor.NewestIff | checkpoints.go:159-188 | after a lookup that started with a given next checkpoint the cached one is the newest in the database exactly when the main chain has reached no later one |
| Accept.BlockAcceptor.FindPreviousCheckpoint | checkpoints.go:86-189 | the first call caches the newest checkpoint in the database, later calls move on by one checkpoint when it is reached and otherwise change nothing; the cached one is then the newest exactly when no checkpoint after the next one had been reached; the cache only moves forward |
| LaggingCheckpoint.LaggingLookup | checkpoints.go:159-188 | a run in which a reorganization passes two checkpoints and the lookup after it caches the first, although the second is in the database |
| Accept.BlockAcceptor.CheckpointIsAncestor | accept.go:89-97 | every node at or above a checkpoint's height has the one node with the checkpoint's hash as ancestor |
| Accept.BlockAcceptor.CheckHeader | accept.go:47-76 | passes exactly when the bits are the required ones and the timestamp is after the median of the ancestors; a refusal names the first of the two that fails |
| Accept.BlockAcceptor.CheckContext | accept.go:47-156 | passes exactly when the header, checkpoint and lock-in rules hold and the finality, version and stake verdicts passed in are positive; otherwise the reason is the first one that applies |
| Accept.BlockAcceptor.ConnectNew | accept.go:177-197 | makes the screened node and connects it; its node becomes the tip exactly when it extends the tip or has more work; what is locked in stays on the main chain |
| Accept.BlockAcceptor.MaybeAcceptBlock | accept.go:23-207 | accepts exactly the blocks with a known parent that pass the contextual checks, do not fork off below the lock-in and connect beside the present main chain, so never refuses one whose branch passes there; says which node is the tip then; a refusal states the first reason that applies and leaves the main chain as it is; the tree only grows, the tip's work never falls and no locked-in checkpoint block leaves the main chain |
| Orphans.RemovalKeepsIndexes | chain.go:242-273 | removing an orphan keeps both maps indexing the same set, each orphan once and no list empty |
| Orphans.AdditionKeepsIndexes | chain.go:316-326 | so does adding one |
| Orphans.OrphanPool.RemoveOrphanBlock | chain.go:242-273 | exactly that hash leaves the pool, also when the orphan had left before |
| Orphans.OrphanPool.RemoveExpired | chain.go:284-295 | exactly the expired orphans leave, in any order of visiting, and the remembered oldest orphan expires no later than it did and than any pooled one |
| Orphans.OrphanPool.AddOrphanBlock | chain.go:282-328 | the block joins with an hour to live, exactly the expired orphans leave, and a full pool, and no other, evicts the orphan of the scan; a pool within the limit of 100 stays within it exactly when fewer than 100 orphans have not expired, none was remembered, the remembered one is still among them, or one of them expires earlier |
| Orphans.LimitKept | chain.go:297-302 | that condition on the pool before the call decides whether evicting the orphan of the scan keeps the limit |
| OrphanLimit.OverfullPool | chain.go:282-328 | a run of ProcessBlock that leaves 101 orphans: the remembered orphan joined the chain with its parent before it was evicted |
| Orphans.OrphanPool.InsertOrphan | chain.go:316-326 | the orphan joins the map and the end of its parent's list |
| Orphans.OrphanPool.GetOrphanRoot | chain.go:218-238 | ends, and returns the pooled ancestor whose parent is not pooled, or the hash itself |
| Orphans.ClosedUnderDescent | process.go:58-113 | a set closed under children contains all descendants |
| Process.OrphanAccepted | process.go:88-109 | moving an orphan with a pending parent to the tree keeps the state of the drain right |
| Process.Drained | process.go:69-112 | with nothing pending exactly the descendants have left the pool and no pooled orphan has a freed parent |
| Process.BlockProcessor.AcceptOrphan | process.go:88-103 | one orphan leaves the pool and is offered to the chain, which refuses it only when it fails the contextual checks, cannot be connected beside the main chain or is too old |
| Process.BlockProcessor.ProcessChildren | process.go:79-110 | all orphans of one parent are offered; the loop ends because the pool shrinks |
| Process.BlockProcessor.ProcessOrphans | process.go:58-113 | ends; without an error exactly the pooled descendants of the hash have moved to the tree, parents first, and no remaining orphan has a parent among them; an error means that one of them fails the contextual checks, cannot be connected beside the main chain or is too old |
| Process.BlockProcessor.ScreenBlock | process.go:137-204 | passes only sane blocks that are neither in the tree nor pooled nor older than the lock-in, and states a true reason otherwise |
| Process.BlockProcessor.KeepOrphan | process.go:206-219 | the block waits in the pool, which makes room as addOrphanBlock does and stays settled |
| Process.BlockProcessor.AcceptAndDrain | process.go:222-243 | on success just the block and all its pooled descendants have joined the tree, and the pool stays settled; an acceptable block is refused only when it is too old or one of those descendants is refused |
| Process.BlockProcessor.ProcessBlock | process.go:123-249 | known blocks are refused without any change, blocks without a known parent wait in the pool, others are accepted with their descendants; a refusal by the checks before the parent changes neither chain nor pool; a block that passes the contextual checks and can be connected is refused only when it is too old or a descendant is refused; every refusal has the reason it states; over error-free calls no pooled orphan has a known parent; a dry run changes neither chain nor pool |
| Guarantees.TipHasMostTrust | chain.go:936-1059 | the main chain has the most accumulated trust of all branches that passed their checks beside the main chain of the moment they were completed, with or without stake blocks |
| Guarantees.PassedBranchHasLessTrust | chain.go:936-1059 | no branch whose blocks each passed at some moment, with the coin ages they have beside the main chain when it was completed, has more trust than the main chain |
| Guarantees.ValidBranchHasLessTrust | chain.go:936-1059 | no branch that is valid by itself and left the main chain above the origins of its stakes has more trust |
| Guarantees.WorkBranchHasLessTrust | chain.go:936-1059 | no valid branch of proof-of-work blocks has more trust, unconditionally |
| Guarantees.MedianTimeNeverFalls | accept.go:64-75 | along every path of the tree the median time past never decreases |
| Guarantees.HeadersKeepRules | accept.go:47-75 | every accepted block after genesis has the bits that the newest two blocks of its kind below it require and a timestamp after the median of the last eleven below it |
| Guarantees.TargetsStayWithinLimit | accept.go:47-62 | no accepted block after genesis claims a target above the limit, given that the bits for the first blocks respect it |
| Guarantees.MoneySupplyOfNode | ppc.go:254-265 | every main-chain node's money supply differs from genesis by the change in the total of unspent outputs, across extensions and reorganizations |
| Guarantees.MainChainSpendsOnce | validate.go:711-724 | no two inputs of the main chain name the same output, in every reachable state, whatever blocks were offered |
| Guarantees.MainChainInputs | validate.go:683-767 | every main-chain input, coinbases aside, names an output of an earlier transaction that is not later and, if a coinbase, mature, and where scripts are run its script accepts |
| Guarantees.MintWithinMaximum | validate.go:930-946 | a proof-of-work block of the main chain mints at most the maximum reward |
| Guarantees.CheckpointIsShared | checkpoints.go:159-162 | two nodes at or above a checkpoint's height share their whole path up to it |
| ScriptValidator.StepKeepsInv | scriptval.go:49-178 | every step of every handler keeps the invariant: an item is with one handler or received once, and executed once |
| ScriptValidator.StepDecreases | scriptval.go:49-178 | every step makes a measure smaller |
| ScriptValidator.NeverStuck | scriptval.go:49-178 | until Validate has returned and every handler has left, some step is enabled |
| ScriptValidator.ReturnIsSound | scriptval.go:124-178 | over every interleaving a nil result means every item was executed exactly once and passed, an error is that of an executed item |
| ScriptValidator.EveryRunEnds | scriptval.go:124-178 | every run is bounded, and one that cannot go on has returned, with every handler gone, nil exactly when all items are valid |
| ScriptValidator.CollectItems | scriptval.go:225-254 | exactly one item for every input that is not a null outpoint, and none twice |
| ScriptValidator.BlockScriptsVerdict | scriptval.go:225-263 | whatever the schedule, a finished run returned nil exactly when every script of the block passes |
| StakeModifier.GetStakeModifierSelectionInterval | kernel.go:113-119 | the sum of the 64 sections |
| StakeModifier.LastStopIsBoundary | kernel.go:275-296 | the last selection window ends exactly at the start of the previous block's modifier interval |
| StakeModifier.SectionsGrow | kernel.go:107-119 | round r widens the window by 63 / (189 - 2r) intervals: a third of an interval first, never less than the round before, a whole interval last |
| StakeModifier.KeyFavoursStake | kernel.go:150-185 | the key of a block with a proof of stake is the digest of the proof divided by 2^32, that of any other the whole digest of its hash |
| StakeModifier.LessByNumber | kernel.go:59-73 | comparing times and then bytes from the last one down compares times and then numbers |
| StakeModifier.LessAt | kernel.go:59-73 | the byte loop decides the order by times and then by the numbers the hashes denote |
| StakeModifier.LessIsStrictTotal | kernel.go:59-73 | the order is irreflexive, transitive and total on blocks with different hashes |
| StakeModifier.SortKeepsOrder | kernel.go:287-288 | sorting gives the same candidates in strict order |
| StakeModifier.OrderDoesNotMatter | kernel.go:287-288 | the sorted candidates do not depend on the order they were collected in |
| StakeModifier.SelectBlockFromCandidates | kernel.go:124-201 | while one is left it returns the unpicked candidate up to the stop with the smallest selection hash, or the first unpicked one when there is none |
| StakeModifier.EveryRoundPicksBest | kernel.go:294-308 | each round picks a new block, the best of those eligible in it |
| StakeModifier.BitIsEntropy | kernel.go:304-305 | bit k is the entropy bit of the block of round k and all higher bits are zero |
| StakeModifier.SelectModifier | kernel.go:290-316 | the rounds compute that modifier, below 2^64 |
| StakeModifier.GetLastStakeModifier | kernel.go:76-104 | the newest block with a generated modifier, or none |
| StakeModifier.GatherCandidates | kernel.go:278-283 | collects the path from its end down to the first block before the start of the selection interval |
| StakeModifier.GatheredFromPath | kernel.go:278-283 | the collected blocks are exactly the end of the path |
| StakeModifier.ComputeNextStakeModifier | kernel.go:216-356 | 0, generated, for genesis; an error exactly when no block of the path generated one; otherwise generated exactly when the previous block lies in a later interval than the newest generated one and, from protocol 0.4 on, the new block does too, and else the modifier of that block |
| StakeModifier.NextFollows | kernel.go:216-271 | the same four cases of the specification, on the newest block with a generated modifier |
| StakeModifier.GeneratedIsSelection | kernel.go:216-356 | a newly selected modifier comes from at least one candidate, min(64, n) different best picks and their entropy bits |
| Hashes.ShaHashToBig | difficulty.go:58-69 | the in-place reversal reads the bytes as a little-endian number |
| Hashes.ReverseInPlace | difficulty.go:61-66 | the swapping loop reverses the buffer |
| Hashes.BigToShaHash | ppc.go:455-473 | returns the one hash that denotes the number, so it inverts ShaHashToBig, and an error exactly when there is none |
| Hashes.LessIsNumeric | kernel.go:62-71 | comparing from the last byte down compares the numbers |
| CompactBits.DecodesFields | difficulty.go:94-120 | decoding gives the mantissa times 256 to the exponent less three, or divided for small exponents, with the sign |
| CompactBits.EncodesNormal | difficulty.go:126-162 | the carry that keeps the sign bit clear always gives the normal exponent and mantissa of a positive number |
| CompactBits.RoundTripLoss | difficulty.go:126-162 | for every non-negative number whose exponent fits, decoding the encoding gives at most the number and loses at most one part in 2^15, nothing below 2^23 |
| CompactBits.EncodingIsMonotone | difficulty.go:126-162 | larger numbers have larger or equal encodings |
| CompactBits.DecodingIsMonotone | difficulty.go:94-120 | encoding and decoding again keeps the order of numbers |
| CompactBits.CanonicalRoundTrip | difficulty.go:94-162 | encoding inverts decoding on every canonical non-negative form |
| CompactBits.EncodingIsCanonical | difficulty.go:126-162 | encodings are canonical |
| CompactBits.EncodingIsIdempotent | difficulty.go:94-162 | encoding, decoding and encoding again changes nothing |
| CompactBits.NegativeIsLostIff | difficulty.go:126-162 | a negative number decodes to zero exactly when it needs more than three bytes and its shifted mantissa rounds up into the exponent byte |
| CompactBits.NegativeOrderIff | difficulty.go:94-162 | encoding and decoding keep the order of two negative numbers exactly unless the smaller one is lost and the larger one is not |
| Retarget.RequiredRetargets | ppc.go:127-168 | without two blocks of the kind above genesis the initial bits; otherwise the newest one's target times (n - 1) s + 2 t over (n + 1) s, at most the limit, where t is the time between the two, s is 600 for stake and the smaller of 7200 and 600 times one plus the blocks above for work, and n is how often s goes into a week |
| Retarget.OnTimeKeepsBits | ppc.go:145-167 | when the newest two blocks of the kind were exactly on time, canonical bits within the limit are kept |
| Retarget.AdjustBits | ppc.go:154-167 | the arithmetic on big integers computes the clamped and encoded target |
| Retarget.IntervalRange | ppc.go:148-154 | the interval lies between 84 and 1008 |
| Retarget.NextTargetWithinLimit | ppc.go:163-167 | the decoded next target never exceeds the limit, whatever the observed spacing |
| Retarget.RequiredWithinLimit | ppc.go:127-168 | nor does any required target, when the limits for the first blocks respect it |
| Retarget.NextTargetMonotone | ppc.go:147-167 | the longer the spacing, the easier the next target, exactly unless both adjusted targets are negative and only that of the shorter spacing is lost in the compact form |
| Retarget.LongerSpacingIsEasier | ppc.go:147-167 | in particular the order holds while the weight of the longer spacing is not negative |
| Retarget.NegativeTargetsAreNotMonotone | ppc.go:147-167 | the exception occurs: after bits 0x1b3e3b94 two spacings a second apart, of which the shorter gives the target zero and the longer a negative one |
| Retarget.NegativeTargetIsLostIff | ppc.go:154-167 | when the code encodes a negative next target as zero |
| Retarget.OnScheduleKeepsBits | ppc.go:147-167 | a canonical target within the limit stays unchanged when blocks come at the target spacing |
| Retarget.StepIsBounded | ppc.go:147-167 | without a clamp one step lowers the target by at most the factor (interval - 1) / (interval + 1), less rounding |
| Reward.ProofOfWorkReward | ppc.go:478-511 | the bisection ends and returns the whole cents of the search |
| Reward.RewardIsFourthRoot | ppc.go:478-511 | the reward is a multiple of a cent between a cent and the maximum and brackets the fourth root of the target's share |
| Reward.RewardMonotone | ppc.go:478-511 | an easier target never earns less |
| MedianTime.PastMedianIsMedian | chain.go:650-698 | the median time is one of the last eleven timestamps with at most half of them, rounded down, smaller and more than that not greater |
| MedianTime.MedianIsUnique | chain.go:696 | no other value is |
| MedianTime.MedianGrows | chain.go:650-698 | one more block after the median never lowers the median, with full and with growing windows |
| MedianTime.MedianNeverDecreases | accept.go:64-75 | along a chain whose blocks passed the timestamp check the median never decreases |
| Merkle.NextPowerOfTwoIsLeast | merkle.go:17-26 | the result is the least power of two that is not smaller |
| Merkle.BuildMerkleTreeStore | merkle.go:72-109 | every slot of the array holds its leaf or the parent of the two slots that map to it |
| Merkle.ArrayIsLevels | merkle.go:72-109 | slot j of level k is empty exactly from ceil(n / 2^k) on, and otherwise holds that node of the level-by-level reduction |
| Merkle.LastSlotIsRoot | merkle.go:72-109 | the last slot is the root of the reduction that doubles a lone last node |

## Left out

- `BFFastAdd`: the flag skips the checks the guarantees rest on.
- Dynamic loading and pruning of nodes (`loadBlockNode`, `pruneBlockNodes`, `depNodes`): the whole tree is in memory, so forks below a pruned root are not modelled.
- Database errors, logging, notifications and error texts: the database answers are the replay of the main chain.
- Wrap-around of 64-bit amounts: sums are unbounded integers, and the overflow check on the total fees never fires.
- The context-free count of signature operations, sizes, amount ranges, proof-of-work and timestamp limits, block signatures and the comparison with the header's merkle root: they are one boolean of the environment in `Process.BlockProcessor.ProcessBlock`.
- Finalized transactions, block versions with serialized heights and the stake kernel check: three booleans in `Accept.BlockAcceptor.MaybeAcceptBlock`.
- The metadata that `AddToBlockIndex` stores, and its failures: `StakeModifier` models the modifier it computes.
- The two historical blocks exempt from the BIP 30 check.
- `getCoinAgeBlock` and the conversion of a coin age to 64 bits: coin ages are unbounded integers.
- The sets `stakeSeen` and `stakeSeenOrphan`: nothing is ever added to `stakeSeen`, so the checks on it never refuse a block.
- The Bitcoin retarget code that block acceptance no longer calls, `mediantime.go` and `blocklocator.go`.
- Restarting on a longer database: the first checkpoint search is specified for any database, but a chain is built from genesis.
- `DisableCheckpoints` in mid-run: an empty checkpoint list stands for disabled checkpoints.
- Locks and the sharing of pool and chain between goroutines, outside the script validator.
- TxLookup.TxStore.ConnectTransactions: requires output indexes in range, because the guard at txlookup.go:53 lets an index equal to the length through and the source then panics; `TxLookup.LegalConnectInRange` shows that legal blocks never get there.
- TxLookup.TxStore.DisconnectTransactions: requires output indexes in range for the same reason (txlookup.go:89).
- Accept.BlockAcceptor.MaybeAcceptBlock: requires a parent hash that is not zero, because the source dereferences a nil parent for a second genesis block (chain.go:944).
- Process.BlockProcessor.ProcessBlock: requires a parent hash that is not zero, for the same reason.
- Process.BlockProcessor.ProcessOrphans: after an error nothing more is promised than that chain and pool stay consistent; a block that fails in a reorganization stays in the tree, so its pooled children then have a known parent.
- Orphans.OrphanPool.AddOrphanBlock: one clock reading stands for all of a call.
- CompactBits.NegativeIsLostIff: numbers whose exponent does not fit a byte are not covered, and so they are not in `CompactBits.NegativeOrderIff` and `Retarget.NextTargetMonotone`.
- Validate.CheckTransactionSanity: sizes, amount ranges, coinbase script lengths and the Peercoin checks on outputs are part of the environment's boolean.
- Validate.CheckBlockSanity: sizes, signature operations, timestamps, proof of work, block signatures and the merkle root are that same boolean.
- Accept.BlockAcceptor.CheckContext: finalized transactions, block versions and the stake kernel are booleans passed in.
