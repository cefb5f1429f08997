/** The block tree and best-chain state machine (chain.go, and the parts of txlookup.go and validate.go that look
    through the chain state). */
module Chain {
  import Arith
  import opened Ledger
  import opened TxLookup
  import opened Validate
  import opened Wrappers
  import opened Spending
  import opened Supply
  import opened ConnectRules

  /** A node of the block tree.  The parent link never changes because pruning is not modelled, so the ghost
      field can hold the whole path from the root. */
  class BlockNode {
    const hash: Hash
    const parent: BlockNode?
    const height: nat
    const workSum: nat
    const bits: Arith.U32
    const timestamp: int
    const proofOfStake: bool
    ghost const block: Block
    ghost const ancestors: seq<BlockNode>
    // The main chain when the node was made.
    ghost const offered: seq<Block>
    var inMainChain: bool
    var children: seq<BlockNode>
    var mint: int
    var moneySupply: int

    constructor (block: Block, parent: BlockNode?, work: nat, ghost offered: seq<Block>)
      requires parent != null ==> WellPlaced(parent) && block.prevHash == parent.hash
      ensures this.block == block && this.parent == parent && this.offered == offered && WellPlaced(this)
      ensures workSum == work + if parent == null then 0 else parent.workSum
      ensures !inMainChain && children == []
    {
      this.hash := block.hash;
      this.parent := parent;
      this.height := if parent == null then 0 else parent.height + 1;
      this.workSum := work + if parent == null then 0 else parent.workSum;
      this.bits := block.bits;
      this.timestamp := block.timestamp;
      this.proofOfStake := block.proofOfStake;
      this.block := block;
      this.ancestors := if parent == null then [] else Path(parent);
      this.offered := offered;
      this.inMainChain := false;
      this.children := [];
      this.mint := 0;
      this.moneySupply := 0;
    }
  }

  // The nodes from the root to `n`.
  ghost function Path(n: BlockNode): seq<BlockNode> {
    n.ancestors + [n]
  }

  ghost function Blocks(nodes: seq<BlockNode>): (blocks: seq<Block>)
    ensures |blocks| == |nodes|
    ensures forall i :: 0 <= i < |nodes| ==> blocks[i] == nodes[i].block
  {
    seq(|nodes|, i requires 0 <= i < |nodes| => nodes[i].block)
  }

  ghost predicate WellPlaced(n: BlockNode) {
    && n.hash == n.block.hash && n.bits == n.block.bits
    && n.timestamp == n.block.timestamp && n.proofOfStake == n.block.proofOfStake
    && n.height == |n.ancestors|
    && (n.parent == null <==> n.ancestors == [])
    && (n.parent != null ==> n.ancestors == Path(n.parent) && n.block.prevHash == n.parent.hash
                             && n.parent.workSum <= n.workSum)
    && forall i :: 0 <= i < |n.ancestors| ==> n.ancestors[i].ancestors == n.ancestors[..i]
  }

  // Every node of a path starts its own path with the same nodes.
  lemma PathPrefix(n: BlockNode, i: nat)
    requires WellPlaced(n) && i <= n.height
    ensures Path(Path(n)[i]) == Path(n)[..i + 1]
  {
    var m := Path(n)[i];
    assert m.ancestors == Path(n)[..i];
  }

  lemma SingleSteps(b: Block)
    ensures Steps([b]) == StepsAt(b.txs, 0)
  {
    assert [] + [b] == [b];
    StepsSnoc([], b);
    assert [] + StepsAt(b.txs, 0) == StepsAt(b.txs, 0);
  }

  ghost predicate Indexed(index: map<Hash, BlockNode>, n: BlockNode) {
    n.hash in index && index[n.hash] == n
  }

  // What each indexed node satisfies: its whole path is indexed, and if that is a validated chain no transaction
  // repeats along it.
  ghost predicate Sound(net: Network, index: map<Hash, BlockNode>, root: BlockNode, n: BlockNode) {
    && WellPlaced(n)
    && Path(n)[0] == root
    && (forall i :: 0 <= i < |n.ancestors| ==> Indexed(index, n.ancestors[i]) && WellPlaced(n.ancestors[i]))
    && (n != root ==> Sane(n.block))
    && (Validated(net, Blocks(Path(n))) ==> NoReuse(Steps(Blocks(Path(n)))))
  }

  ghost predicate IsTree(net: Network, index: map<Hash, BlockNode>, root: BlockNode) {
    && Indexed(index, root)
    && forall h :: h in index ==> index[h].hash == h && Sound(net, index, root, index[h])
  }

  // A node whose parent is in the tree extends it to a tree.
  lemma TreeGrows(net: Network, index: map<Hash, BlockNode>, root: BlockNode, node: BlockNode)
    requires IsTree(net, index, root) && WellPlaced(node) && node.parent != null && Indexed(index, node.parent)
    requires node.hash in index ==> index[node.hash] == node
    requires Sane(node.block) && (Validated(net, Blocks(Path(node))) ==> NoReuse(Steps(Blocks(Path(node)))))
    ensures IsTree(net, index[node.hash := node], root)
  {
    hide Sane, NoReuse, Validated;
    var grown := index[node.hash := node];
    var parent: BlockNode := node.parent;
    assert Sound(net, index, root, parent);
    assert Path(node)[0] == Path(parent)[0];
    forall i | 0 <= i < |node.ancestors|
      ensures Indexed(grown, node.ancestors[i]) && WellPlaced(node.ancestors[i])
    {
      assert node.ancestors[i] == Path(parent)[i];
    }
    forall h | h in grown ensures grown[h].hash == h && Sound(net, grown, root, grown[h]) {
      if h != node.hash {
        SoundGrows(net, index, root, node, index[h]);
      }
    }
  }

  lemma SoundGrows(net: Network, index: map<Hash, BlockNode>, root: BlockNode, node: BlockNode, n: BlockNode)
    requires Sound(net, index, root, n) && (node.hash in index ==> index[node.hash] == node)
    ensures Sound(net, index[node.hash := node], root, n)
  {
  }

  // A root with the genesis block is a tree of its own, a validated chain and the best tip.
  lemma RootAlone(net: Network, root: BlockNode, supply: int)
    requires WellPlaced(root) && root.parent == null && root.offered == [root.block]
    requires |root.block.txs| == 1 && IsCoinBase(root.block.txs[0])
    ensures IsTree(net, map[root.hash := root], root) && IsOptimal(net, map[root.hash := root], root)
    ensures Path(root) == [root] && Blocks(Path(root)) == [root.block] && Validated(net, [root.block])
    ensures root.hash == root.block.hash && MoneySupply(supply, [root.block]) == supply
  {
    assert Path(root) == [root] && Blocks(Path(root)) == [root.block];
    SingleSteps(root.block);
  }

  // A reply of the database about one transaction; an error is a missing record.
  datatype TxReply = TxReply(sha: Hash, data: TxData)

  // The database's replies about its main chain, in the order of the requests.
  function FetchTxByShaList(db: seq<Block>, txList: seq<Hash>): (replies: seq<TxReply>)
    ensures |replies| == |txList|
    ensures forall i :: 0 <= i < |txList| ==> replies[i] == TxReply(txList[i], Replay(db, txList[i]))
  {
    seq(|txList|, i requires 0 <= i < |txList| => TxReply(txList[i], Replay(db, txList[i])))
  }

  // The same without fully spent transactions.
  function FetchUnSpentTxByShaList(db: seq<Block>, txList: seq<Hash>): (replies: seq<TxReply>)
    ensures |replies| == |txList|
    ensures forall i :: 0 <= i < |txList| ==> replies[i].sha == txList[i]
    ensures forall i :: 0 <= i < |txList| ==>
              var e := Replay(db, txList[i]); replies[i].data == if FullySpent(e) then Missing else e
  {
    seq(|txList|, i requires 0 <= i < |txList| =>
          var e := Replay(db, txList[i]); TxReply(txList[i], if FullySpent(e) then Missing else e))
  }

  class BlockChain {
    const net: Network
    const genesisSupply: int
    const root: BlockNode
    var db: seq<Block>
    var bestChain: BlockNode?
    var index: map<Hash, BlockNode>
    var blockCache: map<Hash, Block>

    ghost predicate Known(n: BlockNode)
      reads this`index
    {
      Indexed(index, n)
    }

    ghost predicate Tree()
      reads this`index
    {
      IsTree(net, index, root)
    }

    /** The tip's path, the nodes flagged as main chain and the database are the same sequence, and it is
        validated; every node on it carries the money supply of its own path. */
    ghost predicate Main()
      reads this`index, this`bestChain, this`db, index.Values`inMainChain, index.Values`moneySupply
    {
      && bestChain != null && Known(bestChain)
      && db == Blocks(Path(bestChain))
      && Validated(net, db)
      && (forall h :: h in index ==> (index[h].inMainChain <==> index[h] in Path(bestChain)))
      && (forall h :: h in index && index[h].inMainChain ==>
            index[h].moneySupply == MoneySupply(genesisSupply, Blocks(Path(index[h]))))
    }

    // The side chain cache holds exactly the blocks of the indexed nodes off the main chain.
    ghost predicate Cache()
      reads this`index, this`blockCache, index.Values`inMainChain
    {
      && (forall h :: h in blockCache ==> h in index && !index[h].inMainChain && blockCache[h] == index[h].block)
      && (forall h :: h in index && !index[h].inMainChain ==> h in blockCache)
    }

    /** A chain whose database holds just the genesis block, after GenerateInitialIndex. */
    constructor (net: Network, genesis: Block, work: nat, genesisSupply: int)
      requires |genesis.txs| == 1 && IsCoinBase(genesis.txs[0])
      ensures this.net == net && this.genesisSupply == genesisSupply
      ensures Valid() && db == [genesis] && fresh(root) && index == map[genesis.hash := root]
      ensures root.block == genesis && root.workSum == work && WellPlaced(root) && root.parent == null
      ensures bestChain == root
    {
      var node := new BlockNode(genesis, null, work, [genesis]);
      node.inMainChain := true;
      node.moneySupply := genesisSupply;
      this.net := net;
      this.genesisSupply := genesisSupply;
      this.root := node;
      this.bestChain := node;
      this.index := map[genesis.hash := node];
      this.db := [genesis];
      this.blockCache := map[];
      new;
      hide Valid, Validated;
      StartsValid();
    }

    lemma StartsValid()
      requires WellPlaced(root) && root.parent == null && root.offered == [root.block]
      requires |root.block.txs| == 1 && IsCoinBase(root.block.txs[0])
      requires bestChain == root && index == map[root.hash := root] && db == [root.block] && blockCache == map[]
      requires root.inMainChain && root.moneySupply == genesisSupply && root.children == []
      ensures Valid()
    {
      hide IsTree, IsOptimal, Validated, WellPlaced, MoneySupply, Path, Blocks, Sound;
      RootAlone(net, root, genesisSupply);
    }

    method GetReorganizeNodes(node: BlockNode?)
      returns (detachNodes: seq<BlockNode>, attachNodes: seq<BlockNode>, ghost fork: nat)
      requires Tree() && Main()
      requires node != null ==> Known(node)
      ensures node == null ==> detachNodes == attachNodes == []
      ensures node != null ==> Splits(node, detachNodes, attachNodes, fork)
    {
      hide Tree, Main, WellPlaced;
      if node == null {
        return [], [], 0;
      }
      var ancestor;
      ancestor, attachNodes := ClimbToMain(node);
      detachNodes := DescendTo(ancestor);
      fork := ancestor.height + 1;
      SamePrefix(node, bestChain, ancestor.height);
    }

    // The loop that collects the nodes to attach.
    method ClimbToMain(node: BlockNode) returns (ancestor: BlockNode, attachNodes: seq<BlockNode>)
      requires Tree() && Main() && Known(node)
      ensures bestChain != null && Known(bestChain)
      ensures ancestor.height < |Path(node)| && Path(node)[ancestor.height] == ancestor
      ensures ancestor.height < |Path(bestChain)| && Path(bestChain)[ancestor.height] == ancestor
      ensures attachNodes == Path(node)[ancestor.height + 1..]
      ensures forall n :: n in attachNodes ==> !n.inMainChain
    {
      hide Tree, WellPlaced, Validated, MoneySupply;
      KnownFacts(node);
      KnownFacts(bestChain);
      ancestor, attachNodes := node, [];
      while ancestor.parent != null
        invariant ancestor.height < |Path(node)| && Path(node)[ancestor.height] == ancestor
        invariant attachNodes == Path(node)[ancestor.height + 1..]
        invariant forall n :: n in attachNodes ==> !n.inMainChain
        decreases ancestor.height
      {
        if ancestor.inMainChain {
          break;
        }
        PathAt(node, ancestor.height);
        attachNodes := [ancestor] + attachNodes;
        ancestor := ancestor.parent;
      }
      PathAt(node, ancestor.height);
      if ancestor.parent != null {
        OnPath(bestChain, ancestor);
      }
    }

    // The loop that collects the nodes to detach.
    method DescendTo(ancestor: BlockNode) returns (detachNodes: seq<BlockNode>)
      requires Tree() && Main()
      requires ancestor.height < |Path(bestChain)| && Path(bestChain)[ancestor.height] == ancestor
      ensures IsReverse(detachNodes, Path(bestChain)[ancestor.height + 1..])
    {
      hide Tree, WellPlaced, IsReverse, Path, NoReuse, Validated, MoneySupply;
      ghost var tip: BlockNode := bestChain;
      ghost var path := Path(tip);
      KnownFacts(tip);
      PathAt(tip, ancestor.height);
      var n: BlockNode := bestChain;
      detachNodes := [];
      ReverseNothing(path);
      while n.parent != null
        invariant ancestor.height <= n.height < |path| && path[n.height] == n
        invariant IsReverse(detachNodes, path[n.height + 1..])
        decreases n.height
      {
        PathAt(tip, n.height);
        if n.hash == ancestor.hash {
          break;
        }
        ReverseSnoc(detachNodes, path, n.height);
        detachNodes := detachNodes + [n];
        n := n.parent;
      }
      PathAt(tip, n.height);
    }

    // What an indexed node's position in the tree amounts to.
    lemma KnownFacts(n: BlockNode)
      requires Tree() && Known(n)
      ensures |Path(n)| == n.height + 1 && Path(n)[0] == root && Path(n)[n.height] == n
    {
    }

    // The node at position `i` of an indexed node's path.
    lemma PathAt(n: BlockNode, i: nat)
      requires Tree() && Known(n) && i < |Path(n)|
      ensures var m := Path(n)[i];
        && Known(m) && m.height == i && m.hash == m.block.hash
        && (m.parent == null <==> i == 0) && (i > 0 ==> m.parent == Path(n)[i - 1] && m.parent.height == i - 1)
    {
      hide Sane, NoReuse;
      PathPrefix(n, i);
      var m := Path(n)[i];
      if i > 0 {
        assert m.ancestors == Path(n)[..i];
        assert m.ancestors[i - 1] == Path(n)[i - 1];
      }
    }

    lemma KnownPrefix(n: BlockNode, i: nat)
      requires Tree() && Known(n) && i < |Path(n)|
      ensures Path(n)[i].ancestors == Path(n)[..i]
    {
      hide Sane, NoReuse;
      PathPrefix(n, i);
    }

    // A node carries the header fields of its block.
    lemma HeaderFields(n: BlockNode)
      requires Tree() && Known(n)
      ensures n.bits == n.block.bits && n.timestamp == n.block.timestamp && n.proofOfStake == n.block.proofOfStake
      ensures n.parent != null ==> n.ancestors != []
    {
      hide Sane, NoReuse;
      assert Sound(net, index, root, n);
    }

    // A node on the path of `tip` sits there at its own height.
    lemma OnPath(tip: BlockNode, n: BlockNode)
      requires Tree() && Known(tip) && n in Path(tip)
      ensures n.height < |Path(tip)| && Path(tip)[n.height] == n && Known(n)
    {
      hide Tree;
      var i :| 0 <= i < |Path(tip)| && Path(tip)[i] == n;
      PathAt(tip, i);
    }

    // Two paths that meet at height `i` are the same up to there.
    lemma SamePrefix(a: BlockNode, b: BlockNode, i: nat)
      requires Tree() && Known(a) && Known(b) && i < |Path(a)| && i < |Path(b)| && Path(a)[i] == Path(b)[i]
      ensures Path(a)[..i + 1] == Path(b)[..i + 1]
    {
      hide Sane, NoReuse;
      PathPrefix(a, i);
      PathPrefix(b, i);
    }

    /** The two lists are exact: target path = common prefix + attach, main path = common prefix +
        reverse(detach), and no node to attach is on the main chain. */
    ghost predicate Splits(node: BlockNode, detachNodes: seq<BlockNode>, attachNodes: seq<BlockNode>, fork: nat)
      reads this`bestChain, attachNodes
    {
      && bestChain != null
      && 1 <= fork <= |Path(node)| && fork <= |Path(bestChain)|
      && Path(node)[..fork] == Path(bestChain)[..fork]
      && attachNodes == Path(node)[fork..]
      && IsReverse(detachNodes, Path(bestChain)[fork..])
      && forall n :: n in attachNodes ==> !n.inMainChain
    }

    ghost predicate Ready()
      reads this`index, this`bestChain, this`db, this`blockCache
      reads index.Values`inMainChain, index.Values`moneySupply
    {
      Tree() && Main() && Cache()
    }

    // ---------------------------------------------------------------- views

    /** fetchTxStoreMain: the database's records of the requested transactions, with or without fully spent ones.
        Either way an output is unspent in the store exactly when it is unspent on the main chain. */
    method FetchTxStoreMain(txSet: set<Hash>, includeSpent: bool) returns (store: TxStore)
      ensures fresh(store) && store.entries.Keys == txSet
      ensures store.entries == if includeSpent then Replays(db, txSet) else DropSpent(Replays(db, txSet))
      ensures forall h, i :: h in txSet ==> (HasUnspent(store.entries[h], i) <==> HasUnspent(Replay(db, h), i))
    {
      hide Replay, FullySpent, HasUnspent, Answer, Replays, DropSpent;
      var txList, entries := RequestAll(txSet);
      var txReplyList := Replies(txList, includeSpent);
      for i := 0 to |txReplyList|
        invariant entries.Keys == txSet
        invariant forall k :: 0 <= k < i ==> entries[txList[k]] == Answer(txList[k], includeSpent)
        invariant forall k :: i <= k < |txList| ==> entries[txList[k]] == Missing
      {
        var txReply := txReplyList[i];
        if txReply.sha !in entries {
          continue;
        }
        if txReply.data.Present? {
          entries := entries[txReply.sha := txReply.data];
        }
      }
      store := new TxStore(entries);
      forall h | h in txSet ensures store.entries[h] == Answer(h, includeSpent) {
        var k :| 0 <= k < |txList| && txList[k] == h;
      }
      AllAnswers(store.entries, txSet, includeSpent);
    }

    // The database's replies to the chosen kind of request.
    function Replies(txList: seq<Hash>, includeSpent: bool): (replies: seq<TxReply>)
      reads this`db
      ensures |replies| == |txList|
      ensures forall i :: 0 <= i < |txList| ==> replies[i] == TxReply(txList[i], Answer(txList[i], includeSpent))
    {
      if includeSpent then FetchTxByShaList(db, txList) else FetchUnSpentTxByShaList(db, txList)
    }

    lemma AllAnswers(entries: Store, txSet: set<Hash>, includeSpent: bool)
      requires entries.Keys == txSet && forall h :: h in txSet ==> entries[h] == Answer(h, includeSpent)
      ensures entries == if includeSpent then Replays(db, txSet) else DropSpent(Replays(db, txSet))
    {
      hide Replay, FullySpent;
    }

    // What the database says about a transaction of its main chain.
    function Answer(h: Hash, includeSpent: bool): (e: TxData)
      reads this`db
      ensures forall i :: HasUnspent(e, i) <==> HasUnspent(Replay(db, h), i)
    {
      if !includeSpent && FullySpent(Replay(db, h)) then Missing else Replay(db, h)
    }

    // The first loop of fetchTxStoreMain: every requested transaction is listed once and starts out as missing.
    method RequestAll(txSet: set<Hash>) returns (txList: seq<Hash>, entries: map<Hash, TxData>)
      ensures entries == map h | h in txSet :: Missing
      ensures forall h :: h in txList <==> h in txSet
      ensures forall i, j :: 0 <= i < j < |txList| ==> txList[i] != txList[j]
    {
      txList, entries := [], map[];
      var rest := txSet;
      while rest != {}
        invariant rest <= txSet && entries == map h | h in txSet - rest :: Missing
        invariant forall h :: h in txList <==> h in txSet - rest
        invariant forall i, j :: 0 <= i < j < |txList| ==> txList[i] != txList[j]
      {
        var hash :| hash in rest;
        entries := entries[hash := Missing];
        txList := txList + [hash];
        rest := rest - {hash};
      }
    }

    lemma MainFacts()
      requires Tree() && Main()
      ensures bestChain != null && Known(bestChain) && |Path(bestChain)| == |db| && db == Blocks(Path(bestChain))
      ensures NoReuse(Steps(db)) && Validated(net, db) && forall h :: Legal(db, h)
    {
      forall h ensures Legal(db, h) { ValidatedIsLegal(net, db, h); }
    }

    // Main-chain blocks are found in the database under their node's hash.
    lemma InDatabase(i: nat)
      requires Tree() && Main() && i < |db|
      ensures bestChain != null && Path(bestChain)[i].height == i
      ensures FindBlock(db, Path(bestChain)[i].hash) == Some(db[i])
    {
      hide Tree, WellPlaced;
      var path := Path(bestChain);
      PathAt(bestChain, i);
      forall j | 0 <= j < |db| && j != i ensures db[j].hash != db[i].hash {
        PathAt(bestChain, j);
      }
      FindBlockIs(db, i);
    }

    /** The view of the requested transactions just before `node`: the main chain's when the node extends it,
        and otherwise the main chain undone down to the fork and redone along the side chain. */
    method FetchTxStore(node: BlockNode, txSet: set<Hash>) returns (ok: bool, store: TxStore, ghost fork: nat)
      requires Ready() && node.parent != null && Known(node.parent)
      requires Validated(net, Blocks(Path(node.parent)))
      ensures ok && fresh(store)
      ensures node.parent == bestChain ==> store.entries == DropSpent(Replays(db, txSet))
      ensures node.parent != bestChain ==>
                var target := Blocks(Path(node.parent));
                && fork <= |db| && fork <= |target| && db[..fork] == target[..fork]
                && store.entries == ViewStore(db[..fork], db[fork..], target[fork..], txSet)
      ensures node.parent != bestChain ==> store.entries == Replays(Blocks(Path(node.parent)), txSet)
    {
      hide Tree, Main, Cache, Validated, ViewStore, NoReuse, Legal, DropSpent;
      MainFacts();
      KnownFacts(node.parent);
      KnownFacts(bestChain);
      var prevNode := node.parent;
      fork := 0;
      if bestChain == null || prevNode.hash == bestChain.hash {
        store := FetchTxStoreMain(txSet, false);
        return true, store, fork;
      }
      store := FetchTxStoreMain(txSet, true);
      ok, fork := MoveView(store, prevNode, txSet);
    }

    // Takes the view of the main chain over to a node: undoes the blocks above the fork and redoes the node's branch.
    method MoveView(store: TxStore, prevNode: BlockNode, ghost txSet: set<Hash>) returns (ok: bool, ghost fork: nat)
      requires Ready() && Known(prevNode) && Validated(net, Blocks(Path(prevNode)))
      requires store.entries == Replays(db, txSet)
      modifies store
      ensures ok
      ensures (var target := Blocks(Path(prevNode));
               && fork <= |db| && fork <= |target| && db[..fork] == target[..fork]
               && store.entries == ViewStore(db[..fork], db[fork..], target[fork..], txSet)
               && store.entries == Replays(target, txSet))
    {
      hide Tree, Main, Cache, Validated, ViewStore, UndoStore, NoReuse, Legal;
      MainFacts();
      var detachNodes, attachNodes;
      detachNodes, attachNodes, fork := GetReorganizeNodes(prevNode);
      ok := DetachView(store, detachNodes, fork, txSet);
      if !ok {
        return;
      }
      SplitBlocks(prevNode, detachNodes, attachNodes, fork);
      ok := AttachView(store, prevNode, attachNodes, fork, txSet);
    }

    lemma SplitBlocks(node: BlockNode, detachNodes: seq<BlockNode>, attachNodes: seq<BlockNode>, fork: nat)
      requires Main() && Splits(node, detachNodes, attachNodes, fork)
      ensures var target := Blocks(Path(node));
              fork <= |db| && fork <= |target| && db[..fork] == target[..fork]
    {
      hide Validated, MoneySupply;
      var target := Blocks(Path(node));
      forall i | 0 <= i < fork ensures db[i] == target[i] {
        assert Path(node)[..fork][i] == Path(bestChain)[..fork][i];
      }
    }

    // The loop of FetchTxStore that undoes the blocks a reorganization would detach.
    method DetachView(store: TxStore, detachNodes: seq<BlockNode>, ghost fork: nat, ghost txSet: set<Hash>)
      returns (ok: bool)
      requires Tree() && Main() && fork <= |db| && IsReverse(detachNodes, Path(bestChain)[fork..])
      requires store.entries == Replays(db, txSet)
      modifies store
      ensures ok
      ensures store.entries == UndoStore(db, fork, txSet)
    {
      hide Tree, Main, WellPlaced, UndoStore, IsReverse, FindBlock, NoReuse, Validated, Legal;
      MainFacts();
      UndoStoreStart(db, txSet);
      ReverseLength(detachNodes, Path(bestChain)[fork..]);
      for i := 0 to |detachNodes|
        invariant store.entries == UndoStore(db, |db| - i, txSet)
      {
        var node := detachNodes[i];
        DetachedNode(detachNodes, fork, i);
        var block := FindBlock(db, node.hash);
        if block.None? {
          return false;
        }
        DisconnectOne(store, block.value, node.height, db, txSet);
      }
      ok := true;
    }

    lemma DetachedNode(detachNodes: seq<BlockNode>, fork: nat, i: nat)
      requires Tree() && Main() && fork <= |db| && IsReverse(detachNodes, Path(bestChain)[fork..]) && i < |detachNodes|
      ensures i < |db| && detachNodes[i].height == |db| - 1 - i && detachNodes[i] in Path(bestChain)
      ensures FindBlock(db, detachNodes[i].hash) == Some(db[|db| - 1 - i])
    {
      hide Tree, FindBlock, Validated, MoneySupply;
      assert detachNodes[i] == Path(bestChain)[|db| - 1 - i];
      InDatabase(|db| - 1 - i);
    }

    // The loop of FetchTxStore that redoes the side chain from the block cache.
    method AttachView(store: TxStore, prevNode: BlockNode, attachNodes: seq<BlockNode>, ghost fork: nat,
                      ghost txSet: set<Hash>)
      returns (ok: bool)
      requires Ready() && Redoable(prevNode, attachNodes, fork)
      requires store.entries == UndoStore(db, fork, txSet)
      modifies store
      ensures ok
      ensures store.entries == ViewStore(db[..fork], db[fork..], Blocks(Path(prevNode))[fork..], txSet)
      ensures store.entries == Replays(Blocks(Path(prevNode)), txSet)
    {
      hide Tree, Main, Cache, WellPlaced, UndoStore, ViewStore, Validated, NoReuse, Legal, Path, Redoable, Blocks;
      MainFacts();
      ghost var target, base, undone := RedoStart(prevNode, attachNodes, fork, txSet);
      ghost var redone: seq<Block> := [];
      for i := 0 to |attachNodes|
        invariant |redone| == i && base + redone == target[..fork + i]
        invariant store.entries == ViewStore(base, undone, redone, txSet)
      {
        var node := attachNodes[i];
        RedoNode(prevNode, attachNodes, fork, i);
        if node.hash !in blockCache {
          return false;
        }
        ghost var b := target[fork + i];
        assert base + redone + [b] == target[..fork + i + 1];
        forall h ensures Legal(base + redone + [b], h) {
          TargetLegal(target, fork + i + 1, h);
        }
        ConnectOne(store, blockCache[node.hash], node.height, base, undone, redone, txSet);
        redone := redone + [b];
        assert base + redone == target[..fork + i + 1];
      }
      ok := true;
      assert target[..|target|] == target;
      assert redone == target[fork..];
      ViewsAreReplays(base, undone, target, txSet);
    }

    // The side chain whose blocks are to be redone on top of the fork.
    ghost predicate Redoable(prevNode: BlockNode, attachNodes: seq<BlockNode>, fork: nat)
      reads this`index, this`db, attachNodes
    {
      && Known(prevNode) && 1 <= fork <= |Path(prevNode)| && fork <= |db|
      && attachNodes == Path(prevNode)[fork..] && (forall n :: n in attachNodes ==> !n.inMainChain)
      && Validated(net, Blocks(Path(prevNode))) && db[..fork] == Blocks(Path(prevNode))[..fork]
    }

    lemma RedoStart(prevNode: BlockNode, attachNodes: seq<BlockNode>, fork: nat, txSet: set<Hash>)
      returns (target: seq<Block>, base: seq<Block>, undone: seq<Block>)
      requires Redoable(prevNode, attachNodes, fork)
      ensures target == Blocks(Path(prevNode)) && |target| == fork + |attachNodes|
      ensures fork <= |db| && base == db[..fork] == target[..fork] && undone == db[fork..] && base + undone == db
      ensures Validated(net, target) && UndoStore(db, fork, txSet) == ViewStore(base, undone, [], txSet)
    {
      hide Validated;
      target, base, undone := Blocks(Path(prevNode)), db[..fork], db[fork..];
      UndoStoreDone(db, fork, txSet);
    }

    lemma RedoNode(prevNode: BlockNode, attachNodes: seq<BlockNode>, fork: nat, i: nat)
      requires Ready() && Redoable(prevNode, attachNodes, fork) && i < |attachNodes|
      ensures attachNodes[i].height == fork + i && attachNodes[i].hash in blockCache
      ensures fork + i < |Blocks(Path(prevNode))|
      ensures blockCache[attachNodes[i].hash] == Blocks(Path(prevNode))[fork + i]
    {
      hide Tree, Main, Cache, Validated;
      CachedNode(prevNode, fork + i);
    }

    lemma TargetLegal(target: seq<Block>, n: nat, h: Hash)
      requires 1 <= n <= |target| && Validated(net, target)
      ensures Legal(target[..n], h)
    {
      ValidatedPrefix(net, target, n);
      ValidatedIsLegal(net, target[..n], h);
    }

    // A node off the main chain has its block in the cache.
    lemma CachedNode(n: BlockNode, i: nat)
      requires Tree() && Cache() && Known(n) && i < |Path(n)| && !Path(n)[i].inMainChain
      ensures Path(n)[i].height == i && Path(n)[i].hash in blockCache
      ensures blockCache[Path(n)[i].hash] == Blocks(Path(n))[i]
    {
      PathAt(n, i);
    }

    // ---------------------------------------------------------------- checking a block

    // The view FetchTxStore gives for a node.
    ghost function ViewFor(node: BlockNode, txSet: set<Hash>): (view: Store)
      requires node.parent != null
      reads this`bestChain, this`db
      ensures view.Keys == txSet && Shaped(view)
    {
      if node.parent == bestChain then DropSpent(Replays(db, txSet))
      else Replays(Blocks(Path(node.parent)), txSet)
    }

    // A node whose block is about to be checked: its parent is indexed and validated.
    ghost predicate Checkable(node: BlockNode, block: Block)
      reads this`index
    {
      && node.parent != null && Known(node.parent) && node.height == |Path(node.parent)|
      && Validated(net, Blocks(Path(node.parent))) && Sane(block)
    }

    method FetchInputTransactions(node: BlockNode, block: Block) returns (ok: bool, store: TxStore)
      requires Ready() && Checkable(node, block)
      ensures ok && fresh(store)
      ensures store.entries == Merged(block, node.height, ViewFor(node, Needed(block)))
    {
      hide Tree, Main, Cache, Validated, Needed, InputHashes, Replays, InFlight;
      var needed, entries := CollectInputs(block, node.height);
      var fetched, chainStore, fork := FetchTxStore(node, needed);
      ok := fetched;
      store := new TxStore(entries + chainStore.entries);
      NeededAreInputs(block);
    }

    method CheckBIP0030(node: BlockNode, block: Block) returns (ok: bool)
      requires Ready() && Checkable(node, block)
      ensures ok == !Overwrites(ViewFor(node, TxHashes(block)))
    {
      hide Tree, Main, Cache, Validated, Overwrites, Replays;
      var fetched, found, fork := FetchTxStore(node, TxHashes(block));
      var overwrites := CheckOverwrites(found);
      ok := fetched && !overwrites;
    }

    /** Checks whether a block may be connected after its parent.  The verdict is that of the same checks on the
        replay of its ancestors, wherever the main chain is: it passes exactly when it keeps all rules on the
        transactions of its branch, and a script error means that some script fails there while everything else is in
        order.  Only the block times for coin ages are read from the main chain, and when they agree with those of
        the branch the verdict depends on the branch alone. */
    method CheckConnectBlock(node: BlockNode, block: Block) returns (r: Result<int>)
      requires Ready() && Checkable(node, block)
      ensures r == CheckBlock(Params(net, db), block, node.height,
                              ViewFor(node, TxHashes(block)), ViewFor(node, Needed(block)))
      ensures r.Ok? <==> Connectable(net, db, Blocks(Path(node.parent)), block)
      ensures FollowsRules(net, db, Blocks(Path(node.parent)), block, r)
      ensures (var branch := Blocks(Path(node.parent));
               AgesAgree(db, branch, branch, block) ==> (r.Ok? <==> Connectable(net, branch, branch, block)))
    {
      hide Tree, Main, Cache, Validated, Needed, InputHashes, Replays, InFlight, Overwrites, CheckTxsFrom, Merged;
      hide ScriptsPass, Connectable, AgesAgree, BlockSigOps, FollowsRules;
      VerdictByAncestors(node, block);
      OwnBranchVerdict(node, block);
      var params := Params(net, db);
      var fresh30 := CheckBIP0030(node, block);
      if !fresh30 {
        return Err(ErrOverwriteTx);
      }
      var ok, store := FetchInputTransactions(node, block);
      MergedShaped(block, node.height, ViewFor(node, Needed(block)));
      var sigOps := CheckSigOps(net, block, store);
      if sigOps.Err? {
        return Err(sigOps.error);
      }
      var fees := CheckAllInputs(params, block, node.height, store);
      if fees.Err? {
        return fees;
      }
      if !block.proofOfStake {
        var totalSatoshiOut := SumOfOutputs(block.txs[0].outs);
        if totalSatoshiOut > net.powReward(block.bits) {
          return Err(ErrBadCoinbaseValue);
        }
      }
      if net.runScripts(node.height) && !ScriptsPass(params, store.entries, block) {
        return Err(ErrScript);
      }
      return fees;
    }

    // With the same coin ages the fetched views and the replay of the ancestors give the same verdict.
    lemma VerdictByAncestors(node: BlockNode, block: Block)
      requires Ready() && Checkable(node, block)
      ensures var branch := Blocks(Path(node.parent));
              var r := CheckBlock(Params(net, db), block, node.height,
                                  ViewFor(node, TxHashes(block)), ViewFor(node, Needed(block)));
              (r.Ok? <==> Connectable(net, db, branch, block)) && FollowsRules(net, db, branch, block, r)
    {
      hide Tree, Cache, Validated, CheckBlock, KeepsInputRules, RewardRule, ScriptRules, OverwriteRule, Fees;
      hide SaneTx, Distinct, StakeSane;
      var target := Blocks(Path(node.parent));
      PassesIffRulesKept(net, db, target, block);
      if node.parent == bestChain {
        var found, view := Replays(db, TxHashes(block)), Replays(db, Needed(block));
        DropSpentKeepsVerdict(Params(net, db), block, node.height, found, view);
      }
    }

    lemma OwnBranchVerdict(node: BlockNode, block: Block)
      requires node.parent != null
      ensures var branch := Blocks(Path(node.parent));
              AgesAgree(db, branch, branch, block) ==>
                (Connectable(net, db, branch, block) <==> Connectable(net, branch, branch, block))
    {
      hide Connectable, AgesAgree;
      var branch := Blocks(Path(node.parent));
      if AgesAgree(db, branch, branch, block) {
        AgreeingAges(net, db, branch, branch, block);
      }
    }

    // ---------------------------------------------------------------- connecting and disconnecting

    // The database after dropping every block above the one with hash `h`.
    static function DropAfter(db: seq<Block>, h: Hash): seq<Block> {
      if db == [] || db[|db| - 1].hash == h then db else DropAfter(db[..|db| - 1], h)
    }

    method CalcMintAndMoneySupply(node: BlockNode, block: Block)
      requires Ready() && Checkable(node, block) && node.parent == bestChain
      requires Path(node) == Path(node.parent) + [node] && node.block == block
      requires Passed(net, db, block)
      modifies node`mint, node`moneySupply
      ensures node.mint == Mint(FlowOn(db, block))
      ensures node.moneySupply == MoneySupply(genesisSupply, db + [block])
    {
      hide Tree, Cache, Validated, Needed, Replays, Merged, Passed, Sane, DropSpent, FlowOn, BlockFlow, MoneySupply;
      var ok, store := FetchInputTransactions(node, block);
      TipFlow(net, genesisSupply, db, block);
      var flow := SumFlow(store.entries, block.txs);
      node.mint := flow.valueOut - flow.valueIn + flow.fees;
      node.moneySupply := node.parent.moneySupply + flow.valueOut - flow.valueIn;
    }

    // A node that may join the tree: its ancestors are indexed, and if its branch is validated it creates no
    // transaction again.
    ghost predicate Attachable(node: BlockNode, block: Block)
      reads this`index
    {
      && WellPlaced(node) && node.block == block && node.parent != null && Known(node.parent)
      && (node.hash in index ==> index[node.hash] == node)
      && Sane(block) && (Validated(net, Blocks(Path(node))) ==> NoReuse(Steps(Blocks(Path(node)))))
    }

    method ConnectBlock(node: BlockNode, block: Block) returns (ok: bool)
      requires Ready() && Attachable(node, block)
      requires block.prevHash == bestChain.hash ==> Passed(net, db, block)
      modifies this`db, this`index, this`bestChain, node`inMainChain, node`mint, node`moneySupply
      ensures ok <==> old(bestChain) == node.parent
      ensures !ok ==> unchanged(this) && unchanged(node)
      ensures ok ==> Tree() && Main() && bestChain == node && db == old(db) + [block]
      ensures ok ==> index == old(index)[node.hash := node]
      ensures ok ==> node.inMainChain && node.mint == Mint(FlowOn(old(db), block))
    {
      hide IsTree, Validated, Cache, Sane, NoReuse, ConnectOk, MoneySupply, FlowOn, Checkable, WellPlaced;
      AttachableFacts(node, block);
      if bestChain != null && block.prevHash != bestChain.hash {
        return false;
      }
      ConnectFacts(node, block);
      TreeGrows(net, index, root, node);
      CalcMintAndMoneySupply(node, block);
      db := db + [block];
      node.inMainChain := true;
      index := index[node.hash := node];
      bestChain := node;
      ok := true;
    }

    lemma AttachableFacts(node: BlockNode, block: Block)
      requires Tree() && Attachable(node, block)
      ensures node.height == |Path(node.parent)| && Path(node) == Path(node.parent) + [node]
      ensures node.parent.hash == block.prevHash && block.hash == node.hash
    {
    }

    lemma ConnectFacts(node: BlockNode, block: Block)
      requires Ready() && Attachable(node, block) && block.prevHash == bestChain.hash && Passed(net, db, block)
      ensures node.parent == bestChain && Checkable(node, block) && node !in Path(bestChain)
      ensures Path(node) == Path(bestChain) + [node] && Blocks(Path(node)) == db + [block]
      ensures Validated(net, db + [block])
    {
      hide Tree, WellPlaced, Validated, Cache, Sane, NoReuse, ConnectOk, MoneySupply;
      KnownFacts(bestChain);
      AttachableFacts(node, block);
      ValidatedSnoc(net, db, block);
      if node in Path(bestChain) {
        OnPath(bestChain, node);
      }
    }

    method DisconnectBlock(node: BlockNode, block: Block) returns (ok: bool)
      requires Ready() && Known(node) && node.parent != null && block == node.block
      modifies this`db, this`blockCache, this`bestChain, node`inMainChain
      ensures ok <==> old(bestChain) == node
      ensures !ok ==> unchanged(this) && unchanged(node)
      ensures ok ==> Ready() && bestChain == node.parent && db == old(db)[..|old(db)| - 1]
      ensures ok ==> blockCache == old(blockCache)[node.hash := block] && !node.inMainChain
    {
      hide Tree, Main, Cache, WellPlaced, Validated;
      MainFacts();
      if bestChain == null || node.hash != bestChain.hash {
        return false;
      }
      DisconnectFacts();
      db := DropAfter(db, node.parent.hash);
      node.inMainChain := false;
      blockCache := blockCache[node.hash := block];
      bestChain := node.parent;
      TipDropped(node);
      ok := true;
    }

    // Taking the tip off the main chain keeps the rest of it, and the cache, right.
    twostate lemma TipDropped(tip: BlockNode)
      requires old(Main()) && old(Cache()) && old(bestChain) == tip && old(Known(tip)) && index == old(index)
      requires tip.parent != null && bestChain == tip.parent && Known(bestChain)
      requires db == Blocks(Path(bestChain)) && Validated(net, db)
      requires Path(tip) == Path(bestChain) + [tip] && tip !in Path(bestChain)
      requires blockCache == old(blockCache)[tip.hash := tip.block] && !tip.inMainChain
      requires forall h :: h in index ==> index[h].hash == h
      requires forall h :: h in index && index[h] != tip ==> index[h].inMainChain == old(index[h].inMainChain)
      requires forall h :: h in index ==> index[h].moneySupply == old(index[h].moneySupply)
      ensures Main() && Cache()
    {
      hide Validated, MoneySupply;
    }

    lemma DisconnectFacts()
      requires Tree() && Main() && bestChain.parent != null
      ensures |db| >= 2 && Validated(net, db[..|db| - 1])
      ensures DropAfter(db, bestChain.parent.hash) == db[..|db| - 1] == Blocks(Path(bestChain.parent))
      ensures Known(bestChain.parent) && Path(bestChain) == Path(bestChain.parent) + [bestChain]
      ensures bestChain !in Path(bestChain.parent) && bestChain.hash == bestChain.block.hash
      ensures forall h :: h in index ==> index[h].hash == h
    {
      hide Sound, Validated, MoneySupply;
      var n := |db| - 1;
      KnownFacts(bestChain);
      PathAt(bestChain, n);
      PathAt(bestChain, n - 1);
      ValidatedPrefix(net, db, n);
      ParentPath(bestChain);
      if bestChain in Path(bestChain.parent) {
        OnPath(bestChain.parent, bestChain);
      }
      assert db[n].hash != db[n - 1].hash;
      assert db[..n][n - 1] == db[n - 1];
    }

    lemma ParentPath(n: BlockNode)
      requires Tree() && Known(n) && n.parent != null
      ensures Path(n) == Path(n.parent) + [n] && Path(n.parent) == Path(n)[..|Path(n)| - 1]
      ensures Known(n.parent) && |Path(n.parent)| == n.parent.height + 1 == n.height
    {
      hide Sane, NoReuse;
      PathAt(n, n.height);
    }

    // ---------------------------------------------------------------- reorganizing

    // The node whose branch is to become the main chain, with a fork that is already validated.
    ghost predicate Target(target: BlockNode, fork: nat)
      reads this`index
    {
      Known(target) && 1 <= fork <= |Path(target)| && Validated(net, Blocks(Path(target))[..fork])
    }

    // One turn of the second loop.
    method CheckNode(n: BlockNode, ghost target: BlockNode, ghost i: nat) returns (ok: bool)
      requires Ready() && Target(target, i) && i < |Path(target)| && n == Path(target)[i] && !n.inMainChain
      ensures ok <==> Connectable(net, db, Blocks(Path(target))[..i], Blocks(Path(target))[i])
      ensures ok ==> Validated(net, Blocks(Path(target))[..i + 1])
    {
      hide Tree, Main, Cache, WellPlaced, Validated, Connectable, Sane, Passed, AgesAgree, Path, Blocks, FollowsRules;
      hide CheckBlock, TxHashes, Needed;
      ghost var blocks := Blocks(Path(target));
      CachedNode(target, i);
      TargetNode(target, i);
      var verdict := CheckConnectBlock(n, blockCache[n.hash]);
      ok := verdict.Ok?;
      if ok {
        PassesNow(net, db, blocks[..i], blocks[i]);
        ValidatedSnoc(net, blocks[..i], blocks[i]);
        assert blocks[..i] + [blocks[i]] == blocks[..i + 1];
      }
    }

    // The first two loops of ReorganizeChain: every block to attach is cached and passes its checks.
    method CheckAttach(attachNodes: seq<BlockNode>, ghost target: BlockNode, ghost fork: nat) returns (ok: bool)
      requires Ready() && Target(target, fork)
      requires attachNodes == Path(target)[fork..] && forall n :: n in attachNodes ==> !n.inMainChain
      ensures ok <==> PassesFrom(net, db, Blocks(Path(target)), fork)
      ensures ok ==> Validated(net, Blocks(Path(target)))
    {
      hide Tree, Main, Cache, WellPlaced, Validated, Connectable, Sane;
      KnownFacts(target);
      ghost var blocks := Blocks(Path(target));
      for i := 0 to |attachNodes| {
        CachedNode(target, fork + i);
        if attachNodes[i].hash !in blockCache {
          return false;
        }
      }
      for i := 0 to |attachNodes|
        invariant Validated(net, blocks[..fork + i])
        invariant forall j :: fork <= j < fork + i ==> Connectable(net, db, blocks[..j], blocks[j])
      {
        ok := CheckNode(attachNodes[i], target, fork + i);
        if !ok {
          return;
        }
      }
      assert blocks[..fork + |attachNodes|] == blocks;
      ok := true;
    }

    // The blocks above the fork are exactly those that are not on the main chain.
    lemma SideIsAboveFork(node: BlockNode, detachNodes: seq<BlockNode>, attachNodes: seq<BlockNode>, fork: nat)
      requires Tree() && Main() && Known(node) && Splits(node, detachNodes, attachNodes, fork)
      ensures SidePasses(net, db, Blocks(Path(node))) <==> PassesFrom(net, db, Blocks(Path(node)), fork)
    {
      hide Tree, WellPlaced, Validated, MoneySupply, Connectable, IsReverse;
      SplitBlocks(node, detachNodes, attachNodes, fork);
      ForkBlocksDiffer(node, detachNodes, attachNodes, fork);
      var chain := Blocks(Path(node));
      forall j | 1 <= j < |chain| && j < fork ensures Shares(db, chain, j) {
        assert chain[..j + 1] == chain[..fork][..j + 1] == db[..j + 1];
      }
      forall j | fork <= j < |chain| ensures !Shares(db, chain, j) {
        assert chain[..j + 1][fork] == chain[fork];
      }
    }

    lemma ForkBlocksDiffer(node: BlockNode, detachNodes: seq<BlockNode>, attachNodes: seq<BlockNode>, fork: nat)
      requires Tree() && Main() && Known(node) && Splits(node, detachNodes, attachNodes, fork)
      ensures fork < |Path(node)| && fork < |db| ==> db[fork] != Path(node)[fork].block
    {
      hide Tree, Main, IsReverse;
      if fork < |Path(node)| && fork < |db| {
        assert attachNodes[0] == Path(node)[fork] && !attachNodes[0].inMainChain;
        if db[fork] == Path(node)[fork].block {
          OnMainByBlock(node, fork);
        }
      }
    }

    // A node whose block is the main chain's at its height is on the main chain.
    lemma OnMainByBlock(node: BlockNode, i: nat)
      requires Tree() && Main() && Known(node) && i < |Path(node)| && i < |db| && db[i] == Path(node)[i].block
      ensures Path(node)[i].inMainChain
    {
      hide IsTree, WellPlaced, Validated, MoneySupply;
      var tip: BlockNode := bestChain;
      PathAt(node, i);
      PathAt(tip, i);
      assert Path(tip)[i] in Path(tip);
    }

    // A node above the root may be checked and attached once the path below it is validated.
    lemma TargetNode(target: BlockNode, i: nat)
      requires Tree() && Known(target) && 1 <= i < |Path(target)|
      ensures var n := Path(target)[i];
        && Attachable(n, n.block) && n.height == i
        && Path(n.parent) == Path(target)[..i] && Blocks(Path(n.parent)) == Blocks(Path(target))[..i]
        && (Validated(net, Blocks(Path(target))[..i]) ==> Checkable(n, n.block))
    {
      hide Validated, Sane, NoReuse;
      PathAt(target, i);
      PathAt(target, 0);
      var n := Path(target)[i];
      ParentPath(n);
      PathPrefix(target, i);
      assert Path(n.parent) == Path(target)[..i];
      assert n != root;
      assert Sound(net, index, root, n);
    }

    // The loop of ReorganizeChain that disconnects the old branch down to the fork.
    method DetachAll(detachNodes: seq<BlockNode>, ghost fork: nat)
      returns (ok: bool)
      requires Ready() && 1 <= fork <= |Path(bestChain)| && IsReverse(detachNodes, Path(bestChain)[fork..])
      modifies this`db, this`blockCache, this`bestChain, index.Values`inMainChain
      ensures ok && Ready() && index == old(index)
      ensures bestChain == old(Path(bestChain)[fork - 1])
    {
      hide Tree, Main, Cache, WellPlaced, Validated, FindBlock, Path, Blocks, NoReuse, Legal;
      MainFacts();
      ghost var tip: BlockNode := bestChain;
      ghost var path := Path(tip);
      KnownFacts(tip);
      for i := 0 to |detachNodes|
        invariant Ready() && index == old(index)
        invariant bestChain == path[|path| - 1 - i]
      {
        var n := detachNodes[i];
        assert n == path[|path| - 1 - i];
        PathAt(tip, |path| - 1 - i);
        TipInDatabase();
        assert index[n.hash] in index.Values;
        var block := FindBlock(db, n.hash);
        if block.None? {
          return false;
        }
        ok := DisconnectBlock(n, block.value);
        if !ok {
          return;
        }
      }
      ok := true;
    }

    lemma TipInDatabase()
      requires Tree() && Main()
      ensures FindBlock(db, bestChain.hash) == Some(bestChain.block)
    {
      hide Tree, Validated;
      KnownFacts(bestChain);
      InDatabase(|db| - 1);
    }

    // The loop of ReorganizeChain that connects the new branch.
    method AttachAll(attachNodes: seq<BlockNode>, ghost target: BlockNode, ghost fork: nat) returns (ok: bool)
      requires Ready() && Known(target) && 1 <= fork <= |Path(target)| && Validated(net, Blocks(Path(target)))
      requires attachNodes == Path(target)[fork..] && bestChain == Path(target)[fork - 1]
      modifies this`db, this`index, this`blockCache, this`bestChain
      modifies index.Values`inMainChain, index.Values`mint, index.Values`moneySupply
      ensures ok && Ready() && index == old(index) && bestChain == target
    {
      hide Tree, Main, Cache, WellPlaced, Validated;
      KnownFacts(target);
      for i := 0 to |attachNodes|
        invariant Ready() && index == old(index)
        invariant bestChain == Path(target)[fork - 1 + i]
      {
        PathAt(target, fork + i);
        assert index[attachNodes[i].hash] in index.Values;
        ok := AttachNode(attachNodes[i], target, fork + i);
        if !ok {
          return;
        }
      }
      ok := true;
    }

    // One turn of that loop: connect the node and drop its block from the cache.
    method AttachNode(n: BlockNode, ghost target: BlockNode, ghost i: nat) returns (ok: bool)
      requires Ready() && Known(target) && 1 <= i < |Path(target)| && Validated(net, Blocks(Path(target)))
      requires n == Path(target)[i] && bestChain == Path(target)[i - 1]
      modifies this`db, this`index, this`blockCache, this`bestChain
      modifies n`inMainChain, n`mint, n`moneySupply
      ensures ok && Ready() && index == old(index) && bestChain == n
    {
      hide IsTree, WellPlaced, Validated, Passed, MoneySupply, FlowOn, Sane, NoReuse, Path, Blocks;
      AttachFacts(n, target, i);
      var block := blockCache[n.hash];
      ok := ConnectBlock(n, block);
      blockCache := blockCache - {n.hash};
    }

    lemma AttachFacts(n: BlockNode, target: BlockNode, i: nat)
      requires Ready() && Known(target) && 1 <= i < |Path(target)| && Validated(net, Blocks(Path(target)))
      requires n == Path(target)[i] && bestChain == Path(target)[i - 1]
      ensures n.hash in blockCache && blockCache[n.hash] == n.block && index[n.hash] == n
      ensures n.parent == bestChain && Attachable(n, n.block) && Passed(net, db, n.block)
      ensures index[n.hash := n] == index && forall h :: h in index ==> index[h].hash == h
    {
      hide Sound, WellPlaced, Sane, NoReuse, ConnectOk, MoneySupply;
      PathAt(target, i);
      TargetNode(target, i);
      KnownFacts(bestChain);
      if n in Path(bestChain) {
        OnPath(bestChain, n);
      }
      CachedNode(target, i);
      assert db == Blocks(Path(target))[..i];
    }

    /** Reorganizes the main chain to end in `target`.  It succeeds exactly when every block above the fork passes its
        checks; a failure or a dry run leaves the chain as it was, and a success makes the main chain exactly the
        target's path. */
    method ReorganizeChain(detachNodes: seq<BlockNode>, attachNodes: seq<BlockNode>, dryRun: bool,
                           ghost target: BlockNode, ghost fork: nat) returns (ok: bool)
      requires Ready() && Target(target, fork) && Splits(target, detachNodes, attachNodes, fork)
      requires detachNodes != [] && attachNodes != []
      modifies this`db, this`index, this`blockCache, this`bestChain
      modifies index.Values`inMainChain, index.Values`mint, index.Values`moneySupply
      ensures ok <==> PassesFrom(net, old(db), Blocks(Path(target)), fork)
      ensures !ok || dryRun ==> unchanged(this) && forall n :: n in index.Values ==> unchanged(n)
      ensures Ready() && index == old(index)
      ensures ok && !dryRun ==> bestChain == target
    {
      hide Tree, Main, Cache, WellPlaced, Validated, IsReverse;
      ok := CheckAttach(attachNodes, target, fork);
      if !ok || dryRun {
        return;
      }
      MainFacts();
      ok := DetachAll(detachNodes, fork);
      if !ok {
        return;
      }
      assert Path(target)[..fork][fork - 1] == Path(target)[fork - 1];
      ok := AttachAll(attachNodes, target, fork);
    }

    // ---------------------------------------------------------------- choosing the best chain

    // The child lists mirror the parent links, each child once.
    ghost predicate Children()
      reads this`index, index.Values`children
    {
      && (forall h, c :: h in index && c in index[h].children ==> Known(c) && c.parent == index[h])
      && (forall h :: h in index && index[h].parent != null ==>
            Known(index[h].parent) && index[h] in index[h].parent.children)
      && (forall h :: h in index ==> NoRepeats(index[h].children))
    }

    ghost predicate Optimal()
      reads this`index, this`bestChain
    {
      bestChain != null && IsOptimal(net, index, bestChain)
    }

    ghost predicate Valid()
      reads this`index, this`bestChain, this`db, this`blockCache
      reads index.Values`inMainChain, index.Values`moneySupply, index.Values`children
    {
      Ready() && Children() && Optimal()
    }

    /** Connects a new block, whose parent is indexed, to the tree while keeping the chain with the most work as
        the main chain. */
    method ConnectBestChain(node: BlockNode, block: Block, dryRun: bool) returns (ok: bool)
      requires Valid() && Attachable(node, block) && node.hash !in index
      requires !node.inMainChain && node.children == [] && node.offered == db
      modifies this`db, this`index, this`blockCache, this`bestChain, index.Values, node
      ensures Valid()
      ensures dryRun ==> unchanged(this) && forall n :: n in index.Values ==> unchanged(n)
      ensures old(bestChain.workSum) <= bestChain.workSum
      ensures ok <==> (if node.parent == old(bestChain) then Connectable(net, old(db), old(db), block)
                       else || node.workSum <= old(bestChain.workSum)
                            || SidePasses(net, old(db), Blocks(Path(node))))
      ensures !dryRun && (ok || node.parent != old(bestChain)) ==> index == old(index)[node.hash := node]
      ensures !dryRun && !ok && node.parent == old(bestChain) ==> unchanged(this)
      ensures !dryRun ==> bestChain == if ok && (node.parent == old(bestChain) || old(bestChain.workSum) < node.workSum)
                                       then node else old(bestChain)
    {
      if bestChain == null || node.parent.hash == bestChain.hash {
        ok := ExtendMain(node, block, dryRun);
        return;
      }
      ok := ExtendSide(node, block, dryRun);
    }

    // The branch of ConnectBestChain in which the block extends or starts a side chain.
    method ExtendSide(node: BlockNode, block: Block, dryRun: bool) returns (ok: bool)
      requires Valid() && Attachable(node, block) && node.hash !in index && node.parent != bestChain
      requires !node.inMainChain && node.children == [] && node.offered == db
      modifies this`db, this`index, this`blockCache, this`bestChain
      modifies index.Values`inMainChain, index.Values`mint, index.Values`moneySupply, node.parent`children
      modifies node`inMainChain, node`mint, node`moneySupply
      ensures Valid()
      ensures ok <==> node.workSum <= old(bestChain.workSum) || SidePasses(net, old(db), Blocks(Path(node)))
      ensures dryRun ==> unchanged(this) && unchanged(node) && forall n :: n in index.Values ==> unchanged(n)
      ensures !dryRun ==> index == old(index)[node.hash := node]
      ensures !dryRun ==> bestChain == if ok && old(bestChain.workSum) < node.workSum then node else old(bestChain)
    {
      hide IsTree, Main, Cache, Children, Validated, WellPlaced, IsOptimal, Sane, NoReuse, SidePasses;
      hide RemoveFirst, Legal;
      MainFacts();
      SameRoot(node, block);
      SideFacts(node, block);
      ghost var before, tip: BlockNode := index, bestChain;
      LeafGrows(net, index, tip, node);
      AddToSideChain(node, block);
      ok := true;
      if node.workSum > bestChain.workSum {
        ok := Reorganize(node, dryRun);
      }
      if dryRun {
        RemoveFromSideChain(node);
      } else if bestChain == node {
        NewTipOptimal(net, before, root, tip, node);
      } else {
        OldTipOptimal(net, before, tip, node);
      }
    }

    // Finds the nodes to detach and to attach and reorganizes the chain to end in the side chain node.
    method Reorganize(node: BlockNode, dryRun: bool) returns (ok: bool)
      requires Ready() && Known(node) && !node.inMainChain && forall h :: h in index ==> index[h].parent != bestChain
      modifies this`db, this`index, this`blockCache, this`bestChain
      modifies index.Values`inMainChain, index.Values`mint, index.Values`moneySupply
      ensures ok <==> SidePasses(net, old(db), Blocks(Path(node)))
      ensures !ok || dryRun ==> unchanged(this) && forall n :: n in index.Values ==> unchanged(n)
      ensures Ready() && index == old(index)
      ensures ok && !dryRun ==> bestChain == node
    {
      hide IsTree, Main, Cache, Validated, WellPlaced, Splits, Target, SidePasses, PassesFrom;
      var detachNodes, attachNodes;
      ghost var fork;
      detachNodes, attachNodes, fork := GetReorganizeNodes(node);
      ReorganizeFacts(node, detachNodes, attachNodes, fork);
      SideIsAboveFork(node, detachNodes, attachNodes, fork);
      ok := ReorganizeChain(detachNodes, attachNodes, dryRun, node, fork);
    }

    // A new node's path and the database begin with the root.
    lemma SameRoot(node: BlockNode, block: Block)
      requires Ready() && Attachable(node, block)
      ensures Path(node)[0] == Path(bestChain)[0] && Validated(net, db) && |db| > 0 && db[0] == Path(bestChain)[0].block
    {
      hide IsTree, Validated, MoneySupply, Cache, Sane, NoReuse;
      KnownFacts(node.parent);
      KnownFacts(bestChain);
    }

    lemma SideFacts(node: BlockNode, block: Block)
      requires Valid() && Attachable(node, block) && node.hash !in index && node.parent != bestChain
      ensures bestChain != null && node.parent != null && index[node.parent.hash] == node.parent
      ensures forall c :: c in node.parent.children ==> c.hash != node.hash
      ensures index[node.hash := node] - {node.hash} == index
      ensures node.hash !in blockCache && blockCache[node.hash := block] - {node.hash} == blockCache
      ensures RemoveFirst(node.parent.children + [node], node.hash) == node.parent.children
    {
      hide IsTree, Main, Validated, Sane, NoReuse;
      StrangerIsNoChild(node);
      RemoveAppended(node.parent.children, node);
    }

    // A branch with more work leaves the main chain strictly below its tip, and its fork is validated.
    lemma ReorganizeFacts(node: BlockNode, detachNodes: seq<BlockNode>, attachNodes: seq<BlockNode>, fork: nat)
      requires Ready() && Known(node) && Splits(node, detachNodes, attachNodes, fork) && !node.inMainChain
      requires forall h :: h in index ==> index[h].parent != bestChain
      ensures Target(node, fork) && detachNodes != [] && attachNodes != []
    {
      hide Tree, MoneySupply, Sane, NoReuse, ConnectOk;
      SplitBlocks(node, detachNodes, attachNodes, fork);
      ValidatedPrefix(net, db, fork);
      KnownFacts(node);
      KnownFacts(bestChain);
      var main, side := Path(bestChain), Path(node);
      assert main[fork - 1] == main[..fork][fork - 1] == side[..fork][fork - 1] == side[fork - 1];
      assert fork < |side| && fork < |main| by {
        if fork < |side| {
          PathAt(node, fork);
        }
      }
    }

    // The branch of ConnectBestChain in which the block extends the main chain.
    method ExtendMain(node: BlockNode, block: Block, dryRun: bool) returns (ok: bool)
      requires Valid() && Attachable(node, block) && node.hash !in index && node.parent == bestChain
      requires !node.inMainChain && node.children == [] && node.offered == db
      modifies this`db, this`index, this`bestChain, bestChain`children, node`inMainChain, node`mint, node`moneySupply
      ensures Valid()
      ensures ok <==> Connectable(net, old(db), old(db), block)
      ensures !ok || dryRun ==> unchanged(this) && unchanged(old(bestChain)) && unchanged(node)
      ensures ok && !dryRun ==> bestChain == node && index == old(index)[node.hash := node]
      ensures node.parent.workSum <= node.workSum
    {
      hide IsTree, Main, Cache, Validated, Connectable, MoneySupply, FlowOn, Sane, NoReuse, WellPlaced, IsOptimal;
      hide ChildrenBut, Children, Path, Blocks;
      ExtendFacts(node, block);
      var verdict := CheckConnectBlock(node, block);
      if verdict.Err? {
        return false;
      }
      if dryRun {
        return true;
      }
      ok := ConnectTip(node, block);
    }

    // Connects a block that passed its checks on top of the tip and lists it there.
    method ConnectTip(node: BlockNode, block: Block) returns (ok: bool)
      requires Valid() && Attachable(node, block) && node.hash !in index && node.parent == bestChain
      requires !node.inMainChain && node.children == [] && Passed(net, db, block) && node.offered == db
      modifies this`db, this`index, this`bestChain, bestChain`children, node`inMainChain, node`mint, node`moneySupply
      ensures ok && Valid() && bestChain == node && index == old(index)[node.hash := node]
    {
      hide IsTree, Main, Cache, Validated, Passed, MoneySupply, FlowOn, Sane, NoReuse, WellPlaced, IsOptimal;
      hide ChildrenBut, Children, Path, Blocks;
      ExtendFacts(node, block);
      SameRoot(node, block);
      NewTipOptimal(net, index, root, bestChain, node);
      StrangerIsNoChild(node);
      ok := ConnectBlock(node, block);
      if !ok {
        return;
      }
      IndexedButNotListed(node);
      CacheKept(node);
      AppendChild(node);
    }

    // Indexing a main-chain node leaves the side chain cache right.
    twostate lemma CacheKept(node: BlockNode)
      requires old(Cache()) && blockCache == old(blockCache) && node.inMainChain
      requires node.hash !in old(index) && index == old(index)[node.hash := node]
      requires forall h :: h in old(index) ==> old(index)[h].inMainChain == old(index[h].inMainChain)
      ensures Cache()
    {
    }

    // The child lists are right except that a new node is not yet in its parent's.
    ghost predicate ChildrenBut(node: BlockNode)
      reads this`index, index.Values`children
    {
      && (forall h, c :: h in index && c in index[h].children ==> Known(c) && c.parent == index[h])
      && (forall h :: h in index && index[h] != node && index[h].parent != null ==>
            Known(index[h].parent) && index[h] in index[h].parent.children)
      && (forall h :: h in index ==> NoRepeats(index[h].children) && node !in index[h].children)
    }

    method AppendChild(node: BlockNode)
      requires Known(node) && node.parent != null && Known(node.parent) && ChildrenBut(node)
      modifies node.parent`children
      ensures Children() && node.parent.children == old(node.parent.children) + [node]
    {
      hide NoRepeats;
      AppendedOnce(node.parent.children, node);
      node.parent.children := node.parent.children + [node];
    }

    // Stores a side chain block: cache, index and its parent's child list.
    method AddToSideChain(node: BlockNode, block: Block)
      requires Valid() && Attachable(node, block) && node.hash !in index && node.parent != bestChain
      requires !node.inMainChain && node.children == []
      modifies this`index, this`blockCache, node`inMainChain, node.parent`children
      ensures Ready() && Children() && !node.inMainChain
      ensures index == old(index)[node.hash := node] && blockCache == old(blockCache)[node.hash := block]
      ensures node.parent.children == old(node.parent.children) + [node]
    {
      hide IsTree, Main, Cache, Validated, Sane, NoReuse, WellPlaced, IsOptimal, ChildrenBut, Children;
      ExtendFacts(node, block);
      StrangerIsNoChild(node);
      TreeGrows(net, index, root, node);
      MainFacts();
      StrangerOffMain(node);
      blockCache := blockCache[node.hash := block];
      index := index[node.hash := node];
      node.inMainChain := false;
      IndexedButNotListed(node);
      SideChainKept(node);
      AppendChild(node);
    }

    // Indexing and caching a side chain node keeps the main chain and the cache right.
    twostate lemma SideChainKept(node: BlockNode)
      requires old(Main()) && old(Cache()) && bestChain == old(bestChain) && db == old(db)
      requires node.hash !in old(index) && index == old(index)[node.hash := node] && node !in Path(bestChain)
      requires blockCache == old(blockCache)[node.hash := node.block] && !node.inMainChain
      requires forall h :: h in old(index) ==> old(index)[h].inMainChain == old(index[h].inMainChain)
      requires forall h :: h in old(index) ==> old(index)[h].moneySupply == old(index[h].moneySupply)
      ensures Main() && Cache()
    {
      hide Validated, MoneySupply;
    }

    // What the deferred function of a dry run takes back.
    method RemoveFromSideChain(node: BlockNode)
      requires Known(node) && node.parent != null && Known(node.parent) && Children()
      modifies this`index, this`blockCache, node.parent`children
      ensures index == old(index) - {node.hash} && blockCache == old(blockCache) - {node.hash}
      ensures node.parent.children == RemoveFirst(old(node.parent.children), node.hash)
    {
      node.parent.children := RemoveChildNode(node.parent.children, node);
      index := index - {node.hash};
      blockCache := blockCache - {node.hash};
    }

    lemma StrangerOffMain(node: BlockNode)
      requires Tree() && Main() && node.hash !in index
      ensures node !in Path(bestChain)
    {
      hide Tree, Validated, MoneySupply;
      if node in Path(bestChain) {
        OnPath(bestChain, node);
      }
    }

    lemma ExtendFacts(node: BlockNode, block: Block)
      requires Valid() && Attachable(node, block) && node.parent != null
      ensures node.parent.workSum <= node.workSum && (node.parent == bestChain ==> Checkable(node, block))
      ensures node.parent == bestChain ==> Blocks(Path(node.parent)) == db && block.prevHash == bestChain.hash
      ensures node.parent == bestChain ==> Cache()
      ensures forall h :: h in index ==> index[h].hash == h
      ensures node.hash !in index ==> forall h :: h in index ==> index[h] != node
    {
      hide Sound, Validated, MoneySupply, Sane, NoReuse;
      AttachableFacts(node, block);
    }

    // A node that is not indexed is in no child list.
    lemma StrangerIsNoChild(node: BlockNode)
      requires Children() && node.hash !in index
      ensures forall h, c :: h in index && c in index[h].children ==> c.hash != node.hash
    {
      forall h, c | h in index && c in index[h].children ensures c.hash != node.hash {
        assert Known(c);
      }
    }

    // Indexing a new node leaves only its own entry in its parent's list missing.
    twostate lemma IndexedButNotListed(node: BlockNode)
      requires old(Children()) && node.hash !in old(index) && index == old(index)[node.hash := node]
      requires forall h :: h in old(index) ==> old(index)[h].children == old(index[h].children)
      requires node.children == [] && node.parent != null && Indexed(old(index), node.parent)
      ensures Known(node) && Known(node.parent) && ChildrenBut(node)
    {
      forall h, c | h in index && c in index[h].children ensures Known(c) && c.parent == index[h] && c != node {
        assert h in old(index) && c in old(index[h].children);
        assert old(Known(c) && c.parent == index[h]);
      }
      forall h | h in index && index[h] != node && index[h].parent != null
        ensures Known(index[h].parent) && index[h] in index[h].parent.children
      {
        assert h in old(index) && old(Known(index[h].parent));
      }
    }
  }

  // The branch of a node passed its checks beside the main chain of the moment when the node was made.
  ghost predicate PassedWhenOffered(net: Network, n: BlockNode) {
    SidePasses(net, n.offered, Blocks(Path(n)))
  }

  // The main chain a node was offered beside is a validated chain from genesis.
  ghost predicate Recorded(net: Network, n: BlockNode, genesis: Block) {
    Validated(net, n.offered) && n.offered[0] == genesis
  }

  /** The tip has at least the work of every indexed node whose branch passed when the node was made, and no
      children. */
  ghost predicate IsOptimal(net: Network, index: map<Hash, BlockNode>, tip: BlockNode) {
    && (forall h :: h in index && PassedWhenOffered(net, index[h]) ==> index[h].workSum <= tip.workSum)
    && (forall h :: h in index ==> Recorded(net, index[h], Path(tip)[0].block))
    && (forall h :: h in index ==> index[h].parent != tip)
  }

  lemma LeafGrows(net: Network, index: map<Hash, BlockNode>, tip: BlockNode, node: BlockNode)
    requires IsOptimal(net, index, tip) && node.parent != tip
    ensures var grown := index[node.hash := node]; forall h :: h in grown ==> grown[h].parent != tip
  {
    hide Validated;
  }

  lemma {:induction false} ParentIndexed(net: Network, index: map<Hash, BlockNode>, root: BlockNode, n: BlockNode)
    requires IsTree(net, index, root) && Indexed(index, n) && n.parent != null
    ensures Indexed(index, n.parent)
  {
    hide Sane, NoReuse;
    assert n.ancestors[|n.ancestors| - 1] == n.parent;
  }

  // A new node becomes the tip.
  lemma {:induction false} NewTipOptimal(net: Network, index: map<Hash, BlockNode>, root: BlockNode, tip: BlockNode,
                                         node: BlockNode)
    requires IsTree(net, index, root) && IsOptimal(net, index, tip) && tip.workSum <= node.workSum
    requires node.hash !in index && node.parent != null && Indexed(index, node.parent)
    requires Recorded(net, node, Path(tip)[0].block) && Path(node)[0] == Path(tip)[0]
    ensures IsOptimal(net, index[node.hash := node], node)
  {
    hide Recorded, Sound, PassedWhenOffered;
    forall h | h in index ensures index[h].parent != node {
      if index[h].parent != null {
        ParentIndexed(net, index, root, index[h]);
      }
    }
  }

  // A new node that does not become the tip has no more work than the tip, or a branch that fails its checks.
  lemma OldTipOptimal(net: Network, index: map<Hash, BlockNode>, tip: BlockNode, node: BlockNode)
    requires IsOptimal(net, index, tip) && node.parent != tip && Recorded(net, node, Path(tip)[0].block)
    requires node.workSum <= tip.workSum || !PassedWhenOffered(net, node)
    ensures IsOptimal(net, index[node.hash := node], tip)
  {
    hide Validated;
  }

  function RemoveFirst(children: seq<BlockNode>, h: Hash): seq<BlockNode> {
    if children == [] then []
    else if children[0].hash == h then children[1..]
    else [children[0]] + RemoveFirst(children[1..], h)
  }

  // Removing a child that was appended last, under a hash no other child has, restores the list.
  lemma {:induction false} RemoveAppended(children: seq<BlockNode>, node: BlockNode)
    requires forall i :: 0 <= i < |children| ==> children[i].hash != node.hash
    ensures RemoveFirst(children + [node], node.hash) == children
  {
    if children != [] {
      assert (children + [node])[1..] == children[1..] + [node];
      RemoveAppended(children[1..], node);
    }
  }

  lemma {:induction false} KeptChild(children: seq<BlockNode>, i: nat, h: Hash)
    requires i < |children| && children[i].hash != h
    ensures children[..i] + RemoveFirst(children[i..], h) == children[..i + 1] + RemoveFirst(children[i + 1..], h)
  {
    assert children[i..][1..] == children[i + 1..];
    var rest := RemoveFirst(children[i + 1..], h);
    assert children[..i] + ([children[i]] + rest) == children[..i + 1] + rest;
  }

  /** removeChildNode: the list without its first child of that hash. */
  method RemoveChildNode(children: seq<BlockNode>, node: BlockNode?) returns (rest: seq<BlockNode>)
    ensures rest == if node == null then children else RemoveFirst(children, node.hash)
  {
    if node == null {
      return children;
    }
    for i := 0 to |children|
      invariant RemoveFirst(children, node.hash) == children[..i] + RemoveFirst(children[i..], node.hash)
    {
      if children[i].hash == node.hash {
        return children[..i] + children[i + 1..];
      }
      KeptChild(children, i, node.hash);
    }
    assert children[..|children|] == children;
    return children;
  }

  lemma AppendedOnce(nodes: seq<BlockNode>, node: BlockNode)
    requires NoRepeats(nodes) && node !in nodes
    ensures NoRepeats(nodes + [node])
  {
  }

  ghost predicate NoRepeats(nodes: seq<BlockNode>) {
    forall i, j :: 0 <= i < j < |nodes| ==> nodes[i] != nodes[j]
  }

  // Every block of a chain from position `from` on passes its checks while `main` is the main chain.
  ghost predicate PassesFrom(net: Network, main: seq<Block>, chain: seq<Block>, from: nat) {
    forall j :: from <= j < |chain| ==> Connectable(net, main, chain[..j], chain[j])
  }

  lemma NeededAreInputs(b: Block)
    ensures Needed(b) <= InputHashes(b)
  {
    forall h | h in Needed(b) ensures h in InputHashes(b) { NeededIsInput(b, h); }
  }

  lemma ViewsAreReplays(prefix: seq<Block>, detached: seq<Block>, target: seq<Block>, txSet: set<Hash>)
    requires NoReuse(Steps(prefix + detached)) && |prefix| <= |target| && prefix == target[..|prefix|]
    requires forall h :: h in txSet ==> Legal(prefix + detached, h)
    ensures ViewStore(prefix, detached, target[|prefix|..], txSet) == Replays(target, txSet)
  {
    assert target == prefix + target[|prefix|..];
    forall h | h in txSet ensures View(prefix, detached, target[|prefix|..], h) == Replay(target, h) {
      ViewWithoutReuse(prefix, detached, target[|prefix|..], h);
    }
  }

  function FindBlock(db: seq<Block>, h: Hash): Option<Block> {
    if db == [] then None
    else if db[|db| - 1].hash == h then Some(db[|db| - 1])
    else FindBlock(db[..|db| - 1], h)
  }

  lemma {:induction false} FindBlockIs(db: seq<Block>, i: nat)
    requires i < |db| && forall j :: 0 <= j < |db| && j != i ==> db[j].hash != db[i].hash
    ensures FindBlock(db, db[i].hash) == Some(db[i])
  {
    if i < |db| - 1 {
      FindBlockIs(db[..|db| - 1], i);
    }
  }

  lemma ReverseNothing(path: seq<BlockNode>)
    ensures IsReverse([], path[|path|..])
  {
  }

  lemma ReverseLength(a: seq<BlockNode>, b: seq<BlockNode>)
    requires IsReverse(a, b)
    ensures |a| == |b|
  {
  }

  lemma ReverseSnoc(a: seq<BlockNode>, path: seq<BlockNode>, i: nat)
    requires i < |path| && IsReverse(a, path[i + 1..])
    ensures IsReverse(a + [path[i]], path[i..])
  {
  }

  ghost predicate IsReverse(a: seq<BlockNode>, b: seq<BlockNode>) {
    |a| == |b| && forall i :: 0 <= i < |a| ==> a[i] == b[|b| - 1 - i]
  }
}
