/** Transaction views: connecting and disconnecting blocks in a TxStore (txlookup.go), and when the
    view computed by undoing and redoing blocks is the replay of the requested chain. */
module TxLookup {
  import opened Ledger

  // ---------------------------------------------------------------- what a pass over a block does

  predicate SpendsOutput(steps: seq<Step>, h: Hash, index: nat) {
    exists p, k :: 0 <= p < |steps| && 0 <= k < |steps[p].tx.ins|
                   && steps[p].tx.ins[k].prev == OutPoint(h, index)
  }

  predicate Names(ins: seq<TxIn>, h: Hash, index: nat) {
    exists k :: 0 <= k < |ins| && ins[k].prev == OutPoint(h, index)
  }

  lemma NamesSnoc(front: seq<TxIn>, last: TxIn, h: Hash, index: nat)
    ensures Names(front + [last], h, index) <==> Names(front, h, index) || last.prev == OutPoint(h, index)
  {
    assert (front + [last])[|front|] == last;
    forall i | 0 <= i < |front| ensures front[i] == (front + [last])[i] {}
  }

  lemma {:induction false} InputsPointwise(e: TxData, h: Hash, ins: seq<TxIn>, i: nat)
    requires e.Present? && i < |e.spent|
    ensures var c := SpendInputs(e, h, ins);
      && c.Present? && c.tx == e.tx && c.height == e.height && |c.spent| == |e.spent|
      && (c.spent[i] <==> e.spent[i] || Names(ins, h, i))
    ensures var d := UnspendInputs(e, h, ins);
      && d.Present? && d.tx == e.tx && d.height == e.height && |d.spent| == |e.spent|
      && (d.spent[i] <==> e.spent[i] && !Names(ins, h, i))
  {
    if ins != [] {
      var front, last := ins[..|ins| - 1], ins[|ins| - 1];
      InputsPointwise(e, h, front, i);
      NamesSnoc(front, last, h, i);
      assert ins == front + [last];
    }
  }

  lemma SpendsSnoc(front: seq<Step>, last: Step, h: Hash, i: nat)
    ensures SpendsOutput(front + [last], h, i) <==> SpendsOutput(front, h, i) || Names(last.tx.ins, h, i)
  {
    var steps := front + [last];
    assert steps[|front|] == last;
    forall p | 0 <= p < |front| ensures front[p] == steps[p] {}
    if Names(last.tx.ins, h, i) {
      var k :| 0 <= k < |last.tx.ins| && last.tx.ins[k].prev == OutPoint(h, i);
      assert steps[|front|].tx.ins[k].prev == OutPoint(h, i);
    }
    if SpendsOutput(front, h, i) {
      var p, k :| 0 <= p < |front| && 0 <= k < |front[p].tx.ins| && front[p].tx.ins[k].prev == OutPoint(h, i);
      assert steps[p].tx.ins[k].prev == OutPoint(h, i);
    }
  }

  // Over blocks that do not create `h`, connecting sets and disconnecting clears exactly the outputs
  // those blocks name.
  lemma {:induction false} StepsPointwise(e: TxData, h: Hash, steps: seq<Step>, i: nat)
    requires e.Present? && i < |e.spent| && !Creates(steps, h)
    ensures var c := ConnectSteps(e, h, steps);
      && c.Present? && c.tx == e.tx && c.height == e.height && |c.spent| == |e.spent|
      && (c.spent[i] <==> e.spent[i] || SpendsOutput(steps, h, i))
    ensures var d := DisconnectSteps(e, h, steps);
      && d.Present? && d.tx == e.tx && d.height == e.height && |d.spent| == |e.spent|
      && (d.spent[i] <==> e.spent[i] && !SpendsOutput(steps, h, i))
  {
    if steps != [] {
      var front, last := steps[..|steps| - 1], steps[|steps| - 1];
      assert steps == front + [last];
      CreatesSnoc(front, last, h);
      StepsPointwise(e, h, front, i);
      SpendsSnoc(front, last, h, i);
      InputsPointwise(ConnectSteps(e, h, front), h, last.tx.ins, i);
      InputsPointwise(DisconnectSteps(e, h, front), h, last.tx.ins, i);
    }
  }

  // Connecting and disconnecting without outputs to mark.
  lemma {:induction false} StepsWithoutOutputs(e: TxData, h: Hash, steps: seq<Step>)
    requires (e.Present? ==> e.spent == []) && !Creates(steps, h)
    ensures ConnectSteps(e, h, steps) == e && DisconnectSteps(e, h, steps) == e
  {
    if steps != [] {
      var front, last := steps[..|steps| - 1], steps[|steps| - 1];
      assert steps == front + [last];
      CreatesSnoc(front, last, h);
      StepsWithoutOutputs(e, h, front);
      InputsWithoutOutputs(e, h, last.tx.ins);
    }
  }

  lemma {:induction false} InputsWithoutOutputs(e: TxData, h: Hash, ins: seq<TxIn>)
    requires e.Present? ==> e.spent == []
    ensures SpendInputs(e, h, ins) == e && UnspendInputs(e, h, ins) == e
  {
    if ins != [] {
      InputsWithoutOutputs(e, h, ins[..|ins| - 1]);
    }
  }

  // A legal block names only outputs that were unspent before it.
  lemma {:induction false} LegalSpendsUnspent(e: TxData, h: Hash, steps: seq<Step>, i: nat)
    requires WellShaped(e) && !Creates(steps, h) && StepsLegal(e, h, steps)
    requires SpendsOutput(steps, h, i) && e.Present? && i < |e.spent|
    ensures !e.spent[i]
  {
    var front, last := steps[..|steps| - 1], steps[|steps| - 1];
    assert steps == front + [last];
    CreatesSnoc(front, last, h);
    SpendsSnoc(front, last, h, i);
    if SpendsOutput(front, h, i) {
      LegalSpendsUnspent(e, h, front, i);
    } else {
      StepsPointwise(e, h, front, i);
      LegalNamesUnspent(ConnectSteps(e, h, front), h, last.tx.ins, i);
    }
  }

  lemma {:induction false} LegalNamesUnspent(e: TxData, h: Hash, ins: seq<TxIn>, i: nat)
    requires || (|ins| == 1 && IsNullOutpoint(ins[0].prev) && (e.Present? ==> |e.spent| < NULL_INDEX))
             || InputsLegal(e, h, ins)
    requires Names(ins, h, i) && e.Present? && i < |e.spent|
    ensures !e.spent[i]
  {
    var front, last := ins[..|ins| - 1], ins[|ins| - 1];
    assert ins == front + [last];
    NamesSnoc(front, last, h, i);
    if Names(front, h, i) {
      LegalNamesUnspent(e, h, front, i);
    } else {
      InputsPointwise(e, h, front, i);
    }
  }

  // ---------------------------------------------------------------- undo inverts redo

  lemma EntryExtensional(e: TxData, d: TxData)
    requires e.Present? && d.Present? && e.tx == d.tx && e.height == d.height && |e.spent| == |d.spent|
    requires forall i :: 0 <= i < |e.spent| ==> e.spent[i] == d.spent[i]
    ensures e == d
  {
    assert e.spent == d.spent;
  }

  // A missing record stays missing while blocks are disconnected.
  lemma {:induction false} DisconnectMissing(h: Hash, steps: seq<Step>)
    ensures DisconnectSteps(Missing, h, steps) == Missing
  {
    if steps != [] {
      DisconnectMissing(h, steps[..|steps| - 1]);
      InputsWithoutOutputs(Missing, h, steps[|steps| - 1].tx.ins);
    }
  }

  // Disconnecting a block that creates `h` leaves the record missing, whatever it was.
  lemma {:induction false} DisconnectCreator(e: TxData, h: Hash, steps: seq<Step>)
    requires Creates(steps, h)
    ensures DisconnectSteps(e, h, steps) == Missing
  {
    var front, last := steps[..|steps| - 1], steps[|steps| - 1];
    assert steps == front + [last];
    CreatesSnoc(front, last, h);
    if last.tx.hash != h {
      DisconnectCreator(e, h, front);
    }
    InputsWithoutOutputs(Missing, h, last.tx.ins);
  }

  /** Disconnecting a legal block undoes connecting it, although both passes scan the block forwards:
      the old record comes back exactly, unless the block itself created the transaction, in which
      case the record becomes missing. */
  lemma DisconnectInvertsConnect(e: TxData, h: Hash, steps: seq<Step>)
    requires WellShaped(e) && StepsLegal(e, h, steps)
    ensures DisconnectSteps(ConnectSteps(e, h, steps), h, steps)
         == if Creates(steps, h) then Missing else e
  {
    var c := ConnectSteps(e, h, steps);
    if Creates(steps, h) {
      DisconnectCreator(c, h, steps);
    } else if e.Missing? || e.spent == [] {
      StepsWithoutOutputs(e, h, steps);
    } else {
      StepsPointwise(e, h, steps, 0);
      StepsPointwise(c, h, steps, 0);
      var d := DisconnectSteps(c, h, steps);
      forall i | 0 <= i < |e.spent| ensures d.spent[i] == e.spent[i] {
        StepsPointwise(e, h, steps, i);
        StepsPointwise(c, h, steps, i);
        if SpendsOutput(steps, h, i) {
          LegalSpendsUnspent(e, h, steps, i);
        }
      }
      EntryExtensional(d, e);
    }
  }

  // ---------------------------------------------------------------- views across a fork

  /** Disconnects a run of blocks, the last one first. */
  function UndoBlocks(e: TxData, h: Hash, base: nat, blocks: seq<Block>): TxData
    decreases |blocks|
  {
    if blocks == [] then e
    else
      var n := |blocks| - 1;
      UndoBlocks(DisconnectSteps(e, h, StepsAt(blocks[n].txs, base + n)), h, base, blocks[..n])
  }

  /** The record of `h` that fetchTxStore computes for a node whose branch leaves the main chain
      `prefix + detached` after `prefix` and continues with `attached`. */
  function View(prefix: seq<Block>, detached: seq<Block>, attached: seq<Block>, h: Hash): TxData {
    ConnectSteps(UndoBlocks(Replay(prefix + detached, h), h, |prefix|, detached), h,
                 StepsFrom(|prefix|, attached))
  }

  predicate Legal(chain: seq<Block>, h: Hash) {
    StepsLegal(Missing, h, Steps(chain))
  }

  lemma LegalPrefix(a: seq<Block>, b: seq<Block>, h: Hash)
    ensures Legal(a + b, h) <==> Legal(a, h) && StepsLegal(Replay(a, h), h, StepsFrom(|a|, b))
  {
    StepsFromConcat(0, a, b);
    StepsLegalConcat(Missing, h, Steps(a), StepsFrom(|a|, b));
  }

  lemma {:induction false} UndoMissing(h: Hash, base: nat, blocks: seq<Block>)
    ensures UndoBlocks(Missing, h, base, blocks) == Missing
  {
    if blocks != [] {
      var n := |blocks| - 1;
      DisconnectMissing(h, StepsAt(blocks[n].txs, base + n));
      UndoMissing(h, base, blocks[..n]);
    }
  }

  /** Undoing a whole run of legal main-chain blocks restores the record at the fork point, unless
      one of the undone blocks created the transaction: then the record is missing. */
  lemma {:induction false} UndoRestores(prefix: seq<Block>, detached: seq<Block>, h: Hash)
    requires Legal(prefix + detached, h)
    ensures UndoBlocks(Replay(prefix + detached, h), h, |prefix|, detached)
         == if Creates(StepsFrom(|prefix|, detached), h) then Missing else Replay(prefix, h)
  {
    hide StepsLegal, ConnectSteps, DisconnectSteps;
    if detached == [] {
      assert prefix + detached == prefix;
    } else {
      var n := |detached| - 1;
      var front, last := detached[..n], detached[n];
      assert prefix + detached == (prefix + front) + [last];
      LegalPrefix(prefix + front, [last], h);
      UndoLast(prefix + front, last, h);
      var steps := StepsAt(last.txs, |prefix| + n);
      CreatesConcat(StepsFrom(|prefix|, front), steps, h);
      if Creates(steps, h) {
        UndoMissing(h, |prefix|, front);
      } else {
        UndoRestores(prefix, front, h);
      }
    }
  }

  // Undoing the last block of a legal chain.
  lemma UndoLast(chain: seq<Block>, last: Block, h: Hash)
    requires Legal(chain + [last], h)
    ensures var steps := StepsAt(last.txs, |chain|);
            (DisconnectSteps(Replay(chain + [last], h), h, steps)
             == if Creates(steps, h) then Missing else Replay(chain, h))
  {
    var steps := StepsAt(last.txs, |chain|);
    StepsSnoc(chain, last);
    StepsLegalConcat(Missing, h, Steps(chain), steps);
    ReplaySnoc(chain, last, h);
    ReplayPresent(chain, h);
    DisconnectInvertsConnect(Replay(chain, h), h, steps);
  }

  // A run of blocks that creates `h` forgets whatever was known before.
  lemma {:induction false} CreatorForgets(e: TxData, d: TxData, h: Hash, steps: seq<Step>)
    requires Creates(steps, h)
    ensures ConnectSteps(e, h, steps) == ConnectSteps(d, h, steps)
  {
    var front, last := steps[..|steps| - 1], steps[|steps| - 1];
    assert steps == front + [last];
    CreatesSnoc(front, last, h);
    if last.tx.hash != h {
      CreatorForgets(e, d, h, front);
    }
  }

  /** Exactness of fetchTxStore across every fork shape: the view obtained by undoing the detached
      blocks and redoing the attached ones is the replay of the target chain, if and only if no
      requested transaction was created at or below the fork, created again by a detached block, and
      not created by an attached one. */
  lemma ViewIsReplay(prefix: seq<Block>, detached: seq<Block>, attached: seq<Block>, h: Hash)
    requires Legal(prefix + detached, h)
    ensures View(prefix, detached, attached, h) == Replay(prefix + attached, h)
       <==> !(&& Creates(Steps(prefix), h)
              && Creates(StepsFrom(|prefix|, detached), h)
              && !Creates(StepsFrom(|prefix|, attached), h))
  {
    var redo := StepsFrom(|prefix|, attached);
    UndoRestores(prefix, detached, h);
    ReplayConcat(prefix, attached, h);
    ReplayPresent(prefix, h);
    ConnectStepsShape(Replay(prefix, h), h, redo);
    ConnectStepsShape(Missing, h, redo);
    if Creates(redo, h) {
      CreatorForgets(Missing, Replay(prefix, h), h, redo);
    }
  }

  lemma NoReuseDisjoint(a: seq<Step>, b: seq<Step>, h: Hash)
    requires NoReuse(a + b)
    ensures !(Creates(a, h) && Creates(b, h))
  {
    forall i, j | 0 <= i < |a| && 0 <= j < |b| ensures a[i].tx.hash != b[j].tx.hash {
      assert (a + b)[i] == a[i] && (a + b)[|a| + j] == b[j];
    }
  }

  // When no transaction hash repeats along the main chain the condition always holds.
  lemma ViewWithoutReuse(prefix: seq<Block>, detached: seq<Block>, attached: seq<Block>, h: Hash)
    requires Legal(prefix + detached, h) && NoReuse(Steps(prefix + detached))
    ensures View(prefix, detached, attached, h) == Replay(prefix + attached, h)
  {
    StepsFromConcat(0, prefix, detached);
    NoReuseDisjoint(Steps(prefix), StepsFrom(|prefix|, detached), h);
    ViewIsReplay(prefix, detached, attached, h);
  }

  // Replaying one more block that holds a single transaction.
  lemma SingleTxBlock(chain: seq<Block>, b: Block, tx: Tx, h: Hash)
    requires b.txs == [tx]
    ensures Replay(chain + [b], h) == ConnectStep(Replay(chain, h), h, Step(tx, |chain|))
    ensures Legal(chain + [b], h)
       <==> Legal(chain, h) && StepLegal(Replay(chain, h), h, Step(tx, |chain|))
  {
    var steps := StepsAt(b.txs, |chain|);
    StepsSnoc(chain, b);
    ReplaySnoc(chain, b, h);
    StepsLegalConcat(Missing, h, Steps(chain), steps);
    assert steps == [Step(tx, |chain|)] && steps[..0] == [];
  }

  // ---------------------------------------------------------------- the store

  function SpentLength(e: TxData): nat {
    if e.Present? then |e.spent| else 0
  }

  // The range guard lets an index equal to the length through, and indexing the slice then panics.
  predicate InputsInRange(e: TxData, h: Hash, ins: seq<TxIn>) {
    forall k :: 0 <= k < |ins| && ins[k].prev.hash == h ==> ins[k].prev.index != SpentLength(e)
  }

  predicate ConnectInRange(e: TxData, h: Hash, steps: seq<Step>) {
    forall p :: 0 <= p < |steps| ==>
      InputsInRange(Created(ConnectSteps(e, h, steps[..p]), h, steps[p]), h, steps[p].tx.ins)
  }

  predicate DisconnectInRange(e: TxData, h: Hash, steps: seq<Step>) {
    forall p :: 0 <= p < |steps| ==>
      var d := Cleared(DisconnectSteps(e, h, steps[..p]), h, steps[p]);
      d.Present? ==> InputsInRange(d, h, steps[p].tx.ins)
  }

  class TxStore {
    var entries: map<Hash, TxData>

    constructor (entries: map<Hash, TxData>)
      ensures this.entries == entries
    {
      this.entries := entries;
    }

    method ConnectTransactions(block: Block, height: nat)
      requires forall h :: h in entries ==> ConnectInRange(entries[h], h, StepsAt(block.txs, height))
      modifies this
      ensures entries == map h | h in old(entries) ::
                           ConnectSteps(old(entries)[h], h, StepsAt(block.txs, height))
    {
      ghost var steps := StepsAt(block.txs, height);
      for t := 0 to |block.txs|
        invariant entries.Keys == old(entries).Keys
        invariant forall h :: h in entries ==> entries[h] == ConnectSteps(old(entries)[h], h, steps[..t])
      {
        forall h | h in entries
          ensures InputsInRange(Created(entries[h], h, steps[t]), h, steps[t].tx.ins)
          ensures ConnectSteps(old(entries)[h], h, steps[..t + 1]) == ConnectStep(entries[h], h, steps[t])
        {
          ConnectPrefix(old(entries)[h], h, steps, t);
        }
        ConnectTransaction(block.txs[t], height);
      }
      assert steps[..|block.txs|] == steps;
    }

    // One turn of the outer loop.
    method ConnectTransaction(tx: Tx, height: nat)
      requires forall h :: h in entries ==> InputsInRange(Created(entries[h], h, Step(tx, height)), h, tx.ins)
      modifies this
      ensures entries == map h | h in old(entries) :: ConnectStep(old(entries)[h], h, Step(tx, height))
    {
      hide InputsInRange, SpendInputs;
      if tx.hash in entries {
        entries := entries[tx.hash := Fresh(tx, height)];
      }
      assert forall h :: h in entries ==> entries[h] == Created(old(entries)[h], h, Step(tx, height));
      SpendOrigins(tx);
    }

    // The inner loop over one transaction's inputs.
    method SpendOrigins(tx: Tx)
      requires forall h :: h in entries ==> InputsInRange(entries[h], h, tx.ins)
      modifies this
      ensures entries == map h | h in old(entries) :: SpendInputs(old(entries)[h], h, tx.ins)
    {
      for k := 0 to |tx.ins|
        invariant entries.Keys == old(entries).Keys
        invariant forall h :: h in entries ==> entries[h] == SpendInputs(old(entries)[h], h, tx.ins[..k])
      {
        var origin, index := tx.ins[k].prev.hash, tx.ins[k].prev.index;
        ghost var before := entries;
        if origin in entries {
          SpendInputsShape(old(entries)[origin], origin, tx.ins[..k]);
          if index <= SpentLength(entries[origin]) {
            var e := entries[origin];
            entries := entries[origin := e.(spent := e.spent[index := true])];
          }
        }
        forall h | h in entries ensures entries[h] == SpendInputs(old(entries)[h], h, tx.ins[..k + 1]) {
          assert entries[h] == SpendInput(before[h], h, tx.ins[k]);
          assert tx.ins[..k + 1][..k] == tx.ins[..k];
        }
      }
      assert tx.ins[..|tx.ins|] == tx.ins;
    }

    method DisconnectTransactions(block: Block, height: nat)
      requires forall h :: h in entries ==> DisconnectInRange(entries[h], h, StepsAt(block.txs, height))
      modifies this
      ensures entries == map h | h in old(entries) ::
                           DisconnectSteps(old(entries)[h], h, StepsAt(block.txs, height))
    {
      ghost var steps := StepsAt(block.txs, height);
      for t := 0 to |block.txs|
        invariant entries.Keys == old(entries).Keys
        invariant forall h :: h in entries ==> entries[h] == DisconnectSteps(old(entries)[h], h, steps[..t])
      {
        forall h | h in entries
          ensures var d := Cleared(entries[h], h, steps[t]); d.Present? ==> InputsInRange(d, h, steps[t].tx.ins)
          ensures DisconnectSteps(old(entries)[h], h, steps[..t + 1]) == DisconnectStep(entries[h], h, steps[t])
        {
          DisconnectPrefix(old(entries)[h], h, steps, t);
        }
        DisconnectTransaction(block.txs[t], height);
      }
      assert steps[..|block.txs|] == steps;
    }

    // One turn of the outer loop.
    method DisconnectTransaction(tx: Tx, height: nat)
      requires forall h :: h in entries ==>
                 var d := Cleared(entries[h], h, Step(tx, height)); d.Present? ==> InputsInRange(d, h, tx.ins)
      modifies this
      ensures entries == map h | h in old(entries) :: DisconnectStep(old(entries)[h], h, Step(tx, height))
    {
      hide InputsInRange, UnspendInputs;
      if tx.hash in entries {
        entries := entries[tx.hash := Missing];
      }
      assert forall h :: h in entries ==> entries[h] == Cleared(old(entries)[h], h, Step(tx, height));
      UnspendOrigins(tx);
    }

    // The inner loop over one transaction's inputs.
    method UnspendOrigins(tx: Tx)
      requires forall h :: h in entries && entries[h].Present? ==> InputsInRange(entries[h], h, tx.ins)
      modifies this
      ensures entries == map h | h in old(entries) :: UnspendInputs(old(entries)[h], h, tx.ins)
    {
      for k := 0 to |tx.ins|
        invariant entries.Keys == old(entries).Keys
        invariant forall h :: h in entries ==> entries[h] == UnspendInputs(old(entries)[h], h, tx.ins[..k])
      {
        var origin, index := tx.ins[k].prev.hash, tx.ins[k].prev.index;
        ghost var before := entries;
        if origin in entries && entries[origin].Present? {
          UnspendInputsShape(old(entries)[origin], origin, tx.ins[..k]);
          if index <= |entries[origin].spent| {
            var e := entries[origin];
            entries := entries[origin := e.(spent := e.spent[index := false])];
          }
        }
        forall h | h in entries ensures entries[h] == UnspendInputs(old(entries)[h], h, tx.ins[..k + 1]) {
          assert entries[h] == UnspendInput(before[h], h, tx.ins[k]);
          assert tx.ins[..k + 1][..k] == tx.ins[..k];
        }
      }
      assert tx.ins[..|tx.ins|] == tx.ins;
    }
  }

  lemma ConnectPrefix(e: TxData, h: Hash, steps: seq<Step>, t: nat)
    requires t < |steps|
    ensures ConnectSteps(e, h, steps[..t + 1]) == ConnectStep(ConnectSteps(e, h, steps[..t]), h, steps[t])
  {
    assert steps[..t + 1][..t] == steps[..t];
  }

  lemma DisconnectPrefix(e: TxData, h: Hash, steps: seq<Step>, t: nat)
    requires t < |steps|
    ensures DisconnectSteps(e, h, steps[..t + 1]) == DisconnectStep(DisconnectSteps(e, h, steps[..t]), h, steps[t])
  {
    assert steps[..t + 1][..t] == steps[..t];
  }

  lemma {:induction false} UnspendInputsShape(e: TxData, h: Hash, ins: seq<TxIn>)
    ensures var r := UnspendInputs(e, h, ins);
      && r.Present? == e.Present?
      && (e.Present? ==> r.tx == e.tx && r.height == e.height && |r.spent| == |e.spent|)
  {
    if ins != [] {
      UnspendInputsShape(e, h, ins[..|ins| - 1]);
    }
  }

  // ---------------------------------------------------------------- legal blocks never panic

  lemma {:induction false} LegalInputsInRange(e: TxData, h: Hash, ins: seq<TxIn>)
    requires InputsLegal(e, h, ins)
    ensures forall k :: 0 <= k < |ins| && ins[k].prev.hash == h ==> e.Present? && ins[k].prev.index < |e.spent|
  {
    if ins != [] {
      LegalInputsInRange(e, h, ins[..|ins| - 1]);
      SpendInputsShape(e, h, ins[..|ins| - 1]);
      assert forall k :: 0 <= k < |ins| - 1 ==> ins[k] == ins[..|ins| - 1][k];
    }
  }

  lemma {:induction false} LegalConnectInRange(e: TxData, h: Hash, steps: seq<Step>)
    requires WellShaped(e) && StepsLegal(e, h, steps)
    ensures ConnectInRange(e, h, steps)
  {
    if steps != [] {
      var n := |steps| - 1;
      var front, last := steps[..n], steps[n];
      LegalConnectInRange(e, h, front);
      var c := ConnectSteps(e, h, front);
      ConnectStepsShape(e, h, front);
      if !IsCoinBase(last.tx) {
        LegalInputsInRange(c, h, last.tx.ins);
      }
      forall p | 0 <= p < |steps|
        ensures InputsInRange(Created(ConnectSteps(e, h, steps[..p]), h, steps[p]), h, steps[p].tx.ins)
      {
        if p < n {
          assert steps[..p] == front[..p] && steps[p] == front[p];
        } else {
          assert steps[..p] == front;
        }
      }
    }
  }

  // Passes over blocks that do not create `h` keep the shape of its record.
  lemma {:induction false} NeverCreated(e: TxData, h: Hash, steps: seq<Step>)
    ensures var d := DisconnectSteps(e, h, steps);
      && (WellShaped(e) ==> WellShaped(d))
      && (!Creates(steps, h) ==> d.Present? == e.Present? && SpentLength(d) == SpentLength(e))
    ensures !Creates(steps, h) ==>
      var c := ConnectSteps(e, h, steps);
      c.Present? == e.Present? && SpentLength(c) == SpentLength(e)
  {
    if steps != [] {
      var front, last := steps[..|steps| - 1], steps[|steps| - 1];
      assert steps == front + [last];
      CreatesSnoc(front, last, h);
      NeverCreated(e, h, front);
      SpendInputsShape(ConnectSteps(e, h, front), h, last.tx.ins);
      UnspendInputsShape(Cleared(DisconnectSteps(e, h, front), h, last), h, last.tx.ins);
    }
  }

  lemma {:induction false} LegalFirst(e: TxData, h: Hash, steps: seq<Step>)
    requires steps != [] && StepsLegal(e, h, steps)
    ensures StepLegal(e, h, steps[0])
  {
    assert steps == [steps[0]] + steps[1..];
    StepsLegalConcat(e, h, [steps[0]], steps[1..]);
    assert [steps[0]][..0] == [];
  }

  // Disconnecting a legal block whose new transactions were missing before it stays in range too.
  lemma LegalDisconnectInRange(e: TxData, h: Hash, steps: seq<Step>)
    requires WellShaped(e) && StepsLegal(e, h, steps)
    requires e.Present? ==> !Creates(steps, h)
    ensures DisconnectInRange(ConnectSteps(e, h, steps), h, steps)
  {
    forall p | 0 <= p < |steps|
      ensures var d := Cleared(DisconnectSteps(ConnectSteps(e, h, steps), h, steps[..p]), h, steps[p]);
              d.Present? ==> InputsInRange(d, h, steps[p].tx.ins)
    {
      if steps[p].tx.hash != h {
        LegalDisconnectInRangeAt(e, h, steps, p);
      }
    }
  }

  lemma LegalDisconnectInRangeAt(e: TxData, h: Hash, steps: seq<Step>, p: nat)
    requires WellShaped(e) && StepsLegal(e, h, steps) && p < |steps| && steps[p].tx.hash != h
    requires e.Present? ==> !Creates(steps, h)
    ensures var d := DisconnectSteps(ConnectSteps(e, h, steps), h, steps[..p]);
            d.Present? ==> InputsInRange(d, h, steps[p].tx.ins)
  {
    var front, rest := steps[..p], steps[p..];
    assert steps == front + rest;
    var c := ConnectSteps(e, h, steps);
    ConnectStepsShape(e, h, steps);
    NeverCreated(c, h, front);
    CreatesConcat(front, rest, h);
    if Creates(front, h) {
      DisconnectCreator(c, h, front);
    } else if !IsCoinBase(steps[p].tx) {
      NeverCreated(e, h, front);
      NeverCreated(e, h, steps);
      StepsLegalConcat(e, h, front, rest);
      LegalFirst(ConnectSteps(e, h, front), h, rest);
      LegalInputsInRange(ConnectSteps(e, h, front), h, steps[p].tx.ins);
    }
  }

  // ---------------------------------------------------------------- the loops of fetchTxStore

  lemma {:induction false} UndoCons(e: TxData, h: Hash, base: nat, b: Block, rest: seq<Block>)
    ensures UndoBlocks(e, h, base, [b] + rest)
         == DisconnectSteps(UndoBlocks(e, h, base + 1, rest), h, StepsAt(b.txs, base))
    decreases |rest|
  {
    hide DisconnectSteps;
    if rest == [] {
      assert [b] + rest == [b] && [b][..0] == [];
    } else {
      var n := |rest| - 1;
      assert ([b] + rest)[..|rest|] == [b] + rest[..n];
      UndoCons(DisconnectSteps(e, h, StepsAt(rest[n].txs, base + |rest|)), h, base, b, rest[..n]);
    }
  }

  // Without reuse, undoing down to height `m` gives the replay of the first `m` blocks.
  lemma UndoWithoutReuse(chain: seq<Block>, m: nat, h: Hash)
    requires m <= |chain| && Legal(chain, h) && NoReuse(Steps(chain))
    ensures UndoBlocks(Replay(chain, h), h, m, chain[m..]) == Replay(chain[..m], h)
  {
    hide StepsFrom, UndoBlocks, StepsLegal, ConnectSteps;
    var a, b := chain[..m], chain[m..];
    assert chain == a + b;
    StepsFromConcat(0, a, b);
    NoReuseDisjoint(Steps(a), StepsFrom(m, b), h);
    UndoRestores(a, b, h);
    ReplayPresent(a, h);
  }

  // One turn of the detaching loop: block `m - 1` is next.
  lemma DetachStep(chain: seq<Block>, m: nat, h: Hash)
    requires 1 <= m <= |chain| && Legal(chain, h) && NoReuse(Steps(chain))
    ensures var steps := StepsAt(chain[m - 1].txs, m - 1);
            var e := UndoBlocks(Replay(chain, h), h, m, chain[m..]);
            && DisconnectInRange(e, h, steps)
            && DisconnectSteps(e, h, steps) == UndoBlocks(Replay(chain, h), h, m - 1, chain[m - 1..])
  {
    hide Replay, Legal, NoReuse, StepsFrom, DisconnectInRange, DisconnectSteps;
    var b, before := chain[m - 1], chain[..m - 1];
    var steps := StepsAt(b.txs, m - 1);
    assert chain[m - 1..] == [b] + chain[m..];
    UndoCons(Replay(chain, h), h, m - 1, b, chain[m..]);
    UndoWithoutReuse(chain, m, h);
    assert chain[..m] == before + [b];
    assert chain == (before + [b]) + chain[m..];
    DetachInRange(before, b, chain[m..], h);
  }

  lemma DetachInRange(before: seq<Block>, b: Block, rest: seq<Block>, h: Hash)
    requires Legal(before + [b] + rest, h) && NoReuse(Steps(before + [b] + rest))
    ensures DisconnectInRange(Replay(before + [b], h), h, StepsAt(b.txs, |before|))
  {
    hide StepsLegal, ConnectSteps, DisconnectSteps, DisconnectInRange, StepsFrom, NoReuse, Creates, WellShaped;
    var steps := StepsAt(b.txs, |before|);
    LegalPrefix(before + [b], rest, h);
    StepsSnoc(before, b);
    StepsLegalConcat(Missing, h, Steps(before), steps);
    ReplaySnoc(before, b, h);
    ReplayPresent(before, h);
    StepsFromConcat(0, before + [b], rest);
    PrefixWithoutReuse(Steps(before + [b]), StepsFrom(|before + [b]|, rest));
    NoReuseDisjoint(Steps(before), steps, h);
    LegalDisconnectInRange(Replay(before, h), h, steps);
  }

  lemma PrefixWithoutReuse(a: seq<Step>, b: seq<Step>)
    requires NoReuse(a + b)
    ensures NoReuse(a)
  {
    forall i, j | 0 <= i < j < |a| ensures a[i].tx.hash != a[j].tx.hash {
      assert (a + b)[i] == a[i] && (a + b)[j] == a[j];
    }
  }

  // One turn of the attaching loop: the view so far is the replay of `before`, block `b` is next.
  lemma AttachStep(before: seq<Block>, b: Block, h: Hash)
    requires Legal(before + [b], h)
    ensures ConnectInRange(Replay(before, h), h, StepsAt(b.txs, |before|))
  {
    StepsSnoc(before, b);
    StepsLegalConcat(Missing, h, Steps(before), StepsAt(b.txs, |before|));
    ReplayPresent(before, h);
    LegalConnectInRange(Replay(before, h), h, StepsAt(b.txs, |before|));
  }

  lemma ViewSnoc(prefix: seq<Block>, detached: seq<Block>, attached: seq<Block>, b: Block, h: Hash)
    ensures View(prefix, detached, attached + [b], h)
         == ConnectSteps(View(prefix, detached, attached, h), h, StepsAt(b.txs, |prefix| + |attached|))
  {
    var e := UndoBlocks(Replay(prefix + detached, h), h, |prefix|, detached);
    var steps := StepsAt(b.txs, |prefix| + |attached|);
    assert (attached + [b])[..|attached|] == attached;
    ConnectStepsConcat(e, h, StepsFrom(|prefix|, attached), steps);
  }

  // The views of a whole set of transactions, part-way through undoing and redoing.
  ghost function UndoStore(chain: seq<Block>, m: nat, txSet: set<Hash>): map<Hash, TxData>
    requires m <= |chain|
  {
    map h | h in txSet :: UndoBlocks(Replay(chain, h), h, m, chain[m..])
  }

  ghost function ViewStore(prefix: seq<Block>, detached: seq<Block>, attached: seq<Block>, txSet: set<Hash>)
    : map<Hash, TxData>
  {
    map h | h in txSet :: View(prefix, detached, attached, h)
  }

  lemma UndoStoreStart(chain: seq<Block>, txSet: set<Hash>)
    ensures UndoStore(chain, |chain|, txSet) == map h | h in txSet :: Replay(chain, h)
  {
    assert chain[|chain|..] == [];
  }

  lemma UndoStoreDone(chain: seq<Block>, m: nat, txSet: set<Hash>)
    requires m <= |chain|
    ensures UndoStore(chain, m, txSet) == ViewStore(chain[..m], chain[m..], [], txSet)
  {
    assert chain[..m] + chain[m..] == chain;
    assert StepsFrom(m, []) == [];
  }

  method DisconnectOne(store: TxStore, block: Block, height: nat, ghost chain: seq<Block>, ghost txSet: set<Hash>)
    requires height < |chain| && block == chain[height]
    requires NoReuse(Steps(chain)) && forall h :: h in txSet ==> Legal(chain, h)
    requires store.entries == UndoStore(chain, height + 1, txSet)
    modifies store
    ensures store.entries == UndoStore(chain, height, txSet)
  {
    hide DisconnectInRange;
    forall h | h in txSet
      ensures DisconnectInRange(store.entries[h], h, StepsAt(block.txs, height))
      ensures DisconnectSteps(store.entries[h], h, StepsAt(block.txs, height)) == UndoStore(chain, height, txSet)[h]
    {
      DetachStep(chain, height + 1, h);
    }
    store.DisconnectTransactions(block, height);
  }

  method ConnectOne(store: TxStore, block: Block, height: nat,
                    ghost prefix: seq<Block>, ghost detached: seq<Block>, ghost attached: seq<Block>,
                    ghost txSet: set<Hash>)
    requires height == |prefix| + |attached|
    requires NoReuse(Steps(prefix + detached))
    requires forall h :: h in txSet ==> Legal(prefix + detached, h) && Legal(prefix + attached + [block], h)
    requires store.entries == ViewStore(prefix, detached, attached, txSet)
    modifies store
    ensures store.entries == ViewStore(prefix, detached, attached + [block], txSet)
  {
    hide ConnectInRange, View, Replay, Legal, NoReuse;
    forall h | h in txSet
      ensures ConnectInRange(store.entries[h], h, StepsAt(block.txs, height))
      ensures ConnectSteps(store.entries[h], h, StepsAt(block.txs, height))
           == View(prefix, detached, attached + [block], h)
    {
      ViewWithoutReuse(prefix, detached, attached, h);
      AttachStep(prefix + attached, block, h);
      ViewSnoc(prefix, detached, attached, block, h);
    }
    store.ConnectTransactions(block, height);
  }
}
