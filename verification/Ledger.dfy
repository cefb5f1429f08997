/** Blocks, transactions and the per-transaction spend record that every view of the chain is made of.

    A view (the source's TxStore) maps transaction hashes to spend records, and connecting or
    disconnecting a block acts on each record separately.  The functions here therefore follow one
    record, the one of hash `h`, through a sequence of transactions. */
module Ledger {
  import Arith


  // A block or transaction hash, identified with the number its bytes denote.
  type Hash = nat

  const ZERO_HASH: Hash := 0

  // Amounts in base units.
  const CENT := 10000
  const COIN := 100 * CENT

  // math.MaxUint32, the output index of a null outpoint.
  const NULL_INDEX := 0xffff_ffff

  datatype OutPoint = OutPoint(hash: Hash, index: nat)

  datatype TxIn = TxIn(prev: OutPoint, sigScript: nat)

  datatype TxOut = TxOut(value: int, pkScript: nat)

  // No value and an empty script, which has the number 0.
  const EMPTY_OUTPUT := TxOut(0, 0)

  // The payload limit keeps the number of outputs far below the null index.
  type Outputs = outs: seq<TxOut> | |outs| < NULL_INDEX

  // `coinStake` is the verdict of the wire library's IsCoinStake, which is not part of this model.
  datatype Tx = Tx(hash: Hash, ins: seq<TxIn>, outs: Outputs, time: int, size: nat, coinStake: bool)

  datatype Block = Block(hash: Hash, prevHash: Hash, txs: seq<Tx>, bits: Arith.U32, timestamp: int,
                         proofOfStake: bool)

  // A transaction of the chain together with the height of the block that holds it.
  datatype Step = Step(tx: Tx, height: nat)

  /** The record a view keeps for a requested hash: no such transaction, or the transaction, its
      height and which of its outputs are spent. */
  datatype TxData = Missing | Present(tx: Tx, height: nat, spent: seq<bool>)

  predicate IsNullOutpoint(prev: OutPoint) {
    prev.index == NULL_INDEX && prev.hash == ZERO_HASH
  }

  predicate IsCoinBase(tx: Tx) {
    |tx.ins| == 1 && IsNullOutpoint(tx.ins[0].prev)
  }

  function Unspent(tx: Tx): (spent: seq<bool>)
    ensures |spent| == |tx.outs|
    ensures forall i :: 0 <= i < |spent| ==> !spent[i]
  {
    seq(|tx.outs|, _ => false)
  }

  function Fresh(tx: Tx, height: nat): TxData {
    Present(tx, height, Unspent(tx))
  }

  // One flag per output.
  predicate WellShaped(e: TxData) {
    e.Present? ==> |e.spent| == |e.tx.outs|
  }

  // What isTransactionSpent answers for a found transaction; a missing one counts as spent.
  predicate FullySpent(e: TxData) {
    e.Present? ==> forall i :: 0 <= i < |e.spent| ==> e.spent[i]
  }

  predicate HasUnspent(e: TxData, index: nat) {
    e.Present? && index < |e.spent| && !e.spent[index]
  }

  // ---------------------------------------------------------------- connecting

  function MarkSpent(e: TxData, index: nat): TxData {
    if e.Present? && index < |e.spent| then e.(spent := e.spent[index := true]) else e
  }

  function SpendInput(e: TxData, h: Hash, txIn: TxIn): TxData {
    if txIn.prev.hash == h then MarkSpent(e, txIn.prev.index) else e
  }

  function SpendInputs(e: TxData, h: Hash, ins: seq<TxIn>): TxData {
    if ins == [] then e
    else SpendInput(SpendInputs(e, h, ins[..|ins| - 1]), h, ins[|ins| - 1])
  }

  function Created(e: TxData, h: Hash, s: Step): TxData {
    if s.tx.hash == h then Fresh(s.tx, s.height) else e
  }

  function ConnectStep(e: TxData, h: Hash, s: Step): TxData {
    SpendInputs(Created(e, h, s), h, s.tx.ins)
  }

  function ConnectSteps(e: TxData, h: Hash, steps: seq<Step>): TxData {
    if steps == [] then e
    else ConnectStep(ConnectSteps(e, h, steps[..|steps| - 1]), h, steps[|steps| - 1])
  }

  // ---------------------------------------------------------------- disconnecting

  function MarkUnspent(e: TxData, index: nat): TxData {
    if e.Present? && index < |e.spent| then e.(spent := e.spent[index := false]) else e
  }

  function UnspendInput(e: TxData, h: Hash, txIn: TxIn): TxData {
    if txIn.prev.hash == h then MarkUnspent(e, txIn.prev.index) else e
  }

  function UnspendInputs(e: TxData, h: Hash, ins: seq<TxIn>): TxData {
    if ins == [] then e
    else UnspendInput(UnspendInputs(e, h, ins[..|ins| - 1]), h, ins[|ins| - 1])
  }

  function Cleared(e: TxData, h: Hash, s: Step): TxData {
    if s.tx.hash == h then Missing else e
  }

  function DisconnectStep(e: TxData, h: Hash, s: Step): TxData {
    UnspendInputs(Cleared(e, h, s), h, s.tx.ins)
  }

  // Walks the block forwards, as the source does.
  function DisconnectSteps(e: TxData, h: Hash, steps: seq<Step>): TxData {
    if steps == [] then e
    else DisconnectStep(DisconnectSteps(e, h, steps[..|steps| - 1]), h, steps[|steps| - 1])
  }

  // ---------------------------------------------------------------- chains

  function StepsAt(txs: seq<Tx>, height: nat): (steps: seq<Step>)
    ensures |steps| == |txs|
    ensures forall i :: 0 <= i < |txs| ==> steps[i] == Step(txs[i], height)
  {
    seq(|txs|, i requires 0 <= i < |txs| => Step(txs[i], height))
  }

  // All transactions of a chain that starts at height `base`, in order.
  function StepsFrom(base: nat, chain: seq<Block>): seq<Step> {
    if chain == [] then []
    else StepsFrom(base, chain[..|chain| - 1]) + StepsAt(chain[|chain| - 1].txs, base + |chain| - 1)
  }

  function Steps(chain: seq<Block>): seq<Step> {
    StepsFrom(0, chain)
  }

  /** The record of `h` after replaying the whole chain from its first block.  This is what the
      database answers about its main chain, and the reference every other view is compared with. */
  function Replay(chain: seq<Block>, h: Hash): TxData {
    ConnectSteps(Missing, h, Steps(chain))
  }

  predicate Creates(steps: seq<Step>, h: Hash) {
    exists i :: 0 <= i < |steps| && steps[i].tx.hash == h
  }

  /** No transaction hash occurs twice along the chain. */
  predicate NoReuse(steps: seq<Step>) {
    forall i, j :: 0 <= i < j < |steps| ==> steps[i].tx.hash != steps[j].tx.hash
  }

  // ---------------------------------------------------------------- legal histories

  /** Every input that names `h` spends an output that exists and is unspent at that moment. */
  predicate InputsLegal(e: TxData, h: Hash, ins: seq<TxIn>) {
    if ins == [] then true
    else
      var last := ins[|ins| - 1];
      && InputsLegal(e, h, ins[..|ins| - 1])
      && (last.prev.hash == h ==> HasUnspent(SpendInputs(e, h, ins[..|ins| - 1]), last.prev.index))
  }

  /** A legal transaction creates only a hash whose previous holder is missing or fully spent, never
      spends its own outputs, and spends only existing unspent outputs. */
  predicate StepLegal(e: TxData, h: Hash, s: Step) {
    && (s.tx.hash == h ==> FullySpent(e))
    && (!IsCoinBase(s.tx) ==>
          && InputsLegal(e, h, s.tx.ins)
          && (s.tx.hash == h ==> forall i :: 0 <= i < |s.tx.ins| ==> s.tx.ins[i].prev.hash != h))
  }

  predicate StepsLegal(e: TxData, h: Hash, steps: seq<Step>) {
    if steps == [] then true
    else
      && StepsLegal(e, h, steps[..|steps| - 1])
      && StepLegal(ConnectSteps(e, h, steps[..|steps| - 1]), h, steps[|steps| - 1])
  }

  // ---------------------------------------------------------------- composition of the folds

  lemma {:induction false} ConnectStepsConcat(e: TxData, h: Hash, a: seq<Step>, b: seq<Step>)
    ensures ConnectSteps(e, h, a + b) == ConnectSteps(ConnectSteps(e, h, a), h, b)
  {
    if b == [] {
      assert a + b == a;
    } else {
      var front := b[..|b| - 1];
      ConnectStepsConcat(e, h, a, front);
      assert (a + b)[..|a + b| - 1] == a + front;
    }
  }

  lemma {:induction false} StepsLegalConcat(e: TxData, h: Hash, a: seq<Step>, b: seq<Step>)
    ensures StepsLegal(e, h, a + b)
        <==> StepsLegal(e, h, a) && StepsLegal(ConnectSteps(e, h, a), h, b)
  {
    if b == [] {
      assert a + b == a;
    } else {
      var front := b[..|b| - 1];
      StepsLegalConcat(e, h, a, front);
      ConnectStepsConcat(e, h, a, front);
      assert (a + b)[..|a + b| - 1] == a + front;
    }
  }

  lemma {:induction false} StepsFromConcat(base: nat, a: seq<Block>, b: seq<Block>)
    ensures StepsFrom(base, a + b) == StepsFrom(base, a) + StepsFrom(base + |a|, b)
  {
    if b == [] {
      assert a + b == a;
    } else {
      var front := b[..|b| - 1];
      StepsFromConcat(base, a, front);
      assert (a + b)[..|a + b| - 1] == a + front;
      var last := StepsAt(b[|b| - 1].txs, base + |a| + |b| - 1);
      assert (StepsFrom(base, a) + StepsFrom(base + |a|, front)) + last
          == StepsFrom(base, a) + (StepsFrom(base + |a|, front) + last);
    }
  }

  lemma StepsSnoc(chain: seq<Block>, b: Block)
    ensures Steps(chain + [b]) == Steps(chain) + StepsAt(b.txs, |chain|)
  {
    assert (chain + [b])[..|chain + [b]| - 1] == chain;
  }

  // The record after one more block is the record before it, connected with that block.
  lemma ReplaySnoc(chain: seq<Block>, b: Block, h: Hash)
    ensures Replay(chain + [b], h) == ConnectSteps(Replay(chain, h), h, StepsAt(b.txs, |chain|))
  {
    StepsSnoc(chain, b);
    ConnectStepsConcat(Missing, h, Steps(chain), StepsAt(b.txs, |chain|));
  }

  lemma ReplayConcat(a: seq<Block>, b: seq<Block>, h: Hash)
    ensures Replay(a + b, h) == ConnectSteps(Replay(a, h), h, StepsFrom(|a|, b))
  {
    StepsFromConcat(0, a, b);
    ConnectStepsConcat(Missing, h, Steps(a), StepsFrom(|a|, b));
  }

  // ---------------------------------------------------------------- shapes and presence

  lemma {:induction false} SpendInputsShape(e: TxData, h: Hash, ins: seq<TxIn>)
    ensures var r := SpendInputs(e, h, ins);
      && r.Present? == e.Present?
      && (e.Present? ==> r.tx == e.tx && r.height == e.height && |r.spent| == |e.spent|)
  {
    if ins != [] {
      SpendInputsShape(e, h, ins[..|ins| - 1]);
    }
  }

  lemma CreatesSnoc(front: seq<Step>, last: Step, h: Hash)
    ensures Creates(front + [last], h) <==> Creates(front, h) || last.tx.hash == h
  {
    assert (front + [last])[|front|] == last;
    forall i | 0 <= i < |front| ensures front[i] == (front + [last])[i] {}
  }

  lemma CreatesConcat(a: seq<Step>, b: seq<Step>, h: Hash)
    ensures Creates(a + b, h) <==> Creates(a, h) || Creates(b, h)
  {
    forall i | 0 <= i < |a| ensures a[i] == (a + b)[i] {}
    forall i | 0 <= i < |b| ensures b[i] == (a + b)[|a| + i] {}
  }

  lemma {:induction false} ConnectStepsShape(e: TxData, h: Hash, steps: seq<Step>)
    requires WellShaped(e)
    ensures WellShaped(ConnectSteps(e, h, steps))
    ensures ConnectSteps(e, h, steps).Present? <==> e.Present? || Creates(steps, h)
  {
    if steps != [] {
      var front, last := steps[..|steps| - 1], steps[|steps| - 1];
      ConnectStepsShape(e, h, front);
      SpendInputsShape(Created(ConnectSteps(e, h, front), h, last), h, last.tx.ins);
      CreatesSnoc(front, last, h);
      assert steps == front + [last];
    }
  }

  // A chain knows a transaction exactly when one of its blocks holds it.
  lemma ReplayPresent(chain: seq<Block>, h: Hash)
    ensures Replay(chain, h).Present? <==> Creates(Steps(chain), h)
    ensures WellShaped(Replay(chain, h))
  {
    ConnectStepsShape(Missing, h, Steps(chain));
  }

  // The null outpoint of a coinbase input lies outside every spend record.
  lemma SpendCoinBase(e: TxData, h: Hash, tx: Tx)
    requires IsCoinBase(tx) && WellShaped(e)
    ensures SpendInputs(e, h, tx.ins) == e && UnspendInputs(e, h, tx.ins) == e
  {
    assert tx.ins[..0] == [];
    assert SpendInputs(e, h, tx.ins[..0]) == e && UnspendInputs(e, h, tx.ins[..0]) == e;
  }
}
