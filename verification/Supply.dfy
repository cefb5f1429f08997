/** Mint and money supply (ppc.go): the amounts CalcMintAndMoneySupply records are conserved by the ledger and
    bounded by the reward rules. */
module Supply {
  import opened Ledger
  import opened TxLookup
  import opened Validate
  import opened Spending

  // ---------------------------------------------------------------- unspent value

  function UnspentBelow(e: TxData, n: nat): int
    requires WellShaped(e) && e.Present? && n <= |e.spent|
  {
    if n == 0 then 0
    else UnspentBelow(e, n - 1) + if e.spent[n - 1] then 0 else e.tx.outs[n - 1].value
  }

  function UnspentValue(e: TxData): int
    requires WellShaped(e)
  {
    if e.Missing? then 0 else UnspentBelow(e, |e.spent|)
  }

  ghost function Total(s: Store): int
    requires Shaped(s)
    decreases |s|
  {
    if s == map[] then 0
    else
      var h :| h in s;
      UnspentValue(s[h]) + Total(s - {h})
  }

  lemma {:induction false} TotalRemove(s: Store, h: Hash)
    requires Shaped(s) && h in s
    ensures Total(s) == UnspentValue(s[h]) + Total(s - {h})
    decreases |s|
  {
    var g :| g in s && Total(s) == UnspentValue(s[g]) + Total(s - {g});
    if g != h {
      TotalRemove(s - {g}, h);
      TotalRemove(s - {h}, g);
      assert s - {g} - {h} == s - {h} - {g};
    }
  }

  lemma TotalUpdate(s: Store, h: Hash, e: TxData)
    requires Shaped(s) && h in s && WellShaped(e)
    ensures Shaped(s[h := e]) && Total(s[h := e]) == Total(s) - UnspentValue(s[h]) + UnspentValue(e)
  {
    TotalRemove(s, h);
    TotalRemove(s[h := e], h);
    assert s[h := e] - {h} == s - {h};
  }

  // Requested hashes the chain does not know add nothing.
  lemma {:induction false} TotalMissing(s: Store, t: Store)
    requires Shaped(s) && Shaped(t) && t.Keys <= s.Keys
    requires forall h :: h in t ==> t[h] == s[h]
    requires forall h :: h in s && h !in t ==> s[h].Missing?
    ensures Total(s) == Total(t)
    decreases |s|
  {
    if s.Keys == t.Keys {
      assert s == t;
    } else {
      var h :| h in s && h !in t;
      TotalRemove(s, h);
      TotalMissing(s - {h}, t);
    }
  }

  lemma {:induction false} FullySpentIsWorthless(e: TxData, n: nat)
    requires WellShaped(e) && e.Present? && n <= |e.spent| && FullySpent(e)
    ensures UnspentBelow(e, n) == 0
  {
    if n > 0 {
      FullySpentIsWorthless(e, n - 1);
    }
  }

  lemma {:induction false} FreshIsWorthItsOutputs(tx: Tx, height: nat, n: nat)
    requires n <= |tx.outs|
    ensures UnspentBelow(Fresh(tx, height), n) == SumOutputs(tx.outs[..n])
  {
    if n > 0 {
      FreshIsWorthItsOutputs(tx, height, n - 1);
      assert tx.outs[..n][..n - 1] == tx.outs[..n - 1];
    }
  }

  lemma {:induction false} SpendingTakesValue(e: TxData, index: nat, n: nat)
    requires WellShaped(e) && HasUnspent(e, index) && n <= |e.spent|
    ensures UnspentBelow(MarkSpent(e, index), n)
         == UnspentBelow(e, n) - if index < n then e.tx.outs[index].value else 0
  {
    if n > 0 {
      SpendingTakesValue(e, index, n - 1);
    }
  }

  // ---------------------------------------------------------------- one transaction

  ghost function SpendAll(r: Store, ins: seq<TxIn>): Store {
    map h | h in r :: SpendInputs(r[h], h, ins)
  }

  ghost predicate AllLegal(r: Store, ins: seq<TxIn>) {
    && (forall h :: h in r ==> InputsLegal(r[h], h, ins))
    && (forall k :: 0 <= k < |ins| ==> ins[k].prev.hash in r)
  }

  lemma SpendAllShaped(r: Store, ins: seq<TxIn>)
    requires Shaped(r)
    ensures Shaped(SpendAll(r, ins))
  {
    forall h | h in r ensures WellShaped(SpendAll(r, ins)[h]) {
      SpendInputsShape(r[h], h, ins);
    }
  }

  // Legal inputs take exactly their value out of the ledger.
  lemma {:induction false} InputsTakeValue(r: Store, ins: seq<TxIn>)
    requires Shaped(r) && AllLegal(r, ins)
    ensures Shaped(SpendAll(r, ins)) && Total(SpendAll(r, ins)) == Total(r) - ValueIn(r, ins)
  {
    SpendAllShaped(r, ins);
    if ins == [] {
      assert SpendAll(r, ins) == r;
    } else {
      var front, last := ins[..|ins| - 1], ins[|ins| - 1];
      var h, index := last.prev.hash, last.prev.index;
      assert forall k :: 0 <= k < |front| ==> front[k] == ins[k];
      InputsTakeValue(r, front);
      var r' := SpendAll(r, front);
      SpendInputsShape(r[h], h, front);
      SpendingTakesValue(r'[h], index, |r'[h].spent|);
      TotalUpdate(r', h, MarkSpent(r'[h], index));
      assert SpendAll(r, ins) == r'[h := MarkSpent(r'[h], index)];
    }
  }

  ghost function CreateIn(r: Store, s: Step): Store {
    map h | h in r :: Created(r[h], h, s)
  }

  lemma CreationAddsValue(r: Store, s: Step)
    requires Shaped(r) && s.tx.hash in r && FullySpent(r[s.tx.hash])
    ensures Shaped(CreateIn(r, s)) && Total(CreateIn(r, s)) == Total(r) + SumOutputs(s.tx.outs)
  {
    var h, e := s.tx.hash, Fresh(s.tx, s.height);
    TotalUpdate(r, h, e);
    assert CreateIn(r, s) == r[h := e];
    FreshIsWorthItsOutputs(s.tx, s.height, |s.tx.outs|);
    assert s.tx.outs[..|s.tx.outs|] == s.tx.outs;
    if r[h].Present? {
      FullySpentIsWorthless(r[h], |r[h].spent|);
    }
  }

  ghost function StepRecords(r: Store, s: Step): Store {
    map h | h in r :: ConnectStep(r[h], h, s)
  }

  /** One legal transaction changes the total unspent value by its outputs minus its inputs. */
  lemma StepChangesTotal(r: Store, s: Step)
    requires Shaped(r) && s.tx.hash in r && (forall h :: h in r ==> StepLegal(r[h], h, s))
    requires !IsCoinBase(s.tx) ==> forall k :: 0 <= k < |s.tx.ins| ==> s.tx.ins[k].prev.hash in r
    ensures Shaped(StepRecords(r, s))
    ensures Total(StepRecords(r, s))
         == Total(r) + SumOutputs(s.tx.outs) - if IsCoinBase(s.tx) then 0 else ValueIn(r, s.tx.ins)
  {
    var c := CreateIn(r, s);
    CreationAddsValue(r, s);
    if IsCoinBase(s.tx) {
      forall h | h in r ensures StepRecords(r, s)[h] == c[h] { SpendCoinBase(c[h], h, s.tx); }
      assert StepRecords(r, s) == c;
    } else {
      forall h | h in c ensures InputsLegal(c[h], h, s.tx.ins) {
        if s.tx.hash == h {
          UnnamedInputs(c[h], h, s.tx.ins);
        }
      }
      InputsTakeValue(c, s.tx.ins);
      assert StepRecords(r, s) == SpendAll(c, s.tx.ins);
      SameValues(c, r, s.tx.ins);
    }
  }

  // Stores that agree on the named transactions give the inputs the same value.
  lemma {:induction false} SameValues(a: Store, b: Store, ins: seq<TxIn>)
    requires Shaped(a) && Shaped(b)
    requires forall k :: 0 <= k < |ins| ==> OriginValue(a, ins[k]) == OriginValue(b, ins[k])
    ensures ValueIn(a, ins) == ValueIn(b, ins)
  {
    if ins != [] {
      assert forall k :: 0 <= k < |ins| - 1 ==> ins[..|ins| - 1][k] == ins[k];
      SameValues(a, b, ins[..|ins| - 1]);
    }
  }

  // ---------------------------------------------------------------- one block

  datatype Flow = Flow(valueIn: int, valueOut: int, fees: int)

  /** The sums CalcMintAndMoneySupply accumulates over the transactions of a block. */
  function BlockFlow(s: Store, txs: seq<Tx>): Flow
    requires Shaped(s)
  {
    if txs == [] then Flow(0, 0, 0)
    else
      var f, tx := BlockFlow(s, txs[..|txs| - 1]), txs[|txs| - 1];
      var txOut := SumOutputs(tx.outs);
      if IsCoinBase(tx) then f.(valueOut := f.valueOut + txOut)
      else
        var txIn := ValueIn(s, tx.ins);
        Flow(f.valueIn + txIn, f.valueOut + txOut, f.fees + if tx.coinStake then 0 else txIn - txOut)
  }

  function Mint(f: Flow): int {
    f.valueOut - f.valueIn + f.fees
  }

  // The flow of a block on top of a chain.
  function FlowOn(chain: seq<Block>, b: Block): Flow {
    var view := Replays(chain, Needed(b));
    MergedShaped(b, |chain|, view);
    BlockFlow(Merged(b, |chain|, view), b.txs)
  }

  lemma TrackedInput(p: Params, b: Block, height: nat, h: Hash, e: TxData, s: Store, t: nat)
    requires Sane(b) && Shaped(s) && 1 <= t < |b.txs| && NamesHash(b.txs[t].ins, h)
    requires Tracks(b, height, h, e, s, t) && CheckTx(p, s, b.txs[t], height).0.Ok?
    ensures h in s && s[h].Present? && s[h] == ConnectSteps(e, h, StepsAt(b.txs, height)[..t])
  {
    NamedIsInput(b, t, h);
    AcceptedInputsKnown(p, s, b.txs[t], height, 0, 0);
  }

  // While a block is checked, an input's transaction in the store is the one the ledger has at that point.
  lemma {:induction false} TrackedOrigin(p: Params, b: Block, height: nat, h: Hash, e: TxData, s: Store, j: nat,
                                          fees: int, t: nat)
    requires Sane(b) && WellShaped(e) && Shaped(s) && 1 <= j <= t < |b.txs| && NamesHash(b.txs[t].ins, h)
    requires CreatedBefore(b, |b.txs|, h) ==> FullySpent(e)
    requires Tracks(b, height, h, e, s, j) && CheckTxsFrom(p, s, b.txs, height, j, fees).0.Ok?
    ensures var now := ConnectSteps(e, h, StepsAt(b.txs, height)[..t]);
            h in s && s[h].Present? && now.Present? && s[h].tx == now.tx
    decreases t - j
  {
    hide CheckInputsFrom, FeeVerdict, StepsLegal, StepLegal, InFlight, InputHashes, Needed;
    if j == t {
      TrackedInput(p, b, height, h, e, s, t);
    } else {
      TrackStep(p, b, height, h, e, s, j);
      var (verdict, s') := CheckTx(p, s, b.txs[j], height);
      TrackedOrigin(p, b, height, h, e, s', j + 1, fees + verdict.value, t);
      CheckKeepsOrigins(p, s, b.txs[j], height, 0, 0);
    }
  }

  lemma AcceptedOrigin(p: Params, chain: seq<Block>, b: Block, t: nat, h: Hash)
    requires Sane(b) && ConnectOk(p, chain, b) && 1 <= t < |b.txs| && NamesHash(b.txs[t].ins, h)
    ensures var now := ConnectSteps(Replay(chain, h), h, StepsAt(b.txs, |chain|)[..t]);
            var s := Merged(b, |chain|, Replays(chain, Needed(b)));
            h in s && s[h].Present? && now.Present? && s[h].tx == now.tx
  {
    var s := AcceptedTracks(p, chain, b, h);
    ReplayPresent(chain, h);
    TrackedOrigin(p, b, |chain|, h, Replay(chain, h), s, 1, 0, t);
  }

  // The records of a set of hashes part-way through a block.
  ghost function Records(chain: seq<Block>, b: Block, t: nat, hashes: set<Hash>): (r: Store)
    requires t <= |b.txs|
    ensures Shaped(r)
  {
    var done := StepsAt(b.txs, |chain|)[..t];
    (assert forall h :: WellShaped(ConnectSteps(Replay(chain, h), h, done)) by {
       forall h ensures WellShaped(ConnectSteps(Replay(chain, h), h, done)) {
         ReplayPresent(chain, h);
         ConnectStepsShape(Replay(chain, h), h, done);
       }
     }
     map h | h in hashes :: ConnectSteps(Replay(chain, h), h, done))
  }

  function CreatedHashes(steps: seq<Step>): set<Hash> {
    set i | 0 <= i < |steps| :: steps[i].tx.hash
  }

  lemma RecordsLegal(p: Params, chain: seq<Block>, b: Block, t: nat, h: Hash)
    requires Sane(b) && ConnectOk(p, chain, b) && t < |b.txs|
    ensures StepLegal(ConnectSteps(Replay(chain, h), h, StepsAt(b.txs, |chain|)[..t]), h, StepsAt(b.txs, |chain|)[t])
  {
    var steps := StepsAt(b.txs, |chain|);
    AcceptedIsLegal(p, chain, b, h);
    assert steps == steps[..t] + steps[t..];
    StepsLegalConcat(Replay(chain, h), h, steps[..t], steps[t..]);
    LegalFirst(ConnectSteps(Replay(chain, h), h, steps[..t]), h, steps[t..]);
  }

  // A record that is present belongs to a transaction of the chain or of the block so far.
  lemma PresentIsCreated(chain: seq<Block>, b: Block, t: nat, h: Hash)
    requires t <= |b.txs| && ConnectSteps(Replay(chain, h), h, StepsAt(b.txs, |chain|)[..t]).Present?
    ensures h in CreatedHashes(Steps(chain + [b]))
  {
    var done, all := StepsAt(b.txs, |chain|)[..t], StepsAt(b.txs, |chain|);
    StepsSnoc(chain, b);
    ReplayPresent(chain, h);
    ConnectStepsShape(Replay(chain, h), h, done);
    if Creates(done, h) {
      var i :| 0 <= i < |done| && done[i].tx.hash == h;
      assert (Steps(chain) + all)[|Steps(chain)| + i].tx.hash == h;
    } else {
      var i :| 0 <= i < |Steps(chain)| && Steps(chain)[i].tx.hash == h;
      assert (Steps(chain) + all)[i].tx.hash == h;
    }
  }

  lemma {:induction false} OriginsAgree(p: Params, chain: seq<Block>, b: Block, t: nat)
    requires Sane(b) && ConnectOk(p, chain, b) && 1 <= t < |b.txs|
    ensures var r := Records(chain, b, t, CreatedHashes(Steps(chain + [b])));
            var s := Merged(b, |chain|, Replays(chain, Needed(b)));
            && Shaped(s)
            && (forall k :: 0 <= k < |b.txs[t].ins| ==> b.txs[t].ins[k].prev.hash in r)
            && ValueIn(s, b.txs[t].ins) == ValueIn(r, b.txs[t].ins)
  {
    hide Records, Merged, ConnectOk, Sane, Needed, CreatedHashes, OriginValue, Steps, Replays, ValueIn;
    MergedShaped(b, |chain|, Replays(chain, Needed(b)));
    var r := Records(chain, b, t, CreatedHashes(Steps(chain + [b])));
    var s := Merged(b, |chain|, Replays(chain, Needed(b)));
    var ins := b.txs[t].ins;
    forall k | 0 <= k < |ins|
      ensures ins[k].prev.hash in r && OriginValue(s, ins[k]) == OriginValue(r, ins[k])
    {
      OriginAgrees(p, chain, b, t, k);
    }
    SameValues(s, r, ins);
  }

  // One input of the block: the store and the ledger have the same transaction for it.
  lemma {:induction false} OriginAgrees(p: Params, chain: seq<Block>, b: Block, t: nat, k: nat)
    requires Sane(b) && ConnectOk(p, chain, b) && 1 <= t < |b.txs| && k < |b.txs[t].ins|
    ensures var r := Records(chain, b, t, CreatedHashes(Steps(chain + [b])));
            var s, txIn := Merged(b, |chain|, Replays(chain, Needed(b))), b.txs[t].ins[k];
            Shaped(s) && txIn.prev.hash in r && OriginValue(s, txIn) == OriginValue(r, txIn)
  {
    hide Merged, ConnectOk, Sane, Needed, CreatedHashes, Steps, Replays, Replay, ConnectSteps;
    MergedShaped(b, |chain|, Replays(chain, Needed(b)));
    var h := b.txs[t].ins[k].prev.hash;
    assert NamesHash(b.txs[t].ins, h);
    AcceptedOrigin(p, chain, b, t, h);
    PresentIsCreated(chain, b, t, h);
  }

  lemma {:induction false} FlowChangesTotal(p: Params, chain: seq<Block>, b: Block, t: nat)
    requires Sane(b) && ConnectOk(p, chain, b) && t <= |b.txs|
    ensures var hashes := CreatedHashes(Steps(chain + [b]));
            var s := Merged(b, |chain|, Replays(chain, Needed(b)));
            Shaped(s) && var f := BlockFlow(s, b.txs[..t]);
            Total(Records(chain, b, t, hashes)) == Total(Records(chain, b, 0, hashes)) + f.valueOut - f.valueIn
  {
    hide Total, Records, CreatedHashes, Steps, Merged, Replays, Needed, ConnectOk, SaneTx, Distinct, StakeSane;
    var hashes := CreatedHashes(Steps(chain + [b]));
    MergedShaped(b, |chain|, Replays(chain, Needed(b)));
    if t > 0 {
      FlowChangesTotal(p, chain, b, t - 1);
      assert b.txs[..t][..t - 1] == b.txs[..t - 1];
      RecordsStep(p, chain, b, t - 1);
      if t > 1 {
        OriginsAgree(p, chain, b, t - 1);
      }
    }
  }

  lemma RecordsStep(p: Params, chain: seq<Block>, b: Block, t: nat)
    requires Sane(b) && ConnectOk(p, chain, b) && t < |b.txs|
    ensures var hashes, tx := CreatedHashes(Steps(chain + [b])), b.txs[t];
            var r := Records(chain, b, t, hashes);
            (Total(Records(chain, b, t + 1, hashes))
             == Total(r) + SumOutputs(tx.outs) - if IsCoinBase(tx) then 0 else ValueIn(r, tx.ins))
  {
    hide ConnectOk, Total, ValueIn, StepLegal, SumOutputs;
    var hashes, steps := CreatedHashes(Steps(chain + [b])), StepsAt(b.txs, |chain|);
    var r := Records(chain, b, t, hashes);
    StepsSnoc(chain, b);
    assert (Steps(chain) + steps)[|Steps(chain)| + t] == steps[t];
    forall h | h in r ensures StepLegal(r[h], h, steps[t]) {
      RecordsLegal(p, chain, b, t, h);
    }
    if t > 0 {
      OriginsAgree(p, chain, b, t);
    }
    StepChangesTotal(r, steps[t]);
    forall h | h in r ensures Records(chain, b, t + 1, hashes)[h] == StepRecords(r, steps[t])[h] {
      ConnectPrefix(Replay(chain, h), h, steps, t);
    }
    assert Records(chain, b, t + 1, hashes) == StepRecords(r, steps[t]);
  }

  // ---------------------------------------------------------------- whole chains

  /** The value of all unspent outputs after a chain. */
  ghost function UnspentTotal(chain: seq<Block>): int {
    Total(Replays(chain, CreatedHashes(Steps(chain))))
  }

  /** The money supply recorded for the last block of a chain whose genesis block carries `genesis`. */
  function MoneySupply(genesis: int, chain: seq<Block>): int {
    if |chain| <= 1 then genesis
    else
      var f := FlowOn(chain[..|chain| - 1], chain[|chain| - 1]);
      MoneySupply(genesis, chain[..|chain| - 1]) + f.valueOut - f.valueIn
  }

  // After all its transactions the records of a block are those of the longer chain.
  lemma RecordsEnd(chain: seq<Block>, b: Block, hashes: set<Hash>)
    ensures Records(chain, b, |b.txs|, hashes) == Replays(chain + [b], hashes)
  {
    hide Replay;
    var steps := StepsAt(b.txs, |chain|);
    assert steps[..|b.txs|] == steps;
    forall h | h in hashes ensures Records(chain, b, |b.txs|, hashes)[h] == Replay(chain + [b], h) {
      ReplaySnoc(chain, b, h);
    }
  }

  // Before any of its transactions they hold what the chain holds; hashes it will create are missing.
  lemma RecordsStart(chain: seq<Block>, b: Block)
    ensures Total(Records(chain, b, 0, CreatedHashes(Steps(chain + [b])))) == UnspentTotal(chain)
  {
    hide Replay, Total;
    var steps := StepsAt(b.txs, |chain|);
    var before := Records(chain, b, 0, CreatedHashes(Steps(chain + [b])));
    var known := Replays(chain, CreatedHashes(Steps(chain)));
    assert steps[..0] == [];
    StepsSnoc(chain, b);
    forall h | h in known ensures h in before {
      var i :| 0 <= i < |Steps(chain)| && Steps(chain)[i].tx.hash == h;
      assert (Steps(chain) + steps)[i].tx.hash == h;
    }
    forall h | h in before && h !in known ensures before[h].Missing? {
      ReplayPresent(chain, h);
    }
    TotalMissing(before, known);
  }

  /** One accepted block changes the unspent total by what it creates less what it spends. */
  lemma BlockConserves(p: Params, chain: seq<Block>, b: Block)
    requires Sane(b) && ConnectOk(p, chain, b)
    ensures UnspentTotal(chain + [b]) == UnspentTotal(chain) + FlowOn(chain, b).valueOut - FlowOn(chain, b).valueIn
  {
    hide ConnectOk, Sane, Records, Total, BlockFlow, Replays;
    var hashes := CreatedHashes(Steps(chain + [b]));
    FlowChangesTotal(p, chain, b, |b.txs|);
    assert b.txs[..|b.txs|] == b.txs;
    RecordsEnd(chain, b, hashes);
    RecordsStart(chain, b);
  }

  /** Conservation: along every validated chain the recorded money supply and the total value of unspent
      outputs change by the same amount from the genesis block on. */
  lemma {:induction false} MoneySupplyIsConserved(net: Network, genesis: int, chain: seq<Block>)
    requires Validated(net, chain)
    ensures MoneySupply(genesis, chain) - genesis == UnspentTotal(chain) - UnspentTotal(chain[..1])
  {
    hide ConnectOk, UnspentTotal, FlowOn, Sane;
    var n := |chain| - 1;
    if n == 0 {
      assert chain[..1] == chain;
    } else {
      ValidatedPrefix(net, chain, n);
      MoneySupplyIsConserved(net, genesis, chain[..n]);
      var main :| Connectable(net, main, chain[..n], chain[n]);
      BlockConserves(Params(net, main), chain[..n], chain[n]);
      assert chain[..n] + [chain[n]] == chain;
      assert chain[..n][..1] == chain[..1];
    }
  }

  // ---------------------------------------------------------------- what CalcMintAndMoneySupply computes

  lemma {:induction false} SameFlow(a: Store, b: Store, txs: seq<Tx>)
    requires Shaped(a) && Shaped(b)
    requires forall t, k :: 0 <= t < |txs| && !IsCoinBase(txs[t]) && 0 <= k < |txs[t].ins| ==>
               OriginValue(a, txs[t].ins[k]) == OriginValue(b, txs[t].ins[k])
    ensures BlockFlow(a, txs) == BlockFlow(b, txs)
  {
    hide OriginValue, Shaped;
    if txs != [] {
      var front := txs[..|txs| - 1];
      assert forall t :: 0 <= t < |front| ==> front[t] == txs[t];
      SameFlow(a, b, front);
      if !IsCoinBase(txs[|txs| - 1]) {
        SameValues(a, b, txs[|txs| - 1].ins);
      }
    }
  }

  // The main-chain view, without fully spent transactions, gives an accepted block the same sums.
  lemma {:induction false} FlowOfTipView(p: Params, chain: seq<Block>, b: Block)
    requires Sane(b) && ConnectOk(p, chain, b)
    ensures var view := DropSpent(Replays(chain, Needed(b)));
            Shaped(Merged(b, |chain|, view)) && BlockFlow(Merged(b, |chain|, view), b.txs) == FlowOn(chain, b)
  {
    hide CheckTxsFrom, InFlight, BlockFlow, Merged, DropSpent, ScriptsPass, Overwrites, Needed, Shaped, Sane, Similar;
    var view := Replays(chain, Needed(b));
    MergedShaped(b, |chain|, view);
    MergedShaped(b, |chain|, DropSpent(view));
    var s, d := Merged(b, |chain|, view), Merged(b, |chain|, DropSpent(view));
    MergedSimilar(b, |chain|, view);
    SimilarTxs(p, d, s, b.txs, |chain|, 0, 0);
    AcceptedTxsKnown(p, d, b.txs, |chain|, 0, 0);
    SameFlow(d, s, b.txs);
  }

  // The flow of a block that passed, read from the tip's view, and the money supply after it.
  lemma TipFlow(net: Network, genesis: int, chain: seq<Block>, b: Block)
    requires Sane(b) && Passed(net, chain, b) && chain != []
    ensures var s := Merged(b, |chain|, DropSpent(Replays(chain, Needed(b))));
            Shaped(s) && BlockFlow(s, b.txs) == FlowOn(chain, b)
    ensures MoneySupply(genesis, chain + [b])
         == MoneySupply(genesis, chain) + FlowOn(chain, b).valueOut - FlowOn(chain, b).valueIn
  {
    hide Sane, Connectable, FlowOn, BlockFlow, Merged, DropSpent, Replays, Needed;
    var main :| Connectable(net, main, chain, b);
    TipFlowBeside(net, main, chain, b);
    assert (chain + [b])[..|chain|] == chain;
  }

  lemma TipFlowBeside(net: Network, main: seq<Block>, chain: seq<Block>, b: Block)
    requires Sane(b) && Connectable(net, main, chain, b)
    ensures var s := Merged(b, |chain|, DropSpent(Replays(chain, Needed(b))));
            Shaped(s) && BlockFlow(s, b.txs) == FlowOn(chain, b)
  {
    hide Sane, ConnectOk, FlowOn, BlockFlow, Merged, DropSpent, Replays, Needed;
    FlowOfTipView(Params(net, main), chain, b);
  }

  /** The two nested loops of CalcMintAndMoneySupply. */
  method SumFlow(s: Store, txs: seq<Tx>) returns (f: Flow)
    requires Shaped(s)
    ensures f == BlockFlow(s, txs)
  {
    hide OriginValue, Shaped;
    var valueIn, valueOut, fees := 0, 0, 0;
    for t := 0 to |txs|
      invariant Flow(valueIn, valueOut, fees) == BlockFlow(s, txs[..t])
    {
      assert txs[..t + 1][..t] == txs[..t];
      var tx := txs[t];
      var txValueOut := SumOfOutputs(tx.outs);
      if IsCoinBase(tx) {
        valueOut := valueOut + txValueOut;
      } else {
        var txValueIn := 0;
        for k := 0 to |tx.ins|
          invariant txValueIn == ValueIn(s, tx.ins[..k])
        {
          assert tx.ins[..k + 1][..k] == tx.ins[..k];
          txValueIn := txValueIn + OriginValue(s, tx.ins[k]);
        }
        assert tx.ins[..|tx.ins|] == tx.ins;
        valueIn, valueOut := valueIn + txValueIn, valueOut + txValueOut;
        if !tx.coinStake {
          fees := fees + txValueIn - txValueOut;
        }
      }
    }
    assert txs[..|txs|] == txs;
    f := Flow(valueIn, valueOut, fees);
  }

  // ---------------------------------------------------------------- mint and rewards

  lemma SpendKeepsOrigins(s: Store, txIn: TxIn, other: TxIn)
    requires Shaped(s)
    ensures Shaped(Spend(s, txIn)) && OriginValue(Spend(s, txIn), other) == OriginValue(s, other)
  {
  }

  // The total the input checks add up is the value of the inputs.
  lemma {:induction false} CheckedTotal(p: Params, s: Store, tx: Tx, height: nat, k: nat, total: int)
    requires Shaped(s) && k <= |tx.ins| && CheckInputsFrom(p, s, tx, height, k, total).0.Ok?
    ensures CheckInputsFrom(p, s, tx, height, k, total).0.value == total + ValueIn(s, tx.ins) - ValueIn(s, tx.ins[..k])
    decreases |tx.ins| - k
  {
    hide OriginValue, Spend, InputError;
    if k == |tx.ins| {
      assert tx.ins[..k] == tx.ins;
    } else {
      assert tx.ins[..k + 1][..k] == tx.ins[..k];
      var s' := Spend(s, tx.ins[k]);
      SpendShaped(s, tx.ins[k]);
      forall i | 0 <= i < |tx.ins| ensures OriginValue(s', tx.ins[i]) == OriginValue(s, tx.ins[i]) {
        SpendKeepsOrigins(s, tx.ins[k], tx.ins[i]);
      }
      SameValues(s', s, tx.ins);
      SameValues(s', s, tx.ins[..k + 1]);
      CheckedTotal(p, s', tx, height, k + 1, total + OriginValue(s, tx.ins[k]));
    }
  }

  // What accepting one transaction says about its value: a fee at least the minimum, or a stake reward within the
  // coin age.
  ghost predicate FairlyPriced(p: Params, s: Store, tx: Tx)
    requires Shaped(s)
  {
    var gain := SumOutputs(tx.outs) - ValueIn(s, tx.ins);
    if tx.coinStake then
      CoinAge(p, s, tx).Some? && gain <= ProofOfStakeReward(CoinAge(p, s, tx).value) - MinFee(tx) + MIN_TX_FEE
    else -gain >= MinFee(tx)
  }

  lemma {:induction false} AcceptedTxsFair(p: Params, s: Store, txs: seq<Tx>, height: nat, t: nat, fees: int)
    requires Shaped(s) && t <= |txs| && CheckTxsFrom(p, s, txs, height, t, fees).0.Ok?
    ensures forall u :: t <= u < |txs| && !IsCoinBase(txs[u]) ==> FairlyPriced(p, s, txs[u])
    decreases |txs| - t
  {
    hide Shaped, FairlyPriced, CheckTx;
    if t < |txs| {
      var (r, s') := CheckTx(p, s, txs[t], height);
      AcceptedTxsFair(p, s', txs, height, t + 1, fees + r.value);
      TxKeepsOrigins(p, s, txs[t], height);
      forall u | t < u < |txs| && !IsCoinBase(txs[u]) ensures FairlyPriced(p, s, txs[u]) {
        FairByOrigins(p, s', s, txs[u]);
      }
      if !IsCoinBase(txs[t]) {
        AcceptedIsFair(p, s, txs[t], height);
      }
    }
  }

  lemma {:induction false} AcceptedIsFair(p: Params, s: Store, tx: Tx, height: nat)
    requires Shaped(s) && !IsCoinBase(tx) && CheckTx(p, s, tx, height).0.Ok?
    ensures FairlyPriced(p, s, tx)
  {
    hide Shaped, ValueIn, CheckInputsFrom, MinFee, ProofOfStakeReward, SumOutputs, CoinAge, SameOrigins;
    var s' := CheckInputsFrom(p, s, tx, height, 0, 0).1;
    CheckedTotal(p, s, tx, height, 0, 0);
    NoInputsNoValue(s, tx.ins);
    CheckKeepsOrigins(p, s, tx, height, 0, 0);
    FairOrigins(p, s', s, tx);
  }

  // Value and coin age of the inputs do not depend on what is spent.
  lemma {:induction false} FairOrigins(p: Params, a: Store, b: Store, tx: Tx)
    requires Shaped(a) && Shaped(b) && SameOrigins(a, b)
    ensures CoinAge(p, a, tx) == CoinAge(p, b, tx) && ValueIn(a, tx.ins) == ValueIn(b, tx.ins)
  {
    hide CoinAge, ValueIn;
    AgeByOrigins(p, p, a, b, tx);
    SameValues(a, b, tx.ins);
  }

  lemma {:induction false} FairByOrigins(p: Params, a: Store, b: Store, tx: Tx)
    requires Shaped(a) && Shaped(b) && SameOrigins(a, b) && FairlyPriced(p, a, tx)
    ensures FairlyPriced(p, b, tx)
  {
    hide Shaped, CoinAge, ValueIn, SumOutputs, MinFee, ProofOfStakeReward, SameOrigins;
    FairOrigins(p, a, b, tx);
  }

  lemma NoInputsNoValue(s: Store, ins: seq<TxIn>)
    requires Shaped(s)
    ensures ValueIn(s, ins[..0]) == 0
  {
  }

  // The mint of the first `t` transactions: the coinbase, and the gain of the coinstake once it is included.
  lemma {:induction false} MintOfPrefix(s: Store, b: Block, t: nat)
    requires Shaped(s) && Sane(b) && 1 <= t <= |b.txs|
    ensures Mint(BlockFlow(s, b.txs[..t]))
         == SumOutputs(b.txs[0].outs)
            + if b.proofOfStake && t > 1 then SumOutputs(b.txs[1].outs) - ValueIn(s, b.txs[1].ins) else 0
  {
    hide ValueIn, SumOutputs;
    assert b.txs[..t][..t - 1] == b.txs[..t - 1];
    if t == 1 {
      assert b.txs[..1][..0] == [];
      assert BlockFlow(s, []) == Flow(0, 0, 0);
    } else {
      MintOfPrefix(s, b, t - 1);
    }
  }

  lemma {:induction false} FeesOfPrefix(p: Params, s: Store, b: Block, t: nat)
    requires Shaped(s) && t <= |b.txs|
    requires forall u :: 0 <= u < |b.txs| && !IsCoinBase(b.txs[u]) ==> FairlyPriced(p, s, b.txs[u])
    ensures BlockFlow(s, b.txs[..t]).fees >= 0
  {
    hide ValueIn, SumOutputs, ProofOfStakeReward;
    if t > 0 {
      assert b.txs[..t][..t - 1] == b.txs[..t - 1];
      FeesOfPrefix(p, s, b, t - 1);
    }
  }

  // The most a block may mint on top of a chain.
  function MintCap(p: Params, chain: seq<Block>, b: Block): int {
    if b.proofOfStake && |b.txs| > 1 then
      match CoinAge(p, InputStore(chain, b), b.txs[1])
      case None => 0
      case Some(age) => ProofOfStakeReward(age) - MinFee(b.txs[1]) + MIN_TX_FEE
    else p.net.powReward(b.bits)
  }

  /** An accepted block mints its coinbase output when it is proof-of-work and the gain of its coinstake when it is
      proof-of-stake; either is at most what the reward rules allow, and fees are never negative. */
  lemma MintIsCapped(p: Params, chain: seq<Block>, b: Block)
    requires Sane(b) && ConnectOk(p, chain, b)
    ensures var s := Merged(b, |chain|, Replays(chain, Needed(b)));
      && Shaped(s)
      && Mint(FlowOn(chain, b)) == (if b.proofOfStake then SumOutputs(b.txs[1].outs) - ValueIn(s, b.txs[1].ins)
                                    else SumOutputs(b.txs[0].outs))
      && (b.proofOfStake ==> CoinAge(p, s, b.txs[1]).Some?)
      && Mint(FlowOn(chain, b)) <= MintCap(p, chain, b)
      && FlowOn(chain, b).fees >= 0
  {
    hide Replays, ValueIn, CheckTxsFrom, BlockFlow, Merged, CoinAge, BlockSigOps, ScriptsPass, Overwrites;
    MergedShaped(b, |chain|, Replays(chain, Needed(b)));
    var s := Merged(b, |chain|, Replays(chain, Needed(b)));
    AcceptedTxsFair(p, s, b.txs, |chain|, 0, 0);
    MintOfPrefix(s, b, |b.txs|);
    FeesOfPrefix(p, s, b, |b.txs|);
    assert b.txs[..|b.txs|] == b.txs;
    if b.proofOfStake {
      assert b.txs[0].outs[..0] == [];
      assert SumOutputs(b.txs[0].outs[..0]) == 0;
    }
  }

  // The most a chain's blocks may mint, block `j` with coin ages as `mains[j]` gives them.
  function MintCaps(net: Network, mains: seq<seq<Block>>, chain: seq<Block>): int
    requires |mains| == |chain|
  {
    var n := |chain| - 1;
    if n <= 0 then 0 else MintCaps(net, mains[..n], chain[..n]) + MintCap(Params(net, mains[n]), chain[..n], chain[n])
  }

  /** Along a validated chain the money supply grows by at most the sum of what its blocks may mint; `mains` are the
      main chains at the moments they passed. */
  lemma {:induction false} SupplyGrowthIsCapped(net: Network, mains: seq<seq<Block>>, genesis: int, chain: seq<Block>)
    requires |mains| == |chain|
    requires forall j :: 1 <= j < |chain| ==> Sane(chain[j]) && Connectable(net, mains[j], chain[..j], chain[j])
    ensures MoneySupply(genesis, chain) - genesis <= MintCaps(net, mains, chain)
  {
    hide ConnectOk, FlowOn, Sane, MintCap;
    var n := |chain| - 1;
    if n > 0 {
      forall j | 1 <= j < n ensures Connectable(net, mains[..n][j], chain[..n][..j], chain[..n][j]) {
        assert chain[..n][..j] == chain[..j];
      }
      SupplyGrowthIsCapped(net, mains[..n], genesis, chain[..n]);
      MintIsCapped(Params(net, mains[n]), chain[..n], chain[n]);
    }
  }
}
