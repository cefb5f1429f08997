/** What accepted blocks mean for the ledger: every block that passes the checks spends only existing unspent
    outputs, so no output is ever spent twice along a validated chain. */
module Spending {
  import opened Ledger
  import opened TxLookup
  import opened Validate

  predicate NamesHash(ins: seq<TxIn>, h: Hash) {
    exists k :: 0 <= k < |ins| && ins[k].prev.hash == h
  }

  predicate NamedBefore(b: Block, t: nat, h: Hash)
    requires t <= |b.txs|
  {
    exists u :: 1 <= u < t && NamesHash(b.txs[u].ins, h)
  }

  // ---------------------------------------------------------------- small facts about one record

  lemma {:induction false} UnnamedInputs(e: TxData, h: Hash, ins: seq<TxIn>)
    requires !NamesHash(ins, h)
    ensures SpendInputs(e, h, ins) == e && InputsLegal(e, h, ins)
  {
    if ins != [] {
      var front, last := ins[..|ins| - 1], ins[|ins| - 1];
      assert last.prev.hash != h;
      assert forall k :: 0 <= k < |front| ==> front[k] == ins[k];
      UnnamedInputs(e, h, front);
    }
  }

  lemma {:induction false} SpentInputsStaySpent(e: TxData, h: Hash, ins: seq<TxIn>)
    requires FullySpent(e)
    ensures FullySpent(SpendInputs(e, h, ins))
  {
    if ins != [] {
      SpentInputsStaySpent(e, h, ins[..|ins| - 1]);
    }
  }

  // Only a creation brings a fully spent transaction back.
  lemma {:induction false} SpentStaysSpent(e: TxData, h: Hash, steps: seq<Step>)
    requires FullySpent(e) && !Creates(steps, h)
    ensures FullySpent(ConnectSteps(e, h, steps))
  {
    if steps != [] {
      var front, last := steps[..|steps| - 1], steps[|steps| - 1];
      assert steps == front + [last];
      CreatesSnoc(front, last, h);
      SpentStaysSpent(e, h, front);
      SpentInputsStaySpent(ConnectSteps(e, h, front), h, last.tx.ins);
    }
  }

  // A legal run of inputs that names `h` needs an unspent output of it.
  lemma {:induction false} LegalNeedsUnspent(e: TxData, h: Hash, ins: seq<TxIn>)
    requires InputsLegal(e, h, ins) && NamesHash(ins, h)
    ensures !FullySpent(e)
  {
    var front, last := ins[..|ins| - 1], ins[|ins| - 1];
    if FullySpent(e) {
      SpentInputsStaySpent(e, h, front);
      var k :| 0 <= k < |ins| && ins[k].prev.hash == h;
      if last.prev.hash != h {
        assert front[k].prev.hash == h;
        LegalNeedsUnspent(e, h, front);
      }
    }
  }

  // Inputs `k` on of a transaction whose store record tracks the replay record.
  lemma {:induction false} AcceptedInputsLegal(p: Params, s: Store, tx: Tx, height: nat, k: nat, total: int,
                                                h: Hash, e: TxData)
    requires Shaped(s) && k <= |tx.ins| && h in s
    requires s[h] == SpendInputs(e, h, tx.ins[..k]) && InputsLegal(e, h, tx.ins[..k])
    requires CheckInputsFrom(p, s, tx, height, k, total).0.Ok?
    ensures InputsLegal(e, h, tx.ins)
    ensures CheckInputsFrom(p, s, tx, height, k, total).1[h] == SpendInputs(e, h, tx.ins)
    decreases |tx.ins| - k
  {
    if k == |tx.ins| {
      assert tx.ins[..k] == tx.ins;
    } else {
      assert tx.ins[..k + 1][..k] == tx.ins[..k];
      SpendShaped(s, tx.ins[k]);
      AcceptedInputsLegal(p, Spend(s, tx.ins[k]), tx, height, k + 1, total + OriginValue(s, tx.ins[k]), h, e);
    }
  }

  lemma CreatesIsCreatedBefore(b: Block, t: nat, height: nat, h: Hash)
    requires t <= |b.txs|
    ensures Creates(StepsAt(b.txs, height)[..t], h) <==> CreatedBefore(b, t, h)
  {
    var steps := StepsAt(b.txs, height);
    forall i | 0 <= i < t ensures steps[..t][i].tx.hash == b.txs[i].hash {}
    if CreatedBefore(b, t, h) {
      var c :| 0 <= c < t && b.txs[c].hash == h;
      assert steps[..t][c].tx.hash == h;
    }
  }

  // ---------------------------------------------------------------- one block, one record

  /** How the validation store and the replay record of `h` are related once the first `t` transactions of a
      block have been accepted on top of the record `e`. */
  ghost predicate Tracks(b: Block, height: nat, h: Hash, e: TxData, s: Store, t: nat)
    requires t <= |b.txs|
  {
    var done := StepsAt(b.txs, height)[..t];
    var now := ConnectSteps(e, h, done);
    && StepsLegal(e, h, done)
    && s.Keys == InputHashes(b)
    && (h in Needed(b) ==>
          && !CreatedBefore(b, t, h)
          && s[h] == now
          && (NamedBefore(b, t, h) ==> !FullySpent(e)))
    && (h in s && h !in Needed(b) ==>
          s[h] == if CreatedBefore(b, t, h) then now else InFlight(b.txs, h, height))
  }

  lemma NeededIsInput(b: Block, h: Hash)
    requires h in Needed(b)
    ensures h in InputHashes(b)
    ensures exists t :: 1 <= t < |b.txs| && NamesHash(b.txs[t].ins, h) && !CreatedBefore(b, t, h)
  {
    var t, k :| 1 <= t < |b.txs| && 0 <= k < |b.txs[t].ins| && !CreatedBefore(b, t, b.txs[t].ins[k].prev.hash)
                && b.txs[t].ins[k].prev.hash == h;
    assert NamesHash(b.txs[t].ins, h);
  }

  lemma NamedIsInput(b: Block, t: nat, h: Hash)
    requires 1 <= t < |b.txs| && NamesHash(b.txs[t].ins, h)
    ensures h in InputHashes(b)
    ensures !CreatedBefore(b, t, h) ==> h in Needed(b)
  {
    var k :| 0 <= k < |b.txs[t].ins| && b.txs[t].ins[k].prev.hash == h;
    assert b.txs[t].ins[k].prev.hash in InputHashes(b);
  }

  lemma TrackCoinBase(b: Block, height: nat, h: Hash, e: TxData, s: Store)
    requires Sane(b) && WellShaped(e) && (CreatedBefore(b, |b.txs|, h) ==> FullySpent(e))
    requires Tracks(b, height, h, e, s, 0)
    ensures Tracks(b, height, h, e, s, 1)
  {
    var steps := StepsAt(b.txs, height);
    assert steps[..1][..0] == [] && steps[..0] == [];
    var c := Created(e, h, steps[0]);
    SpendCoinBase(c, h, b.txs[0]);
    assert ConnectSteps(e, h, steps[..1]) == c;
    if b.txs[0].hash == h {
      assert CreatedBefore(b, 1, h);
      if h in Needed(b) {
        NeededIsInput(b, h);
      }
      InFlightIs(b.txs, 0, height);
    }
  }

  // The transaction neither creates nor names `h`.
  lemma TrackStranger(p: Params, b: Block, height: nat, h: Hash, e: TxData, s: Store, t: nat)
    requires WellShaped(e) && Shaped(s) && 1 <= t < |b.txs| && !IsCoinBase(b.txs[t])
    requires b.txs[t].hash != h && !NamesHash(b.txs[t].ins, h)
    requires Tracks(b, height, h, e, s, t) && CheckTx(p, s, b.txs[t], height).0.Ok?
    ensures Tracks(b, height, h, e, CheckTx(p, s, b.txs[t], height).1, t + 1)
  {
    hide FeeVerdict, NamesHash, Needed, InputHashes, InFlight;
    var steps, ins := StepsAt(b.txs, height), b.txs[t].ins;
    var now := ConnectSteps(e, h, steps[..t]);
    assert steps[..t + 1][..t] == steps[..t];
    assert ins[..0] == [];
    if h in Needed(b) {
      NeededIsInput(b, h);
    }
    UnnamedInputs(now, h, ins);
    if h in s {
      UnnamedInputs(s[h], h, ins);
      AcceptedInputsLegal(p, s, b.txs[t], height, 0, 0, h, s[h]);
    }
    assert CreatedBefore(b, t + 1, h) <==> CreatedBefore(b, t, h);
  }

  // The transaction names `h` without creating it.
  lemma TrackSpender(p: Params, b: Block, height: nat, h: Hash, e: TxData, s: Store, t: nat)
    requires WellShaped(e) && Shaped(s) && 1 <= t < |b.txs| && !IsCoinBase(b.txs[t])
    requires b.txs[t].hash != h && NamesHash(b.txs[t].ins, h)
    requires Tracks(b, height, h, e, s, t) && CheckTx(p, s, b.txs[t], height).0.Ok?
    ensures Tracks(b, height, h, e, CheckTx(p, s, b.txs[t], height).1, t + 1)
  {
    hide FeeVerdict, NamesHash, Needed, InputHashes, InFlight;
    var steps, ins := StepsAt(b.txs, height), b.txs[t].ins;
    var now := ConnectSteps(e, h, steps[..t]);
    assert steps[..t + 1][..t] == steps[..t];
    assert ins[..0] == [];
    NamedIsInput(b, t, h);
    AcceptedInputsLegal(p, s, b.txs[t], height, 0, 0, h, now);
    if h in Needed(b) {
      LegalNeedsUnspent(now, h, ins);
      CreatesIsCreatedBefore(b, t, height, h);
      if FullySpent(e) {
        SpentStaysSpent(e, h, steps[..t]);
      }
    }
    assert CreatedBefore(b, t + 1, h) <==> CreatedBefore(b, t, h);
  }

  // The transaction creates `h`; it cannot have been needed from the chain.
  lemma TrackCreator(p: Params, b: Block, height: nat, h: Hash, e: TxData, s: Store, t: nat)
    requires Sane(b) && WellShaped(e) && Shaped(s) && 1 <= t < |b.txs| && b.txs[t].hash == h && FullySpent(e)
    requires Tracks(b, height, h, e, s, t) && CheckTx(p, s, b.txs[t], height).0.Ok?
    ensures Tracks(b, height, h, e, CheckTx(p, s, b.txs[t], height).1, t + 1)
  {
    hide FeeVerdict, Needed, InputHashes, StakeSane, SaneTx;
    var steps, ins := StepsAt(b.txs, height), b.txs[t].ins;
    var now := ConnectSteps(e, h, steps[..t]);
    assert steps[..t + 1][..t] == steps[..t];
    assert ins[..0] == [];
    assert !CreatedBefore(b, t, h);
    CreatesIsCreatedBefore(b, t, height, h);
    SpentStaysSpent(e, h, steps[..t]);
    if NamesHash(ins, h) {
      NamedIsInput(b, t, h);
      AcceptedInputsLegal(p, s, b.txs[t], height, 0, 0, h, now);
      LegalNeedsUnspent(now, h, ins);
      assert false;
    }
    assert CreatedBefore(b, t + 1, h);
    if h in Needed(b) {
      NeededIsInput(b, h);
    }
    UnnamedInputs(now, h, ins);
    UnnamedInputs(Fresh(b.txs[t], height), h, ins);
    InFlightIs(b.txs, t, height);
    if h in s {
      UnnamedInputs(s[h], h, ins);
      AcceptedInputsLegal(p, s, b.txs[t], height, 0, 0, h, s[h]);
    }
  }

  lemma TrackStep(p: Params, b: Block, height: nat, h: Hash, e: TxData, s: Store, t: nat)
    requires Sane(b) && WellShaped(e) && Shaped(s) && 1 <= t < |b.txs|
    requires b.txs[t].hash == h ==> FullySpent(e)
    requires Tracks(b, height, h, e, s, t) && CheckTx(p, s, b.txs[t], height).0.Ok?
    ensures Tracks(b, height, h, e, CheckTx(p, s, b.txs[t], height).1, t + 1)
  {
    hide Tracks, CheckTx, FullySpent, NamesHash;
    if b.txs[t].hash == h {
      TrackCreator(p, b, height, h, e, s, t);
    } else if NamesHash(b.txs[t].ins, h) {
      TrackSpender(p, b, height, h, e, s, t);
    } else {
      TrackStranger(p, b, height, h, e, s, t);
    }
  }

  lemma {:induction false} TrackBlock(p: Params, b: Block, height: nat, h: Hash, e: TxData, s: Store, t: nat, fees: int)
    requires Sane(b) && WellShaped(e) && Shaped(s) && 1 <= t <= |b.txs|
    requires CreatedBefore(b, |b.txs|, h) ==> FullySpent(e)
    requires Tracks(b, height, h, e, s, t) && CheckTxsFrom(p, s, b.txs, height, t, fees).0.Ok?
    ensures StepsLegal(e, h, StepsAt(b.txs, height))
    decreases |b.txs| - t
  {
    hide CheckTx, Shaped, InFlight, InputHashes, Needed;
    if t == |b.txs| {
      assert StepsAt(b.txs, height)[..t] == StepsAt(b.txs, height);
    } else {
      TrackStep(p, b, height, h, e, s, t);
      var (verdict, s') := CheckTx(p, s, b.txs[t], height);
      TrackBlock(p, b, height, h, e, s', t + 1, fees + verdict.value);
    }
  }

  // Once the coinbase is done the store of an accepted block tracks the replay of the chain.
  lemma AcceptedTracks(p: Params, chain: seq<Block>, b: Block, h: Hash) returns (s: Store)
    requires Sane(b) && ConnectOk(p, chain, b)
    ensures s == Merged(b, |chain|, Replays(chain, Needed(b))) && Shaped(s)
    ensures CreatedBefore(b, |b.txs|, h) ==> FullySpent(Replay(chain, h))
    ensures Tracks(b, |chain|, h, Replay(chain, h), s, 1)
    ensures CheckTxsFrom(p, s, b.txs, |chain|, 1, 0).0.Ok?
  {
    hide ConnectOk, CheckInputsFrom, FeeVerdict, InFlight, Replays, Tracks;
    AcceptedParts(p, chain, b, h);
    s := Merged(b, |chain|, Replays(chain, Needed(b)));
    CoinBaseTracks(chain, b, h);
  }

  // Before the checks on inputs, for a hash that the block may create.
  lemma CoinBaseTracks(chain: seq<Block>, b: Block, h: Hash)
    requires Sane(b) && (CreatedBefore(b, |b.txs|, h) ==> FullySpent(Replay(chain, h)))
    ensures Tracks(b, |chain|, h, Replay(chain, h), Merged(b, |chain|, Replays(chain, Needed(b))), 1)
  {
    hide InFlight, Tracks, Sane, FullySpent;
    var s := Merged(b, |chain|, Replays(chain, Needed(b)));
    ReplayPresent(chain, h);
    StartTracking(b, |chain|, h, Replay(chain, h), s, Replays(chain, Needed(b)));
    TrackCoinBase(b, |chain|, h, Replay(chain, h), s);
  }

  // The parts of the verdict that tracking needs.
  lemma AcceptedParts(p: Params, chain: seq<Block>, b: Block, h: Hash)
    requires Sane(b) && ConnectOk(p, chain, b)
    ensures var view := Replays(chain, Needed(b));
      && view.Keys == Needed(b) && Shaped(view) && (h in view ==> view[h] == Replay(chain, h))
      && Shaped(Merged(b, |chain|, view))
      && CheckTxsFrom(p, Merged(b, |chain|, view), b.txs, |chain|, 0, 0).0.Ok?
    ensures CreatedBefore(b, |b.txs|, h) ==> FullySpent(Replay(chain, h))
  {
    hide CheckTxsFrom, Merged, ScriptsPass, Sane;
    var view := Replays(chain, Needed(b));
    MergedShaped(b, |chain|, view);
    if CreatedBefore(b, |b.txs|, h) {
      var c :| 0 <= c < |b.txs| && b.txs[c].hash == h;
      assert h in Replays(chain, TxHashes(b));
    }
  }

  lemma StartTracking(b: Block, height: nat, h: Hash, e: TxData, s: Store, view: Store)
    requires view.Keys == Needed(b) && s == Merged(b, height, view) && (h in view ==> view[h] == e)
    ensures Tracks(b, height, h, e, s, 0)
  {
    assert StepsAt(b.txs, height)[..0] == [];
    if h in Needed(b) {
      NeededIsInput(b, h);
    }
  }

  /** A block accepted on top of a chain is legal for every transaction hash: what it creates was missing or
      fully spent, and what it spends exists and is unspent, inside the block and before it. */
  lemma AcceptedIsLegal(p: Params, chain: seq<Block>, b: Block, h: Hash)
    requires Sane(b) && ConnectOk(p, chain, b)
    ensures StepsLegal(Replay(chain, h), h, StepsAt(b.txs, |chain|))
  {
    var s := AcceptedTracks(p, chain, b, h);
    ReplayPresent(chain, h);
    TrackBlock(p, b, |chain|, h, Replay(chain, h), s, 1, 0);
  }

  // ---------------------------------------------------------------- validated chains

  // The checks of a block on top of a chain while the database holds the main chain `main`.
  predicate Connectable(net: Network, main: seq<Block>, chain: seq<Block>, b: Block) {
    ConnectOk(Params(net, main), chain, b)
  }

  // The block passed its checks at some moment.
  ghost predicate Passed(net: Network, chain: seq<Block>, b: Block) {
    exists main: seq<Block> :: Connectable(net, main, chain, b)
  }

  lemma PassesNow(net: Network, main: seq<Block>, chain: seq<Block>, b: Block)
    requires Connectable(net, main, chain, b)
    ensures Passed(net, chain, b)
  {
    hide Connectable;
  }

  ghost predicate StartsChain(chain: seq<Block>) {
    |chain| > 0 && |chain[0].txs| == 1 && IsCoinBase(chain[0].txs[0])
  }

  /** A chain as the block index accepts it: the genesis block, which holds only its coinbase and is not
      checked, followed by blocks that each passed the checks on top of the blocks before them. */
  ghost predicate Validated(net: Network, chain: seq<Block>) {
    && StartsChain(chain)
    && forall j :: 1 <= j < |chain| ==> Sane(chain[j]) && Passed(net, chain[..j], chain[j])
  }

  /** Every block of a chain that is not part of the main chain passes its checks while it is the main chain. */
  ghost predicate SidePasses(net: Network, main: seq<Block>, chain: seq<Block>) {
    forall j :: 1 <= j < |chain| && !Shares(main, chain, j) ==> Connectable(net, main, chain[..j], chain[j])
  }

  // The chain follows the main chain up to and including block `j`.
  predicate Shares(main: seq<Block>, chain: seq<Block>, j: nat)
    requires j < |chain|
  {
    chain[..j + 1] <= main
  }

  lemma ValidatedPrefix(net: Network, chain: seq<Block>, n: nat)
    requires Validated(net, chain) && 1 <= n <= |chain|
    ensures Validated(net, chain[..n])
  {
    hide Sane, Passed;
    forall j | 1 <= j < n ensures Sane(chain[..n][j]) && Passed(net, chain[..n][..j], chain[..n][j]) {
      assert chain[..n][..j] == chain[..j];
    }
  }

  lemma ValidatedSnoc(net: Network, chain: seq<Block>, b: Block)
    requires Validated(net, chain) && Sane(b) && Passed(net, chain, b)
    ensures Validated(net, chain + [b])
  {
    hide Sane, Passed;
    var longer := chain + [b];
    forall j | 1 <= j < |longer| ensures Sane(longer[j]) && Passed(net, longer[..j], longer[j]) {
      assert longer[..j] == chain[..j];
    }
  }

  lemma {:induction false} ValidatedIsLegal(net: Network, chain: seq<Block>, h: Hash)
    requires Validated(net, chain)
    ensures Legal(chain, h)
  {
    hide Sane, ConnectOk;
    var n := |chain| - 1;
    if n == 0 {
      assert chain == [] + [chain[0]];
      SingleTxBlock([], chain[0], chain[0].txs[0], h);
    } else {
      ValidatedPrefix(net, chain, n);
      ValidatedIsLegal(net, chain[..n], h);
      var main :| Connectable(net, main, chain[..n], chain[n]);
      AcceptedIsLegal(Params(net, main), chain[..n], chain[n], h);
      assert chain == chain[..n] + [chain[n]];
      StepsSnoc(chain[..n], chain[n]);
      StepsLegalConcat(Missing, h, Steps(chain[..n]), StepsAt(chain[n].txs, n));
    }
  }

  // ---------------------------------------------------------------- coin ages and the main chain

  // The store that the inputs of a block are checked on.
  function InputStore(chain: seq<Block>, b: Block): (s: Store)
    ensures Shaped(s)
  {
    MergedShaped(b, |chain|, Replays(chain, Needed(b)));
    Merged(b, |chain|, Replays(chain, Needed(b)))
  }

  predicate IsStake(tx: Tx) {
    tx.coinStake && !IsCoinBase(tx)
  }

  // For every input of a coinstake the block at its origin's height has the same time on both main chains.
  ghost predicate AgesAgree(main: seq<Block>, other: seq<Block>, chain: seq<Block>, b: Block) {
    forall tx :: tx in b.txs && IsStake(tx) ==> SameTimes(main, other, InputStore(chain, b), tx)
  }

  lemma {:induction false} SameInputs(p: Params, q: Params, s: Store, tx: Tx, height: nat, k: nat, total: int)
    requires Shaped(s) && k <= |tx.ins| && p.net == q.net
    ensures CheckInputsFrom(p, s, tx, height, k, total) == CheckInputsFrom(q, s, tx, height, k, total)
    decreases |tx.ins| - k
  {
    if k < |tx.ins| {
      SpendShaped(s, tx.ins[k]);
      SameInputs(p, q, Spend(s, tx.ins[k]), tx, height, k + 1, total + OriginValue(s, tx.ins[k]));
    }
  }

  lemma {:induction false} SameVerdict(p: Params, q: Params, s: Store, tx: Tx, height: nat)
    requires Shaped(s) && p.net == q.net && (IsStake(tx) ==> SameTimes(p.main, q.main, s, tx))
    ensures CheckTx(p, s, tx, height) == CheckTx(q, s, tx, height)
  {
    hide Shaped, CheckInputsFrom, CoinAge, SameOrigins, ProofOfStakeReward;
    SameInputs(p, q, s, tx, height, 0, 0);
    CheckKeepsOrigins(p, s, tx, height, 0, 0);
    if IsStake(tx) {
      var s' := CheckInputsFrom(p, s, tx, height, 0, 0).1;
      SameTimesKept(p.main, q.main, s, s', tx);
      OriginsReflexive(s');
      AgeByOrigins(p, q, s', s', tx);
    }
  }

  lemma OriginsReflexive(s: Store)
    ensures SameOrigins(s, s)
  {
  }

  lemma SameTimesKept(main: seq<Block>, other: seq<Block>, s: Store, s': Store, tx: Tx)
    requires SameTimes(main, other, s, tx) && SameOrigins(s', s)
    ensures SameTimes(main, other, s', tx)
  {
  }

  lemma {:induction false} SameVerdicts(p: Params, q: Params, s: Store, txs: seq<Tx>, height: nat, t: nat, fees: int)
    requires Shaped(s) && t <= |txs| && p.net == q.net
    requires forall tx :: tx in txs && IsStake(tx) ==> SameTimes(p.main, q.main, s, tx)
    ensures CheckTxsFrom(p, s, txs, height, t, fees) == CheckTxsFrom(q, s, txs, height, t, fees)
    decreases |txs| - t
  {
    hide Shaped, CheckTx, SameTimes;
    if t < |txs| {
      SameVerdict(p, q, s, txs[t], height);
      var (verdict, s') := CheckTx(p, s, txs[t], height);
      if verdict.Ok? {
        TxKeepsOrigins(p, s, txs[t], height);
        forall tx | tx in txs && IsStake(tx) ensures SameTimes(p.main, q.main, s', tx) {
          SameTimesKept(p.main, q.main, s, s', tx);
        }
        SameVerdicts(p, q, s', txs, height, t + 1, fees + verdict.value);
      }
    }
  }

  lemma {:induction false} TxKeepsOrigins(p: Params, s: Store, tx: Tx, height: nat)
    requires Shaped(s)
    ensures SameOrigins(CheckTx(p, s, tx, height).1, s)
  {
    hide Shaped, CheckInputsFrom, SameOrigins, FeeVerdict;
    OriginsReflexive(s);
    CheckKeepsOrigins(p, s, tx, height, 0, 0);
  }

  /** Apart from the block times that coin ages read, a block's verdict depends on its branch alone: two main chains
      that agree on those times give the same verdict. */
  lemma {:induction false} AgreeingAges(net: Network, main: seq<Block>, other: seq<Block>, chain: seq<Block>, b: Block)
    requires AgesAgree(main, other, chain, b)
    ensures Connectable(net, main, chain, b) <==> Connectable(net, other, chain, b)
  {
    hide Merged, Needed, Replays, CheckTxsFrom, Overwrites, BlockSigOps, SameTimes, ScriptPasses;
    var p, q := Params(net, main), Params(net, other);
    var s := InputStore(chain, b);
    SameVerdicts(p, q, s, b.txs, |chain|, 0, 0);
    SameScripts(p, q, CheckTxsFrom(p, s, b.txs, |chain|, 0, 0).1, b);
  }

  lemma SameScripts(p: Params, q: Params, s: Store, b: Block)
    requires p.net == q.net
    ensures ScriptsPass(p, s, b) == ScriptsPass(q, s, b)
  {
    forall t, k | 0 <= t < |b.txs| && 0 <= k < |b.txs[t].ins|
      ensures ScriptPasses(p, s, b.txs[t], k) == ScriptPasses(q, s, b.txs[t], k)
    {
    }
  }

  // The coinstakes of the block spend only transactions of the blocks below a height.
  ghost predicate StakesBelow(chain: seq<Block>, b: Block, height: nat) {
    forall t, k :: 0 <= t < |b.txs| && IsStake(b.txs[t]) && 0 <= k < |b.txs[t].ins| ==>
      OriginBelow(InputStore(chain, b), b.txs[t].ins[k], height)
  }

  ghost predicate OriginBelow(s: Store, txIn: TxIn, height: nat) {
    txIn.prev.hash in s && s[txIn.prev.hash].Present? ==> s[txIn.prev.hash].height < height
  }

  // Main chains that share the blocks below a height agree on all block times below it.
  lemma SharedAges(main: seq<Block>, other: seq<Block>, chain: seq<Block>, b: Block, height: nat)
    requires height <= |main| && height <= |other| && main[..height] == other[..height]
    requires StakesBelow(chain, b, height)
    ensures AgesAgree(main, other, chain, b)
  {
    hide InputStore;
    var s := InputStore(chain, b);
    forall tx | tx in b.txs && IsStake(tx) ensures SameTimes(main, other, s, tx) {
      var t :| 0 <= t < |b.txs| && b.txs[t] == tx;
      forall k | 0 <= k < |tx.ins| && tx.ins[k].prev.hash in s && s[tx.ins[k].prev.hash].Present?
        ensures var h := s[tx.ins[k].prev.hash].height; BlockTime(main, h) == BlockTime(other, h)
      {
        assert OriginBelow(s, b.txs[t].ins[k], height);
        var h := s[tx.ins[k].prev.hash].height;
        assert main[..height][h] == main[h] && other[..height][h] == other[h];
      }
    }
  }

  /** An accepted coinstake spends only transactions below the main chain's height: on a side branch, one whose origin
      lies above the main chain is refused, whatever the branch holds. */
  lemma {:induction false} StakeNeedsMainChain(net: Network, main: seq<Block>, chain: seq<Block>, b: Block)
    requires Connectable(net, main, chain, b)
    ensures StakesBelow(chain, b, |main|)
  {
    hide CheckTxsFrom, Merged, Needed, Replays, Overwrites, BlockSigOps, ScriptsPass, OriginBelow;
    StakesOnMain(Params(net, main), InputStore(chain, b), b.txs, |chain|, 0, 0);
  }

  lemma {:induction false} StakesOnMain(p: Params, s: Store, txs: seq<Tx>, height: nat, t: nat, fees: int)
    requires Shaped(s) && t <= |txs| && CheckTxsFrom(p, s, txs, height, t, fees).0.Ok?
    ensures forall u, k :: t <= u < |txs| && IsStake(txs[u]) && 0 <= k < |txs[u].ins| ==>
              OriginBelow(s, txs[u].ins[k], |p.main|)
    decreases |txs| - t
  {
    hide Shaped, CheckTx;
    if t < |txs| {
      var (verdict, s') := CheckTx(p, s, txs[t], height);
      TxKeepsOrigins(p, s, txs[t], height);
      StakesOnMain(p, s', txs, height, t + 1, fees + verdict.value);
      if IsStake(txs[t]) {
        StakeOnMain(p, s, txs[t], height);
      }
    }
  }

  lemma {:induction false} StakeOnMain(p: Params, s: Store, tx: Tx, height: nat)
    requires Shaped(s) && IsStake(tx) && CheckTx(p, s, tx, height).0.Ok?
    ensures forall k :: 0 <= k < |tx.ins| ==> OriginBelow(s, tx.ins[k], |p.main|)
  {
    hide Shaped, CheckInputsFrom, OriginAge;
    var s' := CheckInputsFrom(p, s, tx, height, 0, 0).1;
    CheckKeepsOrigins(p, s, tx, height, 0, 0);
    AgesOnMain(p, s', tx, 0, 0);
  }

  lemma {:induction false} AgesOnMain(p: Params, s: Store, tx: Tx, k: nat, total: int)
    requires Shaped(s) && k <= |tx.ins| && CentSeconds(p, s, tx, k, total).Some?
    ensures forall i :: k <= i < |tx.ins| ==> OriginBelow(s, tx.ins[i], |p.main|)
    decreases |tx.ins| - k
  {
    if k < |tx.ins| {
      AgesOnMain(p, s, tx, k + 1, total + OriginAge(p, s, tx, tx.ins[k]).value);
    }
  }

  // ---------------------------------------------------------------- branches that pass

  /** A chain whose block `j` passed its checks while `mains[j]` was the main chain. */
  ghost predicate PassedWith(net: Network, mains: seq<seq<Block>>, chain: seq<Block>) {
    && |mains| == |chain| && StartsChain(chain)
    && forall j :: 1 <= j < |chain| ==> Sane(chain[j]) && Connectable(net, mains[j], chain[..j], chain[j])
  }

  /** A chain that is valid by itself: each block passes its checks while the blocks below it are the main chain. */
  ghost predicate ValidAlone(net: Network, chain: seq<Block>) {
    && StartsChain(chain)
    && forall j :: 1 <= j < |chain| ==> Sane(chain[j]) && Connectable(net, chain[..j], chain[..j], chain[j])
  }

  /** A chain that passed its checks passes them again beside a main chain that agrees on the coin ages of the blocks
      they do not share. */
  lemma PassedPassesAgain(net: Network, mains: seq<seq<Block>>, main: seq<Block>, chain: seq<Block>)
    requires PassedWith(net, mains, chain)
    requires forall j :: 1 <= j < |chain| && !Shares(main, chain, j) ==>
               AgesAgree(mains[j], main, chain[..j], chain[j])
    ensures SidePasses(net, main, chain)
  {
    hide Connectable, AgesAgree, Shares, Sane;
    forall j | 1 <= j < |chain| && !Shares(main, chain, j) ensures Connectable(net, main, chain[..j], chain[j]) {
      AgreeingAges(net, mains[j], main, chain[..j], chain[j]);
    }
  }

  /** A chain that is valid by itself passes beside every main chain it forks off from above the origins of its
      stakes. */
  lemma ValidForkPasses(net: Network, main: seq<Block>, chain: seq<Block>, fork: nat)
    requires ValidAlone(net, chain) && 1 <= fork <= |chain| && fork <= |main| && main[..fork] == chain[..fork]
    requires forall j :: fork <= j < |chain| ==> StakesBelow(chain[..j], chain[j], fork)
    ensures SidePasses(net, main, chain)
  {
    hide Connectable, StakesBelow, Sane;
    forall j | 1 <= j < fork ensures Shares(main, chain, j) {
      assert chain[..j + 1] == chain[..fork][..j + 1] == main[..j + 1];
    }
    forall j | fork <= j < |chain| ensures Connectable(net, main, chain[..j], chain[j]) {
      assert chain[..j][..fork] == chain[..fork];
      SharedAges(chain[..j], main, chain[..j], chain[j], fork);
      AgreeingAges(net, chain[..j], main, chain[..j], chain[j]);
    }
  }

  // The record of `h` just before the transaction at position `a`, and that the transaction is legal on it.
  lemma LegalAt(h: Hash, steps: seq<Step>, a: nat)
    requires StepsLegal(Missing, h, steps) && a < |steps|
    ensures StepLegal(ConnectSteps(Missing, h, steps[..a]), h, steps[a])
    ensures WellShaped(ConnectSteps(Missing, h, steps[..a]))
  {
    assert steps == steps[..a] + steps[a..];
    StepsLegalConcat(Missing, h, steps[..a], steps[a..]);
    LegalFirst(ConnectSteps(Missing, h, steps[..a]), h, steps[a..]);
    ConnectStepsShape(Missing, h, steps[..a]);
  }

  // In one legal transaction no output is named twice.
  lemma {:induction false} LegalInputsDistinct(e: TxData, h: Hash, ins: seq<TxIn>, k: nat, m: nat)
    requires InputsLegal(e, h, ins) && k < m < |ins| && ins[k].prev.hash == h
    ensures ins[k].prev != ins[m].prev
  {
    var n := |ins| - 1;
    var front := ins[..n];
    if m < n {
      LegalInputsDistinct(e, h, front, k, m);
    } else {
      var i := ins[k].prev.index;
      LegalInputsInRange(e, h, ins);
      assert front[k].prev == OutPoint(h, i);
      InputsPointwise(e, h, front, i);
    }
  }

  /** No created output is spent twice.  If two different inputs of a validated chain name the same output,
      inside one transaction, across a block or across blocks, then its transaction was created anew strictly
      between them. */
  lemma SpentOnce(net: Network, chain: seq<Block>, a: nat, k: nat, c: nat, m: nat)
    requires Validated(net, chain)
    requires var steps := Steps(chain);
      && a <= c < |steps| && k < |steps[a].tx.ins| && m < |steps[c].tx.ins| && (a == c ==> k < m)
      && !IsCoinBase(steps[a].tx) && !IsCoinBase(steps[c].tx)
      && steps[a].tx.ins[k].prev == steps[c].tx.ins[m].prev
    ensures exists r :: a < r < c && Steps(chain)[r].tx.hash == Steps(chain)[a].tx.ins[k].prev.hash
  {
    var steps := Steps(chain);
    var h, i := steps[a].tx.ins[k].prev.hash, steps[a].tx.ins[k].prev.index;
    ValidatedIsLegal(net, chain, h);
    LegalAt(h, steps, a);
    LegalAt(h, steps, c);
    var before := ConnectSteps(Missing, h, steps[..a]);
    if a == c {
      LegalInputsDistinct(before, h, steps[a].tx.ins, k, m);
    } else {
      var between := steps[a + 1..c];
      if Creates(between, h) {
        var r :| 0 <= r < |between| && between[r].tx.hash == h;
        assert steps[a + 1 + r].tx.hash == h;
      } else {
        SpentThenSpent(h, steps, a, k, c, m);
      }
    }
  }

  // The impossible case of SpentOnce: nothing between the two inputs creates the transaction.
  lemma SpentThenSpent(h: Hash, steps: seq<Step>, a: nat, k: nat, c: nat, m: nat)
    requires StepsLegal(Missing, h, steps) && a < c < |steps| && !Creates(steps[a + 1..c], h)
    requires k < |steps[a].tx.ins| && m < |steps[c].tx.ins|
    requires !IsCoinBase(steps[a].tx) && !IsCoinBase(steps[c].tx)
    requires steps[a].tx.ins[k].prev.hash == h
    ensures steps[a].tx.ins[k].prev != steps[c].tx.ins[m].prev
  {
    LegalAt(h, steps, a);
    LegalAt(h, steps, c);
    var i := steps[a].tx.ins[k].prev.index;
    var before, at := ConnectSteps(Missing, h, steps[..a]), ConnectSteps(Missing, h, steps[..a + 1]);
    ConnectPrefix(Missing, h, steps, a);
    LegalInputsInRange(before, h, steps[a].tx.ins);
    InputsPointwise(before, h, steps[a].tx.ins, i);
    assert Names(steps[a].tx.ins, h, i);
    assert steps[..c] == steps[..a + 1] + steps[a + 1..c];
    ConnectStepsConcat(Missing, h, steps[..a + 1], steps[a + 1..c]);
    StepsPointwise(at, h, steps[a + 1..c], i);
    if steps[a].tx.ins[k].prev == steps[c].tx.ins[m].prev {
      assert Names(steps[c].tx.ins, h, i);
      LegalNamesUnspent(ConnectSteps(Missing, h, steps[..c]), h, steps[c].tx.ins, i);
    }
  }

  /** Every input of a validated chain, coinbases aside, names an output of an earlier transaction. */
  lemma SpendsCreated(net: Network, chain: seq<Block>, a: nat, k: nat)
    requires Validated(net, chain) && a < |Steps(chain)| && k < |Steps(chain)[a].tx.ins|
    requires !IsCoinBase(Steps(chain)[a].tx)
    ensures var prev := Steps(chain)[a].tx.ins[k].prev;
            exists r :: 0 <= r < a && Steps(chain)[r].tx.hash == prev.hash && prev.index < |Steps(chain)[r].tx.outs|
  {
    var steps := Steps(chain);
    var h := steps[a].tx.ins[k].prev.hash;
    ValidatedIsLegal(net, chain, h);
    LegalAt(h, steps, a);
    LegalInputsInRange(ConnectSteps(Missing, h, steps[..a]), h, steps[a].tx.ins);
    var r := PresentCreator(h, steps[..a]);
    assert steps[r] == steps[..a][r];
  }

  lemma {:induction false} PresentCreator(h: Hash, steps: seq<Step>) returns (r: nat)
    requires ConnectSteps(Missing, h, steps).Present?
    ensures r < |steps| && steps[r].tx.hash == h && steps[r].tx == ConnectSteps(Missing, h, steps).tx
  {
    var front, last := steps[..|steps| - 1], steps[|steps| - 1];
    SpendInputsShape(Created(ConnectSteps(Missing, h, front), h, last), h, last.tx.ins);
    if last.tx.hash == h {
      r := |steps| - 1;
    } else {
      r := PresentCreator(h, front);
    }
  }

  // ---------------------------------------------------------------- no transaction is created again

  // Every transaction of a chain is a transaction of one of its blocks.
  lemma {:induction false} StepInBlock(chain: seq<Block>, i: nat) returns (j: nat)
    requires i < |Steps(chain)|
    ensures j < |chain| && Steps(chain)[i].tx in chain[j].txs
  {
    var n := |chain| - 1;
    assert chain == chain[..n] + [chain[n]];
    StepsSnoc(chain[..n], chain[n]);
    if i < |Steps(chain[..n])| {
      j := StepInBlock(chain[..n], i);
    } else {
      j := n;
    }
  }

  ghost predicate CoinBasesDiffer(steps: seq<Step>) {
    forall i, j :: 0 <= i < j < |steps| && IsCoinBase(steps[i].tx) && IsCoinBase(steps[j].tx) ==>
      steps[i].tx.hash != steps[j].tx.hash
  }

  ghost predicate OneTxPerHash(steps: seq<Step>) {
    forall i, j :: 0 <= i < j < |steps| && steps[i].tx.hash == steps[j].tx.hash ==> steps[i].tx == steps[j].tx
  }

  /** Along a validated chain no transaction is created again, provided that a hash names one transaction and the
      coinbases differ: the first of two equal transactions has spent what the second would spend. */
  lemma NothingCreatedAgain(net: Network, chain: seq<Block>)
    requires Validated(net, chain) && OneTxPerHash(Steps(chain)) && CoinBasesDiffer(Steps(chain))
    ensures NoReuse(Steps(chain))
  {
    hide Validated, OneTxPerHash, CoinBasesDiffer;
    NothingCreatedBefore(net, chain, |Steps(chain)|);
    assert Steps(chain)[..|Steps(chain)|] == Steps(chain);
  }

  lemma {:induction false} NothingCreatedBefore(net: Network, chain: seq<Block>, n: nat)
    requires Validated(net, chain) && OneTxPerHash(Steps(chain)) && CoinBasesDiffer(Steps(chain)) && n <= |Steps(chain)|
    ensures NoReuse(Steps(chain)[..n])
  {
    if n > 0 {
      NothingCreatedBefore(net, chain, n - 1);
      forall i | 0 <= i < n - 1 ensures Steps(chain)[i].tx.hash != Steps(chain)[n - 1].tx.hash {
        NotCreatedTwice(net, chain, i, n - 1);
      }
    }
  }

  // A transaction that repeats an earlier one would need the first one's origin to be created in between.
  lemma NotCreatedTwice(net: Network, chain: seq<Block>, i: nat, c: nat)
    requires Validated(net, chain) && OneTxPerHash(Steps(chain)) && CoinBasesDiffer(Steps(chain))
    requires i < c < |Steps(chain)| && NoReuse(Steps(chain)[..c])
    ensures Steps(chain)[i].tx.hash != Steps(chain)[c].tx.hash
  {
    hide Validated;
    var steps := Steps(chain);
    if steps[i].tx.hash == steps[c].tx.hash && !IsCoinBase(steps[i].tx) {
      HasInput(net, chain, i);
      SpentOnce(net, chain, i, 0, c, 0);
      SpendsCreated(net, chain, i, 0);
      var h := steps[i].tx.ins[0].prev.hash;
      var r :| i < r < c && steps[r].tx.hash == h;
      var q :| 0 <= q < i && steps[q].tx.hash == h;
      RepeatIsReuse(steps[..c], q, r);
    }
  }

  lemma RepeatIsReuse(steps: seq<Step>, q: nat, r: nat)
    requires q < r < |steps| && steps[q].tx.hash == steps[r].tx.hash
    ensures !NoReuse(steps)
  {
  }

  lemma HasInput(net: Network, chain: seq<Block>, i: nat)
    requires Validated(net, chain) && i < |Steps(chain)|
    ensures |Steps(chain)[i].tx.ins| > 0
  {
    hide Passed;
    var j := StepInBlock(chain, i);
    var t :| 0 <= t < |chain[j].txs| && chain[j].txs[t] == Steps(chain)[i].tx;
    assert j > 0 ==> SaneTx(chain[j].txs[t]);
  }
}
