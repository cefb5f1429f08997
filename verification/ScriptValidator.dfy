/** The parallel script validator (scriptval.go) as interleaved steps of the goroutine that runs Validate and its
    handlers.  Channels are unbuffered, so a send and its receive are one step; closing the quit channel is
    visible to every handler from then on. */
module ScriptValidator {
  import opened Ledger
  import opened Validate
  import opened Wrappers

  // An item is one input to validate, known by its position; `verdict` is what validating it reports.
  datatype Config = Config(items: nat, handlers: nat, verdict: nat -> Option<RuleError>)

  /** A handler waits at its select, validates an item, offers its result (while also listening for quit), or has
      left its loop. */
  datatype Handler = Idle | Running(item: nat) | Sending(item: nat) | Exited

  datatype Caller = Looping | Returned(error: Option<RuleError>)

  /** `executed` lists the items whose scripts were run, in order, and `received` those whose result arrived. */
  datatype State = State(handlers: seq<Handler>, currentItem: nat, processedItems: nat, caller: Caller,
                         quit: bool, executed: seq<nat>, received: set<nat>)

  datatype Step = Hand(h: nat) | Execute(h: nat) | Receive(h: nat) | GiveUp(h: nat) | Leave(h: nat)

  // At least one handler is started, and no more than there are items; none when there is nothing to validate.
  predicate WellFormed(c: Config) {
    if c.items == 0 then c.handlers == 0 else 1 <= c.handlers <= c.items
  }

  function Start(c: Config): State {
    State(seq(c.handlers, _ => Idle), 0, 0, if c.items == 0 then Returned(None) else Looping, false, [], {})
  }

  predicate Enabled(c: Config, s: State, step: Step) {
    step.h < |s.handlers| &&
    match step
    case Hand(h) => s.caller.Looping? && s.currentItem < c.items && s.handlers[h].Idle?
    case Execute(h) => s.handlers[h].Running?
    case Receive(h) => s.caller.Looping? && s.handlers[h].Sending?
    case GiveUp(h) => s.quit && s.handlers[h].Sending?
    case Leave(h) => s.quit && s.handlers[h].Idle?
  }

  // A handler breaks out of its loop after offering an error, taken or not.
  function AfterSend(c: Config, item: nat): Handler {
    if c.verdict(item).Some? then Exited else Idle
  }

  function Apply(c: Config, s: State, step: Step): State
    requires Enabled(c, s, step)
  {
    match step
    case Hand(h) =>
      s.(handlers := s.handlers[h := Running(s.currentItem)], currentItem := s.currentItem + 1)
    case Execute(h) =>
      var item := s.handlers[h].item;
      s.(handlers := s.handlers[h := Sending(item)], executed := s.executed + [item])
    case Receive(h) =>
      var item := s.handlers[h].item;
      var s' := s.(handlers := s.handlers[h := AfterSend(c, item)],
                   processedItems := s.processedItems + 1, received := s.received + {item});
      if c.verdict(item).Some? then s'.(quit := true, caller := Returned(c.verdict(item)))
      else if s'.processedItems < c.items then s'
      else s'.(quit := true, caller := Returned(None))
    case GiveUp(h) =>
      s.(handlers := s.handlers[h := AfterSend(c, s.handlers[h].item)])
    case Leave(h) =>
      s.(handlers := s.handlers[h := Exited])
  }

  // ---------------------------------------------------------------- the invariant

  predicate Holds(s: State, h: nat, item: nat) {
    h < |s.handlers| && (s.handlers[h] == Running(item) || s.handlers[h] == Sending(item))
  }

  function UpTo(n: nat): (s: set<nat>)
    ensures forall i: nat :: i in s <==> i < n
    ensures |s| == n
  {
    if n == 0 then {} else UpTo(n - 1) + {n - 1}
  }

  predicate Passes(c: Config, item: nat) {
    c.verdict(item).None?
  }

  ghost predicate Held(s: State, item: nat) {
    exists h: nat :: Holds(s, h, item)
  }

  /** Every item handed out is with exactly one handler or was received, once. */
  ghost predicate Holding(c: Config, s: State) {
    && |s.handlers| == c.handlers
    && s.currentItem <= c.items
    && (forall g: nat, h: nat, item: nat :: Holds(s, g, item) && Holds(s, h, item) ==> g == h)
    && (forall h: nat, item: nat :: Holds(s, h, item) ==> item < s.currentItem && item !in s.received)
    && s.received <= UpTo(s.currentItem)
    && s.processedItems == |s.received|
  }

  /** An item was executed exactly when it is past execution, and never twice. */
  ghost predicate Executing(s: State) {
    && (forall i, j :: 0 <= i < j < |s.executed| ==> s.executed[i] != s.executed[j])
    && (forall i :: 0 <= i < |s.executed| ==> s.executed[i] < s.currentItem)
    && (forall h :: 0 <= h < |s.handlers| && s.handlers[h].Running? ==> s.handlers[h].item !in s.executed)
    && (forall h :: 0 <= h < |s.handlers| && s.handlers[h].Sending? ==> s.handlers[h].item in s.executed)
    && (forall item :: item in s.received ==> item in s.executed)
  }

  /** While Validate loops nothing has failed and no item is lost; what it returns is what was received. */
  ghost predicate Calling(c: Config, s: State) {
    && (s.handlers != [] ==> (s.quit <==> s.caller.Returned?))
    && (s.caller.Looping? ==>
          && s.processedItems < c.items
          && (forall h :: 0 <= h < |s.handlers| ==> !s.handlers[h].Exited?)
          && (forall item :: item in s.received ==> Passes(c, item))
          && (forall item: nat :: item < s.currentItem && item !in s.received ==> Held(s, item)))
    && (s.caller == Returned(None) ==>
          s.received == UpTo(c.items) && forall item :: item in s.received ==> Passes(c, item))
    && (s.caller.Returned? && s.caller.error.Some? ==>
          exists item :: item in s.received && item < c.items && c.verdict(item) == s.caller.error)
  }

  ghost predicate Inv(c: Config, s: State) {
    Holding(c, s) && Executing(s) && Calling(c, s)
  }

  lemma StartInv(c: Config)
    requires WellFormed(c)
    ensures Inv(c, Start(c))
  {
  }

  lemma HandKeepsInv(c: Config, s: State, h: nat)
    requires Inv(c, s) && Enabled(c, s, Hand(h))
    ensures Inv(c, Apply(c, s, Hand(h)))
  {
    var s' := Apply(c, s, Hand(h));
    forall g: nat, item: nat | Holds(s', g, item) ensures if g == h then item == s.currentItem else Holds(s, g, item) {}
    forall item: nat | item < s'.currentItem && item !in s'.received ensures Held(s', item) {
      if item == s.currentItem {
        assert Holds(s', h, item);
      } else {
        assert Held(s, item);
        var g: nat :| Holds(s, g, item);
        assert Holds(s', g, item);
      }
    }
  }

  lemma ExecuteKeepsInv(c: Config, s: State, h: nat)
    requires Inv(c, s) && Enabled(c, s, Execute(h))
    ensures Inv(c, Apply(c, s, Execute(h)))
  {
    var s' := Apply(c, s, Execute(h));
    var done := s.handlers[h].item;
    assert Holds(s, h, done);
    forall g: nat, item: nat ensures Holds(s', g, item) <==> Holds(s, g, item) {}
    forall item: nat ensures Held(s', item) <==> Held(s, item) {}
    forall g | 0 <= g < |s'.handlers| && s'.handlers[g].Running? ensures s'.handlers[g].item !in s'.executed {
      assert Holds(s, g, s.handlers[g].item);
    }
    forall g | 0 <= g < |s'.handlers| && s'.handlers[g].Sending? ensures s'.handlers[g].item in s'.executed {
      if g == h {
        assert s'.executed[|s.executed|] == done;
      }
    }
  }

  // After a receive the other handlers hold what they held, and the sender nothing.
  lemma ReceiveHolds(c: Config, s: State, h: nat)
    requires Inv(c, s) && Enabled(c, s, Receive(h))
    ensures var s', item := Apply(c, s, Receive(h)), s.handlers[h].item;
      && Holds(s, h, item) && item < s.currentItem && item !in s.received
      && (forall g: nat, i: nat :: Holds(s', g, i) <==> g != h && Holds(s, g, i))
      && (forall g: nat, i: nat :: Holds(s', g, i) ==> i != item)
      && (forall i: nat :: i != item && Held(s, i) ==> Held(s', i))
  {
    var s', item := Apply(c, s, Receive(h)), s.handlers[h].item;
    assert Holds(s, h, item);
    forall g: nat, i: nat ensures Holds(s', g, i) <==> g != h && Holds(s, g, i) {}
    forall i: nat | i != item && Held(s, i) ensures Held(s', i) {
      var g: nat :| Holds(s, g, i);
      assert Holds(s', g, i);
    }
  }

  lemma ReceiveKeepsInv(c: Config, s: State, h: nat)
    requires Inv(c, s) && Enabled(c, s, Receive(h))
    ensures Inv(c, Apply(c, s, Receive(h)))
  {
    ReceiveKeepsHolding(c, s, h);
    ReceiveKeepsExecuting(c, s, h);
    ReceiveKeepsCalling(c, s, h);
  }

  lemma ReceiveKeepsHolding(c: Config, s: State, h: nat)
    requires Inv(c, s) && Enabled(c, s, Receive(h))
    ensures Holding(c, Apply(c, s, Receive(h)))
  {
    hide Held, Holds, Executing, Calling;
    ReceiveHolds(c, s, h);
  }

  lemma ReceiveKeepsExecuting(c: Config, s: State, h: nat)
    requires Inv(c, s) && Enabled(c, s, Receive(h))
    ensures Executing(Apply(c, s, Receive(h)))
  {
    hide Held, Holds, Holding, Calling;
  }

  lemma ReceiveKeepsCalling(c: Config, s: State, h: nat)
    requires Inv(c, s) && Enabled(c, s, Receive(h))
    ensures Calling(c, Apply(c, s, Receive(h)))
  {
    hide Held, Holds, Executing, UpTo;
    var s', item := Apply(c, s, Receive(h)), s.handlers[h].item;
    ReceiveHolds(c, s, h);
    if s'.caller.Looping? {
      ReceiveKeepsLooping(c, s, h);
    } else if c.verdict(item).None? {
      AllReceived(c, s'.received, s.currentItem);
    } else {
      assert item in s'.received && c.verdict(item) == s'.caller.error;
    }
  }

  lemma ReceiveKeepsLooping(c: Config, s: State, h: nat)
    requires Inv(c, s) && Enabled(c, s, Receive(h)) && Apply(c, s, Receive(h)).caller.Looping?
    ensures var s' := Apply(c, s, Receive(h));
      && s'.processedItems < c.items
      && (forall g :: 0 <= g < |s'.handlers| ==> !s'.handlers[g].Exited?)
      && (forall i :: i in s'.received ==> Passes(c, i))
      && (forall i: nat :: i < s'.currentItem && i !in s'.received ==> Held(s', i))
  {
    hide Held, Holds, Executing, UpTo;
    ReceiveHolds(c, s, h);
  }

  lemma AllReceived(c: Config, received: set<nat>, n: nat)
    requires received <= UpTo(n) && n <= c.items && |received| >= c.items
    ensures received == UpTo(c.items)
  {
    assert received <= UpTo(c.items);
    if received != UpTo(c.items) {
      var i :| i in UpTo(c.items) && i !in received;
      SubsetSize(received, UpTo(c.items) - {i});
    }
  }

  lemma SubsetSize(a: set<nat>, b: set<nat>)
    requires a <= b
    ensures |a| <= |b|
  {
    if a != {} {
      var x :| x in a;
      SubsetSize(a - {x}, b - {x});
    }
  }

  lemma QuitKeepsInv(c: Config, s: State, step: Step)
    requires Inv(c, s) && Enabled(c, s, step) && (step.GiveUp? || step.Leave?)
    ensures Inv(c, Apply(c, s, step))
  {
    var s' := Apply(c, s, step);
    forall g: nat, item: nat | Holds(s', g, item) ensures Holds(s, g, item) {}
  }

  lemma StepKeepsInv(c: Config, s: State, step: Step)
    requires Inv(c, s) && Enabled(c, s, step)
    ensures Inv(c, Apply(c, s, step))
  {
    match step
    case Hand(h) => HandKeepsInv(c, s, h);
    case Execute(h) => ExecuteKeepsInv(c, s, h);
    case Receive(h) => ReceiveKeepsInv(c, s, h);
    case GiveUp(h) => QuitKeepsInv(c, s, step);
    case Leave(h) => QuitKeepsInv(c, s, step);
  }

  // ---------------------------------------------------------------- progress

  function HandlerWeight(h: Handler): nat {
    match h
    case Idle => 1
    case Running(_) => 3
    case Sending(_) => 2
    case Exited => 0
  }

  function Weights(handlers: seq<Handler>): nat {
    if handlers == [] then 0 else Weights(handlers[..|handlers| - 1]) + HandlerWeight(handlers[|handlers| - 1])
  }

  function Measure(c: Config, s: State): int {
    3 * (c.items - s.currentItem) + Weights(s.handlers)
  }

  lemma {:induction false} WeightsUpdate(handlers: seq<Handler>, h: nat, x: Handler)
    requires h < |handlers|
    ensures Weights(handlers[h := x]) == Weights(handlers) - HandlerWeight(handlers[h]) + HandlerWeight(x)
  {
    var n := |handlers| - 1;
    if h < n {
      WeightsUpdate(handlers[..n], h, x);
      assert handlers[h := x][..n] == handlers[..n][h := x];
    } else {
      assert handlers[h := x][..n] == handlers[..n];
    }
  }

  /** Every step, of any kind and by any handler, makes the measure smaller. */
  lemma StepDecreases(c: Config, s: State, step: Step)
    requires Inv(c, s) && Enabled(c, s, step)
    ensures 0 <= Measure(c, Apply(c, s, step)) < Measure(c, s)
  {
    hide Executing, Calling, Holds, Weights, UpTo;
    StepKeepsInv(c, s, step);
    WeightsUpdate(s.handlers, step.h, Apply(c, s, step).handlers[step.h]);
  }

  predicate Finished(s: State) {
    s.caller.Returned? && forall h :: 0 <= h < |s.handlers| ==> s.handlers[h].Exited?
  }

  /** No reachable state is stuck: until Validate has returned and every handler has left, some step is enabled. */
  lemma NeverStuck(c: Config, s: State) returns (step: Step)
    requires WellFormed(c) && Inv(c, s) && !Finished(s)
    ensures Enabled(c, s, step)
  {
    hide Executing;
    if h :| 0 <= h < |s.handlers| && s.handlers[h].Running? {
      step := Execute(h);
    } else if h :| 0 <= h < |s.handlers| && s.handlers[h].Sending? {
      step := if s.caller.Looping? then Receive(h) else GiveUp(h);
    } else if s.caller.Returned? {
      var h :| 0 <= h < |s.handlers| && !s.handlers[h].Exited?;
      step := Leave(h);
    } else {
      assert s.handlers[0].Idle?;
      if s.currentItem == c.items {
        assert forall item: nat :: item < c.items ==> item in s.received;
            SubsetSize(UpTo(c.items), s.received);
      }
      step := Hand(0);
    }
  }

  // ---------------------------------------------------------------- whole runs

  // The state after a sequence of steps, if each is enabled in turn.
  function After(c: Config, steps: seq<Step>): Option<State> {
    if steps == [] then Some(Start(c))
    else
      var n := |steps| - 1;
      var before := After(c, steps[..n]);
      if before.Some? && Enabled(c, before.value, steps[n]) then Some(Apply(c, before.value, steps[n])) else None
  }

  predicate Reaches(c: Config, steps: seq<Step>, s: State) {
    After(c, steps) == Some(s)
  }

  lemma {:induction false} RunFacts(c: Config, steps: seq<Step>, s: State)
    requires WellFormed(c) && Reaches(c, steps, s)
    ensures Inv(c, s) && 0 <= Measure(c, s) <= 3 * c.items + c.handlers - |steps|
  {
    hide Inv;
    if steps == [] {
      StartInv(c);
      IdleWeights(c.handlers);
    } else {
      var n := |steps| - 1;
      var p := After(c, steps[..n]).value;
      RunFacts(c, steps[..n], p);
      StepKeepsInv(c, p, steps[n]);
      StepDecreases(c, p, steps[n]);
    }
  }

  lemma {:induction false} IdleWeights(n: nat)
    ensures Weights(seq(n, _ => Idle)) == n
  {
    if n > 0 {
      var idle := seq(n, _ => Idle);
      assert idle[..n - 1] == seq(n - 1, _ => Idle);
      IdleWeights(n - 1);
    }
  }

  /** Safety over every interleaving: when Validate returns nil every item was executed exactly once and passed;
      when it returns an error, the error is that of an executed item. */
  lemma ReturnIsSound(c: Config, steps: seq<Step>, s: State)
    requires WellFormed(c) && Reaches(c, steps, s) && s.caller.Returned?
    ensures s.caller.error.None? ==>
              && (forall item: nat :: item < c.items ==> Passes(c, item))
              && multiset(s.executed) == multiset(UpTo(c.items))
    ensures s.caller.error.Some? ==>
              exists item :: item in s.executed && item < c.items && c.verdict(item) == s.caller.error
  {
    RunFacts(c, steps, s);
    if s.caller.error.None? {
      forall item: nat | item < c.items ensures Passes(c, item) {
        assert item in s.received;
      }
      ExecutedOnce(s.executed, c.items);
    } else {
      var item :| item in s.received && item < c.items && c.verdict(item) == s.caller.error;
      assert item in s.executed;
    }
  }

  lemma ExecutedOnce(executed: seq<nat>, n: nat)
    requires forall i, j :: 0 <= i < j < |executed| ==> executed[i] != executed[j]
    requires forall i :: 0 <= i < |executed| ==> executed[i] < n
    requires forall item: nat :: item < n ==> item in executed
    ensures multiset(executed) == multiset(UpTo(n))
  {
    forall x: nat ensures multiset(executed)[x] == multiset(UpTo(n))[x] {
      DistinctCount(executed, x);
    }
  }

  lemma {:induction false} DistinctCount(s: seq<nat>, x: nat)
    requires forall i, j :: 0 <= i < j < |s| ==> s[i] != s[j]
    ensures multiset(s)[x] == if x in s then 1 else 0
  {
    if s != [] {
      var n := |s| - 1;
      DistinctCount(s[..n], x);
      assert s == s[..n] + [s[n]];
      if x == s[n] {
        assert forall i :: 0 <= i < n ==> s[..n][i] != s[n];
      }
    }
  }

  /** Termination and exactness over every schedule: no run is longer than three steps per item plus one per
      handler; a run that cannot go on has returned with every handler gone, with nil exactly when every item is
      valid, the verdict of checking the items one after the other. */
  lemma EveryRunEnds(c: Config, steps: seq<Step>, s: State)
    requires WellFormed(c) && Reaches(c, steps, s)
    ensures |steps| <= 3 * c.items + c.handlers
    ensures (forall step :: !Enabled(c, s, step)) ==>
              Finished(s) && (s.caller.error.None? <==> forall item: nat :: item < c.items ==> Passes(c, item))
  {
    hide Inv, After, Enabled;
    RunFacts(c, steps, s);
    if forall step :: !Enabled(c, s, step) {
      if !Finished(s) {
        var step := NeverStuck(c, s);
      }
      ReturnIsSound(c, steps, s);
      if s.caller.error.Some? {
        var item :| item in s.executed && item < c.items && c.verdict(item) == s.caller.error;
        assert !Passes(c, item);
      }
    }
  }

  // ---------------------------------------------------------------- the scripts of a block

  datatype Item = Item(t: nat, k: nat)

  predicate IsItem(b: Block, item: Item) {
    item.t < |b.txs| && item.k < |b.txs[item.t].ins| && b.txs[item.t].ins[item.k].prev.index != NULL_INDEX
  }

  predicate NoneTwice(items: seq<Item>) {
    forall i, j :: 0 <= i < j < |items| ==> items[i] != items[j]
  }

  /** checkBlockScripts collects exactly one item for every input of the block that is not a null outpoint. */
  method CollectItems(b: Block) returns (items: seq<Item>)
    ensures NoneTwice(items) && forall item :: item in items <==> IsItem(b, item)
  {
    items := [];
    for t := 0 to |b.txs|
      invariant NoneTwice(items) && forall item :: item in items <==> IsItem(b, item) && item.t < t
    {
      for k := 0 to |b.txs[t].ins|
        invariant NoneTwice(items)
        invariant forall item :: item in items <==> IsItem(b, item) && (item.t < t || (item.t == t && item.k < k))
      {
        if b.txs[t].ins[k].prev.index == NULL_INDEX {
          continue;
        }
        items := items + [Item(t, k)];
      }
    }
  }

  // What a handler reports for one item.
  function ItemError(p: Params, s: Store, tx: Tx, k: nat): Option<RuleError>
    requires k < |tx.ins|
  {
    var h, index := tx.ins[k].prev.hash, tx.ins[k].prev.index;
    if h !in s || s[h].Missing? then Some(ErrMissingTx)
    else if index >= |s[h].tx.outs| then Some(ErrBadTxInput)
    else if !p.net.scriptOk(tx, k, s[h].tx.outs[index]) then Some(ErrScript)
    else None
  }

  // The configuration for a block's items.
  ghost predicate ValidatesBlock(c: Config, p: Params, s: Store, b: Block, items: seq<Item>) {
    && (forall item :: item in items <==> IsItem(b, item))
    && c.items == |items|
    && (forall i :: 0 <= i < |items| ==> IsItem(b, items[i]))
    && (forall i :: 0 <= i < |items| ==> c.verdict(i) == ItemError(p, s, b.txs[items[i].t], items[i].k))
  }

  /** Whatever the schedule, once a run has nothing left to do Validate has returned nil exactly when every script
      of the block passes. */
  lemma BlockScriptsVerdict(c: Config, p: Params, s: Store, b: Block, items: seq<Item>, steps: seq<Step>, end: State)
    requires ValidatesBlock(c, p, s, b, items) && WellFormed(c) && Reaches(c, steps, end)
    requires forall step :: !Enabled(c, end, step)
    ensures end.caller.Returned? && (end.caller.error.None? <==> ScriptsPass(p, s, b))
  {
    EveryRunEnds(c, steps, end);
    ItemsDecideScripts(c, p, s, b, items);
  }

  lemma ItemsDecideScripts(c: Config, p: Params, s: Store, b: Block, items: seq<Item>)
    requires ValidatesBlock(c, p, s, b, items)
    ensures (forall i: nat :: i < c.items ==> Passes(c, i)) <==> ScriptsPass(p, s, b)
  {
    if forall i: nat :: i < c.items ==> Passes(c, i) {
      forall t, k | 0 <= t < |b.txs| && 0 <= k < |b.txs[t].ins| ensures ScriptPasses(p, s, b.txs[t], k) {
        if b.txs[t].ins[k].prev.index != NULL_INDEX {
          assert IsItem(b, Item(t, k));
          var i :| 0 <= i < |items| && items[i] == Item(t, k);
          assert Passes(c, i);
        }
      }
    }
    if ScriptsPass(p, s, b) {
      forall i: nat | i < c.items ensures Passes(c, i) {
        assert ScriptPasses(p, s, b.txs[items[i].t], items[i].k);
      }
    }
  }
}
