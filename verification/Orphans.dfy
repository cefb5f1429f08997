/** The orphan pool (chain.go): blocks whose parent is not known yet, indexed by their own and by their parent's
    hash. */
module Orphans {
  import opened Ledger
  import opened Wrappers

  const MAX_ORPHAN_BLOCKS := 100
  const HOUR := 60 * 60

  datatype OrphanBlock = OrphanBlock(block: Block, expiration: int)

  // Hashes name one block each, and a block's hash is made after its parent's.
  ghost predicate Hashed(universe: iset<Block>, age: Hash -> nat) {
    && (forall a, b :: a in universe && b in universe && a.hash == b.hash ==> a == b)
    && (forall b :: b in universe ==> age(b.prevHash) < age(b.hash))
  }

  function Dependents(prevOrphans: map<Hash, seq<OrphanBlock>>, h: Hash): seq<OrphanBlock> {
    if h in prevOrphans then prevOrphans[h] else []
  }

  predicate NoneTwice(list: seq<OrphanBlock>) {
    forall i, j :: 0 <= i < j < |list| ==> list[i].block.hash != list[j].block.hash
  }

  ghost predicate AllListed(orphans: map<Hash, OrphanBlock>, prevOrphans: map<Hash, seq<OrphanBlock>>) {
    forall h :: h in orphans ==>
      orphans[h].block.hash == h && orphans[h] in Dependents(prevOrphans, orphans[h].block.prevHash)
  }

  ghost predicate AllPooled(orphans: map<Hash, OrphanBlock>, prevOrphans: map<Hash, seq<OrphanBlock>>) {
    forall p, o :: p in prevOrphans && o in prevOrphans[p] ==>
      o.block.prevHash == p && o.block.hash in orphans && orphans[o.block.hash] == o
  }

  ghost predicate TidyLists(prevOrphans: map<Hash, seq<OrphanBlock>>) {
    forall p :: p in prevOrphans ==> prevOrphans[p] != [] && NoneTwice(prevOrphans[p])
  }

  /** Both maps index the same orphans: each once, under its own hash and in the list of its parent's hash; no list
      is empty. */
  ghost predicate SameOrphans(orphans: map<Hash, OrphanBlock>, prevOrphans: map<Hash, seq<OrphanBlock>>) {
    AllListed(orphans, prevOrphans) && AllPooled(orphans, prevOrphans) && TidyLists(prevOrphans)
  }

  function Without(list: seq<OrphanBlock>, h: Hash): seq<OrphanBlock> {
    if list == [] then []
    else if list[0].block.hash == h then Without(list[1..], h)
    else [list[0]] + Without(list[1..], h)
  }

  lemma NoneLeft(list: seq<OrphanBlock>, h: Hash)
    ensures list[..0] + Without(list[0..], h) == Without(list, h)
    ensures list[..|list|] + Without(list[|list|..], h) == list
  {
    assert list[0..] == list;
  }

  // What one turn of removeOrphanBlock's loop at position `i` leaves to do.
  lemma WithoutAt(list: seq<OrphanBlock>, i: nat, h: Hash)
    requires i < |list|
    ensures (var rest := list[..i] + list[i + 1..];
             list[..i] + Without(list[i..], h)
             == if list[i].block.hash == h then rest[..i] + Without(rest[i..], h)
                else list[..i + 1] + Without(list[i + 1..], h))
  {
    var rest := list[..i] + list[i + 1..];
    assert list[i..][1..] == list[i + 1..] == rest[i..] && rest[..i] == list[..i];
    assert list[..i] + ([list[i]] + Without(list[i + 1..], h)) == list[..i + 1] + Without(list[i + 1..], h);
  }

  lemma {:induction false} WithoutHas(list: seq<OrphanBlock>, h: Hash, o: OrphanBlock)
    ensures o in Without(list, h) <==> o in list && o.block.hash != h
  {
    if list != [] {
      WithoutHas(list[1..], h, o);
    }
  }

  lemma {:induction false} WithoutKeeps(list: seq<OrphanBlock>, h: Hash)
    requires NoneTwice(list)
    ensures NoneTwice(Without(list, h))
    ensures (forall o :: o in list ==> o.block.hash != h) ==> Without(list, h) == list
  {
    if list != [] {
      WithoutKeeps(list[1..], h);
      var rest := Without(list[1..], h);
      forall i | 0 <= i < |rest| ensures rest[i].block.hash != list[0].block.hash {
        WithoutHas(list[1..], h, rest[i]);
      }
    }
  }

  // The dependents map after the orphan of that hash left its parent's list.
  function Unlisted(prevOrphans: map<Hash, seq<OrphanBlock>>, p: Hash, h: Hash): map<Hash, seq<OrphanBlock>> {
    var rest := Without(Dependents(prevOrphans, p), h);
    if rest == [] then prevOrphans - {p} else prevOrphans[p := rest]
  }

  lemma UnlistedHas(prevOrphans: map<Hash, seq<OrphanBlock>>, p: Hash, h: Hash, q: Hash, o: OrphanBlock)
    ensures o in Dependents(Unlisted(prevOrphans, p, h), q)
       <==> o in Dependents(prevOrphans, q) && (q == p ==> o.block.hash != h)
  {
    WithoutHas(Dependents(prevOrphans, p), h, o);
  }

  lemma RemovalKeepsIndexes(orphans: map<Hash, OrphanBlock>, prevOrphans: map<Hash, seq<OrphanBlock>>, b: Block)
    requires SameOrphans(orphans, prevOrphans) && (b.hash in orphans ==> orphans[b.hash].block == b)
    ensures SameOrphans(orphans - {b.hash}, Unlisted(prevOrphans, b.prevHash, b.hash))
  {
    hide Unlisted, Dependents, NoneTwice;
    var p := b.prevHash;
    var prev' := Unlisted(prevOrphans, p, b.hash);
    UnlistedTidy(prevOrphans, p, b.hash);
    forall h | h in orphans && h != b.hash ensures orphans[h] in Dependents(prev', orphans[h].block.prevHash) {
      UnlistedHas(prevOrphans, p, b.hash, orphans[h].block.prevHash, orphans[h]);
    }
    forall q, o: OrphanBlock | q in prev' && o in prev'[q]
      ensures o.block.prevHash == q && o.block.hash in orphans - {b.hash} && orphans[o.block.hash] == o
    {
      InList(prev', q, o);
      UnlistedHas(prevOrphans, p, b.hash, q, o);
      InList(prevOrphans, q, o);
    }
  }

  lemma InList(prevOrphans: map<Hash, seq<OrphanBlock>>, p: Hash, o: OrphanBlock)
    ensures o in Dependents(prevOrphans, p) <==> p in prevOrphans && o in prevOrphans[p]
  {
  }

  lemma UnlistedTidy(prevOrphans: map<Hash, seq<OrphanBlock>>, p: Hash, h: Hash)
    requires TidyLists(prevOrphans)
    ensures TidyLists(Unlisted(prevOrphans, p, h))
  {
    hide NoneTwice;
    assert NoneTwice([]) by { NothingTwice(); }
    WithoutKeeps(Dependents(prevOrphans, p), h);
  }

  lemma NothingTwice()
    ensures NoneTwice([])
  {
  }

  lemma AdditionKeepsIndexes(orphans: map<Hash, OrphanBlock>, prevOrphans: map<Hash, seq<OrphanBlock>>, o: OrphanBlock)
    requires SameOrphans(orphans, prevOrphans) && o.block.hash !in orphans
    ensures SameOrphans(orphans[o.block.hash := o],
                        prevOrphans[o.block.prevHash := Dependents(prevOrphans, o.block.prevHash) + [o]])
  {
    hide Dependents, NoneTwice;
    var p := o.block.prevHash;
    var list := Dependents(prevOrphans, p);
    var orphans', prev' := orphans[o.block.hash := o], prevOrphans[p := list + [o]];
    forall q, x ensures x in Dependents(prev', q) <==> x in Dependents(prevOrphans, q) || (q == p && x == o) {
      InList(prev', q, x);
      InList(prevOrphans, q, x);
    }
    ListGrows(list, o) by {
      forall x: OrphanBlock | x in list ensures x.block.hash != o.block.hash { InList(prevOrphans, p, x); }
      AnyListTidy(prevOrphans, p);
    }
    forall q, x: OrphanBlock | q in prev' && x in prev'[q]
      ensures x.block.prevHash == q && x.block.hash in orphans' && orphans'[x.block.hash] == x
    {
      InList(prev', q, x);
      InList(prevOrphans, q, x);
    }
  }

  lemma AnyListTidy(prevOrphans: map<Hash, seq<OrphanBlock>>, p: Hash)
    requires TidyLists(prevOrphans)
    ensures NoneTwice(Dependents(prevOrphans, p))
  {
  }

  lemma ListGrows(list: seq<OrphanBlock>, o: OrphanBlock)
    requires NoneTwice(list) && forall x :: x in list ==> x.block.hash != o.block.hash
    ensures NoneTwice(list + [o]) && list + [o] != []
  {
  }

  // A line of orphans that starts with a child of `h`.
  ghost predicate Line(orphans: map<Hash, OrphanBlock>, h: Hash, line: seq<Hash>) {
    && |line| > 0
    && (forall i :: 0 <= i < |line| ==> line[i] in orphans)
    && orphans[line[0]].block.prevHash == h
    && forall i :: 1 <= i < |line| ==> orphans[line[i]].block.prevHash == line[i - 1]
  }

  ghost predicate Descends(orphans: map<Hash, OrphanBlock>, h: Hash, o: Hash) {
    exists line :: Line(orphans, h, line) && line[|line| - 1] == o
  }

  lemma ChildDescends(orphans: map<Hash, OrphanBlock>, h: Hash, parent: Hash, o: Hash)
    requires o in orphans && orphans[o].block.prevHash == parent
    requires parent == h || Descends(orphans, h, parent)
    ensures Descends(orphans, h, o)
  {
    if parent == h {
      assert Line(orphans, h, [o]);
    } else {
      var line :| Line(orphans, h, line) && line[|line| - 1] == parent;
      assert Line(orphans, h, line + [o]);
    }
  }

  /** A set that contains the children of `h` and, with each orphan, its children contains all descendants. */
  lemma ClosedUnderDescent(orphans: map<Hash, OrphanBlock>, h: Hash, closed: set<Hash>, o: Hash)
    requires forall c :: c in orphans && (orphans[c].block.prevHash == h || orphans[c].block.prevHash in closed) ==>
               c in closed
    requires Descends(orphans, h, o)
    ensures o in closed
  {
    var line :| Line(orphans, h, line) && line[|line| - 1] == o;
    for i := 0 to |line|
      invariant i > 0 ==> line[i - 1] in closed
    {
    }
  }

  // ---------------------------------------------------------------- the limit

  function Unexpired(pool: map<Hash, OrphanBlock>, now: int): (kept: set<Hash>)
    ensures kept <= pool.Keys
  {
    set h | h in pool && now <= pool[h].expiration
  }

  // Some orphan that has not expired does so before `o`.
  ghost predicate Outlives(pool: map<Hash, OrphanBlock>, o: OrphanBlock, now: int) {
    exists h :: h in pool && now <= pool[h].expiration < o.expiration
  }

  /** The remembered orphan after a scan of the pool: the one remembered before, unless an unexpired orphan expires
      strictly earlier, and then, or when none was remembered, an unexpired one that is the first to expire. */
  ghost predicate Scanned(pool: map<Hash, OrphanBlock>, remembered: Option<OrphanBlock>, oldest: Option<OrphanBlock>,
                          now: int) {
    if remembered.Some? && !Outlives(pool, remembered.value, now) then oldest == remembered
    else if Unexpired(pool, now) == {} then oldest.None?
    else
      && oldest.Some? && oldest.value.block.hash in Unexpired(pool, now)
      && pool[oldest.value.block.hash] == oldest.value
      && forall h :: h in pool && now <= pool[h].expiration ==> oldest.value.expiration <= pool[h].expiration
  }

  /** Whether a pool keeps its limit when an orphan is added: it is not full, or the scan finds an orphan of the pool to
      evict. */
  ghost predicate KeepsLimit(pool: map<Hash, OrphanBlock>, remembered: Option<OrphanBlock>, now: int) {
    || |Unexpired(pool, now)| < MAX_ORPHAN_BLOCKS
    || remembered.None?
    || remembered.value.block.hash in Unexpired(pool, now)
    || Outlives(pool, remembered.value, now)
  }

  predicate WithinLimit(pool: map<Hash, OrphanBlock>) {
    |pool| <= MAX_ORPHAN_BLOCKS
  }

  /** Expired orphans have left; a full pool has given up the orphan of the scan as well and remembers none, and any
      other remembers that orphan; the new one has joined. */
  ghost predicate MadeRoom(before: map<Hash, OrphanBlock>, oldest: Option<OrphanBlock>, after: map<Hash, OrphanBlock>,
                           remembered: Option<OrphanBlock>, h: Hash, now: int) {
    var kept := Unexpired(before, now);
    if |kept| < MAX_ORPHAN_BLOCKS then after.Keys == kept + {h} && remembered == oldest
    else oldest.Some? && remembered.None? && after.Keys == kept - {oldest.value.block.hash} + {h}
  }

  /** What adding an orphan does to a pool: a scan, the room it makes, and the new orphan with an hour to live. */
  ghost predicate Added(before: map<Hash, OrphanBlock>, remembered: Option<OrphanBlock>, after: map<Hash, OrphanBlock>,
                        rememberedAfter: Option<OrphanBlock>, block: Block, now: int) {
    && block.hash in after && after[block.hash] == OrphanBlock(block, now + HOUR)
    && (forall h :: h in after && h != block.hash ==> h in before && after[h] == before[h])
    && exists oldest ::
         && Scanned(before, remembered, oldest, now)
         && MadeRoom(before, oldest, after, rememberedAfter, block.hash, now)
  }

  lemma RoomTaken(before: map<Hash, OrphanBlock>, oldest: Option<OrphanBlock>, room: map<Hash, OrphanBlock>,
                  after: map<Hash, OrphanBlock>, remembered: Option<OrphanBlock>, h: Hash, now: int)
    requires after.Keys == room.Keys + {h}
    requires |Unexpired(before, now)| < MAX_ORPHAN_BLOCKS ==>
               room.Keys == Unexpired(before, now) && remembered == oldest
    requires |Unexpired(before, now)| >= MAX_ORPHAN_BLOCKS ==>
               && oldest.Some? && remembered.None?
               && room.Keys == Unexpired(before, now) - {oldest.value.block.hash}
    ensures MadeRoom(before, oldest, after, remembered, h, now)
  {
  }

  // The size of the pool after the scan's orphan made room for a new one.
  lemma LimitKept(pool: map<Hash, OrphanBlock>, remembered: Option<OrphanBlock>, oldest: Option<OrphanBlock>, now: int,
                  after: map<Hash, OrphanBlock>, rememberedAfter: Option<OrphanBlock>, h: Hash)
    requires WithinLimit(pool) && h !in pool && Scanned(pool, remembered, oldest, now)
    requires MadeRoom(pool, oldest, after, rememberedAfter, h, now)
    ensures WithinLimit(after) <==> KeepsLimit(pool, remembered, now)
  {
    var kept := Unexpired(pool, now);
    SubsetSize(kept, pool.Keys);
    assert |pool| == |pool.Keys| && |after| == |after.Keys|;
    if |kept| == MAX_ORPHAN_BLOCKS {
      assert oldest.value.block.hash in kept <==> KeepsLimit(pool, remembered, now);
      if oldest.value.block.hash !in kept {
        assert after.Keys == kept + {h};
      }
    }
  }

  lemma {:induction false} SubsetSize(a: set<Hash>, b: set<Hash>)
    requires a <= b
    ensures |a| <= |b|
  {
    if a != {} {
      var x :| x in a;
      SubsetSize(a - {x}, b - {x});
    }
  }

  class OrphanPool {
    var orphans: map<Hash, OrphanBlock>
    var prevOrphans: map<Hash, seq<OrphanBlock>>
    var oldestOrphan: Option<OrphanBlock>
    ghost const universe: iset<Block>
    ghost const age: Hash -> nat

    ghost predicate Valid()
      reads this
    {
      && Hashed(universe, age) && SameOrphans(orphans, prevOrphans)
      && (forall h :: h in orphans ==> orphans[h].block in universe)
      && (oldestOrphan.Some? ==> oldestOrphan.value.block in universe)
    }

    constructor (ghost universe: iset<Block>, ghost age: Hash -> nat)
      requires Hashed(universe, age)
      ensures Valid() && orphans == map[] && oldestOrphan == None
      ensures this.universe == universe && this.age == age
    {
      this.orphans := map[];
      this.prevOrphans := map[];
      this.oldestOrphan := None;
      this.universe := universe;
      this.age := age;
    }

    /** removeOrphanBlock; `orphan` may have left the pool before. */
    method RemoveOrphanBlock(orphan: OrphanBlock)
      requires Valid() && orphan.block in universe
      modifies this`orphans, this`prevOrphans
      ensures Valid() && orphans == old(orphans) - {orphan.block.hash}
    {
      hide SameOrphans, Hashed, Without;
      var orphanHash, prevHash := orphan.block.hash, orphan.block.prevHash;
      PooledBlock(orphan.block);
      RemovalKeepsIndexes(orphans, prevOrphans, orphan.block);
      orphans := orphans - {orphanHash};
      var list := Dependents(prevOrphans, prevHash);
      var i := 0;
      while i < |list|
        invariant 0 <= i <= |list| && orphans == old(orphans) - {orphanHash} && prevOrphans == old(prevOrphans)
        invariant Without(Dependents(prevOrphans, prevHash), orphanHash) == list[..i] + Without(list[i..], orphanHash)
        decreases |list| - i
      {
        WithoutAt(list, i, orphanHash);
        if list[i].block.hash == orphanHash {
          list := list[..i] + list[i + 1..];
          i := i - 1;
        }
        i := i + 1;
      }
      NoneLeft(list, orphanHash);
      assert list == Without(Dependents(prevOrphans, prevHash), orphanHash);
      prevOrphans := if list == [] then prevOrphans - {prevHash} else prevOrphans[prevHash := list];
    }

    // The loop of addOrphanBlock over the pool, in any order.
    method RemoveExpired(now: int) returns (ghost oldest: Option<OrphanBlock>)
      requires Valid()
      modifies this
      ensures Valid() && orphans.Keys == Unexpired(old(orphans), now)
      ensures forall h :: h in orphans ==> orphans[h] == old(orphans)[h]
      ensures oldestOrphan == oldest && Scanned(old(orphans), old(oldestOrphan), oldest, now)
    {
      hide SameOrphans, Hashed;
      var todo := orphans.Keys;
      while todo != {}
        invariant Valid() && todo <= orphans.Keys
        invariant forall h :: h in orphans <==> h in old(orphans) && (h in todo || now <= old(orphans)[h].expiration)
        invariant forall h :: h in orphans ==> orphans[h] == old(orphans)[h]
        invariant || oldestOrphan == old(oldestOrphan)
                  || (&& oldestOrphan.Some? && oldestOrphan.value.block.hash in orphans.Keys - todo
                      && orphans[oldestOrphan.value.block.hash] == oldestOrphan.value
                      && (old(oldestOrphan).Some? ==>
                            oldestOrphan.value.expiration < old(oldestOrphan).value.expiration))
        invariant forall h :: h in orphans && h !in todo ==>
                    oldestOrphan.Some? && oldestOrphan.value.expiration <= orphans[h].expiration
        decreases todo
      {
        var h :| h in todo;
        todo := todo - {h};
        var oBlock := orphans[h];
        OwnHash(h);
        if now > oBlock.expiration {
          RemoveOrphanBlock(oBlock);
        } else if oldestOrphan.None? || oBlock.expiration < oldestOrphan.value.expiration {
          oldestOrphan := Some(oBlock);
        }
      }
      oldest := oldestOrphan;
    }

    lemma PooledBlock(b: Block)
      requires Valid() && b in universe
      ensures b.hash in orphans ==> orphans[b.hash].block == b
    {
    }

    lemma OwnHashes()
      requires Valid()
      ensures forall h :: h in orphans ==> orphans[h].block.hash == h && orphans[h].block in universe
      ensures forall p, o :: o in Dependents(prevOrphans, p) ==>
                o.block.prevHash == p && o.block.hash in orphans && orphans[o.block.hash] == o
      ensures forall h :: h in orphans ==> Dependents(prevOrphans, orphans[h].block.prevHash) != []
    {
    }

    lemma OwnHash(h: Hash)
      requires Valid() && h in orphans
      ensures orphans[h].block.hash == h
    {
    }

    // The eviction of addOrphanBlock: expired orphans, and the oldest one when the pool is full.
    method MakeRoom(now: int) returns (ghost oldest: Option<OrphanBlock>)
      requires Valid()
      modifies this
      ensures Valid() && Scanned(old(orphans), old(oldestOrphan), oldest, now)
      ensures forall h :: h in orphans ==> h in old(orphans) && orphans[h] == old(orphans)[h]
      ensures |Unexpired(old(orphans), now)| < MAX_ORPHAN_BLOCKS ==>
                orphans.Keys == Unexpired(old(orphans), now) && oldestOrphan == oldest
      ensures |Unexpired(old(orphans), now)| >= MAX_ORPHAN_BLOCKS ==>
                && oldest.Some? && oldestOrphan.None?
                && orphans.Keys == Unexpired(old(orphans), now) - {oldest.value.block.hash}
    {
      hide SameOrphans, Hashed;
      oldest := RemoveExpired(now);
      assert |orphans| == |orphans.Keys|;
      if |orphans| + 1 > MAX_ORPHAN_BLOCKS {
        RemoveOrphanBlock(oldestOrphan.value);
        oldestOrphan := None;
      }
    }

    /** addOrphanBlock.  Expired orphans leave, the block joins both indexes, and when the pool is full the oldest
        orphan of the scan is evicted, which may have left before.  A pool within the limit stays within it exactly when
        it was not full or that orphan was still in it. */
    method AddOrphanBlock(block: Block, now: int) returns (ghost oldest: Option<OrphanBlock>)
      requires Valid() && block in universe && block.hash !in orphans
      modifies this
      ensures Valid() && block.hash in orphans && orphans[block.hash] == OrphanBlock(block, now + HOUR)
      ensures forall h :: h in orphans && h != block.hash ==> h in old(orphans) && orphans[h] == old(orphans)[h]
      ensures Scanned(old(orphans), old(oldestOrphan), oldest, now)
      ensures MadeRoom(old(orphans), oldest, orphans, oldestOrphan, block.hash, now)
      ensures WithinLimit(old(orphans)) ==>
                (WithinLimit(orphans) <==> KeepsLimit(old(orphans), old(oldestOrphan), now))
    {
      hide Valid, Scanned, KeepsLimit, WithinLimit, MadeRoom;
      oldest := MakeRoom(now);
      ghost var room := orphans;
      InsertOrphan(OrphanBlock(block, now + HOUR));
      RoomTaken(old(orphans), oldest, room, orphans, oldestOrphan, block.hash, now);
      if WithinLimit(old(orphans)) {
        LimitKept(old(orphans), old(oldestOrphan), oldest, now, orphans, oldestOrphan, block.hash);
      }
    }

    // The two insertions at the end of addOrphanBlock.
    method InsertOrphan(oBlock: OrphanBlock)
      requires Valid() && oBlock.block in universe && oBlock.block.hash !in orphans
      modifies this`orphans, this`prevOrphans
      ensures Valid() && orphans == old(orphans)[oBlock.block.hash := oBlock]
      ensures Dependents(prevOrphans, oBlock.block.prevHash)
           == Dependents(old(prevOrphans), oBlock.block.prevHash) + [oBlock]
    {
      hide SameOrphans, Hashed;
      var prevHash := oBlock.block.prevHash;
      AdditionKeepsIndexes(orphans, prevOrphans, oBlock);
      orphans := orphans[oBlock.block.hash := oBlock];
      prevOrphans := prevOrphans[prevHash := Dependents(prevOrphans, prevHash) + [oBlock]];
    }

    /** GetOrphanRoot: the oldest pooled ancestor of a pooled orphan, or the hash itself when it is not pooled. */
    method GetOrphanRoot(hash: Hash) returns (orphanRoot: Hash)
      requires Valid()
      ensures hash !in orphans ==> orphanRoot == hash
      ensures hash in orphans ==> orphanRoot in orphans && orphans[orphanRoot].block.prevHash !in orphans
      ensures hash in orphans ==> hash == orphanRoot || Descends(orphans, orphanRoot, hash)
    {
      hide SameOrphans, Descends;
      orphanRoot := hash;
      var prevHash := hash;
      while prevHash in orphans
        invariant prevHash in orphans ==> hash == prevHash || Descends(orphans, prevHash, hash)
        invariant orphanRoot == hash || (hash in orphans && Descends(orphans, orphanRoot, hash))
        invariant prevHash == hash || (orphanRoot in orphans && orphans[orphanRoot].block.prevHash == prevHash)
        invariant hash !in orphans ==> prevHash == hash == orphanRoot
        decreases age(prevHash)
      {
        OwnHash(prevHash);
        assert Hashed(universe, age);
        DescendsFromParent(orphans, prevHash, hash);
        orphanRoot := prevHash;
        prevHash := orphans[prevHash].block.prevHash;
      }
    }
  }

  // A descendant of an orphan descends from that orphan's parent.
  lemma DescendsFromParent(orphans: map<Hash, OrphanBlock>, parent: Hash, o: Hash)
    requires parent in orphans && (o == parent || Descends(orphans, parent, o))
    ensures Descends(orphans, orphans[parent].block.prevHash, o)
  {
    var h := orphans[parent].block.prevHash;
    if o == parent {
      assert Line(orphans, h, [parent]);
    } else {
      var line :| Line(orphans, parent, line) && line[|line| - 1] == o;
      assert Line(orphans, h, [parent] + line);
    }
  }
}
