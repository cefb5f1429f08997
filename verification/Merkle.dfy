/** The merkle tree stored in a linear array (merkle.go) holds, level by level, the usual reduction in which the
    last node of an odd level is paired with itself. */
module Merkle {
  import opened Arith
  import opened Ledger
  import opened Wrappers

  // floor(log2(n)).
  function Log2(n: nat): nat
    requires n > 0
  {
    if n == 1 then 0 else 1 + Log2(n / 2)
  }

  lemma {:induction false} Log2Bounds(n: nat)
    requires n > 0
    ensures Pow2(Log2(n)) <= n < Pow2(Log2(n) + 1)
  {
    if n > 1 {
      Log2Bounds(n / 2);
    }
  }

  // The number of levels above the leaves.
  function Depth(n: nat): nat
    requires n > 0
  {
    if Pow2(Log2(n)) == n then Log2(n) else Log2(n) + 1
  }

  /** nextPowerOfTwo: the number itself when it is a power of two, else one with the next exponent. */
  function NextPowerOfTwo(n: nat): nat
    requires n > 0
  {
    if Pow2(Log2(n)) == n then n else Pow2(Log2(n) + 1)
  }

  lemma NextPowerOfTwoIsLeast(n: nat)
    requires n > 0
    ensures NextPowerOfTwo(n) == Pow2(Depth(n)) && n <= NextPowerOfTwo(n)
    ensures Depth(n) > 0 ==> Pow2(Depth(n) - 1) < n
  {
    Log2Bounds(n);
    if Pow2(Log2(n)) == n && Log2(n) > 0 {
      Pow2Order(Log2(n) - 1, Log2(n));
    }
  }

  // HashMerkleBranches: the hash of two concatenated hashes, an arbitrary function here.
  type Branches = (Hash, Hash) -> Hash

  function Parent(f: Branches, left: Option<Hash>, right: Option<Hash>): Option<Hash> {
    if left.None? then None
    else if right.None? then Some(f(left.value, left.value))
    else Some(f(left.value, right.value))
  }

  // The entry of a level, if there is one.
  function At(level: seq<Hash>, j: nat): Option<Hash> {
    if j < |level| then Some(level[j]) else None
  }

  // What slot `s` of the array holds: a leaf, or the parent of the two slots that map to it.
  function Slot(f: Branches, leaves: seq<Hash>, width: nat, s: nat): Option<Hash>
    requires s < 2 * width - 1
    decreases s
  {
    if s < width then At(leaves, s)
    else Parent(f, Slot(f, leaves, width, 2 * (s - width)), Slot(f, leaves, width, 2 * (s - width) + 1))
  }

  lemma SlotOf(f: Branches, leaves: seq<Hash>, width: nat, s: nat)
    requires s < 2 * width - 1
    ensures s < width ==> Slot(f, leaves, width, s) == At(leaves, s)
    ensures s >= width ==>
              var left, right := Slot(f, leaves, width, 2 * (s - width)), Slot(f, leaves, width, 2 * (s - width) + 1);
              Slot(f, leaves, width, s) == Parent(f, left, right)
  {
  }

  /** BuildMerkleTreeStore fills the array in place with an offset that moves half as fast as the pairs. */
  method BuildMerkleTreeStore(f: Branches, leaves: seq<Hash>) returns (merkles: array<Option<Hash>>)
    requires leaves != []
    ensures fresh(merkles) && merkles.Length == 2 * NextPowerOfTwo(|leaves|) - 1
    ensures forall s :: 0 <= s < merkles.Length ==> merkles[s] == Slot(f, leaves, NextPowerOfTwo(|leaves|), s)
  {
    hide NextPowerOfTwo, Pow2, Slot;
    NextPowerOfTwoIsLeast(|leaves|);
    var nextPoT := NextPowerOfTwo(|leaves|);
    var arraySize := nextPoT * 2 - 1;
    merkles := new Option<Hash>[arraySize](_ => None);
    for i := 0 to |leaves|
      invariant forall s :: 0 <= s < i ==> merkles[s] == Some(leaves[s])
      invariant forall s :: i <= s < arraySize ==> merkles[s] == None
    {
      merkles[i] := Some(leaves[i]);
    }
    forall s: nat | s < nextPoT ensures merkles[s] == Slot(f, leaves, nextPoT, s) {
      SlotOf(f, leaves, nextPoT, s);
    }
    var offset := nextPoT;
    var i := 0;
    while i < arraySize - 1
      invariant 0 <= i <= arraySize - 1 && i % 2 == 0 && offset == nextPoT + i / 2
      invariant forall s :: 0 <= s < offset ==> merkles[s] == Slot(f, leaves, nextPoT, s)
    {
      if merkles[i] == None {
        merkles[offset] := None;
      } else if merkles[i + 1] == None {
        merkles[offset] := Some(f(merkles[i].value, merkles[i].value));
      } else {
        merkles[offset] := Some(f(merkles[i].value, merkles[i + 1].value));
      }
      SlotOf(f, leaves, nextPoT, offset);
      offset := offset + 1;
      i := i + 2;
    }
  }

  // ---------------------------------------------------------------- the reference reduction

  function NextLevel(f: Branches, level: seq<Hash>): (next: seq<Hash>)
    ensures |next| == (|level| + 1) / 2
  {
    seq((|level| + 1) / 2, j requires 0 <= j < (|level| + 1) / 2 =>
      f(level[2 * j], if 2 * j + 1 < |level| then level[2 * j + 1] else level[2 * j]))
  }

  function Level(f: Branches, leaves: seq<Hash>, k: nat): seq<Hash> {
    if k == 0 then leaves else NextLevel(f, Level(f, leaves, k - 1))
  }

  function MerkleRoot(f: Branches, level: seq<Hash>): Hash
    requires level != []
    decreases |level|
  {
    if |level| == 1 then level[0] else MerkleRoot(f, NextLevel(f, level))
  }

  // Level `k` has ceil(n / 2^k) nodes.
  lemma {:induction false} LevelSize(f: Branches, leaves: seq<Hash>, k: nat)
    requires leaves != []
    ensures var size := |Level(f, leaves, k)|;
            size >= 1 && (size - 1) * Pow2(k) < |leaves| <= size * Pow2(k)
  {
    hide NextLevel;
    if k == 0 {
      assert Pow2(0) == 1;
    } else {
      hide Pow2;
      LevelSize(f, leaves, k - 1);
      Pow2Double(k);
      HalfSize(|Level(f, leaves, k - 1)|, |leaves|, Pow2(k - 1));
    }
  }

  lemma Pow2Double(k: nat)
    requires k > 0
    ensures Pow2(k) == 2 * Pow2(k - 1)
  {
  }

  lemma HalfSize(below: nat, n: nat, p: nat)
    requires below >= 1 && (below - 1) * p < n <= below * p
    ensures var size := (below + 1) / 2; size >= 1 && (size - 1) * (2 * p) < n <= size * (2 * p)
  {
    var size := (below + 1) / 2;
    MulLe(2 * (size - 1), below - 1, p);
    MulLe(below, 2 * size, p);
    MulAssoc(size - 1, 2, p);
    MulAssoc(size, 2, p);
  }

  // The slot where level `k` of a tree of depth `depth` starts.
  function Offset(depth: nat, k: nat): int
    requires k <= depth
  {
    2 * Pow2(depth) - 2 * Pow2(depth - k)
  }

  /** Every level of the array is the level of the reduction, padded with empty slots: slot `j` of level `k` is empty
      exactly when `j` is at least ceil(n / 2^k), the size of that level. */
  lemma {:induction false} ArrayIsLevels(f: Branches, leaves: seq<Hash>, depth: nat, k: nat, j: nat)
    requires leaves != [] && |leaves| <= Pow2(depth) && k <= depth && j < Pow2(depth - k)
    ensures 0 <= Offset(depth, k) && Offset(depth, k) + j < 2 * Pow2(depth) - 1
    ensures Slot(f, leaves, Pow2(depth), Offset(depth, k) + j)
         == At(Level(f, leaves, k), j)
    decreases k
  {
    hide Pow2, Offset, NextLevel;
    if k == 0 {
      OffsetZero(depth);
    } else {
      OffsetStep(depth, k, j);
      ArrayIsLevels(f, leaves, depth, k - 1, 2 * j);
      ArrayIsLevels(f, leaves, depth, k - 1, 2 * j + 1);
      var below := Level(f, leaves, k - 1);
      ParentIsNext(f, below, j);
    }
  }

  // The parent of two neighbouring entries of a level is the entry of the next one.
  lemma ParentIsNext(f: Branches, below: seq<Hash>, j: nat)
    ensures Parent(f, At(below, 2 * j), At(below, 2 * j + 1)) == At(NextLevel(f, below), j)
  {
  }

  lemma OffsetZero(depth: nat)
    ensures Offset(depth, 0) == 0
  {
  }

  lemma OffsetStep(depth: nat, k: nat, j: nat)
    requires 1 <= k <= depth && j < Pow2(depth - k)
    ensures Pow2(depth) <= Offset(depth, k) + j < 2 * Pow2(depth) - 1
    ensures 2 * (Offset(depth, k) + j - Pow2(depth)) == Offset(depth, k - 1) + 2 * j
    ensures 2 * j + 1 < Pow2(depth - (k - 1))
  {
    assert Pow2(depth - (k - 1)) == 2 * Pow2(depth - k);
    Pow2Order(depth - k, depth);
  }

  // Reducing further from level `k` gives the same root, as long as more than one node is left.
  lemma {:induction false} RootOfLevel(f: Branches, leaves: seq<Hash>, depth: nat, k: nat)
    requires leaves != [] && |leaves| <= Pow2(depth) && (depth > 0 ==> Pow2(depth - 1) < |leaves|) && k <= depth
    ensures Level(f, leaves, k) != [] && MerkleRoot(f, Level(f, leaves, k)) == MerkleRoot(f, leaves)
    ensures |Level(f, leaves, depth)| == 1
  {
    hide Pow2, NextLevel;
    LevelSize(f, leaves, k);
    LevelSize(f, leaves, depth);
    SizeAtDepth(|Level(f, leaves, depth)|, |leaves|, Pow2(depth));
    if k > 0 {
      RootOfLevel(f, leaves, depth, k - 1);
      LevelSize(f, leaves, k - 1);
      SizeAboveOne(f, leaves, depth, k - 1);
    }
  }

  lemma SizeAtDepth(size: nat, n: nat, p: nat)
    requires size >= 1 && p >= 1 && (size - 1) * p < n <= p
    ensures size == 1
  {
    MulLess(size - 1, 1, p);
  }

  lemma SizeAboveOne(f: Branches, leaves: seq<Hash>, depth: nat, k: nat)
    requires leaves != [] && k < depth && Pow2(depth - 1) < |leaves|
    ensures |Level(f, leaves, k)| > 1
  {
    hide Pow2, Level;
    LevelSize(f, leaves, k);
    if k < depth - 1 {
      Pow2Order(k, depth - 1);
    }
    MulLess(1, |Level(f, leaves, k)|, Pow2(k));
  }

  /** The last element of the array is the merkle root of the level-by-level reduction. */
  lemma LastSlotIsRoot(f: Branches, leaves: seq<Hash>)
    requires leaves != []
    ensures var width := NextPowerOfTwo(|leaves|);
            width >= 1 && Slot(f, leaves, width, 2 * width - 2) == Some(MerkleRoot(f, leaves))
  {
    hide Pow2, Level, Slot, MerkleRoot, NextPowerOfTwo, Depth;
    var depth := Depth(|leaves|);
    NextPowerOfTwoIsLeast(|leaves|);
    RootPosition(depth);
    ArrayIsLevels(f, leaves, depth, depth, 0);
    RootOfLevel(f, leaves, depth, depth);
    SingleRoot(f, Level(f, leaves, depth));
  }

  lemma SingleRoot(f: Branches, level: seq<Hash>)
    requires |level| == 1
    ensures MerkleRoot(f, level) == level[0]
  {
  }

  lemma RootPosition(depth: nat)
    ensures Pow2(0) == 1 && Offset(depth, depth) == 2 * Pow2(depth) - 2
  {
    assert Pow2(0) == 1;
  }
}
