/** Hashes as 32 little-endian bytes (difficulty.go ShaHashToBig, ppc.go BigToShaHash) and the order on them that
    kernel.go sorts candidates by. */
module Hashes {
  import opened Arith
  import opened Wrappers

  type Byte = b: nat | b < 256

  const HASH_SIZE := 32

  type ShaHash = s: seq<Byte> | |s| == HASH_SIZE witness seq(HASH_SIZE, _ => 0)

  // The number little-endian bytes denote.
  function LittleEndian(bytes: seq<Byte>): nat {
    if bytes == [] then 0 else bytes[0] + 256 * LittleEndian(bytes[1..])
  }

  // big.Int.SetBytes.
  function BigEndian(bytes: seq<Byte>): nat {
    if bytes == [] then 0 else 256 * BigEndian(bytes[..|bytes| - 1]) + bytes[|bytes| - 1]
  }

  predicate Reversal(a: seq<Byte>, b: seq<Byte>) {
    |a| == |b| && forall i :: 0 <= i < |a| ==> a[i] == b[|a| - 1 - i]
  }

  lemma {:induction false} ReversalSwapsEndian(a: seq<Byte>, b: seq<Byte>)
    requires Reversal(a, b)
    ensures BigEndian(a) == LittleEndian(b)
  {
    if a != [] {
      ReversalSwapsEndian(a[..|a| - 1], b[1..]);
    }
  }

  // The loop that both conversions reverse their bytes with.
  method ReverseInPlace(buf: array<Byte>)
    modifies buf
    ensures Reversal(old(buf[..]), buf[..])
  {
    var blen := buf.Length;
    for i := 0 to blen / 2
      invariant forall j :: 0 <= j < i || blen - i <= j < blen ==> buf[j] == old(buf[blen - 1 - j])
      invariant forall j :: i <= j < blen - i ==> buf[j] == old(buf[j])
    {
      buf[i], buf[blen - 1 - i] := buf[blen - 1 - i], buf[i];
    }
  }

  /** ShaHashToBig reverses a copy of the bytes in place and reads them big-endian. */
  method ShaHashToBig(hash: ShaHash) returns (n: nat)
    ensures n == LittleEndian(hash)
  {
    hide LittleEndian, BigEndian;
    var buf := new Byte[HASH_SIZE](i requires 0 <= i < HASH_SIZE => hash[i]);
    assert buf[..] == hash;
    ReverseInPlace(buf);
    n := BigEndian(buf[..]);
    ReversalSwapsEndian(buf[..], hash);
  }

  // The shortest bytes of a number, big-endian: big.Int.Bytes.
  function Bytes(n: nat): seq<Byte> {
    if n == 0 then [] else Bytes(n / 256) + [n % 256]
  }

  lemma {:induction false} BytesValue(n: nat)
    ensures BigEndian(Bytes(n)) == n
  {
    if n > 0 {
      BytesValue(n / 256);
      assert Bytes(n)[..|Bytes(n)| - 1] == Bytes(n / 256);
    }
  }

  // No bytes that denote a number are fewer than its shortest ones.
  lemma {:induction false} BytesAreShortest(bytes: seq<Byte>)
    ensures |Bytes(LittleEndian(bytes))| <= |bytes|
  {
    if bytes != [] {
      BytesAreShortest(bytes[1..]);
      assert LittleEndian(bytes) / 256 == LittleEndian(bytes[1..]);
    }
  }

  function Zeros(n: nat): (z: seq<Byte>)
    ensures |z| == n
  {
    seq(n, _ => 0)
  }

  lemma {:induction false} PaddedValue(bytes: seq<Byte>, k: nat)
    ensures LittleEndian(bytes + Zeros(k)) == LittleEndian(bytes)
  {
    if bytes != [] {
      assert (bytes + Zeros(k))[1..] == bytes[1..] + Zeros(k);
      PaddedValue(bytes[1..], k);
    } else if k > 0 {
      assert (bytes + Zeros(k))[1..] == [] + Zeros(k - 1);
      PaddedValue([], k - 1);
    } else {
      assert bytes + Zeros(k) == [];
    }
  }

  /** BigToShaHash reverses the bytes of the number in place and pads them with zeros.  The result is the one hash
      that denotes the number; it is an error when there is none. */
  method BigToShaHash(n: nat) returns (hash: Option<ShaHash>)
    ensures hash.Some? ==> LittleEndian(hash.value) == n
    ensures forall h: ShaHash :: LittleEndian(h) == n ==> hash == Some(h)
  {
    hide Bytes, LittleEndian, BigEndian;
    var bytes := Bytes(n);
    var blen := |bytes|;
    var buf := new Byte[blen](i requires 0 <= i < blen => bytes[i]);
    assert buf[..] == bytes;
    ReverseInPlace(buf);
    ReversalSwapsEndian(bytes, buf[..]);
    BytesValue(n);
    OneHash(n);
    if blen > HASH_SIZE {
      return None;
    }
    PaddedValue(buf[..], HASH_SIZE - blen);
    return Some(buf[..] + Zeros(HASH_SIZE - blen));
  }

  // At most one hash denotes a number, and only if its bytes fit.
  lemma OneHash(n: nat)
    ensures forall g: ShaHash, h: ShaHash :: LittleEndian(g) == n && LittleEndian(h) == n ==> g == h
    ensures forall h: ShaHash :: LittleEndian(h) == n ==> |Bytes(n)| <= HASH_SIZE
  {
    forall g: ShaHash, h: ShaHash | LittleEndian(g) == n && LittleEndian(h) == n ensures g == h {
      LittleEndianInjective(g, h);
    }
    forall h: ShaHash | LittleEndian(h) == n ensures |Bytes(n)| <= HASH_SIZE {
      BytesAreShortest(h);
    }
  }

  // ---------------------------------------------------------------- the order of kernel.go's sorter

  // Compares the first `k` bytes from the most significant one down.
  function LessBytes(a: seq<Byte>, b: seq<Byte>, k: nat): bool
    requires k <= |a| && k <= |b|
  {
    if k == 0 then false
    else if a[k - 1] < b[k - 1] then true
    else if a[k - 1] > b[k - 1] then false
    else LessBytes(a, b, k - 1)
  }

  lemma {:induction false} LittleEndianBound(s: seq<Byte>)
    ensures LittleEndian(s) < Pow256(|s|)
  {
    if s != [] {
      LittleEndianBound(s[1..]);
    }
  }

  // The last byte is the most significant one.
  lemma {:induction false} LittleEndianTop(s: seq<Byte>)
    requires s != []
    ensures LittleEndian(s) == LittleEndian(s[..|s| - 1]) + s[|s| - 1] * Pow256(|s| - 1)
  {
    if |s| > 1 {
      LittleEndianTop(s[1..]);
      assert s[1..][..|s| - 2] == s[..|s| - 1][1..];
      MulAssoc(256, s[|s| - 1], Pow256(|s| - 2));
      MulAssoc(s[|s| - 1], 256, Pow256(|s| - 2));
    } else {
      assert s[1..] == [] && s[..0] == [];
      assert Pow256(0) == 1;
    }
  }

  /** Comparing byte by byte from the top is comparing the numbers ShaHashToBig gives. */
  lemma {:induction false} LessIsNumeric(a: seq<Byte>, b: seq<Byte>, k: nat)
    requires k <= |a| && k <= |b|
    ensures LessBytes(a, b, k) <==> LittleEndian(a[..k]) < LittleEndian(b[..k])
  {
    if k > 0 {
      LessIsNumeric(a, b, k - 1);
      LittleEndianTop(a[..k]);
      LittleEndianTop(b[..k]);
      assert a[..k][..k - 1] == a[..k - 1] && b[..k][..k - 1] == b[..k - 1];
      LittleEndianBound(a[..k - 1]);
      LittleEndianBound(b[..k - 1]);
      TopDecides(LittleEndian(a[..k - 1]), a[k - 1], LittleEndian(b[..k - 1]), b[k - 1], Pow256(k - 1));
    }
  }

  lemma TopDecides(low: nat, x: nat, low': nat, y: nat, p: nat)
    requires low < p && low' < p
    ensures low + x * p < low' + y * p <==> x < y || (x == y && low < low')
  {
    if x < y {
      MulLe(x + 1, y, p);
    } else if y < x {
      MulLe(y + 1, x, p);
    }
  }

  lemma {:induction false} LittleEndianInjective(a: seq<Byte>, b: seq<Byte>)
    requires |a| == |b| && LittleEndian(a) == LittleEndian(b)
    ensures a == b
  {
    if a != [] {
      assert a[0] == b[0];
      LittleEndianInjective(a[1..], b[1..]);
      assert a == [a[0]] + a[1..] && b == [b[0]] + b[1..];
    }
  }
}
