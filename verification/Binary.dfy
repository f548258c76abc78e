/** Binary digits, least significant first, and little-endian bytes. */
module Binary {
  import opened Prelude

  /** Whether mask & (1 << i) is nonzero. */
  function Bit(mask: nat, i: nat): bool {
    if i == 0 then mask % 2 == 1 else Bit(mask / 2, i - 1)
  }

  function Bits(mask: nat, n: nat): (s: seq<bool>)
    ensures |s| == n
  {
    seq(n, i requires 0 <= i < n => Bit(mask, i))
  }

  function Value(s: seq<bool>): nat {
    if s == [] then 0 else (if s[0] then 1 else 0) + 2 * Value(s[1..])
  }

  lemma BitsHead(mask: nat, n: nat)
    requires n > 0
    ensures Bits(mask, n) == [mask % 2 == 1] + Bits(mask / 2, n - 1)
  {
  }

  lemma {:induction false} BitsOfValue(s: seq<bool>)
    ensures Value(s) < Pow2(|s|) && Bits(Value(s), |s|) == s
  {
    if s != [] {
      hide Bits;
      BitsOfValue(s[1..]);
      BitsHead(Value(s), |s|);
      assert Value(s) / 2 == Value(s[1..]);
      assert s == [s[0]] + s[1..];
    } else {
      assert Bits(0, 0) == [];
    }
  }

  lemma {:induction false} ValueOfBits(mask: nat, n: nat)
    requires mask < Pow2(n)
    ensures Value(Bits(mask, n)) == mask
  {
    if n > 0 {
      hide Bits;
      ValueOfBits(mask / 2, n - 1);
      BitsHead(mask, n);
    }
  }

  type Byte = b: nat | b < 256

  /** int.from_bytes(bytes, byteorder="little"). */
  function FromLittleEndian(bytes: seq<Byte>): nat {
    if bytes == [] then 0 else bytes[0] + 256 * FromLittleEndian(bytes[1..])
  }

  function ToLittleEndian(v: nat, k: nat): (bytes: seq<Byte>)
    ensures |bytes| == k
  {
    if k == 0 then [] else [v % 256] + ToLittleEndian(v / 256, k - 1)
  }

  lemma {:induction false} LittleEndianRoundTrip(v: nat, k: nat)
    requires v < Pow2(8 * k)
    ensures FromLittleEndian(ToLittleEndian(v, k)) == v
  {
    if k > 0 {
      EightBits(8 * (k - 1));
      LittleEndianRoundTrip(v / 256, k - 1);
    }
  }

  lemma EightBits(n: nat)
    ensures Pow2(n + 8) == 256 * Pow2(n)
  {
    assert Pow2(n + 8) == 2 * Pow2(n + 7) == 4 * Pow2(n + 6) == 8 * Pow2(n + 5) == 16 * Pow2(n + 4);
    assert Pow2(n + 4) == 2 * Pow2(n + 3) == 4 * Pow2(n + 2) == 8 * Pow2(n + 1) == 16 * Pow2(n);
  }
}
