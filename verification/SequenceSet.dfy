/** The RTPS SequenceNumberSet carried by ACKNACK submessages. */
module SequenceSet {
  import opened Prelude
  import opened Binary

  const WORD_BITS := 32
  const WORD_BYTES := 4

  // ---------- decoding ----------

  /** How many bits the complete words of a bitmap hold, up to the announced number. */
  function CoveredBits(numBits: int, raw: seq<Byte>): nat {
    var held := WORD_BITS * (|raw| / WORD_BYTES);
    if numBits <= 0 then 0 else if numBits <= held then numBits else held
  }

  /** Bit k of the set: word k / 32, counted from its most significant bit. */
  predicate Member(raw: seq<Byte>, k: nat)
    requires k < WORD_BITS * (|raw| / WORD_BYTES)
  {
    var offset := k / WORD_BITS * WORD_BYTES;
    Bit(FromLittleEndian(raw[offset..offset + WORD_BYTES]), 31 - k % WORD_BITS)
  }

  ghost predicate StrictlyIncreasing(xs: seq<int>) {
    forall i, j :: 0 <= i < j < |xs| ==> xs[i] < xs[j]
  }

  /** Strictly increasing, and exactly base + k for the member bits k that are covered. */
  ghost predicate IsDecoded(missing: seq<int>, base: int, covered: nat, raw: seq<Byte>)
    requires covered <= WORD_BITS * (|raw| / WORD_BYTES)
  {
    && StrictlyIncreasing(missing)
    && forall v :: v in missing <==> base <= v < base + covered && Member(raw, v - base)
  }

  method DecodeSequenceSet(base: Option<int>, numBits: int, raw: seq<Byte>) returns (missing: seq<int>)
    ensures base.None? ==> missing == []
    ensures base.Some? ==> IsDecoded(missing, base.value, CoveredBits(numBits, raw), raw)
  {
    missing := [];
    if base.None? || numBits == 0 || raw == [] {
      return;
    }
    var bitIndex := 0;
    while bitIndex < numBits
      invariant 0 <= bitIndex <= CoveredBits(numBits, raw)
      invariant IsDecoded(missing, base.value, bitIndex, raw)
    {
      var offset := bitIndex / WORD_BITS * WORD_BYTES;
      if |raw| < offset + WORD_BYTES {
        WordIncomplete(bitIndex, |raw|);
        break;
      }
      WordComplete(bitIndex, |raw|);
      var word := FromLittleEndian(raw[offset..offset + WORD_BYTES]);
      ghost var before := missing;
      if Bit(word, 31 - bitIndex % WORD_BITS) {
        missing := missing + [base.value + bitIndex];
      }
      DecodeStep(before, missing, base.value, bitIndex, raw);
      bitIndex := bitIndex + 1;
    }
  }

  lemma WordComplete(k: nat, length: nat)
    requires k / WORD_BITS * WORD_BYTES + WORD_BYTES <= length
    ensures k < WORD_BITS * (length / WORD_BYTES)
  {
  }

  lemma WordIncomplete(k: nat, length: nat)
    requires length < k / WORD_BITS * WORD_BYTES + WORD_BYTES
    ensures WORD_BITS * (length / WORD_BYTES) <= k
  {
  }

  lemma DecodeStep(before: seq<int>, after: seq<int>, base: int, k: nat, raw: seq<Byte>)
    requires k < WORD_BITS * (|raw| / WORD_BYTES) && IsDecoded(before, base, k, raw)
    requires after == if Member(raw, k) then before + [base + k] else before
    ensures IsDecoded(after, base, k + 1, raw)
  {
    hide Member;
    forall i, j | 0 <= i < j < |after| ensures after[i] < after[j] {
      assert i < |before| && before[i] in before;
    }
  }

  // ---------- encoding ----------

  /** The bits of one word, least significant first; offset 32 * word is its top bit. */
  function WordBits(offsets: set<nat>, word: nat): (bits: seq<bool>)
    ensures |bits| == WORD_BITS
  {
    seq(WORD_BITS, i requires 0 <= i < WORD_BITS => WORD_BITS * word + (31 - i) in offsets)
  }

  function EncodeWords(offsets: set<nat>, words: nat): (raw: seq<Byte>)
    ensures |raw| == WORD_BYTES * words
  {
    if words == 0 then []
    else EncodeWords(offsets, words - 1) + ToLittleEndian(Value(WordBits(offsets, words - 1)), WORD_BYTES)
  }

  /** The bitmap of a set of offsets below numBits, in as few whole words as hold them. */
  function Encode(offsets: set<nat>, numBits: nat): seq<Byte> {
    EncodeWords(offsets, (numBits + 31) / WORD_BITS)
  }

  lemma {:induction false} EncodedWord(offsets: set<nat>, words: nat, word: nat)
    requires word < words
    ensures EncodeWords(offsets, words)[WORD_BYTES * word..WORD_BYTES * word + WORD_BYTES]
         == ToLittleEndian(Value(WordBits(offsets, word)), WORD_BYTES)
  {
    if word < words - 1 {
      EncodedWord(offsets, words - 1, word);
      var front := EncodeWords(offsets, words - 1);
      assert EncodeWords(offsets, words)[WORD_BYTES * word..WORD_BYTES * word + WORD_BYTES]
          == front[WORD_BYTES * word..WORD_BYTES * word + WORD_BYTES];
    }
  }

  lemma {:induction false} WordRoundTrip(bits: seq<bool>)
    requires |bits| == WORD_BITS
    ensures FromLittleEndian(ToLittleEndian(Value(bits), WORD_BYTES)) == Value(bits)
    ensures forall i: nat :: i < WORD_BITS ==> Bit(Value(bits), i) == bits[i]
  {
    BitsOfValue(bits);
    LittleEndianRoundTrip(Value(bits), WORD_BYTES);
    forall i: nat | i < WORD_BITS ensures Bit(Value(bits), i) == bits[i] {
      assert Bits(Value(bits), WORD_BITS)[i] == bits[i];
    }
  }

  /** Every complete word of a possibly truncated encoding holds its own offsets. */
  lemma MemberOfEncoded(offsets: set<nat>, numBits: nat, kept: nat, k: nat)
    requires kept <= |Encode(offsets, numBits)| && k < WORD_BITS * (kept / WORD_BYTES)
    ensures Member(Encode(offsets, numBits)[..kept], k) <==> k in offsets
  {
    hide EncodeWords, Bit, Value, WordBits, FromLittleEndian, ToLittleEndian;
    var raw, word := Encode(offsets, numBits), k / WORD_BITS;
    var words := (numBits + 31) / WORD_BITS;
    EncodedWord(offsets, words, word);
    assert raw[..kept][WORD_BYTES * word..WORD_BYTES * word + WORD_BYTES]
        == raw[WORD_BYTES * word..WORD_BYTES * word + WORD_BYTES];
    var bits := WordBits(offsets, word);
    WordRoundTrip(bits);
    TopBitFirst(offsets, word, k % WORD_BITS);
    assert k == WORD_BITS * word + k % WORD_BITS;
  }

  lemma TopBitFirst(offsets: set<nat>, word: nat, j: nat)
    requires j < WORD_BITS
    ensures WordBits(offsets, word)[31 - j] <==> WORD_BITS * word + j in offsets
  {
  }

  /** The increasing list of base plus each offset below a bound. */
  ghost predicate ListsOffsets(missing: seq<int>, base: int, offsets: set<nat>, bound: nat) {
    && StrictlyIncreasing(missing)
    && forall v :: v in missing <==> base <= v < base + bound && (v - base) as nat in offsets
  }

  /** Decoding inverts encoding, for a whole or a truncated bitmap. */
  lemma DecodeInvertsEncode(missing: seq<int>, base: int, offsets: set<nat>, numBits: nat, kept: nat)
    requires kept <= |Encode(offsets, numBits)|
    requires var raw := Encode(offsets, numBits)[..kept];
      IsDecoded(missing, base, CoveredBits(numBits, raw), raw)
    ensures var held := WORD_BITS * (kept / WORD_BYTES);
      ListsOffsets(missing, base, offsets, if numBits <= held then numBits else held)
    ensures kept == |Encode(offsets, numBits)| ==> ListsOffsets(missing, base, offsets, numBits)
  {
    hide Encode, Member;
    var raw := Encode(offsets, numBits)[..kept];
    var covered := CoveredBits(numBits, raw);
    forall k: nat | k < covered ensures Member(raw, k) <==> k in offsets {
      MemberOfEncoded(offsets, numBits, kept, k);
    }
    EncodedLength(offsets, numBits);
  }

  lemma EncodedLength(offsets: set<nat>, numBits: nat)
    ensures WORD_BITS * (|Encode(offsets, numBits)| / WORD_BYTES) >= numBits
  {
  }

  /** Only one list can be the decoding, so the two descriptions pin the result. */
  lemma {:induction false} DecodedIsUnique(xs: seq<int>, ys: seq<int>)
    requires StrictlyIncreasing(xs) && StrictlyIncreasing(ys)
    requires forall v :: v in xs <==> v in ys
    ensures xs == ys
  {
    assert xs != [] ==> xs[0] in xs && xs[0] in ys;
    assert ys != [] ==> ys[0] in ys && ys[0] in xs;
    if xs != [] && ys != [] {
      var m, n := |xs| - 1, |ys| - 1;
      assert xs[m] in ys && ys[n] in xs;
      assert forall v :: v in xs[..m] <==> v in xs && v != xs[m];
      assert forall v :: v in ys[..n] <==> v in ys && v != ys[n];
      DecodedIsUnique(xs[..m], ys[..n]);
    }
  }

  /** A request list survives being put on the wire and read back. */
  method RoundTrip(base: int, offsets: set<nat>, numBits: nat) returns (missing: seq<int>)
    requires forall k :: k in offsets ==> k < numBits
    ensures StrictlyIncreasing(missing)
    ensures forall v :: v in missing <==> v >= base && (v - base) as nat in offsets
  {
    var raw := Encode(offsets, numBits);
    missing := DecodeSequenceSet(Some(base), numBits, raw);
    assert raw[..|raw|] == raw;
    DecodeInvertsEncode(missing, base, offsets, numBits, |raw|);
  }
}
