/** RS256 signature verification after the modular exponentiation: the integer goes back to bytes,
    and a left-to-right matcher checks the padding of RFC 8017, section 9.2. */
module Pkcs1 {
  import opened Wrappers

  type Byte = i: int | 0 <= i < 256
  type Bytes = seq<Byte>

  /** The DigestInfo prefix for SHA-256. */
  const DIGEST_INFO_PREFIX: Bytes :=
    [0x30, 0x31, 0x30, 0x0d, 0x06, 0x09, 0x60, 0x86, 0x48, 0x01, 0x65, 0x03, 0x04, 0x02, 0x01, 0x05, 0x00, 0x04, 0x20]

  function Power(base: nat, exponent: nat): nat {
    if exponent == 0 then 1 else base * Power(base, exponent - 1)
  }

  /** `int.from_bytes(b, "big")`. */
  function FromBytes(b: Bytes): nat {
    if b == [] then 0 else 256 * FromBytes(b[..|b| - 1]) + b[|b| - 1]
  }

  /** `n.to_bytes(length, "big")`; `None` is its overflow error. */
  function ToBytes(n: nat, length: nat): Option<Bytes> {
    if length == 0 then if n == 0 then Some([]) else None
    else
      var front := ToBytes(n / 256, length - 1);
      if front.None? then None else Some(front.value + [n % 256])
  }

  lemma PowerPositive(base: nat, exponent: nat)
    requires base > 0
    ensures Power(base, exponent) > 0
  {
  }

  /** Conversion overflows exactly from `256^length` on, and gives bytes that read back. */
  lemma {:induction false} ToBytesReadsBack(n: nat, length: nat)
    ensures ToBytes(n, length).Some? <==> n < Power(256, length)
    ensures ToBytes(n, length).Some? ==>
              |ToBytes(n, length).value| == length && FromBytes(ToBytes(n, length).value) == n
  {
    if length > 0 {
      ToBytesReadsBack(n / 256, length - 1);
      assert n == 256 * (n / 256) + n % 256;
      if ToBytes(n, length).Some? {
        assert ToBytes(n, length).value[..length - 1] == ToBytes(n / 256, length - 1).value;
      }
    }
  }

  lemma {:induction false} FromBytesFits(b: Bytes)
    ensures FromBytes(b) < Power(256, |b|) && ToBytes(FromBytes(b), |b|) == Some(b)
  {
    if b != [] {
      var front := b[..|b| - 1];
      FromBytesFits(front);
      assert FromBytes(b) / 256 == FromBytes(front) && FromBytes(b) % 256 == b[|b| - 1];
      assert b == front + [b[|b| - 1]];
    }
  }

  /** `int.bit_length`. */
  function BitLength(n: nat): nat {
    if n == 0 then 0 else 1 + BitLength(n / 2)
  }

  /** The byte length of a modulus. */
  function ByteLength(n: nat): nat {
    (BitLength(n) + 7) / 8
  }

  lemma {:induction false} BitLengthBounds(n: nat)
    ensures n < Power(2, BitLength(n))
    ensures n > 0 ==> Power(2, BitLength(n) - 1) <= n
  {
    if n > 0 {
      BitLengthBounds(n / 2);
    }
  }

  lemma {:induction false} PowerMonotone(base: nat, a: nat, b: nat)
    requires base >= 1 && a <= b
    ensures Power(base, a) <= Power(base, b)
  {
    if a < b {
      PowerMonotone(base, a, b - 1);
      PowerPositive(base, b - 1);
      assert base * Power(base, b - 1) >= Power(base, b - 1);
    }
  }

  lemma {:induction false} EightBits(k: nat)
    ensures Power(256, k) == Power(2, 8 * k)
  {
    if k > 0 {
      EightBits(k - 1);
      var p := Power(2, 8 * (k - 1));
      assert Power(2, 8 * (k - 1) + 4) == 16 * p by { FourBits(8 * (k - 1)); }
      assert Power(2, 8 * (k - 1) + 8) == 16 * Power(2, 8 * (k - 1) + 4) by { FourBits(8 * (k - 1) + 4); }
    }
  }

  lemma FourBits(k: nat)
    ensures Power(2, k + 4) == 16 * Power(2, k)
  {
    assert Power(2, k + 4) == 2 * Power(2, k + 3);
    assert Power(2, k + 3) == 2 * Power(2, k + 2);
    assert Power(2, k + 2) == 2 * Power(2, k + 1);
    assert Power(2, k + 1) == 2 * Power(2, k);
  }

  /** A number fits its byte length. */
  lemma FitsByteLength(n: nat)
    ensures n < Power(256, ByteLength(n))
  {
    BitLengthBounds(n);
    EightBits(ByteLength(n));
    PowerMonotone(2, BitLength(n), 8 * ByteLength(n));
  }

  // ---- the matcher ----

  /** The index of the first zero byte from `start` on, or the length: `find`. */
  function FindZero(b: Bytes, start: nat): (i: nat)
    requires start <= |b|
    ensures start <= i <= |b|
    ensures i < |b| ==> b[i] == 0
    ensures forall j :: start <= j < i ==> b[j] != 0
    decreases |b| - start
  {
    if start == |b| || b[start] == 0 then start else FindZero(b, start + 1)
  }

  /** `_pkcs1_v15_digest_info_matches`. */
  predicate Matches(em: Bytes, digestInfo: Bytes) {
    if |em| < 3 + 8 + |digestInfo| then false
    else if !(em[0] == 0x00 && em[1] == 0x01) then false
    else
      var separator := FindZero(em, 2);
      if separator == |em| then false
      else
        var padding := em[2..separator];
        if |padding| < 8 || exists i | 0 <= i < |padding| :: padding[i] != 0xFF then false
        else em[separator + 1..] == digestInfo
  }

  /** EMSA-PKCS1-v1_5: 00 01, padding of FF bytes, 00, and the DigestInfo, `length` bytes in all. */
  function Encode(digestInfo: Bytes, length: nat): (em: Bytes)
    requires length >= |digestInfo| + 3
    ensures |em| == length
  {
    [0x00, 0x01] + seq(length - |digestInfo| - 3, _ => 0xFF) + [0x00] + digestInfo
  }

  lemma MatchedIsEncoding(em: Bytes, digestInfo: Bytes)
    requires Matches(em, digestInfo)
    ensures |em| >= |digestInfo| + 11 && em == Encode(digestInfo, |em|)
  {
    var separator := FindZero(em, 2);
    assert |em[separator + 1..]| == |em| - separator - 1;
    assert forall i :: 2 <= i < separator ==> em[i] == em[2..separator][i - 2];
    assert em == em[..2] + em[2..separator] + [em[separator]] + em[separator + 1..];
  }

  lemma EncodingMatches(digestInfo: Bytes, length: nat)
    requires length >= |digestInfo| + 11
    ensures Matches(Encode(digestInfo, length), digestInfo)
  {
    var em := Encode(digestInfo, length);
    var pad := length - |digestInfo| - 3;
    assert forall i :: 2 <= i < 2 + pad ==> em[i] == 0xFF;
    assert em[2 + pad] == 0x00;
    assert FindZero(em, 2) == 2 + pad;
    assert em[2 + pad + 1..] == digestInfo;
  }

  /** The matcher accepts exactly the encoding of its own length with at least eight bytes of padding. */
  lemma MatchesExactlyEncoding(em: Bytes, digestInfo: Bytes)
    ensures Matches(em, digestInfo) <==> |em| >= |digestInfo| + 11 && em == Encode(digestInfo, |em|)
  {
    if Matches(em, digestInfo) {
      MatchedIsEncoding(em, digestInfo);
    } else if |em| >= |digestInfo| + 11 {
      EncodingMatches(digestInfo, |em|);
    }
  }

  // ---- signatures ----

  datatype RsaKey = RsaKey(modulus: nat, exponent: nat) {
    predicate Valid() {
      modulus > 0 && exponent > 0
    }
  }

  /** `pow(s, e, n)`. */
  function ModPow(s: nat, e: nat, n: nat): (r: nat)
    requires n > 0
    ensures r < n
  {
    Power(s, e) % n
  }

  /** `_verify_rs256_signature`, with the digest as input; `None` would be an overflow error. */
  function Verify(key: RsaKey, digest: Bytes, signature: Bytes): Option<bool>
    requires key.Valid()
  {
    var length := ByteLength(key.modulus);
    if |signature| != length then Some(false)
    else
      var em := ToBytes(ModPow(FromBytes(signature), key.exponent, key.modulus), length);
      if em.None? then None else Some(Matches(em.value, DIGEST_INFO_PREFIX + digest))
  }

  /** Verification never overflows, and accepts exactly the signatures of the modulus's length whose
      power is the encoding of the digest, read as a number. */
  lemma VerifiesExactly(key: RsaKey, digest: Bytes, signature: Bytes)
    requires key.Valid()
    ensures Verify(key, digest, signature).Some?
    ensures var length := ByteLength(key.modulus);
            var digestInfo := DIGEST_INFO_PREFIX + digest;
            Verify(key, digest, signature).value
            <==> |signature| == length && length >= |digestInfo| + 11
                 && ModPow(FromBytes(signature), key.exponent, key.modulus) == FromBytes(Encode(digestInfo, length))
  {
    var length := ByteLength(key.modulus);
    var digestInfo := DIGEST_INFO_PREFIX + digest;
    var power := ModPow(FromBytes(signature), key.exponent, key.modulus);
    FitsByteLength(key.modulus);
    ToBytesReadsBack(power, length);
    var em := ToBytes(power, length).value;
    MatchesExactlyEncoding(em, digestInfo);
    if length >= |digestInfo| + 11 && power == FromBytes(Encode(digestInfo, length)) {
      FromBytesFits(Encode(digestInfo, length));
    }
  }
}
