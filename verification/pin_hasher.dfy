/**
 * PIN hashing: a PIN is hashed with SHA-256 and stored as the lowercase
 * hexadecimal rendering of the digest; verification recomputes the hash and
 * compares it with the stored string for equality. There is no salt.
 *
 * SHA-256 itself is not modelled: it is the parameter `sha`, any function from
 * strings to 32-byte digests. Everything proved here holds for every such
 * function, so nothing depends on the hash being collision resistant.
 */
module PinHasher {
  import opened Wrappers

  /** A Java `byte`: a signed two's-complement 8-bit value. */
  newtype JByte = x: int | -128 <= x < 128

  /** A SHA-256 digest is always 32 bytes long. */
  type Digest = d: seq<JByte> | |d| == 32 witness seq(32, _ => 0 as JByte)

  /** The message digest, left abstract. */
  type Sha256 = string -> Digest

  /** The digits `%x` prints, lowercase. */
  const HexChars: string := "0123456789abcdef"

  /**
   * The value `%02x` prints for a byte: Java's formatter adds 2^8 to a
   * negative `byte`, so the result is the unsigned reading of the same bits.
   */
  function Unsigned(b: JByte): (u: nat)
    ensures u < 256
    ensures (u - b as int) % 256 == 0
  {
    if b < 0 then b as int + 256 else b as int
  }

  /** The byte whose unsigned reading is `u`. */
  function Signed(u: nat): (b: JByte)
    requires u < 256
    ensures Unsigned(b) == u
  {
    if u < 128 then u as JByte else (u - 256) as JByte
  }

  function HexDigit(n: nat): (c: char)
    requires n < 16
    ensures c in HexChars
  {
    HexChars[n]
  }

  /** `String.format("%02x", b)`: two zero-padded lowercase hex digits. */
  function Hex2(b: JByte): (r: string)
    ensures |r| == 2
    ensures r[0] in HexChars && r[1] in HexChars
  {
    var u := Unsigned(b);
    [HexDigit(u / 16), HexDigit(u % 16)]
  }

  /** The hex rendering of a byte array: the `%02x` of each byte, in order. */
  function HexOf(bytes: seq<JByte>): (r: string)
    ensures |r| == 2 * |bytes|
    ensures forall i :: 0 <= i < |r| ==> r[i] in HexChars
  {
    if |bytes| == 0 then [] else Hex2(bytes[0]) + HexOf(bytes[1..])
  }

  /** The value of one lowercase hex digit, if `c` is one. */
  function DigitValue(c: char): (r: Option<nat>)
    ensures r.Some? ==> r.value < 16 && HexDigit(r.value) == c
    ensures r.None? ==> c !in HexChars
  {
    if '0' <= c <= '9' then Some(c as int - '0' as int)
    else if 'a' <= c <= 'f' then Some(c as int - 'a' as int + 10)
    else None
  }

  /** Decodes a lowercase hex string two digits per byte; the inverse of `HexOf`. */
  function HexToBytes(s: string): (r: Option<seq<JByte>>)
    ensures r.Some? ==> |s| == 2 * |r.value|
    decreases |s|
  {
    if |s| == 0 then Some([])
    else if |s| == 1 then None
    else
      match (DigitValue(s[0]), DigitValue(s[1]), HexToBytes(s[2..]))
      case (Some(hi), Some(lo), Some(rest)) => Some([Signed(hi * 16 + lo)] + rest)
      case _ => None
  }

  /** The StringBuilder loop of `bytesToHex`, appending `%02x` of each byte. */
  method BytesToHex(bytes: seq<JByte>) returns (result: string)
    ensures result == HexOf(bytes)
  {
    result := "";
    for i := 0 to |bytes|
      invariant result == HexOf(bytes[..i])
    {
      HexOfSnoc(bytes[..i], bytes[i]);
      assert bytes[..i + 1] == bytes[..i] + [bytes[i]];
      result := result + Hex2(bytes[i]);
    }
    assert bytes[..|bytes|] == bytes;
  }

  /** `hashPin`: the hex rendering of the PIN's digest. */
  function HashPin(sha: Sha256, pin: string): (h: string)
    ensures |h| == 64
    ensures forall i :: 0 <= i < |h| ==> h[i] in HexChars
    ensures HexToBytes(h) == Some(sha(pin))
  {
    HexRoundTrip(sha(pin));
    HexOf(sha(pin))
  }

  /** `verifyPin`: the stored string is exactly the hash of the input PIN. */
  function VerifyPin(sha: Sha256, inputPin: string, storedHash: string): (ok: bool)
    ensures ok <==> HexToBytes(storedHash) == Some(sha(inputPin))
  {
    DecodedIsCanonical(storedHash);
    HashPin(sha, inputPin) == storedHash
  }

  lemma {:induction false} HexOfSnoc(bytes: seq<JByte>, b: JByte)
    ensures HexOf(bytes + [b]) == HexOf(bytes) + Hex2(b)
    decreases |bytes|
  {
    if |bytes| == 0 {
      assert bytes + [b] == [b];
    } else {
      assert (bytes + [b])[1..] == bytes[1..] + [b];
      HexOfSnoc(bytes[1..], b);
    }
  }

  lemma DigitRoundTrip(n: nat)
    requires n < 16
    ensures DigitValue(HexDigit(n)) == Some(n)
  {
  }

  /** Decoding two digits of `Hex2(b)` recovers `b`. */
  lemma Hex2RoundTrip(b: JByte)
    ensures DigitValue(Hex2(b)[0]).Some? && DigitValue(Hex2(b)[1]).Some?
    ensures Signed(DigitValue(Hex2(b)[0]).value * 16 + DigitValue(Hex2(b)[1]).value) == b
  {
    var u := Unsigned(b);
    DigitRoundTrip(u / 16);
    DigitRoundTrip(u % 16);
  }

  /** Decoding two digits rendered from `b`, then anything, yields `b` in front. */
  lemma DecodePair(b: JByte, t: string)
    ensures HexToBytes(t).Some? ==> HexToBytes(Hex2(b) + t) == Some([b] + HexToBytes(t).value)
  {
    var s := Hex2(b) + t;
    assert s[0] == Hex2(b)[0] && s[1] == Hex2(b)[1];
    assert s[2..] == t;
    Hex2RoundTrip(b);
  }

  /** Each byte's two digits decode back to it: `HexOf` loses nothing. */
  lemma {:induction false} HexRoundTrip(bytes: seq<JByte>)
    ensures HexToBytes(HexOf(bytes)) == Some(bytes)
    decreases |bytes|
  {
    if |bytes| > 0 {
      DecodePair(bytes[0], HexOf(bytes[1..]));
      HexRoundTrip(bytes[1..]);
      assert [bytes[0]] + bytes[1..] == bytes;
    }
  }

  /** Rendering a byte in front of others puts its two digits in front. */
  lemma HexOfCons(b: JByte, rest: seq<JByte>)
    ensures HexOf([b] + rest) == Hex2(b) + HexOf(rest)
  {
    assert ([b] + rest)[1..] == rest;
  }

  /** Every string the decoder accepts is the rendering of what it decodes to. */
  lemma {:induction false} DecodedIsCanonical(s: string)
    ensures HexToBytes(s).Some? ==> s == HexOf(HexToBytes(s).value)
    decreases |s|
  {
    if |s| >= 2 && HexToBytes(s).Some? {
      var hi := DigitValue(s[0]).value;
      var lo := DigitValue(s[1]).value;
      var rest := HexToBytes(s[2..]).value;
      DecodedIsCanonical(s[2..]);
      var b := Signed(hi * 16 + lo);
      assert Hex2(b) == s[..2] by {
        assert Unsigned(b) / 16 == hi && Unsigned(b) % 16 == lo;
      }
      assert HexToBytes(s).value == [b] + rest;
      HexOfCons(b, rest);
      assert s == s[..2] + s[2..];
    }
  }

  /** `bytesToHex` is injective: distinct byte arrays render differently. */
  lemma HexInjective(a: seq<JByte>, b: seq<JByte>)
    ensures HexOf(a) == HexOf(b) ==> a == b
  {
    HexRoundTrip(a);
    HexRoundTrip(b);
  }

  /** The first byte is rendered in the first two characters. */
  lemma HexOfHead(bytes: seq<JByte>)
    requires |bytes| > 0
    ensures HexOf(bytes)[..2] == Hex2(bytes[0])
    ensures HexOf(bytes)[0] == Hex2(bytes[0])[0] && HexOf(bytes)[1] == Hex2(bytes[0])[1]
  {
    var head, rest := Hex2(bytes[0]), HexOf(bytes[1..]);
    assert HexOf(bytes) == head + rest;
    assert (head + rest)[..|head|] == head;
  }

  /** After the first byte's two characters comes the rendering of the rest. */
  lemma HexOfTail(bytes: seq<JByte>)
    requires |bytes| > 0
    ensures HexOf(bytes)[2..] == HexOf(bytes[1..])
  {
    var head, rest := Hex2(bytes[0]), HexOf(bytes[1..]);
    assert HexOf(bytes) == head + rest;
    assert (head + rest)[|head|..] == rest;
  }

  /** The pair at `2i` is the pair at `2(i-1)` once the first two characters are dropped. */
  lemma PairAfterTwo(h: string, i: nat)
    requires 1 <= i && 2 * i + 2 <= |h|
    ensures h[2 * i..2 * i + 2] == h[2..][2 * (i - 1)..2 * i]
  {
  }

  /** Byte `i` of the input is rendered at positions `2i` and `2i+1`. */
  lemma {:induction false} HexOfAt(bytes: seq<JByte>, i: nat)
    requires i < |bytes|
    ensures HexOf(bytes)[2 * i..2 * i + 2] == Hex2(bytes[i])
    decreases i
  {
    if i == 0 {
      HexOfHead(bytes);
    } else {
      HexOfTail(bytes);
      HexOfAt(bytes[1..], i - 1);
      PairAfterTwo(HexOf(bytes), i);
      assert bytes[1..][i - 1] == bytes[i];
    }
  }

  /** A PIN always verifies against its own hash. */
  lemma VerifyOwnHash(sha: Sha256, pin: string)
    ensures VerifyPin(sha, pin, HashPin(sha, pin))
  {
  }

  /** Verification is exactly equality with `hashPin`: no salt, no other input. */
  lemma VerifyIsHashEquality(sha: Sha256, pin: string, storedHash: string)
    ensures VerifyPin(sha, pin, storedHash) <==> HashPin(sha, pin) == storedHash
  {
  }

  /**
   * Two PINs accepted by the same stored hash have the same digest. Whether
   * they are then the same PIN is a question about SHA-256, not about this code.
   */
  lemma SameStoredHashSameDigest(sha: Sha256, pin1: string, pin2: string, storedHash: string)
    requires VerifyPin(sha, pin1, storedHash) && VerifyPin(sha, pin2, storedHash)
    ensures sha(pin1) == sha(pin2)
  {
  }

  /** Hashing depends on the PIN's digest only: equal digests, equal hashes. */
  lemma HashDependsOnDigestOnly(sha: Sha256, pin1: string, pin2: string)
    ensures HashPin(sha, pin1) == HashPin(sha, pin2) <==> sha(pin1) == sha(pin2)
  {
    HexInjective(sha(pin1), sha(pin2));
  }
}
