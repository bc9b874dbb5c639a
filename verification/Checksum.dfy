/**
 The internet checksum of the ping sender (client/mozilla/pingsender.cpp:13-48),
 against the one's complement sum of RFC 1071.
 */
module Checksum {
  import opened Basics

  newtype Int32 = x: int | -0x8000_0000 <= x < 0x8000_0000

  datatype Endian = Little | Big

  /** A 16-bit word as the machine reads it from two bytes in memory. */
  function Word(e: Endian, first: Byte, second: Byte): (w: nat)
    ensures w < 65536
  {
    if e == Little then first + 256 * second else 256 * first + second
  }

  // ---------------------------------------------------------------- reference: section 1 of RFC 1071

  /** 16-bit one's complement addition: the carry is added back in. */
  function OnesAdd(a: nat, b: nat): nat {
    if a + b < 65536 then a + b else a + b - 65535
  }

  /** The one's complement sum of the first k whole words. */
  function OnesWords(e: Endian, data: seq<Byte>, k: nat): nat
    requires 2 * k <= |data|
  {
    if k == 0 then 0 else OnesAdd(OnesWords(e, data, k-1), Word(e, data[2*k-2], data[2*k-1]))
  }

  /** The one's complement sum of a buffer, an odd last byte padded with a zero. */
  function OnesSum(e: Endian, data: seq<Byte>): nat {
    var words := OnesWords(e, data, |data| / 2);
    if |data| % 2 == 0 then words else OnesAdd(words, Word(e, data[|data|-1], 0))
  }

  function ChecksumOf(e: Endian, data: seq<Byte>): int { 65535 - OnesSum(e, data) }

  // ---------------------------------------------------------------- plain sums

  function WordSum(e: Endian, data: seq<Byte>, k: nat): nat
    requires 2 * k <= |data|
  {
    if k == 0 then 0 else WordSum(e, data, k-1) + Word(e, data[2*k-2], data[2*k-1])
  }

  function Total(e: Endian, data: seq<Byte>): nat {
    WordSum(e, data, |data| / 2) + if |data| % 2 == 0 then 0 else Word(e, data[|data|-1], 0)
  }

  /** The representative of a sum modulo 65535 that is 0 only for 0. */
  function Norm(s: nat): nat { if s == 0 then 0 else (s - 1) % 65535 + 1 }

  lemma NormUnique(s: nat, r: int, k: int)
    requires s == r + 65535 * k && 1 <= r <= 65535 && s > 0
    ensures Norm(s) == r
  {
  }

  lemma NormRange(s: nat)
    ensures s == 0 <==> Norm(s) == 0
    ensures Norm(s) <= 65535
    ensures s > 0 ==> s == Norm(s) + 65535 * ((s - 1) / 65535)
  {
  }

  lemma NormAdd(s: nat, w: nat)
    requires w < 65536
    ensures OnesAdd(Norm(s), w) == Norm(s + w)
  {
    NormRange(s);
    var r := OnesAdd(Norm(s), w);
    if s + w > 0 && r > 0 {
      var q := if s == 0 then 0 else (s - 1) / 65535;
      NormUnique(s + w, r, if Norm(s) + w < 65536 then q else q + 1);
    }
  }

  lemma {:induction false} OnesWordsIsNorm(e: Endian, data: seq<Byte>, k: nat)
    requires 2 * k <= |data|
    ensures OnesWords(e, data, k) == Norm(WordSum(e, data, k))
  {
    if k > 0 {
      OnesWordsIsNorm(e, data, k-1);
      NormAdd(WordSum(e, data, k-1), Word(e, data[2*k-2], data[2*k-1]));
    }
  }

  lemma OnesSumIsNorm(e: Endian, data: seq<Byte>)
    ensures OnesSum(e, data) == Norm(Total(e, data))
  {
    OnesWordsIsNorm(e, data, |data| / 2);
    if |data| % 2 == 1 {
      NormAdd(WordSum(e, data, |data| / 2), Word(e, data[|data|-1], 0));
    }
  }

  // ---------------------------------------------------------------- the algorithm

  /** Two folds of a 32-bit sum, truncated to 16 bits. */
  function TwoFolds(sum: nat): nat {
    var once := sum / 65536 + sum % 65536;
    (once + once / 65536) % 65536
  }

  /** Two folds give the full one's complement sum of everything the accumulator can hold. */
  lemma TwoFoldsSuffice(sum: nat)
    requires sum < 0x8000_0000
    ensures TwoFolds(sum) == Norm(sum)
  {
    var hi, once := sum / 65536, sum / 65536 + sum % 65536;
    if sum > 0 {
      if once < 65536 {
        NormUnique(sum, once, hi);
      } else {
        NormUnique(sum, once - 65535, hi + 1);
      }
    }
  }

  lemma {:induction false} WordSumBound(e: Endian, data: seq<Byte>, k: nat)
    requires 2 * k <= |data|
    ensures WordSum(e, data, k) <= 65535 * k
  {
    if k > 0 { WordSumBound(e, data, k-1); }
  }

  lemma {:induction false} WordSumGrows(e: Endian, data: seq<Byte>, j: nat, k: nat)
    requires j <= k && 2 * k <= |data|
    ensures WordSum(e, data, j) <= WordSum(e, data, k)
  {
    if j < k { WordSumGrows(e, data, j, k-1); }
  }

  method FoldTwice(sum: Int32) returns (folded: Int32)
    requires sum >= 0
    ensures folded >= 0 && (folded % 65536) as int == TwoFolds(sum as int)
  {
    folded := sum / 65536 + sum % 65536;
    folded := folded + folded / 65536;
  }

  /** Correct for every buffer whose sum the signed accumulator can hold. */
  method InetChecksum(e: Endian, data: seq<Byte>) returns (answer: nat)
    requires |data| < 0x8000_0000 && Total(e, data) < 0x8000_0000
    ensures answer == ChecksumOf(e, data)
  {
    hide Norm, OnesSum;
    var nleft: Int32 := |data| as Int32;
    var sum: Int32 := 0;
    var w := 0;
    while nleft > 1
      invariant 0 <= nleft as int <= |data| && 2 * w + nleft as int == |data|
      invariant sum as int == WordSum(e, data, w)
      decreases nleft as int
    {
      WordSumGrows(e, data, w + 1, |data| / 2);
      sum := sum + Word(e, data[2*w], data[2*w+1]) as Int32;
      w := w + 1;
      nleft := nleft - 2;
    }
    if nleft == 1 {
      sum := sum + Word(e, data[2*w], 0) as Int32;
    }
    assert sum as int == Total(e, data);
    sum := FoldTwice(sum);
    TwoFoldsSuffice(Total(e, data));
    OnesSumIsNorm(e, data);
    answer := 65535 - (sum % 65536) as int;
  }

  // ---------------------------------------------------------------- the exact bound

  function AllOnes(n: nat): seq<Byte> { seq(n, _ => 255) }

  lemma {:induction false} AllOnesSum(e: Endian, n: nat, k: nat)
    requires 2 * k <= n
    ensures WordSum(e, AllOnes(n), k) == 65535 * k
  {
    if k > 0 { AllOnesSum(e, n, k-1); }
  }

  /** The longest buffer of which no contents can overflow the accumulator. */
  function LongestSafe(e: Endian): nat { if e == Big then 65536 else 65537 }

  /**
   The signed 32-bit accumulator is safe for all contents of a buffer if and
   only if the buffer has at most 65536 bytes (one more on a little-endian
   machine, where the odd byte is the low one).
   */
  lemma AccumulatorIsSafeExactly(e: Endian, n: nat)
    ensures (forall data: seq<Byte> :: |data| == n ==> Total(e, data) < 0x8000_0000) <==> n <= LongestSafe(e)
  {
    if n <= LongestSafe(e) {
      forall data: seq<Byte> | |data| == n ensures Total(e, data) < 0x8000_0000 {
        WordSumBound(e, data, n / 2);
      }
    } else {
      AllOnesSum(e, n, n / 2);
      assert |AllOnes(n)| == n && Total(e, AllOnes(n)) >= 0x8000_0000;
    }
  }

  // ---------------------------------------------------------------- byte order: section 2(B) of RFC 1071

  function Swap16(x: int): int
    requires 0 <= x <= 65535
  {
    256 * (x % 256) + x / 256
  }

  lemma SwapIsTimes256(x: int)
    requires 0 <= x <= 65535
    ensures 256 * x == Swap16(x) + 65535 * (x / 256)
    ensures 0 <= Swap16(x) <= 65535 && (Swap16(x) == 0 <==> x == 0)
    ensures Swap16(65535 - x) == 65535 - Swap16(x)
  {
    var h, l := x / 256, x % 256;
    assert 65535 - x == 256 * (255 - h) + (255 - l);
    assert (65535 - x) / 256 == 255 - h && (65535 - x) % 256 == 255 - l;
  }

  /** The sum of the second bytes of the first k words. */
  function SecondBytes(data: seq<Byte>, k: nat): nat
    requires 2 * k <= |data|
  {
    if k == 0 then 0 else SecondBytes(data, k-1) + data[2*k-1]
  }

  lemma {:induction false} OtherOrderSum(data: seq<Byte>, k: nat)
    requires 2 * k <= |data|
    ensures 256 * WordSum(Little, data, k) == WordSum(Big, data, k) + 65535 * SecondBytes(data, k)
    ensures WordSum(Little, data, k) == 0 <==> WordSum(Big, data, k) == 0
  {
    if k > 0 { OtherOrderSum(data, k-1); }
  }

  lemma OtherOrderTotal(data: seq<Byte>)
    ensures 256 * Total(Little, data) == Total(Big, data) + 65535 * SecondBytes(data, |data| / 2)
    ensures Total(Little, data) == 0 <==> Total(Big, data) == 0
  {
    OtherOrderSum(data, |data| / 2);
  }

  /** Reading every word in the other byte order byte-swaps the checksum. */
  lemma ByteOrderSwapsChecksum(data: seq<Byte>)
    ensures 0 <= ChecksumOf(Little, data) <= 65535
    ensures ChecksumOf(Big, data) == Swap16(ChecksumOf(Little, data))
  {
    var little, big := Total(Little, data), Total(Big, data);
    OnesSumIsNorm(Little, data);
    OnesSumIsNorm(Big, data);
    OtherOrderTotal(data);
    NormRange(little);
    var f := Norm(little);
    SwapIsTimes256(f);
    if little > 0 {
      var q := (little - 1) / 65535;
      NormUnique(big, Swap16(f), f / 256 + 256 * q - SecondBytes(data, |data| / 2));
    }
  }

  /** The two bytes a machine writes for a 16-bit value. */
  function Stored(e: Endian, x: int): (Byte, Byte)
    requires 0 <= x <= 65535
  {
    if e == Little then (x % 256, x / 256) else (x / 256, x % 256)
  }

  /** The checksum bytes in the packet are the same on machines of either byte order. */
  lemma StoredChecksumIgnoresByteOrder(data: seq<Byte>)
    ensures 0 <= ChecksumOf(Little, data) <= 65535 && 0 <= ChecksumOf(Big, data) <= 65535
    ensures Stored(Little, ChecksumOf(Little, data)) == Stored(Big, ChecksumOf(Big, data))
  {
    ByteOrderSwapsChecksum(data);
    SwapIsTimes256(ChecksumOf(Little, data));
  }

  /** The k-th word of one buffer holds the bytes of the other's in the opposite order. */
  predicate WordSwapped(data: seq<Byte>, r: seq<Byte>, k: nat)
    requires 2 * k + 1 < |data| && |r| >= |data|
  {
    r[2*k] == data[2*k+1] && r[2*k+1] == data[2*k]
  }

  /** Every pair of bytes exchanged; an odd last byte is paired with the padding zero. */
  function SwapPairs(data: seq<Byte>): (r: seq<Byte>)
    ensures |r| == |data| + |data| % 2
    ensures forall k: nat :: 2 * k + 1 < |data| ==> WordSwapped(data, r, k)
    ensures |data| % 2 == 1 ==> r[|data|-1] == 0 && r[|data|] == data[|data|-1]
  {
    seq(|data| + |data| % 2, i requires 0 <= i < |data| + |data| % 2 =>
      if i % 2 == 1 then data[i-1] else if i + 1 < |data| then data[i+1] else 0)
  }

  lemma {:induction false} SwappedWords(data: seq<Byte>, k: nat)
    requires 2 * k <= |data|
    ensures WordSum(Little, SwapPairs(data), k) == WordSum(Big, data, k)
    ensures WordSum(Big, SwapPairs(data), k) == WordSum(Little, data, k)
  {
    hide SwapPairs;
    if k > 0 {
      SwappedWords(data, k-1);
      assert WordSwapped(data, SwapPairs(data), k-1);
    }
  }

  function Other(e: Endian): Endian { if e == Little then Big else Little }

  lemma SwappedTotal(e: Endian, data: seq<Byte>)
    ensures Total(e, SwapPairs(data)) == Total(Other(e), data)
  {
    hide SwapPairs;
    SwappedWords(data, |data| / 2);
    if |data| % 2 == 1 { SwappedTail(e, data, |data| / 2); }
  }

  lemma SwappedTail(e: Endian, data: seq<Byte>, k: nat)
    requires |data| == 2 * k + 1
    ensures WordSum(e, SwapPairs(data), k+1) == WordSum(e, SwapPairs(data), k) + Word(Other(e), data[2*k], 0)
  {
    hide SwapPairs;
  }

  lemma SwapTwice(x: int)
    requires 0 <= x <= 65535
    ensures 0 <= Swap16(x) <= 65535 && Swap16(Swap16(x)) == x
  {
    var y := Swap16(x);
    assert y / 256 == x % 256 && y % 256 == x / 256;
  }

  /** Swapping the bytes of every word, padded tail included, byte-swaps the result. */
  lemma SwappedBufferSwapsChecksum(e: Endian, data: seq<Byte>)
    ensures 0 <= ChecksumOf(e, data) <= 65535
    ensures ChecksumOf(e, SwapPairs(data)) == Swap16(ChecksumOf(e, data))
  {
    hide SwapPairs, Total, OnesSum, Norm, Swap16;
    SwappedTotal(e, data);
    OnesSumIsNorm(e, SwapPairs(data));
    OnesSumIsNorm(Other(e), data);
    ByteOrderSwapsChecksum(data);
    SwapTwice(ChecksumOf(Little, data));
  }

  // ---------------------------------------------------------------- filling in the checksum

  /** The buffer with a 16-bit value written into the word at an even offset. */
  function Fill(e: Endian, data: seq<Byte>, offset: nat, x: int): seq<Byte>
    requires offset % 2 == 0 && offset + 1 < |data| && 0 <= x <= 65535
  {
    data[offset := Stored(e, x).0][offset+1 := Stored(e, x).1]
  }

  lemma {:induction false} FilledWords(e: Endian, data: seq<Byte>, offset: nat, x: int, k: nat)
    requires offset % 2 == 0 && offset + 1 < |data| && 0 <= x <= 65535 && 2 * k <= |data|
    requires data[offset] == 0 && data[offset+1] == 0
    ensures WordSum(e, Fill(e, data, offset, x), k) == WordSum(e, data, k) + if offset < 2 * k then x else 0
  {
    if k > 0 { FilledWords(e, data, offset, x, k-1); }
  }

  /** Writing the checksum into a zeroed, aligned field makes a recomputation return 0. */
  lemma FilledChecksumVerifies(e: Endian, data: seq<Byte>, offset: nat)
    requires offset % 2 == 0 && offset + 1 < |data| && data[offset] == 0 && data[offset+1] == 0
    ensures 0 <= ChecksumOf(e, data) <= 65535
    ensures ChecksumOf(e, Fill(e, data, offset, ChecksumOf(e, data))) == 0
  {
    hide OnesSum;
    var total := Total(e, data);
    OnesSumIsNorm(e, data);
    NormRange(total);
    var x := ChecksumOf(e, data);
    var filled := Fill(e, data, offset, x);
    FilledWords(e, data, offset, x, |data| / 2);
    OnesSumIsNorm(e, filled);
    assert Total(e, filled) == total + x;
    NormUnique(total + x, 65535, if total == 0 then 0 else (total - 1) / 65535);
  }
}
