/**
 Prefix arithmetic (client/mozilla/shared/ipaddress.cpp:141-284): containment,
 halving, and taking prefixes out of a list of prefixes. An address may have
 bits set beyond its prefix length; nothing in the source clears them.
 */
module Prefixes {
  import opened IpAddresses

  /** A prefix of one of the two protocols with a length that fits it. */
  predicate Proper(p: IpAddress) { p.address.Inet? && 0 <= p.prefixLength <= |p.address.bits| }

  /** The same protocol and the same leading bits. */
  predicate Contains(p: IpAddress, a: Bits)
    requires Proper(p)
  {
    |a| == |p.address.bits| && a[..p.prefixLength] == p.address.bits[..p.prefixLength]
  }

  predicate Overlaps(p: IpAddress, q: IpAddress)
    requires Proper(p) && Proper(q)
  {
    if p.prefixLength < q.prefixLength then Contains(p, q.address.bits) else Contains(q, p.address.bits)
  }

  predicate SubnetOf(p: IpAddress, q: IpAddress)
    requires Proper(p) && Proper(q)
  {
    |p.address.bits| == |q.address.bits| && p.prefixLength >= q.prefixLength && Contains(q, p.address.bits)
  }

  /** Two prefixes are nested or apart; overlap and the subnet test tell which. */
  lemma NestedOrApart(p: IpAddress, q: IpAddress, a: Bits)
    requires Proper(p) && Proper(q)
    ensures SubnetOf(p, q) && Contains(p, a) ==> Contains(q, a)
    ensures Contains(p, a) && Contains(q, a) && p.prefixLength >= q.prefixLength ==> SubnetOf(p, q)
    ensures Contains(p, a) && Contains(q, a) ==> Overlaps(p, q)
  {
    if |a| == |p.address.bits| == |q.address.bits| {
      var m, n := p.prefixLength, q.prefixLength;
      if n <= m {
        assert a[..n] == a[..m][..n] && p.address.bits[..n] == p.address.bits[..m][..n];
      } else {
        assert a[..m] == a[..n][..m] && q.address.bits[..m] == q.address.bits[..n][..m];
      }
    }
  }

  // ---------------------------------------------------------------- halves

  /** A prefix that is not a single host. */
  predicate Splits(p: IpAddress) { Proper(p) && p.prefixLength < |p.address.bits| }

  /** The low half keeps the address, the high half sets the next bit. */
  function Half(p: IpAddress, high: bool): (h: IpAddress)
    requires Splits(p)
    ensures Proper(h) && h.prefixLength == p.prefixLength + 1 && |h.address.bits| == |p.address.bits|
  {
    if high then IpAddress(Inet(p.address.bits[p.prefixLength := true]), p.prefixLength + 1)
    else IpAddress(p.address, p.prefixLength + 1)
  }

  /** Each half lies in the whole. */
  lemma HalfWithin(p: IpAddress, high: bool, a: Bits)
    requires Splits(p)
    ensures Contains(Half(p, high), a) ==> Contains(p, a)
  {
    var n, h := p.prefixLength, Half(p, high).address.bits;
    if Contains(Half(p, high), a) { assert a[..n] == a[..n+1][..n] && h[..n+1][..n] == p.address.bits[..n]; }
  }

  /** With the next bit clear, the halves share no address and together are the whole. */
  lemma ClearHalvesPartition(p: IpAddress, a: Bits)
    requires Splits(p) && !p.address.bits[p.prefixLength]
    ensures Contains(p, a) <==> Contains(Half(p, false), a) || Contains(Half(p, true), a)
    ensures !(Contains(Half(p, false), a) && Contains(Half(p, true), a))
  {
    var n, low, high := p.prefixLength, Half(p, false).address.bits, Half(p, true).address.bits;
    HalfWithin(p, false, a);
    HalfWithin(p, true, a);
    if |a| == |p.address.bits| {
      assert a[..n+1] == a[..n] + [a[n]];
      assert low[..n+1] == p.address.bits[..n] + [false];
      assert high[..n+1] == p.address.bits[..n] + [true];
      assert a[..n+1][n] == a[n] && low[..n+1][n] == false && high[..n+1][n] == true;
    }
  }

  /** With the next bit set, both halves are the same. */
  lemma SetHalvesCoincide(p: IpAddress)
    requires Splits(p) && p.address.bits[p.prefixLength]
    ensures Half(p, false) == Half(p, true)
  {
    assert p.address.bits[p.prefixLength := true] == p.address.bits;
  }

  lemma ContainsItself(p: IpAddress)
    requires Proper(p)
    ensures Contains(p, p.address.bits)
  {
  }

  /** The halves of a prefix partition it if and only if the bit after the prefix is clear. */
  lemma HalvesPartitionExactly(p: IpAddress)
    requires Splits(p)
    ensures (forall a: Bits ::
               && (Contains(p, a) <==> Contains(Half(p, false), a) || Contains(Half(p, true), a))
               && !(Contains(Half(p, false), a) && Contains(Half(p, true), a)))
       <==> !p.address.bits[p.prefixLength]
  {
    if p.address.bits[p.prefixLength] {
      SetHalvesCoincide(p);
      ContainsItself(Half(p, false));
    } else {
      forall a: Bits
        ensures Contains(p, a) <==> Contains(Half(p, false), a) || Contains(Half(p, true), a)
        ensures !(Contains(Half(p, false), a) && Contains(Half(p, true), a))
      {
        ClearHalvesPartition(p, a);
      }
    }
  }

  // ---------------------------------------------------------------- halving towards a subnet

  /** The prefix reached by taking the high half at every true and the low half at every false. */
  function Halved(p: IpAddress, path: seq<bool>): (h: IpAddress)
    requires Proper(p) && p.prefixLength + |path| <= |p.address.bits|
    ensures Proper(h) && |h.address.bits| == |p.address.bits| && h.prefixLength == p.prefixLength + |path|
    decreases |path|
  {
    if path == [] then p else Halved(Half(p, path[0]), path[1..])
  }

  /** The halves left aside on the way. */
  function Left(p: IpAddress, path: seq<bool>): (r: seq<IpAddress>)
    requires Proper(p) && p.prefixLength + |path| <= |p.address.bits|
    ensures |r| == |path| && AllProper(r)
    decreases |path|
  {
    if path == [] then [] else [Half(p, !path[0])] + Left(Half(p, path[0]), path[1..])
  }

  lemma {:induction false} OneMoreHalf(p: IpAddress, path: seq<bool>, high: bool)
    requires Proper(p) && p.prefixLength + |path| < |p.address.bits|
    ensures Halved(p, path + [high]) == Half(Halved(p, path), high)
    ensures Left(p, path + [high]) == Left(p, path) + [Half(Halved(p, path), !high)]
    decreases |path|
  {
    if path == [] {
      assert [high][1..] == [] && path + [high] == [high];
    } else {
      OneMoreHalf(Half(p, path[0]), path[1..], high);
      assert (path + [high])[1..] == path[1..] + [high];
    }
  }

  /**
   The subnet has the bits of the prefix before the prefix's length and after
   its own; between the two it has at least those that the prefix has.
   */
  predicate Meets(p: IpAddress, ip: IpAddress)
    requires Proper(p) && Proper(ip)
  {
    && |p.address.bits| == |ip.address.bits| && p.prefixLength <= ip.prefixLength
    && forall i :: 0 <= i < |p.address.bits| ==>
         if p.prefixLength <= i < ip.prefixLength then p.address.bits[i] ==> ip.address.bits[i]
         else p.address.bits[i] == ip.address.bits[i]
  }

  lemma MeetsAHalf(p: IpAddress, ip: IpAddress, high: bool)
    requires Splits(p) && Proper(ip) && Meets(p, ip) && p.prefixLength < ip.prefixLength
    ensures Meets(Half(p, high), ip) <==> (high || p.address.bits[p.prefixLength]) == ip.address.bits[p.prefixLength]
  {
    var h := Half(p, high);
    assert h.address.bits[p.prefixLength] == (high || p.address.bits[p.prefixLength]);
  }

  lemma HalfMeets(p: IpAddress, ip: IpAddress, high: bool)
    requires Splits(p) && Proper(ip) && Meets(Half(p, high), ip)
    ensures Meets(p, ip)
  {
    var h := Half(p, high);
    forall i | 0 <= i < |p.address.bits|
      ensures if p.prefixLength <= i < ip.prefixLength then p.address.bits[i] ==> ip.address.bits[i]
              else p.address.bits[i] == ip.address.bits[i]
    {
      assert i != p.prefixLength ==> h.address.bits[i] == p.address.bits[i];
      assert h.address.bits[p.prefixLength] == ip.address.bits[p.prefixLength];
    }
  }

  lemma MeetsHasRoom(p: IpAddress, ip: IpAddress)
    requires Proper(p) && Proper(ip) && Meets(p, ip)
    ensures |p.address.bits| == |ip.address.bits| && p.prefixLength <= ip.prefixLength
  {
  }

  lemma EqualLengthsMeet(p: IpAddress, ip: IpAddress)
    requires Proper(p) && Proper(ip) && p.prefixLength == ip.prefixLength
    ensures Meets(p, ip) <==> p == ip
  {
    if Meets(p, ip) { assert p.address.bits == ip.address.bits; }
  }

  lemma {:induction false} HalvingMeets(p: IpAddress, ip: IpAddress) returns (path: seq<bool>)
    requires Proper(p) && Proper(ip) && Meets(p, ip)
    ensures p.prefixLength + |path| <= |p.address.bits| && Halved(p, path) == ip
    decreases ip.prefixLength - p.prefixLength
  {
    if p.prefixLength == ip.prefixLength {
      EqualLengthsMeet(p, ip);
      return [];
    }
    var high := ip.address.bits[p.prefixLength];
    MeetsAHalf(p, ip, high);
    var rest := HalvingMeets(Half(p, high), ip);
    path := [high] + rest;
    assert path[1..] == rest;
  }

  lemma {:induction false} HalvedMeets(p: IpAddress, path: seq<bool>)
    requires Proper(p) && p.prefixLength + |path| <= |p.address.bits|
    ensures Meets(p, Halved(p, path))
    decreases |path|
  {
    if path != [] {
      HalvedMeets(Half(p, path[0]), path[1..]);
      HalfMeets(p, Halved(p, path), path[0]);
    }
  }

  /**
   Halving a prefix can end at another one if and only if the bits of the two
   addresses agree in this way, stray ones included.
   */
  lemma HalvingMeetsExactly(p: IpAddress, ip: IpAddress)
    requires Proper(p) && Proper(ip)
    ensures (exists path: seq<bool> :: p.prefixLength + |path| <= |p.address.bits| && Halved(p, path) == ip)
         <==> Meets(p, ip)
  {
    if Meets(p, ip) {
      var path := HalvingMeets(p, ip);
    }
    forall path: seq<bool> | p.prefixLength + |path| <= |p.address.bits| && Halved(p, path) == ip ensures Meets(p, ip) {
      HalvedMeets(p, path);
    }
  }

  // ---------------------------------------------------------------- what is left is the difference

  predicate AllProper(list: seq<IpAddress>) { forall i :: 0 <= i < |list| ==> Proper(list[i]) }

  /** Some prefix of the list contains the address. */
  predicate Covered(list: seq<IpAddress>, a: Bits)
    requires AllProper(list)
  {
    exists i :: 0 <= i < |list| && Contains(list[i], a)
  }

  lemma CoveredConcat(x: seq<IpAddress>, y: seq<IpAddress>, a: Bits)
    requires AllProper(x) && AllProper(y)
    ensures AllProper(x + y)
    ensures Covered(x + y, a) <==> Covered(x, a) || Covered(y, a)
  {
    var z := x + y;
    if i :| 0 <= i < |x| && Contains(x[i], a) { assert z[i] == x[i]; }
    if i :| 0 <= i < |y| && Contains(y[i], a) { assert z[|x| + i] == y[i]; }
    if i :| 0 <= i < |z| && Contains(z[i], a) {
      if i < |x| { assert x[i] == z[i]; } else { assert y[i - |x|] == z[i]; }
    }
  }

  lemma CoveredOne(p: IpAddress, a: Bits)
    requires Proper(p)
    ensures AllProper([p]) && (Covered([p], a) <==> Contains(p, a))
  {
    if Contains(p, a) { assert Contains([p][0], a); }
  }

  /** The list covers what the prefix contains and the subnet does not. */
  ghost predicate IsDifference(list: seq<IpAddress>, p: IpAddress, ip: IpAddress)
    requires AllProper(list) && Proper(p) && Proper(ip)
  {
    forall a: Bits :: Covered(list, a) <==> Contains(p, a) && !Contains(ip, a)
  }

  /** Beyond its length the prefix has no bit up to the length of the subnet, and from there on the subnet's bits. */
  predicate Fits(p: IpAddress, ip: IpAddress)
    requires Proper(p) && Proper(ip) && |p.address.bits| == |ip.address.bits|
  {
    forall i :: p.prefixLength <= i < |p.address.bits|
            ==> p.address.bits[i] == (i >= ip.prefixLength && ip.address.bits[i])
  }

  lemma {:induction false} HalvedWithin(p: IpAddress, path: seq<bool>, a: Bits)
    requires Proper(p) && p.prefixLength + |path| <= |p.address.bits|
    ensures Contains(Halved(p, path), a) ==> Contains(p, a)
    ensures Covered(Left(p, path), a) ==> Contains(p, a)
    decreases |path|
  {
    if path != [] {
      HalfWithin(p, path[0], a);
      HalfWithin(p, !path[0], a);
      HalvedWithin(Half(p, path[0]), path[1..], a);
      LeftCovers(p, path, a);
    }
  }

  lemma LeftCovers(p: IpAddress, path: seq<bool>, a: Bits)
    requires Proper(p) && p.prefixLength + |path| <= |p.address.bits| && path != []
    ensures Covered(Left(p, path), a)
       <==> Contains(Half(p, !path[0]), a) || Covered(Left(Half(p, path[0]), path[1..]), a)
  {
    CoveredOne(Half(p, !path[0]), a);
    CoveredConcat([Half(p, !path[0])], Left(Half(p, path[0]), path[1..]), a);
  }

  /** With the next bit clear, one halving changes nothing about whether the difference is left. */
  lemma ClearBitSteps(p: IpAddress, path: seq<bool>, a: Bits)
    requires Proper(p) && p.prefixLength + |path| <= |p.address.bits| && path != [] && !p.address.bits[p.prefixLength]
    ensures (Covered(Left(p, path), a) <==> Contains(p, a) && !Contains(Halved(p, path), a))
       <==> (Covered(Left(Half(p, path[0]), path[1..]), a)
             <==> Contains(Half(p, path[0]), a) && !Contains(Halved(p, path), a))
  {
    hide Contains, Covered;
    LeftCovers(p, path, a);
    ClearHalvesPartition(p, a);
    HalvedWithin(Half(p, path[0]), path[1..], a);
  }

  lemma FitsAHalf(p: IpAddress, ip: IpAddress, high: bool)
    requires Splits(p) && Proper(ip) && |p.address.bits| == |ip.address.bits| && p.prefixLength < ip.prefixLength
    requires !p.address.bits[p.prefixLength]
    ensures Fits(p, ip) <==> Fits(Half(p, high), ip)
  {
    var h := Half(p, high);
    assert forall i :: p.prefixLength < i < |p.address.bits| ==> h.address.bits[i] == p.address.bits[i];
  }

  /** With the next bit set, the half left aside is the one kept, so the subnet is still covered. */
  lemma SetBitSpoils(p: IpAddress, path: seq<bool>)
    requires Proper(p) && p.prefixLength + |path| <= |p.address.bits| && path != [] && p.address.bits[p.prefixLength]
    ensures !IsDifference(Left(p, path), p, Halved(p, path))
  {
    var ip := Halved(p, path);
    SetHalvesCoincide(p);
    ContainsItself(ip);
    HalvedWithin(Half(p, path[0]), path[1..], ip.address.bits);
    LeftCovers(p, path, ip.address.bits);
  }

  /**
   What halving leaves aside is the prefix without the subnet if and only if the
   prefix fits the subnet.
   */
  lemma {:induction false} LeftIsDifferenceExactly(p: IpAddress, path: seq<bool>)
    requires Proper(p) && p.prefixLength + |path| <= |p.address.bits|
    ensures IsDifference(Left(p, path), p, Halved(p, path)) <==> Fits(p, Halved(p, path))
    decreases |path|
  {
    if path != [] {
      var ip := Halved(p, path);
      if p.address.bits[p.prefixLength] {
        SetBitSpoils(p, path);
      } else {
        LeftIsDifferenceExactly(Half(p, path[0]), path[1..]);
        FitsAHalf(p, ip, path[0]);
        var h := Half(p, path[0]);
        forall a: Bits
          ensures (Covered(Left(p, path), a) <==> Contains(p, a) && !Contains(ip, a))
             <==> (Covered(Left(h, path[1..]), a) <==> Contains(h, a) && !Contains(ip, a))
        {
          ClearBitSteps(p, path, a);
        }
      }
    }
  }

  /** An aligned subnet that halving never meets, because of a stray bit of the prefix beyond it. */
  lemma StrayBitIsNeverMet() returns (p: IpAddress, ip: IpAddress)
    ensures Proper(p) && Proper(ip) && SubnetOf(ip, p) && p.prefixLength < ip.prefixLength && !Meets(p, ip)
  {
    var bits: Bits := seq(32, i => i == 31);
    var clear: Bits := seq(32, i => false);
    p, ip := IpAddress(Inet(bits), 8), IpAddress(Inet(clear), 16);
    assert bits[31] && !clear[31] && clear[..8] == bits[..8];
  }

  /** A subnet that halving meets and still leaves covered, because of a stray bit of the prefix before it. */
  lemma StrayBitSpoilsTheDifference() returns (p: IpAddress, ip: IpAddress)
    ensures Proper(p) && Proper(ip) && Meets(p, ip) && p.prefixLength < ip.prefixLength && !Fits(p, ip)
  {
    var bits: Bits := seq(32, i => i == 8);
    p, ip := IpAddress(Inet(bits), 8), IpAddress(Inet(bits), 9);
    assert bits[8];
  }

  // ---------------------------------------------------------------- the loops

  /** Which half the loop follows: the low one if the subnet lies in it. */
  lemma TheLoopFollows(p: IpAddress, ip: IpAddress)
    requires Splits(p) && Proper(ip) && Meets(p, ip) && p.prefixLength < ip.prefixLength
    ensures SubnetOf(ip, Half(p, false)) ==> Meets(Half(p, false), ip)
    ensures !SubnetOf(ip, Half(p, false)) ==> SubnetOf(ip, Half(p, true)) && Meets(Half(p, true), ip)
  {
    var n, low, high, b := p.prefixLength, Half(p, false), Half(p, true), ip.address.bits;
    MeetsAHalf(p, ip, false);
    MeetsAHalf(p, ip, true);
    assert b[..n] == p.address.bits[..n];
    assert b[..n+1] == b[..n] + [b[n]];
    assert low.address.bits[..n+1] == p.address.bits[..n] + [p.address.bits[n]];
    assert high.address.bits[..n+1] == p.address.bits[..n] + [true];
    assert b[..n+1][n] == b[n] && low.address.bits[..n+1][n] == p.address.bits[n];
  }

  /** The piece is the prefix itself or one of its parts, with the same stray bits. */
  predicate Inherits(q: IpAddress, p: IpAddress)
    requires Proper(q) && Proper(p)
  {
    && SubnetOf(q, p)
    && forall i :: q.prefixLength <= i < |q.address.bits| ==> q.address.bits[i] == p.address.bits[i]
  }

  lemma HalfInherits(p: IpAddress, high: bool)
    requires Splits(p)
    ensures Inherits(Half(p, high), p)
  {
    ContainsItself(Half(p, high));
    HalfWithin(p, high, Half(p, high).address.bits);
  }

  lemma InheritsTransitive(r: IpAddress, q: IpAddress, p: IpAddress)
    requires Proper(r) && Proper(q) && Proper(p) && Inherits(r, q) && Inherits(q, p)
    ensures Inherits(r, p)
  {
    NestedOrApart(q, p, r.address.bits);
  }

  lemma {:induction false} LeftInherits(p: IpAddress, path: seq<bool>)
    requires Proper(p) && p.prefixLength + |path| <= |p.address.bits|
    ensures forall k :: 0 <= k < |path| ==> Inherits(Left(p, path)[k], p)
    decreases |path|
  {
    if path != [] {
      var h := Half(p, path[0]);
      LeftInherits(h, path[1..]);
      HalfInherits(p, !path[0]);
      HalfInherits(p, path[0]);
      forall k | 0 <= k < |path| ensures Inherits(Left(p, path)[k], p) {
        if k > 0 { InheritsTransitive(Left(h, path[1..])[k-1], h, p); }
      }
    }
  }

  /**
   Takes a subnet out of a prefix by halving towards it, wherever halving can
   end there. The result is the difference if and only if the prefix fits.
   */
  method ExcludeFrom(p: IpAddress, ip: IpAddress) returns (result: seq<IpAddress>)
    requires Proper(p) && Proper(ip) && Meets(p, ip) && p.prefixLength < ip.prefixLength
    ensures AllProper(result) && |result| == ip.prefixLength - p.prefixLength
    ensures IsDifference(result, p, ip) <==> Fits(p, ip)
    ensures forall k :: 0 <= k < |result| ==> Inherits(result[k], p)
  {
    hide Half, Meets, IsDifference, Inherits, SubnetOf;
    MeetsHasRoom(p, ip);
    ghost var around, path := p, [];
    result := [];
    var sn0, sn1 := Half(p, false), Half(p, true);
    while sn0 != ip && sn1 != ip
      invariant p.prefixLength + |path| < ip.prefixLength <= |p.address.bits| == |ip.address.bits|
      invariant around == Halved(p, path) && result == Left(p, path)
      invariant Meets(around, ip) && sn0 == Half(around, false) && sn1 == Half(around, true)
      decreases ip.prefixLength - |path|
    {
      NotYetMet(around, ip);
      TheLoopFollows(around, ip);
      ghost var high := !SubnetOf(ip, sn0);
      OneMoreHalf(p, path, high);
      around, path := Half(around, high), path + [high];
      if SubnetOf(ip, sn0) {
        result := result + [sn1];
        sn0, sn1 := Half(sn0, false), Half(sn0, true);
      } else {
        result := result + [sn0];
        sn0, sn1 := Half(sn1, false), Half(sn1, true);
      }
    }
    OneMoreHalf(p, path, sn0 != ip);
    path := path + [sn0 != ip];
    result := result + [if sn0 == ip then sn1 else sn0];
    LeftIsDifferenceExactly(p, path);
    LeftInherits(p, path);
  }

  /** While neither half is the subnet, it is more than one bit longer. */
  lemma NotYetMet(p: IpAddress, ip: IpAddress)
    requires Splits(p) && Proper(ip) && Meets(p, ip) && p.prefixLength < ip.prefixLength
    requires Half(p, false) != ip && Half(p, true) != ip
    ensures p.prefixLength + 1 < ip.prefixLength
  {
    if p.prefixLength + 1 == ip.prefixLength {
      var high := ip.address.bits[p.prefixLength];
      MeetsAHalf(p, ip, high);
      EqualLengthsMeet(Half(p, high), ip);
    }
  }

  /** An entry can be taken out of a prefix: it does not lie in it, or the prefix fits it. */
  predicate Fitting(p: IpAddress, exclude: IpAddress)
    requires Proper(p) && Proper(exclude)
  {
    SubnetOf(exclude, p) ==> Fits(p, exclude)
  }

  /** The loop for this pair ends: the entry does not lie strictly in the prefix, or halving can meet it. */
  predicate Ends(p: IpAddress, exclude: IpAddress)
    requires Proper(p) && Proper(exclude)
  {
    SubnetOf(exclude, p) && exclude != p ==> Meets(p, exclude)
  }

  /** Parts of a prefix can be halved towards whatever the prefix can. */
  lemma InheritsEnds(q: IpAddress, p: IpAddress, exclude: IpAddress)
    requires Proper(q) && Proper(p) && Proper(exclude) && Inherits(q, p) && Ends(p, exclude)
    ensures Ends(q, exclude)
  {
    if SubnetOf(exclude, q) && exclude != q {
      NestedOrApart(q, p, exclude.address.bits);
      var n := q.prefixLength;
      forall i | 0 <= i < n ensures q.address.bits[i] == exclude.address.bits[i] {
        assert q.address.bits[..n][i] == exclude.address.bits[..n][i];
      }
      if exclude == p { EqualLengthsMeet(q, p); }
    }
  }

  /** Parts of a prefix can have taken out of them whatever the prefix can. */
  lemma InheritsFitting(q: IpAddress, p: IpAddress, exclude: IpAddress)
    requires Proper(q) && Proper(p) && Proper(exclude) && Inherits(q, p) && Fitting(p, exclude)
    ensures Fitting(q, exclude)
  {
    if SubnetOf(exclude, q) { NestedOrApart(q, p, exclude.address.bits); }
  }

  predicate AllEnd(list: seq<IpAddress>, exclude: IpAddress)
    requires AllProper(list) && Proper(exclude)
  {
    forall i :: 0 <= i < |list| ==> Ends(list[i], exclude)
  }

  predicate AllFitting(list: seq<IpAddress>, exclude: IpAddress)
    requires AllProper(list) && Proper(exclude)
  {
    forall i :: 0 <= i < |list| ==> Fitting(list[i], exclude)
  }

  predicate InheritsSome(q: IpAddress, source: seq<IpAddress>)
    requires Proper(q) && AllProper(source)
  {
    exists i :: 0 <= i < |source| && Inherits(q, source[i])
  }

  /** Every entry is one of the source list or a part of one. */
  predicate AllInherit(list: seq<IpAddress>, source: seq<IpAddress>)
    requires AllProper(list) && AllProper(source)
  {
    forall k :: 0 <= k < |list| ==> InheritsSome(list[k], source)
  }

  /**
   One entry of the loop: apart, strictly inside, or swallowed whole. The piece
   is the difference if and only if the entry can be taken out.
   */
  method ExcludeOne(ip: IpAddress, exclude: IpAddress) returns (piece: seq<IpAddress>)
    requires Proper(ip) && Proper(exclude) && Ends(ip, exclude)
    ensures AllProper(piece) && (IsDifference(piece, ip, exclude) <==> Fitting(ip, exclude))
    ensures forall k :: 0 <= k < |piece| ==> Inherits(piece[k], ip)
  {
    piece := [];
    if !Overlaps(ip, exclude) {
      piece := [ip];
      ContainsItself(ip);
      forall a: Bits ensures Covered(piece, a) <==> Contains(ip, a) && !Contains(exclude, a) {
        CoveredOne(ip, a);
        NestedOrApart(ip, exclude, a);
      }
    } else if SubnetOf(exclude, ip) && exclude != ip {
      if ip.prefixLength == exclude.prefixLength { EqualLengthsMeet(ip, exclude); }
      piece := ExcludeFrom(ip, exclude);
    } else {
      forall a: Bits ensures Contains(ip, a) ==> Contains(exclude, a) {
        Swallowed(ip, exclude, a);
      }
    }
  }

  lemma Swallowed(ip: IpAddress, exclude: IpAddress, a: Bits)
    requires Proper(ip) && Proper(exclude) && Overlaps(ip, exclude) && !(SubnetOf(exclude, ip) && exclude != ip)
    ensures Contains(ip, a) ==> Contains(exclude, a)
  {
    NestedOrApart(ip, exclude, a);
  }

  /** Takes one prefix out of every prefix of a list; the difference, if it can be taken out of all of them. */
  method ExcludeFromAll(list: seq<IpAddress>, exclude: IpAddress) returns (newResults: seq<IpAddress>)
    requires AllProper(list) && Proper(exclude) && AllEnd(list, exclude)
    ensures AllProper(newResults) && AllInherit(newResults, list)
    ensures AllFitting(list, exclude) ==>
              forall a: Bits :: Covered(newResults, a) <==> Covered(list, a) && !Contains(exclude, a)
  {
    hide Contains, Covered, Inherits, Fitting, Ends;
    ghost var fits := AllFitting(list, exclude);
    newResults := [];
    NothingIsCovered();
    assert list[..0] == [];
    for i := 0 to |list|
      invariant AllProper(newResults) && AllProper(list[..i]) && AllInherit(newResults, list)
      invariant fits ==> forall a: Bits :: Covered(newResults, a) <==> Covered(list[..i], a) && !Contains(exclude, a)
    {
      var ip := list[i];
      var piece := ExcludeOne(ip, exclude);
      forall a: Bits
        ensures AllProper(newResults + piece) && AllProper(list[..i] + [ip])
        ensures fits ==> (Covered(newResults + piece, a) <==> Covered(list[..i] + [ip], a) && !Contains(exclude, a))
      {
        CoveredOne(ip, a);
        CoveredConcat(newResults, piece, a);
        CoveredConcat(list[..i], [ip], a);
      }
      InheritConcat(newResults, piece, list, i);
      newResults := newResults + piece;
      assert list[..i+1] == list[..i] + [ip];
    }
    assert list[..|list|] == list;
  }

  lemma InheritConcat(x: seq<IpAddress>, y: seq<IpAddress>, source: seq<IpAddress>, i: nat)
    requires AllProper(x) && AllProper(y) && AllProper(source) && i < |source| && AllInherit(x, source)
    requires forall k :: 0 <= k < |y| ==> Inherits(y[k], source[i])
    ensures AllProper(x + y) && AllInherit(x + y, source)
  {
    hide Inherits;
    var z := x + y;
    forall k | 0 <= k < |z| ensures Proper(z[k]) && InheritsSome(z[k], source) {
      if k < |x| { assert z[k] == x[k]; } else { assert z[k] == y[k - |x|]; }
    }
  }

  lemma NothingIsCovered()
    ensures AllProper([]) && forall a: Bits :: !Covered([], a)
  {
  }

  lemma PartsStayFitting(list: seq<IpAddress>, source: seq<IpAddress>, exclude: IpAddress)
    requires AllProper(list) && AllProper(source) && Proper(exclude) && AllInherit(list, source)
    requires AllFitting(source, exclude)
    ensures AllFitting(list, exclude)
  {
    hide Inherits, Fitting;
    forall k | 0 <= k < |list| ensures Fitting(list[k], exclude) {
      var i :| 0 <= i < |source| && Inherits(list[k], source[i]);
      InheritsFitting(list[k], source[i], exclude);
    }
  }

  lemma PartsStayEnding(list: seq<IpAddress>, source: seq<IpAddress>, exclude: IpAddress)
    requires AllProper(list) && AllProper(source) && Proper(exclude) && AllInherit(list, source)
    requires AllEnd(source, exclude)
    ensures AllEnd(list, exclude)
  {
    hide Inherits, Ends;
    forall k | 0 <= k < |list| ensures Ends(list[k], exclude) {
      var i :| 0 <= i < |source| && Inherits(list[k], source[i]);
      InheritsEnds(list[k], source[i], exclude);
    }
  }

  lemma PartsLieWithin(list: seq<IpAddress>, source: seq<IpAddress>, a: Bits)
    requires AllProper(list) && AllProper(source) && AllInherit(list, source)
    ensures Covered(list, a) ==> Covered(source, a)
  {
    if Covered(list, a) {
      var k :| 0 <= k < |list| && Contains(list[k], a);
      var i :| 0 <= i < |source| && Inherits(list[k], source[i]);
      NestedOrApart(list[k], source[i], a);
    }
  }

  lemma InheritTransitive(list: seq<IpAddress>, middle: seq<IpAddress>, source: seq<IpAddress>)
    requires AllProper(list) && AllProper(middle) && AllProper(source) && AllInherit(list, middle)
    requires AllInherit(middle, source)
    ensures AllInherit(list, source)
  {
    hide Inherits;
    forall k | 0 <= k < |list| ensures InheritsSome(list[k], source) {
      var j :| 0 <= j < |middle| && Inherits(list[k], middle[j]);
      var i :| 0 <= i < |source| && Inherits(middle[j], source[i]);
      InheritsTransitive(list[k], middle[j], source[i]);
    }
  }

  lemma InheritItself(list: seq<IpAddress>)
    requires AllProper(list)
    ensures AllInherit(list, list)
  {
    forall k | 0 <= k < |list| ensures InheritsSome(list[k], list) {
      ContainsItself(list[k]);
      assert Inherits(list[k], list[k]);
    }
  }

  /** Every exclusion can be taken out of every source entry it lies in. */
  predicate ListsFit(sourceList: seq<IpAddress>, excludeList: seq<IpAddress>)
    requires AllProper(sourceList) && AllProper(excludeList)
  {
    forall j :: 0 <= j < |excludeList| ==> AllFitting(sourceList, excludeList[j])
  }

  /**
   The whole operation, wherever its loops end: the result lies within the
   source, and it is the set difference if every exclusion can be taken out of
   every source entry it lies in.
   */
  method ExcludeAddresses(sourceList: seq<IpAddress>, excludeList: seq<IpAddress>) returns (results: seq<IpAddress>)
    requires AllProper(sourceList) && AllProper(excludeList)
    requires forall j :: 0 <= j < |excludeList| ==> AllEnd(sourceList, excludeList[j])
    ensures AllProper(results) && AllInherit(results, sourceList)
    ensures forall a: Bits :: Covered(results, a) ==> Covered(sourceList, a)
    ensures ListsFit(sourceList, excludeList) ==>
              forall a: Bits :: Covered(results, a) <==> Covered(sourceList, a) && !Covered(excludeList, a)
  {
    hide Contains, Covered, AllInherit, AllFitting, AllEnd;
    ghost var fits := ListsFit(sourceList, excludeList);
    results := sourceList;
    NothingIsCovered();
    InheritItself(sourceList);
    assert excludeList[..0] == [];
    for i := 0 to |excludeList|
      invariant AllProper(results) && AllProper(excludeList[..i]) && AllInherit(results, sourceList)
      invariant fits ==>
                forall a: Bits :: Covered(results, a) <==> Covered(sourceList, a) && !Covered(excludeList[..i], a)
    {
      var exclude := excludeList[i];
      if fits { PartsStayFitting(results, sourceList, exclude); }
      PartsStayEnding(results, sourceList, exclude);
      ghost var before := results;
      results := ExcludeFromAll(results, exclude);
      InheritTransitive(results, before, sourceList);
      forall a: Bits
        ensures AllProper(excludeList[..i] + [exclude])
        ensures Covered(excludeList[..i] + [exclude], a) <==> Covered(excludeList[..i], a) || Contains(exclude, a)
      {
        CoveredOne(exclude, a);
        CoveredConcat(excludeList[..i], [exclude], a);
      }
      assert excludeList[..i+1] == excludeList[..i] + [exclude];
    }
    assert excludeList[..|excludeList|] == excludeList;
    forall a: Bits ensures Covered(results, a) ==> Covered(sourceList, a) { PartsLieWithin(results, sourceList, a); }
  }
}
