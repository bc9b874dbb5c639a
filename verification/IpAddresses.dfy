/**
 Host addresses and prefixes, as in client/mozilla/shared/ipaddress.cpp.

 An address is its sequence of bits, most significant first: 32 bits for IPv4,
 128 for IPv6. The shift-and-xor comparisons of the source are comparisons of
 leading bits here, so one definition serves both protocols.
 */
module IpAddresses {

  predicate IsWidth(n: nat) { n == 32 || n == 128 }

  /** The bits of an IPv4 or an IPv6 address. */
  type Bits = b: seq<bool> | IsWidth(|b|) witness seq(32, _ => false)

  /** QHostAddress: null, or an address of one of the two protocols. */
  datatype HostAddress = NullAddress | Inet(bits: Bits)

  datatype IpAddress = IpAddress(address: HostAddress, prefixLength: int)

  /**
   What a textual entry of an exclusion list can parse to: a plain host, a
   subnet written with a slash, or text that is neither (with or without a
   slash in it).
   */
  datatype AddressText =
    | HostText(bits: Bits)
    | SubnetText(subnet: Bits, length: nat)
    | MalformedHost
    | MalformedSubnet

  /** IPAddress(const QString&): a missing length is clamped to the full width. */
  function FromText(t: AddressText): IpAddress {
    match t
    case HostText(bits) => IpAddress(Inet(bits), |bits|)
    case SubnetText(bits, length) => IpAddress(Inet(bits), if length >= |bits| then |bits| else length)
    case MalformedHost => IpAddress(NullAddress, 999999)
    case MalformedSubnet => IpAddress(NullAddress, -1)
  }

  /** QHostAddress(const QString&): null for anything but a plain host. */
  function HostOf(t: AddressText): HostAddress {
    if t.HostText? then Inet(t.bits) else NullAddress
  }

  /** IPAddress(const QHostAddress&): everything that is not IPv4 gets length 128. */
  function FromHost(h: HostAddress): IpAddress {
    IpAddress(h, if h.Inet? && |h.bits| == 32 then 32 else 128)
  }

  /** The key an entry is added under, and the key it is removed under. */
  function AddKey(t: AddressText): IpAddress { FromText(t) }
  function RemoveKey(t: AddressText): IpAddress { FromHost(HostOf(t)) }

  /** The key that RemoveKey yields for every entry that is not a plain host. */
  const NULL_KEY := IpAddress(NullAddress, 128)

  /**
   An entry is removed under the key it was added under exactly when it is a
   plain host; every other entry is removed under a key nothing is added under.
   */
  lemma KeysAgreeExactlyForHosts(t: AddressText)
    ensures AddKey(t) == RemoveKey(t) <==> t.HostText?
    ensures AddKey(t) != NULL_KEY
    ensures !t.HostText? ==> RemoveKey(t) == NULL_KEY
  {
  }
}
