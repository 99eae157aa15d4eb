/** DNS messages as values: the parts of a message that the router and the client look at. */
module DnsMessage {
  type Byte = b: int | 0 <= b < 256

  /** An IP prefix: the address as raw bytes, and the prefix length.  The zero prefix is not valid. */
  datatype Prefix = Prefix(addr: seq<Byte>, bits: int) {
    predicate IsValid() {
      (|addr| == 4 && 0 <= bits <= 32) || (|addr| == 16 && 0 <= bits <= 128)
    }
  }

  const ZERO_PREFIX := Prefix([], -1)

  /** An EDNS0 option; only the client subnet and padding are looked into. */
  datatype EdnsOption =
    | Subnet(family: nat, netmask: Byte, address: seq<Byte>)
    | Padding
    | OtherOption(code: nat)

  datatype SvcbKey = IPv4Hint | IPv6Hint | OtherKey(code: nat)

  /** A resource record.  `Opt` is the EDNS0 pseudo record, whose TTL field is not a lifetime. */
  datatype RR =
    | Opt(version: nat, options: seq<EdnsOption>)
    | Soa(ttl: nat, minimum: nat)
    | Https(ttl: nat, keys: seq<SvcbKey>)
    | Record(ttl: nat, data: nat)

  datatype Msg = Msg(id: nat, rcode: nat, answer: seq<RR>, ns: seq<RR>, extra: seq<RR>)

  const RCODE_SUCCESS := 0
  const RCODE_NAME_ERROR := 3
}
