/** Identities shared by the whole model: protocols, addresses, service port names,
    and the tuples that the program hashes into chain names and service IDs. */
module Names {

  datatype Option<+T> = None | Some(value: T)

  datatype Protocol = TCP | UDP | SCTP

  datatype Family = IPv4 | IPv6

  /** An address after parsing; `NoAddress` is the empty string of an API object. */
  datatype Address = NoAddress | Ip4(bits: nat) | Ip6(bits: nat)

  type Port = p: int | 0 <= p < 0x1_0000

  /** Everything that is not an IPv6 address counts as IPv4, the empty address included. */
  function FamilyOf(a: Address): Family {
    if a.Ip6? then IPv6 else IPv4
  }

  datatype NamespacedName = NamespacedName(namespace: string, name: string)

  datatype PortName = PortName(service: NamespacedName, port: string, protocol: Protocol)

  /** What the program prints, hashes and truncates into a service ID.  The hash is taken to be
      injective, so the tuple stands for the ID; see module Identity for the printed form. */
  datatype ServiceId =
    ServiceId(name: PortName, protocol: Protocol, family: Family, clusterIP: Address, port: Port)

  /** What the program prints as an endpoint: family, address, port and protocol.
      The family follows from the address. */
  datatype EndpointId = EndpointId(ip: Address, port: Port, protocol: Protocol)

  /** One entry of the endpoints map. */
  datatype Endpoint = Endpoint(id: EndpointId, isLocal: bool, index: nat)
}
