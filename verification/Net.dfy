/** Addresses and scan targets. */
module Net {
  type Byte = x: nat | x < 0x100
  type U16 = x: nat | x < 0x1_0000
  type U32 = x: nat | x < 0x1_0000_0000

  datatype Option<+T> = None | Some(value: T)

  datatype Result<+T, +E> = Ok(value: T) | Err(error: E)

  type Octets = s: seq<Byte> | |s| == 16 witness seq(16, _ => 0)

  /** An IPv4 address by its 32-bit value, an IPv6 address by its sixteen octets. */
  datatype IpAddr = V4(bits: U32) | V6(octets: Octets)

  datatype Target = Target(ip: IpAddr, zone: Option<U32>, display: string)
}
