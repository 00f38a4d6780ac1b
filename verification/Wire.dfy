/** Sizes, record types, classes and lifetimes of the packets sent. */
module Wire {

  /** MDNS_MAX_PACKET_SIZE */
  const MAX: nat := 1460

  const TYPE_A: nat := 0x01
  const TYPE_PTR: nat := 0x0C
  const TYPE_TXT: nat := 0x10
  const TYPE_AAAA: nat := 0x1C
  const TYPE_SRV: nat := 0x21
  const TYPE_SDPTR: nat := 0x32
  const TYPE_ANY: nat := 0xFF

  const CLASS_IN: nat := 0x0001
  const CLASS_FLUSH: nat := 0x8001

  /** The lifetime of PTR and TXT records, and that of SRV and address records. */
  const LONG_TTL: nat := 4500
  const HOST_TTL: nat := 120
}
