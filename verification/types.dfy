/** Fixed-width integers and the protocol constants the request core uses. */
module Types {
  newtype uint16 = x: int | 0 <= x < 0x1_0000
  newtype uint32 = x: int | 0 <= x < 0x1_0000_0000
  newtype int32 = x: int | -0x8000_0000 <= x < 0x8000_0000

  /** Resource record type A, a host address (RFC 1035 section 3.2.2). */
  const RRTYPE_A: uint16 := 1
  /** Resource record type AAAA, an IPv6 host address (RFC 3596 section 2.1). */
  const RRTYPE_AAAA: uint16 := 28
  /** Class IN, the Internet (RFC 1035 section 3.2.4). */
  const CLASS_IN: uint16 := 1

  /** getdns return code for success. */
  const RETURN_GOOD: uint32 := 0
  /** getdns value of a boolean extension that is switched on. */
  const EXTENSION_TRUE: uint32 := 1000
}
