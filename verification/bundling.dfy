/**
 * The bundling decision of dns_req_new: which record types the chain of
 * network requests asks for, given the requested type and the outcome of
 * looking up the "return both v4 and v6" extension.
 */
module Bundling {
  import opened Types

  /**
   * The outcome of getdns_dict_get_int on the caller's extensions for the
   * "return both v4 and v6" name: its return code, and the value the flag
   * variable holds afterwards.
   */
  datatype FlagLookup = FlagLookup(rc: uint32, value: uint32)

  /** The caller asked for both address families. */
  predicate WantsBothFamilies(flag: FlagLookup)
  {
    flag.rc == RETURN_GOOD && flag.value == EXTENSION_TRUE
  }

  /** The record type asks for a host address of one of the two families. */
  predicate IsAddressType(t: uint16)
  {
    t == RRTYPE_A || t == RRTYPE_AAAA
  }

  /** The address type of the other family: A for AAAA and AAAA for A. */
  function Complement(t: uint16): (r: uint16)
    requires IsAddressType(t)
    ensures IsAddressType(r) && r != t
  {
    if t == RRTYPE_A then RRTYPE_AAAA else RRTYPE_A
  }

  /** The record types of the chain dns_req_new builds, in chain order. */
  function ChainTypes(flag: FlagLookup, t: uint16): (r: seq<uint16>)
    ensures 1 <= |r| <= 2 && r[0] == t
    ensures |r| == 2 <==>
      flag.rc == RETURN_GOOD && flag.value == EXTENSION_TRUE &&
      (t == RRTYPE_A || t == RRTYPE_AAAA)
    ensures |r| == 2 ==> r[1] != r[0] && {r[0], r[1]} == {RRTYPE_A, RRTYPE_AAAA}
  {
    if WantsBothFamilies(flag) && IsAddressType(t) then [t, Complement(t)] else [t]
  }
}
