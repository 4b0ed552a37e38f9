/**
 * `normalizeIP` of src/lib/ipUtils.ts. The `ip-address` library is a
 * parameter: for each address family, whether its constructor accepts the
 * text, whether `isValid` holds and what `correctForm()` returns (the text
 * form of section 4 of RFC 5952 for IPv6).
 */
module IpUtils {

  /** What `normalizeIP` uses of one address class of `ip-address`. */
  datatype AddressParser = AddressParser(
    constructs: string -> bool,
    isValid: string -> bool,
    correctForm: string -> string)

  const Localhost: string := "localhost"

  /** The IPv4-mapped IPv6 prefix of section 2.5.5.2 of RFC 4291, in text form. */
  const MappedPrefix: string := "::ffff:"

  predicate IsLoopbackAlias(ip: string) {
    ip == "::1" || ip == "127.0.0.1"
  }

  predicate Accepts(p: AddressParser, ip: string) {
    p.constructs(ip) && p.isValid(ip)
  }

  /**
   * Loopback aliases first, then IPv6, then IPv4, else the input unchanged.
   * A throwing constructor falls through to the next step, so the function is total.
   */
  function NormalizeIp(ip: string, v6: AddressParser, v4: AddressParser): (r: string)
    ensures r == Localhost || r == ip || r == v6.correctForm(ip) || r == MappedPrefix + v4.correctForm(ip)
  {
    if IsLoopbackAlias(ip) then Localhost
    else if v6.constructs(ip) && v6.isValid(ip) then v6.correctForm(ip)
    else if v4.constructs(ip) && v4.isValid(ip) then MappedPrefix + v4.correctForm(ip)
    else ip
  }

  /** Both loopback spellings become "localhost" whatever the parsers would say. */
  lemma LoopbackUnified(v6: AddressParser, v4: AddressParser, v6': AddressParser, v4': AddressParser)
    ensures NormalizeIp("::1", v6, v4) == Localhost
    ensures NormalizeIp("127.0.0.1", v6', v4') == Localhost
  {
  }

  /** An address IPv6 accepts gets its canonical form, and the IPv4 parser is never consulted. */
  lemma Ipv6Canonical(ip: string, v6: AddressParser, v4: AddressParser, v4': AddressParser)
    requires !IsLoopbackAlias(ip) && Accepts(v6, ip)
    ensures NormalizeIp(ip, v6, v4) == v6.correctForm(ip)
    ensures NormalizeIp(ip, v6, v4) == NormalizeIp(ip, v6, v4')
  {
  }

  /** An address only IPv4 accepts becomes the IPv4-mapped IPv6 text. */
  lemma Ipv4Mapped(ip: string, v6: AddressParser, v4: AddressParser)
    requires !IsLoopbackAlias(ip) && !Accepts(v6, ip) && Accepts(v4, ip)
    ensures NormalizeIp(ip, v6, v4) == MappedPrefix + v4.correctForm(ip)
  {
  }

  /** Text neither family accepts (a CIDR block, a host name, garbage) is returned verbatim. */
  lemma UnparsedPassesThrough(ip: string, v6: AddressParser, v4: AddressParser)
    requires !IsLoopbackAlias(ip) && !Accepts(v6, ip) && !Accepts(v4, ip)
    ensures NormalizeIp(ip, v6, v4) == ip
  {
  }

  /**
   * `normalizeIP` is not idempotent: a long spelling of the IPv6 loopback
   * (such as "0:0:0:0:0:0:0:1") canonicalises to "::1", which a second call
   * turns into "localhost".
   */
  lemma NotIdempotentOnLongLoopback(ip: string, v6: AddressParser, v4: AddressParser)
    requires !IsLoopbackAlias(ip) && Accepts(v6, ip) && v6.correctForm(ip) == "::1"
    ensures NormalizeIp(ip, v6, v4) == "::1"
    ensures NormalizeIp(NormalizeIp(ip, v6, v4), v6, v4) != NormalizeIp(ip, v6, v4)
  {
  }
}
