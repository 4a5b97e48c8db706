/**
 * `NetworkTableClientId`: the key a connection is registered under, made
 * of an IPv4 address, a port and the client's identity string. Equality
 * is field-wise, and `Display` renders `a.b.c.d:port:identity`.
 */
module NetworkTableClientIds {
  import opened Common

  datatype Ipv4 = Ipv4(a: Byte, b: Byte, c: Byte, d: Byte)

  datatype NetworkTableClientId = NetworkTableClientId(ip: Ipv4, port: U16, identity: string)

  /** `NetworkTableClientId::new`: keeps the octets of the address, the port and the identity. */
  function New(ip: Ipv4, port: U16, identity: string): (id: NetworkTableClientId)
    ensures id.ip == ip && id.port == port && id.identity == identity
  {
    NetworkTableClientId(ip, port, identity)
  }

  /** Derived `PartialEq`: two ids are equal exactly when all three fields are. */
  lemma EqualityIsFieldwise(x: NetworkTableClientId, y: NetworkTableClientId)
    ensures x == y <==> x.ip == y.ip && x.port == y.port && x.identity == y.identity
  {
  }

  /** `Display for Ipv4Addr`: four decimal octets separated by dots. */
  function DottedQuad(ip: Ipv4): string {
    DecimalString(ip.a) + "." + DecimalString(ip.b) + "." + DecimalString(ip.c) + "." + DecimalString(ip.d)
  }

  /** `Display for NetworkTableClientId` (and `repr`): `a.b.c.d:port:identity`. */
  function Repr(id: NetworkTableClientId): string {
    DottedQuad(id.ip) + ":" + DecimalString(id.port) + ":" + id.identity
  }

  /**
   * Splits `s` at the first occurrence of `sep`: the text before it (which
   * does not contain `sep`) and the text after it.
   */
  function SplitFirst(s: string, sep: char): (r: Option<(string, string)>)
    ensures r.None? <==> sep !in s
    ensures r.Some? ==> sep !in r.value.0 && s == r.value.0 + [sep] + r.value.1
  {
    if |s| == 0 then None
    else if s[0] == sep then Some(([], s[1..]))
    else
      match SplitFirst(s[1..], sep)
      case None => None
      case Some((before, after)) => Some(([s[0]] + before, after))
  }

  /** Splitting a separator-free prefix, the separator and the rest. */
  lemma {:induction false} SplitFirstOf(before: string, sep: char, after: string)
    requires sep !in before
    ensures SplitFirst(before + [sep] + after, sep) == Some((before, after))
  {
    if |before| > 0 {
      SplitFirstOf(before[1..], sep, after);
      assert (before + [sep] + after)[1..] == before[1..] + [sep] + after;
      assert [before[0]] + before[1..] == before;
    }
  }

  /** Reads back a decimal number below `bound`. */
  function ParseBelow(s: string, bound: nat): (r: Option<nat>)
    ensures r.Some? ==> r.value < bound
  {
    var n :- ParseDecimal(s);
    if n < bound then Some(n) else None
  }

  /** Reads `a.b.c.d` back into an address. */
  function ParseDottedQuad(s: string): Option<Ipv4> {
    var (a, r1) :- SplitFirst(s, '.');
    var (b, r2) :- SplitFirst(r1, '.');
    var (c, d) :- SplitFirst(r2, '.');
    var a' :- ParseBelow(a, 0x100);
    var b' :- ParseBelow(b, 0x100);
    var c' :- ParseBelow(c, 0x100);
    var d' :- ParseBelow(d, 0x100);
    Some(Ipv4(a', b', c', d'))
  }

  /** Reads `a.b.c.d:port:identity` back into an id; the identity is everything after the second colon. */
  function ParseRepr(s: string): Option<NetworkTableClientId> {
    var (quad, rest) :- SplitFirst(s, ':');
    var ip :- ParseDottedQuad(quad);
    var (port, identity) :- SplitFirst(rest, ':');
    var port' :- ParseBelow(port, 0x1_0000);
    Some(NetworkTableClientId(ip, port', identity))
  }

  lemma DecimalStringHasNo(n: nat, c: char)
    requires !IsDigit(c)
    ensures c !in DecimalString(n)
  {
  }

  lemma ParseBelowOf(n: nat, bound: nat)
    requires n < bound
    ensures ParseBelow(DecimalString(n), bound) == Some(n)
  {
    ParseDecimalOfDecimalString(n);
  }

  /** A rendered address reads back to itself and contains no colon. */
  lemma ParseDottedQuadOf(ip: Ipv4)
    ensures ParseDottedQuad(DottedQuad(ip)) == Some(ip)
    ensures ':' !in DottedQuad(ip)
  {
    var sa, sb, sc, sd := DecimalString(ip.a), DecimalString(ip.b), DecimalString(ip.c), DecimalString(ip.d);
    DecimalStringHasNo(ip.a, '.');
    DecimalStringHasNo(ip.b, '.');
    DecimalStringHasNo(ip.c, '.');
    var r2 := sc + "." + sd;
    var r1 := sb + "." + r2;
    assert DottedQuad(ip) == sa + "." + r1;
    SplitFirstOf(sa, '.', r1);
    SplitFirstOf(sb, '.', r2);
    SplitFirstOf(sc, '.', sd);
    ParseBelowOf(ip.a, 0x100);
    ParseBelowOf(ip.b, 0x100);
    ParseBelowOf(ip.c, 0x100);
    ParseBelowOf(ip.d, 0x100);
    DecimalStringHasNo(ip.a, ':');
    DecimalStringHasNo(ip.b, ':');
    DecimalStringHasNo(ip.c, ':');
    DecimalStringHasNo(ip.d, ':');
  }

  /** The rendering reads back to the id it came from. */
  lemma ParseReprOfRepr(id: NetworkTableClientId)
    ensures ParseRepr(Repr(id)) == Some(id)
  {
    var quad, sp := DottedQuad(id.ip), DecimalString(id.port);
    ParseDottedQuadOf(id.ip);
    DecimalStringHasNo(id.port, ':');
    var rest := sp + ":" + id.identity;
    assert Repr(id) == quad + ":" + rest;
    SplitFirstOf(quad, ':', rest);
    SplitFirstOf(sp, ':', id.identity);
    ParseBelowOf(id.port, 0x1_0000);
  }

  /** Distinct ids render differently, so `repr` names a connection unambiguously. */
  lemma ReprInjective(x: NetworkTableClientId, y: NetworkTableClientId)
    ensures Repr(x) == Repr(y) <==> x == y
  {
    ParseReprOfRepr(x);
    ParseReprOfRepr(y);
  }
}
