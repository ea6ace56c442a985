/** The address normalisation that keys the backoff table. */
module Addresses {
  import opened Common

  /** A `net.IP`: 4 or 16 octets for a real address, any other length otherwise. */
  type Addr = Bytes

  /** The table key. The source uses the textual form of the normalised address; the text
      determines the octets, so the octets themselves serve as the key here. */
  type Key = Bytes

  const MAPPED_PREFIX: Bytes := [0, 0, 0, 0, 0, 0, 0, 0, 0, 0, 0xff, 0xff]

  /** `net.IP.To4`: the four octets of an IPv4 or IPv4-mapped address. */
  function To4(ip: Addr): (r: Option<Addr>) {
    if |ip| == 4 then Some(ip)
    else if |ip| == 16 && ip[..12] == MAPPED_PREFIX then Some(ip[12..])
    else None
  }

  function Normalize(ip: Addr): (key: Key) {
    match To4(ip)
    case Some(v4) => v4
    case None => ip
  }

  /** ::ffff:a.b.c.d */
  function MappedForm(v4: Addr): Addr { [0, 0, 0, 0, 0, 0, 0, 0, 0, 0, 0xff, 0xff] + v4 }

  /** Two distinct addresses share a counter exactly when one of them is the IPv4-mapped
      IPv6 form of the other. */
  lemma SharedKeyIffMapped(a: Addr, b: Addr)
    ensures Normalize(a) == Normalize(b) <==>
            a == b || (|a| == 4 && b == MappedForm(a)) || (|b| == 4 && a == MappedForm(b))
    ensures Normalize(Normalize(a)) == Normalize(a)
  {
    if |a| == 16 { assert a == a[..12] + a[12..]; }
    if |b| == 16 { assert b == b[..12] + b[12..]; }
    if |a| == 4 && b == MappedForm(a) { assert b[..12] == MAPPED_PREFIX && b[12..] == a; }
    if |b| == 4 && a == MappedForm(b) { assert a[..12] == MAPPED_PREFIX && a[12..] == b; }
  }
}
