/**
The DNS side of a name change: resource records, dynamic update messages, and
the server that executes an update atomically on one zone.

Prerequisites follow the pseudocode in section 3.2.5 of RFC 2136, updates the
pseudocode in section 3.4.2.7 of the same document.
*/
module Dns {
  import opened Common

  datatype IpAddress = V4(bits: nat) | V6(bits: nat)

  /** A domain name is either the reverse-tree name of one address, which is
      what D2CfgMgr::reverseIpAddress produces, or any other name. */
  datatype Name = Host(text: string) | ReverseOf(ip: IpAddress)

  type Dhcid = string

  datatype RRType = A | AAAA | PTR | DHCID | CNAME | NS | SOA | OTHER(code: nat)

  datatype QType = AnyType | Only(rtype: RRType)

  datatype RRClass = IN | ANY | NONE

  datatype Rdata = Address(ip: IpAddress) | Owner(id: Dhcid) | Target(name: Name) | Opaque(bytes: string)

  /** A record of the zone; times to live are not modelled. */
  datatype RR = RR(name: Name, rtype: RRType, rdata: Rdata)

  type Zone = set<RR>

  /** A record of the prerequisite or update section of a message. */
  datatype WireRR = WireRR(name: Name, rclass: RRClass, qtype: QType, rdata: Option<Rdata>)

  datatype Message = Message(zone: Name, prereqs: seq<WireRR>, updates: seq<WireRR>)

  datatype Rcode =
    | NOERROR | FORMERR | SERVFAIL | NXDOMAIN | NOTIMP | REFUSED
    | YXDOMAIN | YXRRSET | NXRRSET | NOTAUTH | NOTZONE

  // ----- looking into a zone -----

  predicate InUse(z: Zone, n: Name) {
    exists r :: r in z && r.name == n
  }

  predicate Has(z: Zone, n: Name, t: RRType) {
    exists r :: r in z && r.name == n && r.rtype == t
  }

  function RRset(z: Zone, n: Name, t: RRType): set<Rdata> {
    set r | r in z && r.name == n && r.rtype == t :: r.rdata
  }

  function At(z: Zone, n: Name): Zone {
    set r | r in z && r.name == n
  }

  /** A CNAME never shares its name with other data (section 3.6.2 of RFC 1034). */
  ghost predicate Legal(z: Zone) {
    forall r, s :: r in z && s in z && r.name == s.name && r.rtype == CNAME ==> s.rtype == CNAME
  }

  // ----- prerequisites -----

  function Unmet(z: Zone, p: WireRR): Rcode {
    match (p.rclass, p.qtype)
    case (ANY, AnyType) =>
      if p.rdata.Some? then FORMERR else if InUse(z, p.name) then NOERROR else NXDOMAIN
    case (ANY, Only(t)) =>
      if p.rdata.Some? then FORMERR else if Has(z, p.name, t) then NOERROR else NXRRSET
    case (NONE, AnyType) =>
      if p.rdata.Some? then FORMERR else if InUse(z, p.name) then YXDOMAIN else NOERROR
    case (NONE, Only(t)) =>
      if p.rdata.Some? then FORMERR else if Has(z, p.name, t) then YXRRSET else NOERROR
    case (IN, AnyType) => FORMERR
    case (IN, Only(_)) => if p.rdata.None? then FORMERR else NOERROR
  }

  function FirstUnmet(z: Zone, ps: seq<WireRR>): Rcode {
    if ps == [] then NOERROR
    else if Unmet(z, ps[0]) != NOERROR then Unmet(z, ps[0])
    else FirstUnmet(z, ps[1..])
  }

  /** The value-dependent prerequisites, collected as the temporary RRsets of the pseudocode. */
  function Wanted(ps: seq<WireRR>): Zone {
    if ps == [] then {}
    else if ps[0].rclass == IN && ps[0].qtype.Only? && ps[0].rdata.Some?
    then {RR(ps[0].name, ps[0].qtype.rtype, ps[0].rdata.value)} + Wanted(ps[1..])
    else Wanted(ps[1..])
  }

  function CheckPrereqs(z: Zone, ps: seq<WireRR>): Rcode {
    var unmet := FirstUnmet(z, ps);
    var wanted := Wanted(ps);
    if unmet != NOERROR then unmet
    else if forall w :: w in wanted ==> RRset(z, w.name, w.rtype) == RRset(wanted, w.name, w.rtype) then NOERROR
    else NXRRSET
  }

  // ----- updates -----

  function DeleteRRset(z: Zone, n: Name, t: RRType): Zone {
    set r | r in z && !(r.name == n && r.rtype == t)
  }

  function DeleteName(z: Zone, n: Name, apex: Name): Zone {
    set r | r in z && !(r.name == n && (n == apex ==> r.rtype != SOA && r.rtype != NS))
  }

  /** Adding is silently skipped where a CNAME stands in the way. */
  function AddRR(z: Zone, n: Name, t: RRType, d: Rdata): Zone {
    if t == SOA then z
    else if t == CNAME then
      if exists r :: r in z && r.name == n && r.rtype != CNAME then z
      else DeleteRRset(z, n, CNAME) + {RR(n, CNAME, d)}
    else if Has(z, n, CNAME) then z
    else z + {RR(n, t, d)}
  }

  function DeleteRR(z: Zone, n: Name, t: RRType, d: Rdata): Zone {
    if t == SOA || (t == NS && RRset(z, n, NS) == {d}) then z
    else z - {RR(n, t, d)}
  }

  function ApplyOne(z: Zone, apex: Name, u: WireRR): Zone {
    match (u.rclass, u.qtype, u.rdata)
    case (IN, Only(t), Some(d)) => AddRR(z, u.name, t, d)
    case (ANY, AnyType, None) => DeleteName(z, u.name, apex)
    case (ANY, Only(t), None) =>
      if u.name == apex && (t == SOA || t == NS) then z else DeleteRRset(z, u.name, t)
    case (NONE, Only(t), Some(d)) => DeleteRR(z, u.name, t, d)
    case _ => z
  }

  function ApplyAll(z: Zone, apex: Name, us: seq<WireRR>): Zone
    decreases us
  {
    if us == [] then z else ApplyAll(ApplyOne(z, apex, us[0]), apex, us[1..])
  }

  datatype Outcome = Outcome(rcode: Rcode, zone: Zone)

  /** One update request, executed atomically. */
  function Process(z: Zone, m: Message): Outcome {
    var rcode := CheckPrereqs(z, m.prereqs);
    if rcode == NOERROR then Outcome(NOERROR, ApplyAll(z, m.zone, m.updates)) else Outcome(rcode, z)
  }
}
