/**
The update requests of the two "check exists" transactions, and what each of
them does to a zone.
*/
module Requests {
  import opened Common
  import opened Dns

  datatype Ncr = Ncr(fqdn: Name, ip: IpAddress, dhcid: Dhcid)

  /** `usable` is false for a server that the select_key hook tells D2 to skip. */
  datatype Server = Server(address: nat, usable: bool)

  datatype Domain = Domain(name: Name, servers: seq<Server>)

  datatype ChangeType = CHG_ADD | CHG_REMOVE

  type Tries = n: nat | 1 <= n witness 1

  /** A request with the domains it is for; `tries` is how often each request is sent to one server. */
  datatype Config = Config(
    change: ChangeType, ncr: Ncr, forward: Option<Domain>, reverse: Option<Domain>, tries: Tries)

  /** The six requests, in the order the two transactions use them. */
  datatype Leg = AddFwd | ReplaceFwd | ReplaceRev | RemoveAddr | RemoveRRs | RemoveRev

  predicate IsReverse(l: Leg) { l == ReplaceRev || l == RemoveRev }

  function AddressType(ip: IpAddress): RRType {
    if ip.V4? then A else AAAA
  }

  function DomainOf(c: Config, l: Leg): Option<Domain> {
    if IsReverse(l) then c.reverse else c.forward
  }

  function ZoneName(c: Config, l: Leg): Name {
    if DomainOf(c, l).Some? then DomainOf(c, l).value.name else Host("")
  }

  // ----- the records a request talks about -----

  function AddrRR(n: Ncr): RR { RR(n.fqdn, AddressType(n.ip), Address(n.ip)) }

  function OwnerRR(n: Ncr): RR { RR(n.fqdn, DHCID, Owner(n.dhcid)) }

  function RevName(n: Ncr): Name { ReverseOf(n.ip) }

  function PtrRR(n: Ncr): RR { RR(RevName(n), PTR, Target(n.fqdn)) }

  function RevOwnerRR(n: Ncr): RR { RR(RevName(n), DHCID, Owner(n.dhcid)) }

  // ----- the messages -----

  function Exists(n: Name, t: RRType): WireRR { WireRR(n, ANY, Only(t), None) }

  function Absent(n: Name, t: RRType): WireRR { WireRR(n, NONE, Only(t), None) }

  function Delete(n: Name, t: RRType): WireRR { WireRR(n, ANY, Only(t), None) }

  function Add(r: RR): WireRR { WireRR(r.name, IN, Only(r.rtype), Some(r.rdata)) }

  function MessageOf(zone: Name, n: Ncr, l: Leg): Message {
    match l
    case AddFwd =>
      Message(zone, [WireRR(n.fqdn, NONE, AnyType, None)], [Add(AddrRR(n)), Add(OwnerRR(n))])
    case ReplaceFwd =>
      Message(zone, [Exists(n.fqdn, DHCID)],
              [Delete(n.fqdn, AddressType(n.ip)), Delete(n.fqdn, DHCID), Add(AddrRR(n)), Add(OwnerRR(n))])
    case ReplaceRev =>
      Message(zone, [],
              [Delete(RevName(n), PTR), Delete(RevName(n), DHCID), Add(PtrRR(n)), Add(RevOwnerRR(n))])
    case RemoveAddr =>
      Message(zone, [Exists(n.fqdn, DHCID)],
              [WireRR(n.fqdn, NONE, Only(AddressType(n.ip)), Some(Address(n.ip)))])
    case RemoveRRs =>
      Message(zone, [Absent(n.fqdn, A), Absent(n.fqdn, AAAA)], [Delete(n.fqdn, DHCID)])
    case RemoveRev =>
      Message(zone, [Add(PtrRR(n))], [WireRR(RevName(n), ANY, AnyType, None)])
  }

  function RequestOf(c: Config, l: Leg): Message { MessageOf(ZoneName(c, l), c.ncr, l) }

  // ----- what they do -----

  function ReplaceTwo(z: Zone, n: Name, t: RRType, u: RRType, added: Zone): Zone {
    (set r | r in z && !(r.name == n && (r.rtype == t || r.rtype == u))) + added
  }

  /** The answer to a request and the zone it leaves, in closed form. */
  function Effect(zone: Name, n: Ncr, l: Leg, z: Zone): Outcome {
    match l
    case AddFwd =>
      if InUse(z, n.fqdn) then Outcome(YXDOMAIN, z)
      else Outcome(NOERROR, z + {AddrRR(n), OwnerRR(n)})
    case ReplaceFwd =>
      if !Has(z, n.fqdn, DHCID) then Outcome(NXRRSET, z)
      else Outcome(NOERROR, ReplaceTwo(z, n.fqdn, AddressType(n.ip), DHCID, {AddrRR(n), OwnerRR(n)}))
    case ReplaceRev =>
      if Has(z, RevName(n), CNAME) then Outcome(NOERROR, z)
      else Outcome(NOERROR, ReplaceTwo(z, RevName(n), PTR, DHCID, {PtrRR(n), RevOwnerRR(n)}))
    case RemoveAddr =>
      if !Has(z, n.fqdn, DHCID) then Outcome(NXRRSET, z)
      else Outcome(NOERROR, z - {AddrRR(n)})
    case RemoveRRs =>
      if Has(z, n.fqdn, A) || Has(z, n.fqdn, AAAA) then Outcome(YXRRSET, z)
      else Outcome(NOERROR, DeleteRRset(z, n.fqdn, DHCID))
    case RemoveRev =>
      if RRset(z, RevName(n), PTR) != {Target(n.fqdn)} then Outcome(NXRRSET, z)
      else Outcome(NOERROR, DeleteName(z, RevName(n), zone))
  }

  // ----- executing short sections -----

  lemma CheckOne(z: Zone, p: WireRR)
    requires p.rclass != IN
    ensures CheckPrereqs(z, [p]) == Unmet(z, p)
  {
    assert [p][1..] == [];
    assert FirstUnmet(z, []) == NOERROR;
    assert Wanted([p]) == Wanted([]) == {};
  }

  lemma CheckTwo(z: Zone, p: WireRR, q: WireRR)
    requires p.rclass != IN && q.rclass != IN
    ensures CheckPrereqs(z, [p, q]) == if Unmet(z, p) != NOERROR then Unmet(z, p) else Unmet(z, q)
  {
    CheckOne(z, q);
    assert [p, q][1..] == [q];
    assert [q][1..] == [];
    assert Wanted([p, q]) == Wanted([q]) == Wanted([]) == {};
    assert FirstUnmet(z, [q]) == Unmet(z, q);
  }

  lemma ApplyShort(z: Zone, apex: Name, a: WireRR, b: WireRR)
    ensures ApplyAll(z, apex, [a]) == ApplyOne(z, apex, a)
    ensures ApplyAll(z, apex, [a, b]) == ApplyOne(ApplyOne(z, apex, a), apex, b)
  {
    assert [a][1..] == [] && [b][1..] == [] && [a, b][1..] == [b];
    var z1 := ApplyOne(z, apex, a);
    assert ApplyAll(z1, apex, [b]) == ApplyOne(z1, apex, b);
  }

  lemma ApplyFour(z: Zone, apex: Name, a: WireRR, b: WireRR, c: WireRR, d: WireRR)
    ensures ApplyAll(z, apex, [a, b, c, d])
         == ApplyOne(ApplyOne(ApplyOne(ApplyOne(z, apex, a), apex, b), apex, c), apex, d)
  {
    var z1 := ApplyOne(z, apex, a);
    var z2 := ApplyOne(z1, apex, b);
    ApplyShort(z2, apex, c, d);
    assert [a, b, c, d][1..] == [b, c, d] && [b, c, d][1..] == [c, d];
    assert ApplyAll(z1, apex, [b, c, d]) == ApplyAll(z2, apex, [c, d]);
  }

  lemma ReplacePair(z: Zone, apex: Name, r: RR, s: RR)
    requires Legal(z)
    requires r.name == s.name && r.rtype in {A, AAAA, PTR} && s.rtype == DHCID
    ensures ApplyAll(z, apex, [Delete(r.name, r.rtype), Delete(r.name, DHCID), Add(r), Add(s)])
         == if Has(z, r.name, CNAME) then z else ReplaceTwo(z, r.name, r.rtype, DHCID, {r, s})
  {
    ApplyFour(z, apex, Delete(r.name, r.rtype), Delete(r.name, DHCID), Add(r), Add(s));
    var z2 := DeleteRRset(DeleteRRset(z, r.name, r.rtype), r.name, DHCID);
    if Has(z, r.name, CNAME) {
      assert z2 == z;
    } else {
      assert z2 + {r} + {s} == ReplaceTwo(z, r.name, r.rtype, DHCID, {r, s});
    }
  }

  lemma PtrPrereq(z: Zone, r: RR)
    ensures CheckPrereqs(z, [Add(r)])
         == if RRset(z, r.name, r.rtype) == {r.rdata} then NOERROR else NXRRSET
  {
    assert [Add(r)][1..] == [];
    assert Wanted([Add(r)]) == {r} + Wanted([]) == {r};
    assert FirstUnmet(z, [Add(r)]) == FirstUnmet(z, []) == NOERROR;
    assert RRset({r}, r.name, r.rtype) == {r.rdata};
  }

  /** On a legal zone, a server that executes the message has exactly the stated effect. */
  lemma MessageEffect(zone: Name, n: Ncr, l: Leg, z: Zone)
    requires Legal(z)
    ensures Process(z, MessageOf(zone, n, l)) == Effect(zone, n, l, z)
  {
    match l
    case AddFwd =>
      CheckOne(z, WireRR(n.fqdn, NONE, AnyType, None));
      ApplyShort(z, zone, Add(AddrRR(n)), Add(OwnerRR(n)));
      if !InUse(z, n.fqdn) {
        assert z + {AddrRR(n)} + {OwnerRR(n)} == z + {AddrRR(n), OwnerRR(n)};
      }
    case ReplaceFwd =>
      CheckOne(z, Exists(n.fqdn, DHCID));
      ReplacePair(z, zone, AddrRR(n), OwnerRR(n));
      assert Has(z, n.fqdn, DHCID) ==> !Has(z, n.fqdn, CNAME);
    case ReplaceRev =>
      ReplacePair(z, zone, PtrRR(n), RevOwnerRR(n));
      assert CheckPrereqs(z, []) == NOERROR;
    case RemoveAddr =>
      CheckOne(z, Exists(n.fqdn, DHCID));
      var u := WireRR(n.fqdn, NONE, Only(AddressType(n.ip)), Some(Address(n.ip)));
      ApplyShort(z, zone, u, u);
    case RemoveRRs =>
      CheckTwo(z, Absent(n.fqdn, A), Absent(n.fqdn, AAAA));
      ApplyShort(z, zone, Delete(n.fqdn, DHCID), Delete(n.fqdn, DHCID));
    case RemoveRev =>
      PtrPrereq(z, PtrRR(n));
      var u := WireRR(RevName(n), ANY, AnyType, None);
      ApplyShort(z, zone, u, u);
  }
}
