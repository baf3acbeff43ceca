/**
What each of the six requests keeps on a zone.
*/
module ZoneFacts {
  import opened Common
  import opened Dns
  import opened Requests

  /** An address record at a name comes with a DHCID record at that name. */
  ghost predicate Guarded(z: Zone, n: Name) {
    Has(z, n, A) || Has(z, n, AAAA) ==> Has(z, n, DHCID)
  }

  /** The client's address is the only one of its family and its DHCID the only one. */
  ghost predicate Owned(z: Zone, n: Ncr) {
    && RRset(z, n.fqdn, AddressType(n.ip)) == {Address(n.ip)}
    && RRset(z, n.fqdn, DHCID) == {Owner(n.dhcid)}
  }

  lemma EffectLegal(zone: Name, n: Ncr, l: Leg, z: Zone)
    requires Legal(z)
    ensures Legal(Effect(zone, n, l, z).zone)
  {
  }

  lemma EffectGuarded(zone: Name, n: Ncr, l: Leg, z: Zone, m: Name)
    requires Guarded(z, m)
    ensures Guarded(Effect(zone, n, l, z).zone, m)
  {
  }

  /** A request changes nothing outside the name it is about. */
  lemma EffectElsewhere(zone: Name, n: Ncr, l: Leg, z: Zone, m: Name)
    requires m != if IsReverse(l) then RevName(n) else n.fqdn
    ensures At(Effect(zone, n, l, z).zone, m) == At(z, m)
  {
  }
}
