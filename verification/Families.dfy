/**
The records and messages by name: A for IPv4 and AAAA for IPv6, on the wire and
in the zone.
*/
module Families {
  import opened Common
  import opened Dns
  import opened Requests
  import opened Protocol
  import opened ZoneFacts
  import opened Network
  import opened Convergence
  import opened Removal

  /** The type of the lease's address record, and the one it has nothing to do with. */
  predicate Types(ip: IpAddress, lease: RRType, other: RRType) {
    if ip.V4? then lease == A && other == AAAA else lease == AAAA && other == A
  }

  // ----- on the wire -----

  /** The requests of an add, record by record, in the zones of their domains. */
  lemma AddMessages(c: Config, t: RRType, o: RRType)
    requires Types(c.ncr.ip, t, o)
    ensures var n := c.ncr; c.forward.Some? ==>
      && RequestOf(c, AddFwd) == Message(
           c.forward.value.name,
           [WireRR(n.fqdn, NONE, AnyType, None)],
           [WireRR(n.fqdn, IN, Only(t), Some(Address(n.ip))), WireRR(n.fqdn, IN, Only(DHCID), Some(Owner(n.dhcid)))])
      && RequestOf(c, ReplaceFwd) == Message(
           c.forward.value.name,
           [WireRR(n.fqdn, ANY, Only(DHCID), None)],
           [WireRR(n.fqdn, ANY, Only(t), None), WireRR(n.fqdn, ANY, Only(DHCID), None),
            WireRR(n.fqdn, IN, Only(t), Some(Address(n.ip))), WireRR(n.fqdn, IN, Only(DHCID), Some(Owner(n.dhcid)))])
    ensures var n := c.ncr; var rev := ReverseOf(n.ip); c.reverse.Some? ==>
      RequestOf(c, ReplaceRev) == Message(
        c.reverse.value.name,
        [],
        [WireRR(rev, ANY, Only(PTR), None), WireRR(rev, ANY, Only(DHCID), None),
         WireRR(rev, IN, Only(PTR), Some(Target(n.fqdn))), WireRR(rev, IN, Only(DHCID), Some(Owner(n.dhcid)))])
  {
  }

  /** The requests of a removal. */
  lemma RemoveMessages(c: Config, t: RRType, o: RRType)
    requires Types(c.ncr.ip, t, o)
    ensures var n := c.ncr; c.forward.Some? ==>
      && RequestOf(c, RemoveAddr) == Message(
           c.forward.value.name,
           [WireRR(n.fqdn, ANY, Only(DHCID), None)],
           [WireRR(n.fqdn, NONE, Only(t), Some(Address(n.ip)))])
      && RequestOf(c, RemoveRRs) == Message(
           c.forward.value.name,
           [WireRR(n.fqdn, NONE, Only(A), None), WireRR(n.fqdn, NONE, Only(AAAA), None)],
           [WireRR(n.fqdn, ANY, Only(DHCID), None)])
    ensures var n := c.ncr; var rev := ReverseOf(n.ip); c.reverse.Some? ==>
      RequestOf(c, RemoveRev) == Message(
        c.reverse.value.name,
        [WireRR(rev, IN, Only(PTR), Some(Target(n.fqdn)))],
        [WireRR(rev, ANY, AnyType, None)])
  {
  }

  // ----- in the zone -----

  lemma SameRRset(y: Zone, z: Zone, n: Name, t: RRType)
    requires forall r: RR :: r.name == n && r.rtype == t ==> (r in y <==> r in z)
    ensures RRset(y, n, t) == RRset(z, n, t)
  {
  }

  /** A completed add, by types: the lease address is the only one of its type, addresses of the other
      type are as they were, and the DHCID is the client's. */
  lemma AddLeavesFamily(s: Sys, es: seq<Event>, t: RRType, o: RRType)
    requires Fresh(s) && Legal(s.zone) && Valid(s, es)
    requires |s.procs| == 1 && s.procs[0].cfg.change == CHG_ADD && s.procs[0].cfg.forward.Some?
    requires Types(s.procs[0].cfg.ncr.ip, t, o)
    ensures |Trace(s, es).procs| == 1
    ensures var n := s.procs[0].cfg.ncr; var p := Trace(s, es).procs[0].phase; var z := Trace(s, es).zone;
      p.Ended? && p.status == ST_COMPLETED ==>
        && RRset(z, n.fqdn, t) == {Address(n.ip)}
        && RRset(z, n.fqdn, o) == RRset(s.zone, n.fqdn, o)
        && RRset(z, n.fqdn, DHCID) == {Owner(n.dhcid)}
  {
    AddConverges(s, es);
    var p := Trace(s, es).procs[0].phase;
    if p.Ended? && p.status == ST_COMPLETED {
      SameRRset(Trace(s, es).zone, s.zone, s.procs[0].cfg.ncr.fqdn, o);
    }
  }

  /** The forward removal, by types: with a DHCID at the name exactly the lease address goes, and the
      DHCIDs go exactly if then neither an A nor an AAAA is left; without one nothing does. */
  lemma RemovalLeavesFamily(c: Config, z: Zone, t: RRType, o: RRType)
    requires c.change == CHG_REMOVE && c.forward.Some? && Types(c.ncr.ip, t, o)
    ensures var n, y := c.ncr, AfterForward(c, z);
      if !Has(z, n.fqdn, DHCID) then y == z
      else
        && RRset(y, n.fqdn, t) == RRset(z, n.fqdn, t) - {Address(n.ip)}
        && RRset(y, n.fqdn, o) == RRset(z, n.fqdn, o)
        && RRset(y, n.fqdn, DHCID)
           == if Has(y, n.fqdn, A) || Has(y, n.fqdn, AAAA) then RRset(z, n.fqdn, DHCID) else {}
  {
    var n, y := c.ncr, AfterForward(c, z);
    forall r: RR ensures r in y <==> r in z && (r.name == n.fqdn ==> SurvivesForward(n, z, y, r)) {
      ForwardRemovalLeaves(c, z, r);
    }
    if Has(z, n.fqdn, DHCID) {
      SameRRset(y, z, n.fqdn, o);
      LeaseGoes(z, y, n.fqdn, t, Address(n.ip));
      if Has(y, n.fqdn, A) || Has(y, n.fqdn, AAAA) {
        SameRRset(y, z, n.fqdn, DHCID);
      } else {
        assert forall r :: r in y && r.name == n.fqdn ==> r.rtype != DHCID;
      }
    } else {
      assert y == z;
    }
  }

  lemma LeaseGoes(z: Zone, y: Zone, n: Name, t: RRType, a: Rdata)
    requires forall r: RR :: r.name == n && r.rtype == t ==> (r in y <==> r in z && r != RR(n, t, a))
    ensures RRset(y, n, t) == RRset(z, n, t) - {a}
  {
    forall x | x in RRset(z, n, t) - {a} ensures x in RRset(y, n, t) {
      assert RR(n, t, x) in z && RR(n, t, x) in y;
    }
  }

  /** Round trip: the address is there in between, under its own type. */
  lemma RoundTripByFamily(s: Sys, es: seq<Event>, t: Sys, fs: seq<Event>, lease: RRType, other: RRType)
    requires Legal(s.zone) && Completes(s, es) && Completes(t, fs)
    requires t.zone == Trace(s, es).zone && SameRequest(s.procs[0].cfg, t.procs[0].cfg)
    requires s.procs[0].cfg.forward.Some? && !InUse(s.zone, s.procs[0].cfg.ncr.fqdn)
    requires s.procs[0].cfg.reverse.Some? ==> !InUse(s.zone, RevName(s.procs[0].cfg.ncr))
    requires Types(s.procs[0].cfg.ncr.ip, lease, other)
    ensures var n := s.procs[0].cfg.ncr;
      && RRset(t.zone, n.fqdn, lease) == {Address(n.ip)} && !Has(t.zone, n.fqdn, other)
      && RRset(Trace(t, fs).zone, n.fqdn, lease) == {}
  {
    var n := s.procs[0].cfg.ncr;
    AddLeavesFamily(s, es, lease, other);
    RoundTrip(s, es, t, fs);
    assert RRset(s.zone, n.fqdn, other) == {} && RRset(s.zone, n.fqdn, lease) == {};
    assert forall r :: r in t.zone && r.name == n.fqdn && r.rtype == other ==> r.rdata in RRset(t.zone, n.fqdn, other);
  }
}
