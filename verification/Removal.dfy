/**
A removal that is the only writer, and the round trip of an add and a removal.
*/
module Removal {
  import opened Common
  import opened Dns
  import opened Requests
  import opened Protocol
  import opened ZoneFacts
  import opened Network
  import opened Convergence

  /** No removal request undoes or repeats the work of another. */
  lemma RemovalSettles(c: Config, z0: Zone)
    ensures var a := Do(c, RemoveAddr, z0); var f := Do(c, RemoveRRs, a);
      && Do(c, RemoveAddr, a) == a && Do(c, RemoveAddr, f) == f && Do(c, RemoveRRs, f) == f
  {
  }

  lemma ReverseRemovalSettles(c: Config, z: Zone)
    ensures Do(c, RemoveRev, Do(c, RemoveRev, z)) == Do(c, RemoveRev, z)
    ensures Do(c, RemoveAddr, z) == z ==> Do(c, RemoveAddr, Do(c, RemoveRev, z)) == Do(c, RemoveRev, z)
    ensures Do(c, RemoveRRs, z) == z ==> Do(c, RemoveRRs, Do(c, RemoveRev, z)) == Do(c, RemoveRev, z)
  {
  }

  /** Every removal request is acceptable to the transaction on every zone, so also when it has
      already been executed; and an accepted one has done its work. */
  lemma RemovalIsAlwaysAccepted(c: Config, l: Leg, z: Zone)
    requires l in {RemoveAddr, RemoveRRs, RemoveRev}
    ensures Judge(l, Code(c, l, z)) != Reject
    ensures Judge(l, Code(c, l, Do(c, l, z))) != Reject
  {
  }

  ghost predicate Good(l: Leg, heard: set<Rcode>) {
    exists r :: r in heard && Judge(l, r) != Reject
  }

  ghost function Half(c: Config, z0: Zone): Zone {
    if c.forward.Some? then Do(c, RemoveAddr, z0) else z0
  }

  /** The zone that shows the work of a request to be done. */
  ghost function DoneBy(c: Config, l: Leg, z0: Zone): Zone {
    if l == RemoveAddr then Half(c, z0) else if l == RemoveRRs then AfterForward(c, z0) else AfterBoth(c, z0)
  }

  ghost predicate RemoveInv(z0: Zone, z: Zone, p: Proc) {
    var c := p.cfg;
    var f := AfterForward(c, z0);
    && c.change == CHG_REMOVE
    && (RemoveRev in p.sent || p.phase.fwdDone ==> z in {f, AfterBoth(c, z0)})
    && (RemoveRev !in p.sent ==> z in if RemoveRRs in p.sent then {Half(c, z0), f} else {z0, Half(c, z0)})
    && (p.phase.Waiting? && p.phase.leg == RemoveAddr ==> RemoveRRs !in p.sent)
    && (p.phase.Waiting? && Good(p.phase.leg, p.heard) ==> z == DoneBy(c, p.phase.leg, z0))
    && (p.phase.Ended? && p.phase.status == ST_COMPLETED ==> z == AfterBoth(c, z0))
  }

  lemma RemoveDeliver(z0: Zone, z: Zone, p: Proc, l: Leg)
    requires ProcOk(p) && RemoveInv(z0, z, p) && l in p.sent
    ensures RemoveInv(z0, Do(p.cfg, l, z), Delivered(p, l, Code(p.cfg, l, z)))
  {
    var c := p.cfg;
    ReverseRemovalSettles(c, AfterForward(c, z0));
    if c.forward.Some? {
      RemovalSettles(c, z0);
    }
    assert l == RemoveAddr && z in {z0, Half(c, z0)} ==> Do(c, l, z) == Half(c, z0);
  }

  lemma RemoveReceive(z0: Zone, z: Zone, p: Proc, x: Exchange)
    requires ProcOk(p) && RemoveInv(z0, z, p) && p.phase.Waiting?
    requires x.reply.Answer? ==> x.reply.rcode in p.heard
    ensures RemoveInv(z0, z, Received(p, x))
  {
    if x.reply.Answer? && Judge(p.phase.leg, x.reply.rcode) != Reject {
      assert Good(p.phase.leg, p.heard);
    }
  }

  lemma RemoveRefuse(z0: Zone, z: Zone, p: Proc, r: Rcode)
    requires ProcOk(p) && RemoveInv(z0, z, p) && p.phase.Waiting? && r !in PREREQ_RCODES
    ensures RemoveInv(z0, z, p.(heard := p.heard + {r}))
  {
    if Good(p.phase.leg, p.heard + {r}) {
      var q :| q in p.heard + {r} && Judge(p.phase.leg, q) != Reject;
      assert q in p.heard;
    }
  }

  lemma {:induction false} RemoveInvHolds(s: Sys, es: seq<Event>)
    requires Fresh(s) && Legal(s.zone) && Valid(s, es)
    requires |s.procs| == 1 && s.procs[0].cfg.change == CHG_REMOVE
    ensures |Trace(s, es).procs| == 1
    ensures RemoveInv(s.zone, Trace(s, es).zone, Trace(s, es).procs[0])
  {
    StartOk(s);
    if es != [] {
      var k := |es| - 1;
      var m := Trace(s, es[..k]);
      RemoveInvHolds(s, es[..k]);
      TraceOk(s, es[..k]);
      match es[k]
      case Deliver(_, l) =>
        ServeEffect(m.procs[0].cfg, l, m.zone);
        RemoveDeliver(s.zone, m.zone, m.procs[0], l);
      case Refuse(_, r) => RemoveRefuse(s.zone, m.zone, m.procs[0], r);
      case Receive(_, x) => RemoveReceive(s.zone, m.zone, m.procs[0], x);
    }
  }

  // ----- what a removal leaves behind -----

  predicate NoAddress(z: Zone, n: Name) { !Has(z, n, A) && !Has(z, n, AAAA) }

  /** What a completed forward removal leaves of a record at the client's name. */
  predicate SurvivesForward(n: Ncr, z0: Zone, z: Zone, r: RR) {
    Has(z0, n.fqdn, DHCID) ==> r != AddrRR(n) && (r.rtype == DHCID ==> !NoAddress(z, n.fqdn))
  }

  /** What a completed reverse removal leaves of a record at the reverse name. */
  predicate SurvivesReverse(n: Ncr, apex: Name, z0: Zone, r: RR) {
    RRset(z0, RevName(n), PTR) == {Target(n.fqdn)} ==> RevName(n) == apex && r.rtype in {SOA, NS}
  }

  lemma ForwardRemovalLeaves(c: Config, z0: Zone, r: RR)
    requires c.change == CHG_REMOVE && c.forward.Some?
    ensures var f := AfterForward(c, z0);
      r in f <==> r in z0 && (r.name == c.ncr.fqdn ==> SurvivesForward(c.ncr, z0, f, r))
  {
    var n := c.ncr;
    var a := Do(c, RemoveAddr, z0);
    var f := AfterForward(c, z0);
    assert NoAddress(f, n.fqdn) <==> NoAddress(a, n.fqdn);
    if !Has(z0, n.fqdn, DHCID) {
      assert f == z0;
    }
  }

  lemma BothRemovalsLeave(c: Config, z0: Zone, r: RR)
    requires c.change == CHG_REMOVE
    ensures var z := AfterBoth(c, z0);
      r in z <==>
        && r in z0
        && (c.forward.Some? && r.name == c.ncr.fqdn ==> SurvivesForward(c.ncr, z0, z, r))
        && (c.reverse.Some? && r.name == RevName(c.ncr) ==> SurvivesReverse(c.ncr, c.reverse.value.name, z0, r))
  {
    var f := AfterForward(c, z0);
    var z := AfterBoth(c, z0);
    ForwardKeepsPtr(c, z0);
    if c.forward.Some? {
      ForwardRemovalLeaves(c, z0, r);
    }
    if c.ncr.fqdn != RevName(c.ncr) {
      EffectElsewhere(ZoneName(c, RemoveRev), c.ncr, RemoveRev, f, c.ncr.fqdn);
      SameAddresses(f, z, c.ncr.fqdn);
    }
  }

  /** A completed removal takes out, at the client's name, exactly the lease address and, if no other
      address is left, the DHCID, provided there was a DHCID; at the reverse name everything (but the
      apex records) if the PTR set was exactly the client's name; and nothing else anywhere.
      One that is not completed has stopped after some of these steps. */
  lemma RemoveConverges(s: Sys, es: seq<Event>)
    requires Fresh(s) && Legal(s.zone) && Valid(s, es)
    requires |s.procs| == 1 && s.procs[0].cfg.change == CHG_REMOVE
    ensures |Trace(s, es).procs| == 1
    ensures var c := s.procs[0].cfg; var p := Trace(s, es).procs[0].phase; var z := Trace(s, es).zone;
      p.Ended? && p.status == ST_COMPLETED ==>
        forall r :: r in z <==>
          && r in s.zone
          && (c.forward.Some? && r.name == c.ncr.fqdn ==> SurvivesForward(c.ncr, s.zone, z, r))
          && (c.reverse.Some? && r.name == RevName(c.ncr) ==>
                SurvivesReverse(c.ncr, c.reverse.value.name, s.zone, r))
    ensures var c := s.procs[0].cfg;
      Trace(s, es).zone in {s.zone, Half(c, s.zone), AfterForward(c, s.zone), AfterBoth(c, s.zone)}
  {
    RemoveInvHolds(s, es);
    var c := s.procs[0].cfg;
    StartOk(s);
    TraceOk(s, es);
    var p := Trace(s, es).procs[0].phase;
    var z := Trace(s, es).zone;
    if p.Ended? && p.status == ST_COMPLETED {
      forall r
        ensures r in z <==>
          && r in s.zone
          && (c.forward.Some? && r.name == c.ncr.fqdn ==> SurvivesForward(c.ncr, s.zone, z, r))
          && (c.reverse.Some? && r.name == RevName(c.ncr) ==>
                SurvivesReverse(c.ncr, c.reverse.value.name, s.zone, r))
      {
        BothRemovalsLeave(c, s.zone, r);
      }
    }
  }

  lemma SameAddresses(y: Zone, z: Zone, n: Name)
    requires At(y, n) == At(z, n)
    ensures NoAddress(y, n) == NoAddress(z, n)
  {
    forall r: RR | r.name == n ensures r in y <==> r in z {
      assert r in y <==> r in At(y, n);
      assert r in z <==> r in At(z, n);
    }
  }

  lemma ForwardKeepsPtr(c: Config, z: Zone)
    requires c.change == CHG_REMOVE
    ensures RRset(AfterForward(c, z), RevName(c.ncr), PTR) == RRset(z, RevName(c.ncr), PTR)
  {
    forall r: RR | r.rtype == PTR ensures r in AfterForward(c, z) <==> r in z {
      if c.forward.Some? { ForwardRemovalLeaves(c, z, r); }
    }
  }

  // ----- round trip -----

  /** An add and a removal of the same request, with the same directions. */
  predicate SameRequest(c: Config, d: Config) {
    && c.change == CHG_ADD && d.change == CHG_REMOVE && c.ncr == d.ncr
    && c.forward.Some? == d.forward.Some? && c.reverse.Some? == d.reverse.Some?
  }

  lemma OneZoneRoundTrip(c: Config, d: Config, z: Zone)
    requires SameRequest(c, d) && (c.forward.None? || c.reverse.None?)
    requires c.forward.Some? ==> !InUse(z, c.ncr.fqdn)
    requires c.reverse.Some? ==> !InUse(z, RevName(c.ncr))
    ensures AfterBoth(d, AfterBoth(c, z)) == z
  {
    if c.reverse.Some? {
      assert AfterBoth(c, z) == z + {PtrRR(c.ncr), RevOwnerRR(c.ncr)};
    }
  }

  /** Both directions at one name: not how names are used, but it works too. */
  lemma SameNameRoundTrip(c: Config, d: Config, z: Zone)
    requires SameRequest(c, d) && c.forward.Some? && c.reverse.Some?
    requires !InUse(z, c.ncr.fqdn) && c.ncr.fqdn == RevName(c.ncr)
    ensures AfterBoth(d, AfterBoth(c, z)) == z
  {
    var n := c.ncr;
    assert AfterForward(c, z) == z + {AddrRR(n), OwnerRR(n)};
    assert AfterBoth(c, z) == z + {AddrRR(n), OwnerRR(n), PtrRR(n), RevOwnerRR(n)};
  }

  lemma BothAdded(c: Config, z: Zone)
    requires c.change == CHG_ADD && c.forward.Some? && c.reverse.Some?
    requires !InUse(z, c.ncr.fqdn) && !InUse(z, RevName(c.ncr)) && c.ncr.fqdn != RevName(c.ncr)
    ensures AfterBoth(c, z) == z + {AddrRR(c.ncr), OwnerRR(c.ncr)} + {PtrRR(c.ncr), RevOwnerRR(c.ncr)}
  {
    assert AfterForward(c, z) == z + {AddrRR(c.ncr), OwnerRR(c.ncr)};
  }

  lemma ForwardRemoved(d: Config, z: Zone)
    requires d.change == CHG_REMOVE && d.forward.Some? && !InUse(z, d.ncr.fqdn)
    ensures AfterForward(d, z + {AddrRR(d.ncr), OwnerRR(d.ncr)}) == z
  {
    var n := d.ncr;
    assert Do(d, RemoveAddr, z + {AddrRR(n), OwnerRR(n)}) == z + {OwnerRR(n)};
  }

  lemma BothZonesRoundTrip(c: Config, d: Config, z: Zone)
    requires SameRequest(c, d) && c.forward.Some? && c.reverse.Some? && c.ncr.fqdn != RevName(c.ncr)
    requires !InUse(z, c.ncr.fqdn) && !InUse(z, RevName(c.ncr))
    ensures AfterBoth(d, AfterBoth(c, z)) == z
  {
    var n := c.ncr;
    var z1 := z + {PtrRR(n), RevOwnerRR(n)};
    BothAdded(c, z);
    assert AfterBoth(c, z) == z1 + {AddrRR(n), OwnerRR(n)};
    ForwardRemoved(d, z1);
  }

  lemma ZonesRoundTrip(c: Config, d: Config, z: Zone)
    requires SameRequest(c, d)
    requires c.forward.Some? ==> !InUse(z, c.ncr.fqdn)
    requires c.reverse.Some? ==> !InUse(z, RevName(c.ncr))
    ensures AfterBoth(d, AfterBoth(c, z)) == z
  {
    if c.forward.None? || c.reverse.None? {
      OneZoneRoundTrip(c, d, z);
    } else if c.ncr.fqdn == RevName(c.ncr) {
      SameNameRoundTrip(c, d, z);
    } else {
      BothZonesRoundTrip(c, d, z);
    }
  }

  ghost predicate Completes(s: Sys, es: seq<Event>) {
    && |s.procs| == 1 && Fresh(s) && Valid(s, es)
    && |Trace(s, es).procs| == 1
    && Trace(s, es).procs[0].phase.Ended?
    && Trace(s, es).procs[0].phase.status == ST_COMPLETED
  }

  /** A completed add followed by a completed removal of the same request restores the zone exactly,
      whatever was lost, repeated or delayed of the requests of the one that is running: while the
      removal runs, no copy of the add is in flight any more. */
  lemma RoundTrip(s: Sys, es: seq<Event>, t: Sys, fs: seq<Event>)
    requires Legal(s.zone) && Completes(s, es) && Completes(t, fs)
    requires t.zone == Trace(s, es).zone && SameRequest(s.procs[0].cfg, t.procs[0].cfg)
    requires s.procs[0].cfg.forward.Some? ==> !InUse(s.zone, s.procs[0].cfg.ncr.fqdn)
    requires s.procs[0].cfg.reverse.Some? ==> !InUse(s.zone, RevName(s.procs[0].cfg.ncr))
    ensures Trace(t, fs).zone == s.zone
  {
    StartOk(s);
    TraceOk(s, es);
    AddInvHolds(s, es);
    StartOk(t);
    TraceOk(t, fs);
    RemoveInvHolds(t, fs);
    ZonesRoundTrip(s.procs[0].cfg, t.procs[0].cfg, s.zone);
  }
}
