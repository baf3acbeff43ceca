/**
A transaction that is the only writer: where the zone ends up, whatever the
network loses, repeats or delays.
*/
module Convergence {
  import opened Common
  import opened Dns
  import opened Requests
  import opened Protocol
  import opened ZoneFacts
  import opened Network

  // ----- the zones a transaction passes through -----

  function Do(c: Config, l: Leg, z: Zone): Zone { Effect(ZoneName(c, l), c.ncr, l, z).zone }

  function Code(c: Config, l: Leg, z: Zone): Rcode { Effect(ZoneName(c, l), c.ncr, l, z).rcode }

  /** The zone once the forward change is made. */
  function AfterForward(c: Config, z: Zone): Zone {
    if c.forward.None? then z
    else if c.change == CHG_REMOVE then Do(c, RemoveRRs, Do(c, RemoveAddr, z))
    else if InUse(z, c.ncr.fqdn) then Do(c, ReplaceFwd, z)
    else Do(c, AddFwd, z)
  }

  /** The zone once both changes are made. */
  function AfterBoth(c: Config, z: Zone): Zone {
    if c.reverse.None? then AfterForward(c, z) else Do(c, FirstReverse(c), AfterForward(c, z))
  }

  // ----- add -----

  lemma ForwardSettles(c: Config, l: Leg, z0: Zone, z: Zone)
    requires c.change == CHG_ADD && c.forward.Some? && (l == AddFwd || l == ReplaceFwd)
    requires z == z0 || z == AfterForward(c, z0)
    ensures Do(c, l, z) == z0 || Do(c, l, z) == AfterForward(c, z0)
    ensures z == AfterForward(c, z0) ==> Do(c, l, z) == z
    ensures Code(c, l, z) == NOERROR ==> Do(c, l, z) == AfterForward(c, z0) && Owned(Do(c, l, z), c.ncr)
  {
  }

  lemma OwnedRecords(z: Zone, n: Ncr)
    ensures Owned(z, n) <==>
      && AddrRR(n) in z && OwnerRR(n) in z
      && forall r :: r in z && r.name == n.fqdn ==>
           (r.rtype == AddressType(n.ip) ==> r == AddrRR(n)) && (r.rtype == DHCID ==> r == OwnerRR(n))
  {
    var t := AddressType(n.ip);
    if Owned(z, n) {
      assert Address(n.ip) in RRset(z, n.fqdn, t) && Owner(n.dhcid) in RRset(z, n.fqdn, DHCID);
      forall r | r in z && r.name == n.fqdn
        ensures (r.rtype == t ==> r == AddrRR(n)) && (r.rtype == DHCID ==> r == OwnerRR(n))
      {
        assert r.rtype == t ==> r.rdata in RRset(z, n.fqdn, t);
        assert r.rtype == DHCID ==> r.rdata in RRset(z, n.fqdn, DHCID);
      }
    }
  }

  /** Once the client owns the name, late copies of its forward requests change nothing, and neither
      does repeating the reverse request. */
  lemma OwnedIsStable(c: Config, l: Leg, z: Zone)
    requires l == AddFwd || l == ReplaceFwd
    requires Owned(z, c.ncr)
    ensures Do(c, l, z) == z
    ensures Owned(Do(c, ReplaceRev, z), c.ncr)
  {
    OwnedRecords(z, c.ncr);
    OwnedRecords(Do(c, ReplaceRev, z), c.ncr);
    assert InUse(z, c.ncr.fqdn) && Has(z, c.ncr.fqdn, DHCID);
  }

  lemma ReverseSettles(c: Config, z: Zone)
    ensures Do(c, ReplaceRev, Do(c, ReplaceRev, z)) == Do(c, ReplaceRev, z)
  {
  }

  ghost predicate AddInv(z0: Zone, s: Sys) {
    && |s.procs| == 1
    && s.procs[0].cfg.change == CHG_ADD
    && var p := s.procs[0];
       var c := p.cfg;
       var f := AfterForward(c, z0);
       var b := AfterBoth(c, z0);
       && (ReplaceRev in p.sent || p.phase.fwdDone ==> s.zone in {f, b} && (c.forward.Some? ==> Owned(f, c.ncr)))
       && (ReplaceRev !in p.sent ==> s.zone in {z0, f})
       && (NOERROR in p.heard && p.phase.Waiting? ==>
             if p.phase.leg == ReplaceRev then s.zone == b else s.zone == f && Owned(f, c.ncr))
       && (p.phase.Ended? && p.phase.status == ST_COMPLETED ==> s.zone == b)
  }

  lemma AddDeliver(z0: Zone, s: Sys, l: Leg)
    requires AllOk(s) && AddInv(z0, s) && Enabled(s, Deliver(0, l))
    ensures AddInv(z0, Step(s, Deliver(0, l)))
  {
    var p := s.procs[0];
    var c := p.cfg;
    var f := AfterForward(c, z0);
    ServeEffect(c, l, s.zone);
    if l == ReplaceRev {
      ReverseSettles(c, f);
    } else if ReplaceRev in p.sent || p.phase.fwdDone {
      OwnedIsStable(c, l, f);
      OwnedIsStable(c, l, Do(c, ReplaceRev, f));
    } else {
      ForwardSettles(c, l, z0, s.zone);
    }
  }

  lemma AddReceive(z0: Zone, s: Sys, x: Exchange)
    requires AllOk(s) && AddInv(z0, s) && Enabled(s, Receive(0, x))
    ensures AddInv(z0, Step(s, Receive(0, x)))
  {
  }

  lemma {:induction false} AddInvHolds(s: Sys, es: seq<Event>)
    requires Fresh(s) && Legal(s.zone) && Valid(s, es)
    requires |s.procs| == 1 && s.procs[0].cfg.change == CHG_ADD
    ensures AddInv(s.zone, Trace(s, es)) && AllOk(Trace(s, es))
  {
    StartOk(s);
    TraceOk(s, es);
    if es != [] {
      var k := |es| - 1;
      AddInvHolds(s, es[..k]);
      match es[k]
      case Deliver(_, l) => AddDeliver(s.zone, Trace(s, es[..k]), l);
      case Refuse(_, _) =>
      case Receive(_, x) => AddReceive(s.zone, Trace(s, es[..k]), x);
    }
  }

  // ----- what an add leaves behind -----

  /** The records an add with the given directions is allowed to touch. */
  predicate Concerns(c: Config, r: RR) {
    || (c.forward.Some? && r.name == c.ncr.fqdn && (r.rtype == AddressType(c.ncr.ip) || r.rtype == DHCID))
    || (c.reverse.Some? && r.name == RevName(c.ncr) && (r.rtype == PTR || r.rtype == DHCID))
  }

  ghost predicate Mapped(z: Zone, n: Ncr) {
    RRset(z, RevName(n), PTR) == {Target(n.fqdn)} && RRset(z, RevName(n), DHCID) == {Owner(n.dhcid)}
  }

  lemma AddTouchesOnlyItsOwn(c: Config, z: Zone, r: RR)
    requires c.change == CHG_ADD && !Concerns(c, r)
    ensures r in AfterForward(c, z) <==> r in z
    ensures r in AfterBoth(c, z) <==> r in z
  {
  }

  lemma ReverseMaps(c: Config, z: Zone)
    requires Legal(z)
    ensures Mapped(Do(c, ReplaceRev, z), c.ncr) <==> !Has(z, RevName(c.ncr), CNAME)
  {
    var n := c.ncr;
    var y := Do(c, ReplaceRev, z);
    if Has(z, RevName(n), CNAME) {
      assert RRset(y, RevName(n), PTR) == {};
    } else {
      assert PtrRR(n) in y && RevOwnerRR(n) in y;
      assert RRset(y, RevName(n), PTR) == {Target(n.fqdn)};
      assert RRset(y, RevName(n), DHCID) == {Owner(n.dhcid)};
    }
  }

  /** A completed add leaves exactly the client's address, DHCID and reverse mapping and touches
      nothing else; the reverse mapping is there if and only if no CNAME stood at the reverse name,
      because a server skips additions next to a CNAME and still answers NOERROR.  An add that is not
      completed has made no change, the forward change, or both changes. */
  lemma AddConverges(s: Sys, es: seq<Event>)
    requires Fresh(s) && Legal(s.zone) && Valid(s, es)
    requires |s.procs| == 1 && s.procs[0].cfg.change == CHG_ADD
    ensures |Trace(s, es).procs| == 1
    ensures var c := s.procs[0].cfg; var p := Trace(s, es).procs[0].phase; var z := Trace(s, es).zone;
      p.Ended? && p.status == ST_COMPLETED ==>
        && (c.forward.Some? ==> Owned(z, c.ncr))
        && (c.reverse.Some? ==> (Mapped(z, c.ncr) <==> !Has(s.zone, RevName(c.ncr), CNAME)))
        && (forall r :: !Concerns(c, r) ==> (r in z <==> r in s.zone))
    ensures var c := s.procs[0].cfg;
      Trace(s, es).zone in {s.zone, AfterForward(c, s.zone), AfterBoth(c, s.zone)}
  {
    AddInvHolds(s, es);
    StartOk(s);
    TraceOk(s, es);
    var c := s.procs[0].cfg;
    var p := Trace(s, es).procs[0].phase;
    if p.Ended? && p.status == ST_COMPLETED {
      var f := AfterForward(c, s.zone);
      forall r | !Concerns(c, r) ensures r in Trace(s, es).zone <==> r in s.zone {
        AddTouchesOnlyItsOwn(c, s.zone, r);
      }
      if c.forward.Some? && c.reverse.Some? { OwnedIsStable(c, AddFwd, f); }
      if c.reverse.Some? {
        ForwardKeepsCname(c, s.zone);
        ReverseMaps(c, f);
      }
    }
  }

  lemma ForwardKeepsCname(c: Config, z: Zone)
    requires c.change == CHG_ADD && Legal(z)
    ensures Legal(AfterForward(c, z))
    ensures Has(AfterForward(c, z), RevName(c.ncr), CNAME) <==> Has(z, RevName(c.ncr), CNAME)
  {
    forall r: RR | r.rtype == CNAME ensures r in AfterForward(c, z) <==> r in z {}
    EffectLegal(ZoneName(c, AddFwd), c.ncr, AddFwd, z);
    EffectLegal(ZoneName(c, ReplaceFwd), c.ncr, ReplaceFwd, z);
  }
}
