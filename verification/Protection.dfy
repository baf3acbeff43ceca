/**
What a run can never touch: names that D2 does not manage, and data that a
removal is not about.
*/
module Protection {
  import opened Common
  import opened Dns
  import opened Requests
  import opened Protocol
  import opened ZoneFacts
  import opened Network

  // ----- unmanaged names -----

  predicate Unmanaged(z: Zone, n: Name) { InUse(z, n) && !Has(z, n, DHCID) }

  /** A forward add for an unmanaged name has neither completed anything nor got as far as the reverse part. */
  ghost predicate Stuck(p: Proc) {
    && p.sent <= {AddFwd, ReplaceFwd}
    && NOERROR !in p.heard && NXDOMAIN !in p.heard
    && !p.phase.fwdDone
    && (p.phase.Ended? ==> p.phase.status == ST_FAILED && !p.phase.revDone)
  }

  predicate AddsForward(c: Config, n: Name) {
    c.change == CHG_ADD && c.forward.Some? && c.ncr.fqdn == n
  }

  ghost predicate Blocked(s: Sys, n: Name) {
    forall i :: 0 <= i < |s.procs| && AddsForward(s.procs[i].cfg, n) ==> Stuck(s.procs[i])
  }

  /** The requests that change an unmanaged name: it is the reverse name of the request, and nothing
      stands in its way. */
  predicate Overwrites(m: Ncr, l: Leg, z: Zone, n: Name) {
    && RevName(m) == n
    && ((l == ReplaceRev && !Has(z, n, CNAME)) || (l == RemoveRev && RRset(z, n, PTR) == {Target(m.fqdn)}))
  }

  lemma UnmanagedEffect(zone: Name, m: Ncr, l: Leg, z: Zone, n: Name)
    requires Unmanaged(z, n)
    ensures At(Effect(zone, m, l, z).zone, n) == At(z, n) <==> !Overwrites(m, l, z, n)
    ensures m.fqdn == n && (l == AddFwd || l == ReplaceFwd) ==>
      Effect(zone, m, l, z).rcode in {YXDOMAIN, NXRRSET}
  {
    var y := Effect(zone, m, l, z).zone;
    if Overwrites(m, l, z, n) {
      if l == ReplaceRev {
        assert RevOwnerRR(m) in At(y, n) && RevOwnerRR(m) !in At(z, n);
      } else {
        assert Target(m.fqdn) in RRset(z, n, PTR);
        assert PtrRR(m) in At(z, n) && PtrRR(m) !in At(y, n);
      }
    } else if m.fqdn == n && l == RemoveRRs {
      assert DeleteRRset(z, n, DHCID) == z;
    }
  }

  lemma AtDecides(z: Zone, y: Zone, n: Name)
    requires At(z, n) == At(y, n)
    ensures Unmanaged(z, n) == Unmanaged(y, n)
  {
    forall r: RR | r.name == n ensures r in z <==> r in y {
      assert r in z <==> r in At(z, n);
      assert r in y <==> r in At(y, n);
    }
  }

  lemma StuckReceive(p: Proc, x: Exchange)
    requires ProcOk(p) && Stuck(p) && p.phase.Waiting? && p.cfg.change == CHG_ADD && p.cfg.forward.Some?
    requires x.reply.Answer? ==> x.reply.rcode in p.heard
    ensures Stuck(Received(p, x))
  {
  }

  ghost predicate AlwaysKept(s: Sys, es: seq<Event>, n: Name)
    requires Valid(s, es)
  {
    At(Trace(s, es).zone, n) == At(s.zone, n) && (es != [] ==> AlwaysKept(s, es[..|es| - 1], n))
  }

  predicate Spares(s: Sys, e: Event, n: Name) {
    e.Deliver? && e.i < |s.procs| ==> !Overwrites(s.procs[e.i].cfg.ncr, e.leg, s.zone, n)
  }

  lemma OverwritesBy(m: Ncr, l: Leg, z: Zone, y: Zone, n: Name)
    requires At(z, n) == At(y, n)
    ensures Overwrites(m, l, z, n) == Overwrites(m, l, y, n)
  {
    forall r: RR | r.name == n ensures r in z <==> r in y {
      assert r in z <==> r in At(z, n);
      assert r in y <==> r in At(y, n);
    }
    assert RRset(z, n, PTR) == RRset(y, n, PTR);
  }

  /** A name in use without a DHCID keeps all its records at every point of a run exactly if no request
      of the run has it as a reverse name that it can overwrite; and then every forward add for the
      name ends as failed without having sent a reverse update. */
  lemma {:induction false} UnmanagedNamesAreProtected(s: Sys, es: seq<Event>, n: Name)
    requires Fresh(s) && Legal(s.zone) && Valid(s, es) && Unmanaged(s.zone, n)
    ensures AlwaysKept(s, es, n) <==> forall e :: e in es ==> Spares(s, e, n)
    ensures AlwaysKept(s, es, n) ==> Blocked(Trace(s, es), n)
  {
    StartOk(s);
    if es != [] {
      var init, e := es[..|es| - 1], es[|es| - 1];
      assert es == init + [e];
      UnmanagedNamesAreProtected(s, init, n);
      TraceOk(s, init);
      if AlwaysKept(s, init, n) {
        ProtectedOn(s, Trace(s, init), e, n);
      }
    }
  }

  lemma ProtectedOn(s: Sys, m: Sys, e: Event, n: Name)
    requires AllOk(m) && Enabled(m, e) && Unmanaged(s.zone, n) && At(m.zone, n) == At(s.zone, n)
    requires |m.procs| == |s.procs| && m.procs[e.i].cfg == s.procs[e.i].cfg
    requires Blocked(m, n)
    ensures At(Step(m, e).zone, n) == At(s.zone, n) <==> Spares(s, e, n)
    ensures Blocked(Step(m, e), n)
  {
    var p := m.procs[e.i];
    AtDecides(m.zone, s.zone, n);
    if e.Deliver? {
      ServeEffect(p.cfg, e.leg, m.zone);
      UnmanagedEffect(ZoneName(p.cfg, e.leg), p.cfg.ncr, e.leg, m.zone, n);
      OverwritesBy(p.cfg.ncr, e.leg, m.zone, s.zone, n);
    } else if e.Receive? && AddsForward(p.cfg, n) {
      StuckReceive(p, e.x);
    }
  }

  // ----- late removals -----

  /** The only records a removal request may take out of a zone. */
  ghost predicate MayRemove(n: Ncr, before: Zone, after: Zone, r: RR) {
    || r == AddrRR(n)
    || (r.name == n.fqdn && r.rtype == DHCID && !Has(after, n.fqdn, A) && !Has(after, n.fqdn, AAAA))
    || (r.name == RevName(n) && RRset(before, RevName(n), PTR) == {Target(n.fqdn)})
  }

  /** At any point of any interleaving, a removal adds nothing and takes out only what it may. */
  lemma LateRemovalsAreHarmless(s: Sys, i: nat, l: Leg)
    requires AllOk(s) && Enabled(s, Deliver(i, l)) && s.procs[i].cfg.change == CHG_REMOVE
    ensures var after := Step(s, Deliver(i, l)).zone;
      && after <= s.zone
      && forall r :: r in s.zone && r !in after ==> MayRemove(s.procs[i].cfg.ncr, s.zone, after, r)
  {
    ServeEffect(s.procs[i].cfg, l, s.zone);
  }

  /** What a set of removals, taken together, may have taken out of a zone. */
  ghost predicate Accounted(s: Sys, now: Zone, r: RR) {
    exists i :: 0 <= i < |s.procs| && MayRemove(s.procs[i].cfg.ncr, s.zone, now, r)
  }

  /** However many removals run, and however late their requests arrive: nothing is added, and every
      record that disappears is accounted for by one of them, judged by the zone as it was at the start. */
  lemma {:induction false} RemovalsTakeOnlyTheirOwn(s: Sys, es: seq<Event>)
    requires AllOk(s) && Valid(s, es)
    requires forall i :: 0 <= i < |s.procs| ==> s.procs[i].cfg.change == CHG_REMOVE
    ensures Trace(s, es).zone <= s.zone
    ensures forall n :: RRset(Trace(s, es).zone, n, PTR) in {RRset(s.zone, n, PTR), {}}
    ensures forall r :: r in s.zone && r !in Trace(s, es).zone ==> Accounted(s, Trace(s, es).zone, r)
  {
    if es != [] {
      var init, e := es[..|es| - 1], es[|es| - 1];
      var m, t := Trace(s, init), Trace(s, es);
      RemovalsTakeOnlyTheirOwn(s, init);
      TraceOk(s, init);
      if e.Deliver? {
        var c := m.procs[e.i].cfg;
        LateRemovalsAreHarmless(m, e.i, e.leg);
        PtrAllOrNothing(m, e.i, e.leg);
        forall r | r in s.zone && r !in t.zone
          ensures Accounted(s, t.zone, r)
        {
          if r in m.zone {
            assert MayRemove(s.procs[e.i].cfg.ncr, s.zone, t.zone, r);
          } else {
            var i :| 0 <= i < |s.procs| && MayRemove(s.procs[i].cfg.ncr, s.zone, m.zone, r);
            assert MayRemove(s.procs[i].cfg.ncr, s.zone, t.zone, r);
          }
        }
      }
    }
  }

  lemma PtrAllOrNothing(s: Sys, i: nat, l: Leg)
    requires AllOk(s) && Enabled(s, Deliver(i, l)) && s.procs[i].cfg.change == CHG_REMOVE
    ensures var after := Step(s, Deliver(i, l)).zone;
      forall n :: RRset(after, n, PTR) in {RRset(s.zone, n, PTR), {}}
  {
    var c := s.procs[i].cfg;
    ServeEffect(c, l, s.zone);
    var after := Step(s, Deliver(i, l)).zone;
    forall n
      ensures RRset(after, n, PTR) in {RRset(s.zone, n, PTR), {}}
    {
      if l == RemoveRev && n == RevName(c.ncr) && after != s.zone {
        assert RRset(after, n, PTR) == {};
      } else {
        assert RRset(after, n, PTR) == RRset(s.zone, n, PTR);
      }
    }
  }
}
