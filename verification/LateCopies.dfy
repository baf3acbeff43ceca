/**
A removal with copies of the add still in flight: when the round trip restores
the zone, and when it need not.
*/
module LateCopies {
  import opened Common
  import opened Dns
  import opened Requests
  import opened Protocol
  import opened ZoneFacts
  import opened Network
  import opened Convergence
  import opened Removal
  import opened Progress

  /** An add of c on unused names of z has completed, and its removal d starts while copies of the
      requests in F may still arrive. */
  ghost predicate Setting(c: Config, d: Config, z: Zone, F: set<Leg>) {
    && SameRequest(c, d) && HasDomain(c) && Legal(z)
    && (c.forward.Some? ==> !InUse(z, c.ncr.fqdn)) && (c.reverse.Some? ==> !InUse(z, RevName(c.ncr)))
    && Reachable(d.forward) && Reachable(d.reverse)
    && forall l :: l in F ==> LegFits(c, l) && DomainOf(c, l).Some?
  }

  function Added(c: Config, F: set<Leg>): Proc {
    Proc(c, Ended(ST_COMPLETED, false, c.forward.Some?, c.reverse.Some?), F, {})
  }

  function Both(c: Config, d: Config, z: Zone, F: set<Leg>): Sys {
    Sys(AfterBoth(c, z), [Added(c, F), Start(d, NoFault)])
  }

  ghost predicate Removed(s: Sys) {
    |s.procs| == 2 && s.procs[1].phase.Ended? && s.procs[1].phase.status == ST_COMPLETED
  }

  /** Every run in which the removal completes has the zone as it was before the add. */
  ghost predicate AlwaysRestores(c: Config, d: Config, z: Zone, F: set<Leg>) {
    forall es :: Valid(Both(c, d, z, F), es) && Removed(Trace(Both(c, d, z, F), es)) ==>
      Trace(Both(c, d, z, F), es).zone == z
  }

  /** Copies that cannot do harm: none at all; or, if both directions are at one and the same name,
      those of the replace, because the removal of the reverse name then takes out everything. */
  predicate Harmless(c: Config, F: set<Leg>) {
    F == {} || (F == {ReplaceFwd} && c.reverse.Some? && c.ncr.fqdn == RevName(c.ncr))
  }

  lemma BothOk(c: Config, d: Config, z: Zone, F: set<Leg>)
    requires Setting(c, d, z, F)
    ensures AllOk(Both(c, d, z, F))
  {
    var f := AfterForward(c, z);
    ForwardKeepsCname(c, z);
    EffectLegal(ZoneName(c, ReplaceRev), c.ncr, ReplaceRev, f);
    RunConsistent(d, NoFault, []);
  }

  /** This is how a completed add leaves things, F being the requests it has sent; copies die out in time. */
  lemma AddLeavesCopies(s: Sys, es: seq<Event>)
    requires Legal(s.zone) && Completes(s, es) && s.procs[0].cfg.change == CHG_ADD
    ensures var c := s.procs[0].cfg;
      Trace(s, es) == Sys(AfterBoth(c, s.zone), [Added(c, Trace(s, es).procs[0].sent)])
  {
    StartOk(s);
    TraceOk(s, es);
    AddInvHolds(s, es);
  }

  // ----- no copies -----

  lemma {:induction false} AloneInv(c: Config, d: Config, z: Zone, es: seq<Event>)
    requires Setting(c, d, z, {}) && Valid(Both(c, d, z, {}), es)
    ensures var s := Both(c, d, z, {}); var t := Trace(s, es);
      && AllOk(t) && |t.procs| == 2 && t.procs[0] == Added(c, {}) && t.procs[1].cfg == d
      && RemoveInv(s.zone, t.zone, t.procs[1])
  {
    var s := Both(c, d, z, {});
    BothOk(c, d, z, {});
    TraceOk(s, es);
    if es != [] {
      var k := |es| - 1;
      var m := Trace(s, es[..k]);
      AloneInv(c, d, z, es[..k]);
      AloneEvent(c, d, s.zone, m, es[k]);
    } else {
      AloneStarts(d, s.zone);
    }
  }

  lemma AloneStarts(d: Config, z0: Zone)
    requires d.change == CHG_REMOVE && HasDomain(d)
    ensures RemoveInv(z0, z0, Start(d, NoFault))
  {
  }

  lemma AloneEvent(c: Config, d: Config, z0: Zone, m: Sys, e: Event)
    requires AllOk(m) && |m.procs| == 2 && Enabled(m, e)
    requires m.procs[0] == Added(c, {}) && m.procs[1].cfg == d && RemoveInv(z0, m.zone, m.procs[1])
    ensures var t := Step(m, e);
      |t.procs| == 2 && t.procs[0] == m.procs[0] && t.procs[1].cfg == d && RemoveInv(z0, t.zone, t.procs[1])
  {
    match e
    case Deliver(_, l) =>
      ServeEffect(d, l, m.zone);
      RemoveDeliver(z0, m.zone, m.procs[1], l);
    case Refuse(_, r) => RemoveRefuse(z0, m.zone, m.procs[1], r);
    case Receive(_, x) => RemoveReceive(z0, m.zone, m.procs[1], x);
  }

  lemma NoCopiesRestore(c: Config, d: Config, z: Zone)
    requires Setting(c, d, z, {})
    ensures AlwaysRestores(c, d, z, {})
  {
    forall es | Valid(Both(c, d, z, {}), es) && Removed(Trace(Both(c, d, z, {}), es))
      ensures Trace(Both(c, d, z, {}), es).zone == z
    {
      AloneInv(c, d, z, es);
      ZonesRoundTrip(c, d, z);
    }
  }

  // ----- copies of the replace where both directions are at one name -----

  function Full(n: Ncr, z: Zone): Zone { z + {AddrRR(n), OwnerRR(n), PtrRR(n)} }

  function Stripped(n: Ncr, z: Zone): Zone { z + {OwnerRR(n), PtrRR(n)} }

  function Bare(n: Ncr, z: Zone): Zone { z + {PtrRR(n)} }

  ghost predicate OneName(c: Config, z: Zone) {
    c.forward.Some? && c.reverse.Some? && c.ncr.fqdn == RevName(c.ncr) && !InUse(z, c.ncr.fqdn)
  }

  /** The zone is at one of its stages, a request keeps it so, and once it is restored it stays so. */
  ghost predicate Staged(n: Ncr, z: Zone, y: Zone) { y in {Full(n, z), Stripped(n, z), Bare(n, z), z} }

  lemma ForwardStage(c: Config, z: Zone, y: Zone, l: Leg)
    requires OneName(c, z) && Staged(c.ncr, z, y) && l in {RemoveAddr, RemoveRRs, ReplaceFwd}
    ensures Staged(c.ncr, z, Do(c, l, y)) && (y == z ==> Do(c, l, y) == z)
  {
    var n := c.ncr;
    assert OwnerRR(n) in Full(n, z) && OwnerRR(n) in Stripped(n, z) && AddrRR(n) in Full(n, z);
    if l == RemoveAddr {
      assert Full(n, z) - {AddrRR(n)} == Stripped(n, z) && Stripped(n, z) - {AddrRR(n)} == Stripped(n, z);
    } else if l == RemoveRRs {
      assert DeleteRRset(Stripped(n, z), n.fqdn, DHCID) == Bare(n, z);
      assert DeleteRRset(Bare(n, z), n.fqdn, DHCID) == Bare(n, z);
      assert DeleteRRset(z, n.fqdn, DHCID) == z;
    } else {
      assert ReplaceTwo(Full(n, z), n.fqdn, AddressType(n.ip), DHCID, {AddrRR(n), OwnerRR(n)}) == Full(n, z);
      assert ReplaceTwo(Stripped(n, z), n.fqdn, AddressType(n.ip), DHCID, {AddrRR(n), OwnerRR(n)}) == Full(n, z);
    }
  }

  lemma ReverseStage(c: Config, z: Zone, y: Zone)
    requires OneName(c, z) && Staged(c.ncr, z, y)
    ensures Do(c, RemoveRev, y) == z
  {
    var n := c.ncr;
    if y == z {
      assert Code(c, RemoveRev, y) == NXRRSET || Do(c, RemoveRev, y) == z;
    } else {
      assert PtrRR(n) in y;
      assert RRset(y, RevName(n), PTR) == {Target(n.fqdn)};
      assert DeleteName(y, RevName(n), ZoneName(c, RemoveRev)) == z;
    }
  }

  ghost predicate OneNameInv(z: Zone, y: Zone, p: Proc) {
    && p.cfg.change == CHG_REMOVE && Staged(p.cfg.ncr, z, y)
    && (p.phase.Waiting? && p.phase.leg == RemoveRev && Good(RemoveRev, p.heard) ==> y == z)
    && (p.phase.Ended? && p.phase.status == ST_COMPLETED ==> y == z)
  }

  lemma OneNameDeliver(z: Zone, y: Zone, p: Proc, l: Leg)
    requires ProcOk(p) && OneNameInv(z, y, p) && OneName(p.cfg, z) && l in p.sent
    ensures OneNameInv(z, Do(p.cfg, l, y), Delivered(p, l, Code(p.cfg, l, y)))
  {
    if l == RemoveRev {
      ReverseStage(p.cfg, z, y);
    } else {
      ForwardStage(p.cfg, z, y, l);
    }
  }

  lemma OneNameReceive(z: Zone, y: Zone, p: Proc, x: Exchange)
    requires ProcOk(p) && OneNameInv(z, y, p) && OneName(p.cfg, z) && p.phase.Waiting?
    requires x.reply.Answer? ==> x.reply.rcode in p.heard
    ensures OneNameInv(z, y, Received(p, x))
  {
    if p.phase.leg == RemoveRev && x.reply.Answer? && Judge(RemoveRev, x.reply.rcode) != Reject {
      assert Good(RemoveRev, p.heard);
    }
  }

  lemma OneNameRefuse(z: Zone, y: Zone, p: Proc, r: Rcode)
    requires ProcOk(p) && OneNameInv(z, y, p) && p.phase.Waiting? && r !in PREREQ_RCODES
    ensures OneNameInv(z, y, p.(heard := p.heard + {r}))
  {
    if Good(RemoveRev, p.heard + {r}) {
      var q :| q in p.heard + {r} && Judge(RemoveRev, q) != Reject;
      assert q in p.heard;
    }
  }

  lemma {:induction false} OneNameHolds(c: Config, d: Config, z: Zone, es: seq<Event>)
    requires Setting(c, d, z, {ReplaceFwd}) && OneName(c, z) && Valid(Both(c, d, z, {ReplaceFwd}), es)
    ensures var t := Trace(Both(c, d, z, {ReplaceFwd}), es);
      && AllOk(t) && |t.procs| == 2 && t.procs[0] == Added(c, {ReplaceFwd}) && t.procs[1].cfg == d
      && OneNameInv(z, t.zone, t.procs[1])
  {
    var s := Both(c, d, z, {ReplaceFwd});
    BothOk(c, d, z, {ReplaceFwd});
    TraceOk(s, es);
    if es == [] {
      OneNameStarts(c, d, z);
    } else {
      var k := |es| - 1;
      var m := Trace(s, es[..k]);
      OneNameHolds(c, d, z, es[..k]);
      OneNameEvent(c, d, z, m, es[k]);
    }
  }

  lemma OneNameStarts(c: Config, d: Config, z: Zone)
    requires Setting(c, d, z, {ReplaceFwd}) && OneName(c, z)
    ensures OneNameInv(z, AfterBoth(c, z), Start(d, NoFault))
  {
    var n := c.ncr;
    assert AfterForward(c, z) == z + {AddrRR(n), OwnerRR(n)};
    assert AfterBoth(c, z) == Full(n, z);
  }

  lemma OneNameEvent(c: Config, d: Config, z: Zone, m: Sys, e: Event)
    requires SameRequest(c, d) && OneName(c, z) && AllOk(m) && |m.procs| == 2 && Enabled(m, e)
    requires m.procs[0] == Added(c, {ReplaceFwd}) && m.procs[1].cfg == d && OneNameInv(z, m.zone, m.procs[1])
    ensures var t := Step(m, e);
      |t.procs| == 2 && t.procs[0] == m.procs[0] && t.procs[1].cfg == d && OneNameInv(z, t.zone, t.procs[1])
  {
    match e
    case Deliver(i, l) =>
      ServeEffect(m.procs[i].cfg, l, m.zone);
      if i == 0 {
        ForwardStage(c, z, m.zone, l);
      } else {
        OneNameDeliver(z, m.zone, m.procs[1], l);
      }
    case Refuse(_, r) => OneNameRefuse(z, m.zone, m.procs[1], r);
    case Receive(_, x) => OneNameReceive(z, m.zone, m.procs[1], x);
  }

  lemma HarmlessRestores(c: Config, d: Config, z: Zone, F: set<Leg>)
    requires Setting(c, d, z, F) && Harmless(c, F)
    ensures AlwaysRestores(c, d, z, F)
  {
    if F == {} {
      NoCopiesRestore(c, d, z);
    } else {
      assert ReplaceFwd in F;
      forall es | Valid(Both(c, d, z, F), es) && Removed(Trace(Both(c, d, z, F), es))
        ensures Trace(Both(c, d, z, F), es).zone == z
      {
        OneNameHolds(c, d, z, es);
      }
    }
  }

  // ----- every other copy does harm in some run -----

  /** What the rest of a removal makes of a zone, its requests executed and answered one by one. */
  function Rest(d: Config, l: Leg, z: Zone): Zone {
    match l
    case RemoveAddr =>
      var f := Do(d, RemoveRRs, Do(d, RemoveAddr, z));
      if d.reverse.Some? then Do(d, RemoveRev, f) else f
    case RemoveRRs =>
      var f := Do(d, RemoveRRs, z);
      if d.reverse.Some? then Do(d, RemoveRev, f) else f
    case _ => Do(d, RemoveRev, z)
  }

  ghost predicate Running(d: Config, m: Sys) {
    && AllOk(m) && |m.procs| == 2 && m.procs[1].cfg == d && d.change == CHG_REMOVE
    && m.procs[1].phase.Waiting? && Reachable(d.reverse)
  }

  /** One more answered request of the removal. */
  lemma AnswerOne(s: Sys, es: seq<Event>, m: Sys, d: Config) returns (fs: seq<Event>, t: Sys)
    requires Valid(s, es) && Trace(s, es) == m && Running(d, m)
    ensures Valid(s, fs) && Trace(s, fs) == t && AllOk(t) && |t.procs| == 2 && t.procs[0] == m.procs[0]
    ensures var p := m.procs[1].phase;
      && t.zone == Do(d, p.leg, m.zone) && t.procs[1].cfg == d
      && t.procs[1].phase == Next(d, p, Answer(Code(d, p.leg, m.zone)), NoFault)
  {
    fs, t := Exchanged(s, es, m, 1);
  }

  lemma AnswerReverse(s: Sys, es: seq<Event>, m: Sys, d: Config) returns (fs: seq<Event>, t: Sys)
    requires Valid(s, es) && Trace(s, es) == m && Running(d, m) && m.procs[1].phase.leg == RemoveRev
    ensures Valid(s, fs) && Trace(s, fs) == t && Removed(t) && AllOk(t)
    ensures t.procs[0] == m.procs[0] && t.zone == Rest(d, RemoveRev, m.zone)
  {
    RemovalIsAlwaysAccepted(d, RemoveRev, m.zone);
    fs, t := AnswerOne(s, es, m, d);
  }

  lemma AnswerSecond(s: Sys, es: seq<Event>, m: Sys, d: Config) returns (fs: seq<Event>, t: Sys)
    requires Valid(s, es) && Trace(s, es) == m && Running(d, m) && m.procs[1].phase.leg == RemoveRRs
    ensures Valid(s, fs) && Trace(s, fs) == t && Removed(t) && AllOk(t)
    ensures t.procs[0] == m.procs[0] && t.zone == Rest(d, RemoveRRs, m.zone)
  {
    RemovalIsAlwaysAccepted(d, RemoveRRs, m.zone);
    fs, t := AnswerOne(s, es, m, d);
    if d.reverse.Some? {
      fs, t := AnswerReverse(s, fs, t, d);
    }
  }

  lemma AnswerFirst(s: Sys, es: seq<Event>, m: Sys, d: Config) returns (fs: seq<Event>, t: Sys)
    requires Valid(s, es) && Trace(s, es) == m && Running(d, m) && m.procs[1].phase.leg == RemoveAddr
    ensures Valid(s, fs) && Trace(s, fs) == t && Running(d, t) && t.procs[1].phase.leg == RemoveRRs
    ensures t.procs[0] == m.procs[0] && t.zone == Do(d, RemoveAddr, m.zone)
  {
    RemovalIsAlwaysAccepted(d, RemoveAddr, m.zone);
    fs, t := AnswerOne(s, es, m, d);
  }

  /** The removal with every request answered, and then a late copy of an add or reverse request. */
  lemma CopyAfterwards(c: Config, d: Config, z: Zone, F: set<Leg>, l: Leg)
    requires Setting(c, d, z, F) && l in F && l in {AddFwd, ReplaceRev}
    ensures !AlwaysRestores(c, d, z, F)
  {
    var s := Both(c, d, z, F);
    BothOk(c, d, z, F);
    var es, m := [], s;
    if d.forward.Some? {
      es, m := AnswerFirst(s, es, m, d);
      es, m := AnswerSecond(s, es, m, d);
    } else {
      es, m := AnswerReverse(s, es, m, d);
    }
    ZonesRoundTrip(c, d, z);
    assert m.zone == z;
    es, m := LateDelivery(s, es, m, l);
    CopyShows(c, z, l);
  }

  lemma CopyShows(c: Config, z: Zone, l: Leg)
    requires l in {AddFwd, ReplaceRev}
    requires (l == AddFwd ==> !InUse(z, c.ncr.fqdn)) && (l == ReplaceRev ==> !InUse(z, RevName(c.ncr)))
    ensures Do(c, l, z) != z
  {
    if l == AddFwd {
      assert AddrRR(c.ncr) in Do(c, l, z) && AddrRR(c.ncr) !in z;
    } else {
      assert PtrRR(c.ncr) in Do(c, l, z) && PtrRR(c.ncr) !in z;
    }
  }

  /** A copy of the replace between the two forward removals brings the address back, which the
      second one then takes for somebody else's. */
  lemma CopyBetween(c: Config, d: Config, z: Zone, F: set<Leg>)
    requires Setting(c, d, z, F) && ReplaceFwd in F && !(c.reverse.Some? && c.ncr.fqdn == RevName(c.ncr))
    ensures !AlwaysRestores(c, d, z, F)
  {
    var s := Both(c, d, z, F);
    BothOk(c, d, z, F);
    var es, m := AnswerFirst(s, [], s, d);
    es, m := LateDelivery(s, es, m, ReplaceFwd);
    es, m := AnswerSecond(s, es, m, d);
    AddressSurvives(c, d, z);
  }

  lemma AddressSurvives(c: Config, d: Config, z: Zone)
    requires SameRequest(c, d) && c.forward.Some? && !InUse(z, c.ncr.fqdn)
    requires c.reverse.Some? ==> c.ncr.fqdn != RevName(c.ncr)
    ensures var y := Do(c, ReplaceFwd, Do(d, RemoveAddr, AfterBoth(c, z)));
      AddrRR(c.ncr) in Rest(d, RemoveRRs, y) && AddrRR(c.ncr) !in z
  {
    var n := c.ncr;
    var a := AfterBoth(c, z);
    assert OwnerRR(n) in AfterForward(c, z) && OwnerRR(n) in a;
    var h := Do(d, RemoveAddr, a);
    assert OwnerRR(n) in h;
    assert AddrRR(n) in Do(c, ReplaceFwd, h);
  }

  /** The round trip holds in every run in which the removal completes if and only if no copy of the
      add is in flight when the removal starts, but for the replace where both directions are at one
      and the same name. */
  lemma RoundTripIff(c: Config, d: Config, z: Zone, F: set<Leg>)
    requires Setting(c, d, z, F)
    ensures AlwaysRestores(c, d, z, F) <==> Harmless(c, F)
  {
    if Harmless(c, F) {
      HarmlessRestores(c, d, z, F);
    } else if AddFwd in F {
      CopyAfterwards(c, d, z, F, AddFwd);
    } else if ReplaceRev in F {
      CopyAfterwards(c, d, z, F, ReplaceRev);
    } else {
      assert F == {ReplaceFwd};
      CopyBetween(c, d, z, F);
    }
  }
}
