/**
Any number of transactions working on one zone through an unreliable network.

Requests travel by UDP: a copy of a request may be lost, duplicated, or arrive
long after the sender gave it up, and a reply may be lost after the server has
executed the request.  A server may also refuse a request without executing it.
*/
module Network {
  import opened Common
  import opened Dns
  import opened Requests
  import opened Protocol
  import opened ZoneFacts

  /** A transaction in the network: `sent` are the requests of which copies may still arrive,
      `heard` the answers the server has given since the outstanding request was sent. */
  datatype Proc = Proc(cfg: Config, phase: Phase, sent: set<Leg>, heard: set<Rcode>)

  datatype Sys = Sys(zone: Zone, procs: seq<Proc>)

  datatype Event =
    | Deliver(i: nat, leg: Leg)
    | Refuse(i: nat, rcode: Rcode)
    | Receive(i: nat, x: Exchange)

  function Outstanding(p: Phase): set<Leg> {
    if p.Waiting? then {p.leg} else {}
  }

  function Start(c: Config, f: Fault): Proc {
    Proc(c, First(c, f), Outstanding(First(c, f)), {})
  }

  function Serve(c: Config, l: Leg, z: Zone): Outcome {
    Process(z, RequestOf(c, l))
  }

  const PREREQ_RCODES: set<Rcode> := {NOERROR, YXDOMAIN, NXDOMAIN, YXRRSET, NXRRSET}

  predicate Enabled(s: Sys, e: Event) {
    e.i < |s.procs| &&
    var p := s.procs[e.i];
    match e
    case Deliver(_, l) => l in p.sent
    case Refuse(_, r) => p.phase.Waiting? && r !in PREREQ_RCODES
    case Receive(_, x) => p.phase.Waiting? && (x.reply.Answer? ==> x.reply.rcode in p.heard)
  }

  function Delivered(p: Proc, l: Leg, r: Rcode): Proc {
    if p.phase.Waiting? && p.phase.leg == l then p.(heard := p.heard + {r}) else p
  }

  function Received(p: Proc, x: Exchange): Proc {
    var q := Next(p.cfg, p.phase, x.reply, x.fault);
    Proc(p.cfg, q, p.sent + Outstanding(q), {})
  }

  function Step(s: Sys, e: Event): Sys
    requires Enabled(s, e)
  {
    var p := s.procs[e.i];
    match e
    case Deliver(i, l) =>
      var o := Serve(p.cfg, l, s.zone);
      Sys(o.zone, s.procs[i := Delivered(p, l, o.rcode)])
    case Refuse(i, r) => s.(procs := s.procs[i := p.(heard := p.heard + {r})])
    case Receive(i, x) => s.(procs := s.procs[i := Received(p, x)])
  }

  ghost predicate Valid(s: Sys, es: seq<Event>)
    decreases |es|, 0
  {
    es == [] ||
    (Valid(s, es[..|es| - 1]) && Enabled(Trace(s, es[..|es| - 1]), es[|es| - 1]))
  }

  /** The state a system is in after a list of events. */
  ghost function Trace(s: Sys, es: seq<Event>): Sys
    requires Valid(s, es)
    decreases |es|, 1
  {
    if es == [] then s else Step(Trace(s, es[..|es| - 1]), es[|es| - 1])
  }

  /** Freshly started transactions. */
  ghost predicate Fresh(s: Sys) {
    forall i :: 0 <= i < |s.procs| ==> exists f :: s.procs[i] == Start(s.procs[i].cfg, f)
  }

  // ----- what every transaction keeps -----

  ghost predicate ProcOk(p: Proc) {
    && Consistent(p.cfg, p.phase)
    && (forall l :: l in p.sent ==> LegFits(p.cfg, l) && DomainOf(p.cfg, l).Some?)
    && (p.phase.Waiting? ==> p.phase.leg in p.sent)
    && (p.phase.Ended? ==> p.heard == {})
    && (p.cfg.forward.Some? && FirstReverse(p.cfg) in p.sent ==> p.phase.fwdDone)
  }

  ghost predicate AllOk(s: Sys) {
    Legal(s.zone) && forall i :: 0 <= i < |s.procs| ==> ProcOk(s.procs[i])
  }

  lemma ServeEffect(c: Config, l: Leg, z: Zone)
    requires Legal(z)
    ensures Serve(c, l, z) == Effect(ZoneName(c, l), c.ncr, l, z)
    ensures Legal(Serve(c, l, z).zone)
  {
    MessageEffect(ZoneName(c, l), c.ncr, l, z);
    EffectLegal(ZoneName(c, l), c.ncr, l, z);
  }

  lemma StartOk(s: Sys)
    requires Fresh(s) && Legal(s.zone)
    ensures AllOk(s)
  {
    forall i | 0 <= i < |s.procs|
      ensures ProcOk(s.procs[i])
    {
      var f :| s.procs[i] == Start(s.procs[i].cfg, f);
      RunConsistent(s.procs[i].cfg, f, []);
    }
  }

  lemma StepOk(s: Sys, e: Event)
    requires AllOk(s) && Enabled(s, e)
    ensures AllOk(Step(s, e))
  {
    if e.Receive? {
      NextConsistent(s.procs[e.i].cfg, s.procs[e.i].phase, e.x);
    } else if e.Deliver? {
      ServeEffect(s.procs[e.i].cfg, e.leg, s.zone);
    }
  }

  lemma {:induction false} TraceOk(s: Sys, es: seq<Event>)
    requires AllOk(s) && Valid(s, es)
    ensures AllOk(Trace(s, es))
    ensures |Trace(s, es).procs| == |s.procs|
    ensures forall i :: 0 <= i < |s.procs| ==> Trace(s, es).procs[i].cfg == s.procs[i].cfg
  {
    if es != [] {
      TraceOk(s, es[..|es| - 1]);
      StepOk(Trace(s, es[..|es| - 1]), es[|es| - 1]);
    }
  }

  // ----- interleaving safety -----

  /** Whatever transactions interleave, and whatever the network loses or delays, an address never
      stands at a name without a DHCID. */
  lemma {:induction false} AddressesStayGuarded(s: Sys, es: seq<Event>, n: Name)
    requires AllOk(s) && Valid(s, es)
    requires Guarded(s.zone, n)
    ensures Guarded(Trace(s, es).zone, n)
  {
    if es != [] {
      var init, e := es[..|es| - 1], es[|es| - 1];
      var m := Trace(s, init);
      AddressesStayGuarded(s, init, n);
      TraceOk(s, init);
      if e.Deliver? {
        var c := m.procs[e.i].cfg;
        ServeEffect(c, e.leg, m.zone);
        EffectGuarded(ZoneName(c, e.leg), c.ncr, e.leg, m.zone, n);
      }
    }
  }
}
