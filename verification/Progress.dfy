/**
When nothing is lost: which transactions complete; and how to extend a run.
*/
module Progress {
  import opened Common
  import opened Dns
  import opened Requests
  import opened Protocol
  import opened ZoneFacts
  import opened Network
  import opened Convergence
  import opened Protection

  datatype View = View(zone: Zone, phase: Phase)

  /** The outstanding request is executed once and its answer comes back. */
  function Round(c: Config, v: View): View {
    if v.phase.Ended? then v
    else
      var l := v.phase.leg;
      View(Do(c, l, v.zone), Next(c, v.phase, Answer(Code(c, l, v.zone)), NoFault))
  }

  predicate Reachable(d: Option<Domain>) {
    d.Some? ==> NextUsable(d.value.servers, 0).Some?
  }

  /** With every request answered, a transaction ends after at most three exchanges, and it completes
      unless it adds to an unmanaged name. */
  lemma AnsweredTransactionsFinish(c: Config, z: Zone)
    requires HasDomain(c) && Reachable(c.forward) && Reachable(c.reverse)
    ensures var e := Round(c, Round(c, Round(c, View(z, First(c, NoFault))))).phase;
      e.Ended? && (e.status == ST_COMPLETED <==> !(AddsForward(c, c.ncr.fqdn) && Unmanaged(z, c.ncr.fqdn)))
  {
    var v0 := View(z, First(c, NoFault));
    var v1 := Round(c, v0);
    var v2 := Round(c, v1);
    if c.forward.Some? {
      assert v0.phase == Launch(FirstForward(c), v0.phase.server, 1, false, NoFault);
    }
  }

  lemma Extend(s: Sys, es: seq<Event>, m: Sys, e: Event) returns (fs: seq<Event>, t: Sys)
    requires Valid(s, es) && Trace(s, es) == m && Enabled(m, e)
    ensures Valid(s, fs) && Trace(s, fs) == t && t == Step(m, e)
  {
    fs, t := es + [e], Step(m, e);
    assert fs[..|fs| - 1] == es;
  }

  /** A request is delivered and its answer is received. */
  lemma Exchanged(s: Sys, es: seq<Event>, m: Sys, i: nat) returns (fs: seq<Event>, t: Sys)
    requires Valid(s, es) && Trace(s, es) == m && AllOk(m) && i < |m.procs| && m.procs[i].phase.Waiting?
    ensures Valid(s, fs) && Trace(s, fs) == t && AllOk(t)
    ensures var p := m.procs[i]; var c := p.cfg; var l := p.phase.leg;
      var q := Next(c, p.phase, Answer(Code(c, l, m.zone)), NoFault);
      t == Sys(Do(c, l, m.zone), m.procs[i := Proc(c, q, p.sent + Outstanding(q), {})])
  {
    var p := m.procs[i];
    var l := p.phase.leg;
    assert ProcOk(p);
    ServeEffect(p.cfg, l, m.zone);
    StepOk(m, Deliver(i, l));
    fs, t := Extend(s, es, m, Deliver(i, l));
    var x := Exchange(Answer(Code(p.cfg, l, m.zone)), NoFault);
    StepOk(t, Receive(i, x));
    fs, t := Extend(s, fs, t, Receive(i, x));
  }

  /** A late copy of a request of a transaction that has ended. */
  lemma LateDelivery(s: Sys, es: seq<Event>, m: Sys, l: Leg) returns (fs: seq<Event>, t: Sys)
    requires Valid(s, es) && Trace(s, es) == m && Legal(m.zone)
    requires |m.procs| > 0 && m.procs[0].phase.Ended? && l in m.procs[0].sent
    ensures Valid(s, fs) && Trace(s, fs) == t && t == Sys(Do(m.procs[0].cfg, l, m.zone), m.procs) && Legal(t.zone)
  {
    ServeEffect(m.procs[0].cfg, l, m.zone);
    fs, t := Extend(s, es, m, Deliver(0, l));
  }
}
