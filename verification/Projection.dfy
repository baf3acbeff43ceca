/**
One transaction of a system, seen on its own: the exchanges it takes part in
form a run of the protocol, and a server that follows RFC 2136 never sends it
back from replacing to adding.
*/
module Projection {
  import opened Common
  import opened Dns
  import opened Requests
  import opened Protocol
  import opened Network
  import opened Bounds

  function Exchanges(es: seq<Event>, i: nat): seq<Exchange> {
    if es == [] then []
    else
      var k := |es| - 1;
      var before := Exchanges(es[..k], i);
      if es[k].Receive? && es[k].i == i then before + [es[k].x] else before
  }

  /** Replacing asks for a DHCID, and a missing one is answered NXRRSET, never NXDOMAIN. */
  ghost predicate NeverNxdomain(s: Sys) {
    forall i :: 0 <= i < |s.procs| && s.procs[i].phase.Waiting? && s.procs[i].phase.leg == ReplaceFwd
      ==> NXDOMAIN !in s.procs[i].heard
  }

  lemma NeverNxdomainOn(s: Sys, e: Event)
    requires AllOk(s) && Enabled(s, e) && NeverNxdomain(s)
    ensures NeverNxdomain(Step(s, e))
  {
    if e.Deliver? {
      ServeEffect(s.procs[e.i].cfg, e.leg, s.zone);
    }
  }

  lemma {:induction false} NeverNxdomainTrace(s: Sys, es: seq<Event>)
    requires AllOk(s) && Valid(s, es) && NeverNxdomain(s)
    ensures NeverNxdomain(Trace(s, es))
  {
    if es != [] {
      var k := |es| - 1;
      NeverNxdomainTrace(s, es[..k]);
      TraceOk(s, es[..k]);
      NeverNxdomainOn(Trace(s, es[..k]), es[k]);
    }
  }

  lemma {:induction false} TraceProjects(s: Sys, es: seq<Event>, i: nat)
    requires AllOk(s) && Valid(s, es) && i < |s.procs| && NeverNxdomain(s)
    ensures |Trace(s, es).procs| == |s.procs|
    ensures var c := s.procs[i].cfg; var xs := Exchanges(es, i);
      Trace(s, es).procs[i].cfg == c
      && Trace(s, es).procs[i].phase == After(c, s.procs[i].phase, xs)
      && Backtracks(c, s.procs[i].phase, xs) == 0
  {
    if es != [] {
      var k := |es| - 1;
      var e := es[k];
      TraceProjects(s, es[..k], i);
      NeverNxdomainTrace(s, es[..k]);
      if e.Receive? && e.i == i {
        var before := Exchanges(es[..k], i);
        assert (before + [e.x])[..|before|] == before;
        BacktracksOn(s.procs[i].cfg, s.procs[i].phase, before, e.x);
      }
    }
  }

  /** With any number of concurrent writers on a server that follows RFC 2136, a transaction never
      backtracks, so it has sent no more updates than one that does not. */
  lemma SendsAreBoundedOnRfcServer(s: Sys, es: seq<Event>, i: nat)
    requires Fresh(s) && Legal(s.zone) && Valid(s, es) && i < |s.procs|
    ensures i < |Trace(s, es).procs|
    ensures Trace(s, es).procs[i].phase.Waiting? ==>
      |Exchanges(es, i)| + 1 <= Most(s.procs[i].cfg, 0)
  {
    StartOk(s);
    var f :| s.procs[i] == Start(s.procs[i].cfg, f);
    TraceProjects(s, es, i);
    if Trace(s, es).procs[i].phase.Waiting? {
      SendsAreBounded(s.procs[i].cfg, f, Exchanges(es, i));
    }
  }
}
