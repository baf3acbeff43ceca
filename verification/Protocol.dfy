/**
The two transactions seen from the network: which request is outstanding, at
which server, for which try; and what each reply leads to.  This is the simple
form that the event-driven handlers are later shown to implement.
*/
module Protocol {
  import opened Common
  import opened Dns
  import opened Requests

  /** What the two transactions use for the number of tries; nothing below depends on it. */
  const MAX_UPDATE_TRIES_PER_SERVER: Tries := 3

  /** How one exchange ended: DNSClient::Status with the rcode of a good response. */
  datatype Reply = Answer(rcode: Rcode) | Timeout | OtherError | InvalidResponse | IoStopped

  /** What can go wrong between deciding to send and waiting for the reply. */
  datatype Fault = NoFault | BuildThrows | SendThrows

  datatype Status = ST_PENDING | ST_COMPLETED | ST_FAILED

  datatype Phase =
    | Waiting(leg: Leg, server: nat, tries: nat, fwdDone: bool)
    | Ended(status: Status, aborted: bool, fwdDone: bool, revDone: bool)

  datatype Verdict = Accept | Proceed(leg: Leg) | Reject

  function Judge(l: Leg, r: Rcode): Verdict {
    match l
    case AddFwd => if r == NOERROR then Accept else if r == YXDOMAIN then Proceed(ReplaceFwd) else Reject
    case ReplaceFwd => if r == NOERROR then Accept else if r == NXDOMAIN then Proceed(AddFwd) else Reject
    case ReplaceRev => if r == NOERROR then Accept else Reject
    case RemoveAddr => if r == NOERROR || r == NXRRSET then Proceed(RemoveRRs) else Reject
    case RemoveRRs => if r == NOERROR || r == NXRRSET || r == YXRRSET then Accept else Reject
    case RemoveRev => if r == NOERROR || r == NXRRSET then Accept else Reject
  }

  function FirstForward(c: Config): Leg {
    if c.change == CHG_ADD then AddFwd else RemoveAddr
  }

  function FirstReverse(c: Config): Leg {
    if c.change == CHG_ADD then ReplaceRev else RemoveRev
  }

  function Restart(l: Leg): Leg {
    if l == ReplaceFwd then AddFwd else l
  }

  /** The first server at or after `from` that the hooks let through. */
  function NextUsable(servers: seq<Server>, from: nat): (r: Option<nat>)
    ensures r.Some? ==> from <= r.value < |servers| && servers[r.value].usable
    ensures r.Some? ==> forall i :: from <= i < r.value ==> !servers[i].usable
    ensures r.None? ==> forall i :: from <= i < |servers| ==> !servers[i].usable
    decreases |servers| - from
  {
    if from >= |servers| then None
    else if servers[from].usable then Some(from)
    else NextUsable(servers, from + 1)
  }

  function Launch(l: Leg, server: nat, tries: nat, fwdDone: bool, f: Fault): Phase {
    if f == NoFault then Waiting(l, server, tries, fwdDone) else Ended(ST_FAILED, false, fwdDone, false)
  }

  function Choose(c: Config, l: Leg, from: nat, fwdDone: bool, f: Fault): Phase {
    match DomainOf(c, l)
    case None => Ended(ST_FAILED, true, fwdDone, false)
    case Some(d) =>
      match NextUsable(d.servers, from)
      case None => Ended(ST_FAILED, false, fwdDone, false)
      case Some(i) => Launch(l, i, 1, fwdDone, f)
  }

  function First(c: Config, f: Fault): Phase {
    Choose(c, if c.forward.Some? then FirstForward(c) else FirstReverse(c), 0, false, f)
  }

  function OnAccept(c: Config, l: Leg, fwdDone: bool, f: Fault): Phase {
    if IsReverse(l) then Ended(ST_COMPLETED, false, fwdDone, true)
    else if c.reverse.Some? then Choose(c, FirstReverse(c), 0, true, f)
    else Ended(ST_COMPLETED, false, true, false)
  }

  function OnLoss(c: Config, p: Phase, f: Fault): Phase
    requires p.Waiting?
  {
    if p.tries < c.tries then Launch(p.leg, p.server, p.tries + 1, p.fwdDone, f)
    else if p.leg == RemoveRRs then Ended(ST_FAILED, false, p.fwdDone, false)
    else Choose(c, Restart(p.leg), p.server + 1, p.fwdDone, f)
  }

  predicate IsLoss(r: Reply) { r.Timeout? || r.OtherError? || r.InvalidResponse? }

  function Next(c: Config, p: Phase, r: Reply, f: Fault): Phase {
    if p.Ended? then p
    else if IsLoss(r) then OnLoss(c, p, f)
    else if r.IoStopped? then Ended(ST_FAILED, false, p.fwdDone, false)
    else
      match Judge(p.leg, r.rcode)
      case Accept => OnAccept(c, p.leg, p.fwdDone, f)
      case Proceed(l) => Launch(l, p.server, 1, p.fwdDone, f)
      case Reject => Ended(ST_FAILED, false, p.fwdDone, false)
  }

  /** One exchange: the reply to the outstanding request and the fault, if any, of the next send. */
  datatype Exchange = Exchange(reply: Reply, fault: Fault)

  function After(c: Config, p: Phase, xs: seq<Exchange>): Phase {
    if xs == [] then p
    else
      var last := xs[|xs| - 1];
      Next(c, After(c, p, xs[..|xs| - 1]), last.reply, last.fault)
  }

  function Run(c: Config, f: Fault, xs: seq<Exchange>): Phase {
    After(c, First(c, f), xs)
  }

  lemma {:induction false} AfterConcat(c: Config, p: Phase, xs: seq<Exchange>, ys: seq<Exchange>)
    ensures After(c, p, xs + ys) == After(c, After(c, p, xs), ys)
  {
    if ys == [] {
      assert xs + ys == xs;
    } else {
      var k := |ys| - 1;
      assert (xs + ys)[..|xs + ys| - 1] == xs + ys[..k];
      AfterConcat(c, p, xs, ys[..k]);
    }
  }

  // ----- what holds at every point of every run -----

  ghost predicate LegFits(c: Config, l: Leg) {
    c.change == CHG_ADD <==> l == AddFwd || l == ReplaceFwd || l == ReplaceRev
  }

  predicate AllDone(c: Config, fwdDone: bool, revDone: bool) {
    (c.forward.Some? ==> fwdDone) && (c.reverse.Some? ==> revDone)
  }

  predicate HasDomain(c: Config) { c.forward.Some? || c.reverse.Some? }

  ghost predicate Consistent(c: Config, p: Phase) {
    match p
    case Waiting(l, s, t, fwdDone) =>
      && LegFits(c, l)
      && DomainOf(c, l).Some?
      && s < |DomainOf(c, l).value.servers|
      && DomainOf(c, l).value.servers[s].usable
      && 1 <= t <= c.tries
      && fwdDone == (c.forward.Some? && IsReverse(l))
    case Ended(status, aborted, fwdDone, revDone) =>
      && (aborted <==> !HasDomain(c))
      && (status == ST_COMPLETED <==> HasDomain(c) && AllDone(c, fwdDone, revDone))
      && (status == ST_FAILED <==> status != ST_COMPLETED)
      && (fwdDone ==> c.forward.Some?)
      && (revDone ==> c.reverse.Some? && (c.forward.Some? ==> fwdDone))
  }

  lemma NextConsistent(c: Config, p: Phase, x: Exchange)
    requires Consistent(c, p)
    ensures Consistent(c, Next(c, p, x.reply, x.fault))
  {
  }

  lemma {:induction false} RunConsistent(c: Config, f: Fault, xs: seq<Exchange>)
    ensures Consistent(c, Run(c, f, xs))
  {
    if xs != [] {
      RunConsistent(c, f, xs[..|xs| - 1]);
      NextConsistent(c, Run(c, f, xs[..|xs| - 1]), xs[|xs| - 1]);
    }
  }

  /** The final status says exactly whether every requested direction was completed. */
  lemma StatusIsExact(c: Config, f: Fault, xs: seq<Exchange>)
    requires Run(c, f, xs).Ended?
    ensures var e := Run(c, f, xs);
      && (e.status == ST_COMPLETED <==> HasDomain(c) && AllDone(c, e.fwdDone, e.revDone))
      && (e.aborted <==> !HasDomain(c))
      && e.status != ST_PENDING
  {
    RunConsistent(c, f, xs);
  }

  /** No reverse request is outstanding before a requested forward change is done. */
  lemma ForwardFirst(c: Config, f: Fault, xs: seq<Exchange>)
    requires Run(c, f, xs).Waiting? && IsReverse(Run(c, f, xs).leg)
    ensures c.forward.Some? ==> Run(c, f, xs).fwdDone
    ensures c.forward.Some? ==>
      exists i :: 0 <= i < |xs| && Run(c, f, xs[..i]).Waiting? && !IsReverse(Run(c, f, xs[..i]).leg)
        && xs[i].reply.Answer? && Judge(Run(c, f, xs[..i]).leg, xs[i].reply.rcode) == Accept
  {
    RunConsistent(c, f, xs);
    if c.forward.Some? && xs != [] {
      var k := |xs| - 1;
      var q := Run(c, f, xs[..k]);
      RunConsistent(c, f, xs[..k]);
      if q.Waiting? && IsReverse(q.leg) {
        ForwardFirst(c, f, xs[..k]);
        var i :| 0 <= i < |xs[..k]| && Run(c, f, xs[..k][..i]).Waiting? && !IsReverse(Run(c, f, xs[..k][..i]).leg)
          && xs[..k][i].reply.Answer? && Judge(Run(c, f, xs[..k][..i]).leg, xs[..k][i].reply.rcode) == Accept;
        assert xs[..k][..i] == xs[..i];
      }
    }
  }
}
