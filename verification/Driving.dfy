/**
Whole transactions: the event-driven objects, driven from the start through one
reply after the other, follow the runs of the protocol.
*/
module Driving {
  import opened Common
  import opened Dns
  import opened Requests
  import opened Protocol
  import opened NcTrans
  import opened Bounds
  import opened CheckExistsAdd
  import opened CheckExistsRemove

  /** The object is at rest in the phase that the run of the protocol is in.  While it waits it has sent
      one update more than it has had replies, never more than the bound, and when it is over its
      status says exactly whether every requested direction was completed. */
  ghost predicate Follows(s: Ctx, f: Fault, xs: seq<Exchange>) {
    && AtRest(s) && Pending(s, NoFault) == Run(s.cfg, f, xs)
    && (s.currState == END_ST <==> Run(s.cfg, f, xs).Ended?)
    && (s.currState != END_ST ==> s.sends == |xs| + 1)
    && s.sends <= Most(s.cfg, Backtracks(s.cfg, First(s.cfg, f), xs))
    && (s.currState == END_ST ==>
          (s.status == ST_COMPLETED <==> HasDomain(s.cfg) && AllDone(s.cfg, s.fwdDone, s.revDone)))
  }

  lemma RestIs(s: Ctx)
    requires AtRest(s)
    ensures s.currState == END_ST <==> Pending(s, NoFault).Ended?
    ensures s.currState == END_ST ==>
      Pending(s, NoFault) == Ended(s.status, s.nextEvent == FAIL_EVT, s.fwdDone, s.revDone)
  {
    Stopped(s, NoFault);
  }

  lemma FollowsStart(s: Ctx, f: Fault)
    requires AtRest(s) && Pending(s, NoFault) == First(s.cfg, f)
    requires s.sends == if First(s.cfg, f).Waiting? then 1 else 0
    ensures Follows(s, f, [])
  {
    RestIs(s);
    if First(s.cfg, f).Waiting? {
      SendsAreBounded(s.cfg, f, []);
    } else {
      StatusIsExact(s.cfg, f, []);
    }
  }

  lemma FollowsReply(s: Ctx, u: Ctx, f: Fault, xs: seq<Exchange>, i: nat)
    requires i < |xs| && Follows(s, f, xs[..i]) && s.currState != END_ST && AtRest(u) && u.cfg == s.cfg
    requires Pending(u, NoFault) == Next(s.cfg, Pending(s, NoFault), xs[i].reply, xs[i].fault)
    requires u.sends == s.sends + if Pending(u, NoFault).Waiting? then 1 else 0
    ensures Follows(u, f, xs[..i + 1])
  {
    RestIs(u);
    RunOn(s.cfg, f, xs, i);
    if Run(s.cfg, f, xs[..i + 1]).Ended? {
      StatusIsExact(s.cfg, f, xs[..i + 1]);
    }
  }

  /** Replies to a transaction that is over change nothing. */
  lemma FollowsIdly(s: Ctx, f: Fault, xs: seq<Exchange>, i: nat)
    requires i < |xs| && Follows(s, f, xs[..i]) && s.currState == END_ST
    ensures Follows(s, f, xs[..i + 1])
  {
    RunOn(s.cfg, f, xs, i);
  }

  /** The next reply to an add, unless it is over. */
  method NextAddReply(x: CheckExistsAddTransaction, f: Fault, xs: seq<Exchange>, i: nat)
    requires x.t.cfg.change == CHG_ADD && i < |xs| && Follows(x.t.Snap(), f, xs[..i])
    modifies x.t
    ensures Follows(x.t.Snap(), f, xs[..i + 1])
  {
    if x.t.currState == END_ST {
      FollowsIdly(x.t.Snap(), f, xs, i);
    } else {
      x.IoCompleted(xs[i].reply, xs[i].fault);
      FollowsReply(old(x.t.Snap()), x.t.Snap(), f, xs, i);
    }
  }

  /** A whole add. */
  method DriveAdd(ncr: Ncr, forward: Option<Domain>, reverse: Option<Domain>, f: Fault, xs: seq<Exchange>)
    returns (x: CheckExistsAddTransaction)
    ensures x.t.cfg == Config(CHG_ADD, ncr, forward, reverse, 3)
    ensures Follows(x.t.Snap(), f, xs)
    ensures var k := Backtracks(x.t.cfg, First(x.t.cfg, f), xs);
      |x.t.sent| <= 3 * (2 * (Count(forward) + k) + Count(reverse))
  {
    x := new CheckExistsAddTransaction(ncr, forward, reverse);
    x.StartTransaction(f);
    FollowsStart(x.t.Snap(), f);
    assert xs[..0] == [];
    for i := 0 to |xs|
      invariant fresh(x) && fresh(x.t) && Follows(x.t.Snap(), f, xs[..i])
    {
      NextAddReply(x, f, xs, i);
    }
    assert xs[..|xs|] == xs;
  }

  /** The next reply to a removal, unless it is over. */
  method NextRemoveReply(x: CheckExistsRemoveTransaction, f: Fault, xs: seq<Exchange>, i: nat)
    requires x.t.cfg.change == CHG_REMOVE && i < |xs| && Follows(x.t.Snap(), f, xs[..i])
    modifies x.t
    ensures Follows(x.t.Snap(), f, xs[..i + 1])
  {
    if x.t.currState == END_ST {
      FollowsIdly(x.t.Snap(), f, xs, i);
    } else {
      x.IoCompleted(xs[i].reply, xs[i].fault);
      FollowsReply(old(x.t.Snap()), x.t.Snap(), f, xs, i);
    }
  }

  /** A whole removal. */
  method DriveRemove(ncr: Ncr, forward: Option<Domain>, reverse: Option<Domain>, f: Fault, xs: seq<Exchange>)
    returns (x: CheckExistsRemoveTransaction)
    ensures x.t.cfg == Config(CHG_REMOVE, ncr, forward, reverse, 3)
    ensures Follows(x.t.Snap(), f, xs)
    ensures var k := Backtracks(x.t.cfg, First(x.t.cfg, f), xs);
      |x.t.sent| <= 3 * (Count(forward) + 1 + Count(reverse))
  {
    x := new CheckExistsRemoveTransaction(ncr, forward, reverse);
    x.StartTransaction(f);
    FollowsStart(x.t.Snap(), f);
    assert xs[..0] == [];
    for i := 0 to |xs|
      invariant fresh(x) && fresh(x.t) && Follows(x.t.Snap(), f, xs[..i])
    {
      NextRemoveReply(x, f, xs, i);
    }
    assert xs[..|xs|] == xs;
  }
}
