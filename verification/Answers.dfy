/**
What each reply leads to, by the names of the return codes, and what the
history of a run must have been for it to be where it is.
*/
module Answers {
  import opened Common
  import opened Dns
  import opened Requests
  import opened Protocol

  // ----- one reply -----

  /** The next phase waits for this request, or sending it has failed. */
  predicate Sent(q: Phase, l: Leg, server: nat, tries: nat, fwdDone: bool, f: Fault) {
    if f == NoFault then q == Waiting(l, server, tries, fwdDone) else q == Ended(ST_FAILED, false, fwdDone, false)
  }

  /** The next phase waits for this request at the first server from a position on that is not skipped. */
  predicate SentFrom(q: Phase, l: Leg, d: Domain, from: nat, fwdDone: bool, f: Fault) {
    if exists i :: from <= i < |d.servers| && d.servers[i].usable
    then exists i ::
      from <= i < |d.servers| && d.servers[i].usable && NoneUsable(d, from, i) && Sent(q, l, i, 1, fwdDone, f)
    else q == Ended(ST_FAILED, false, fwdDone, false)
  }

  predicate NoneUsable(d: Domain, from: nat, to: nat) {
    forall i :: from <= i < to && i < |d.servers| ==> !d.servers[i].usable
  }

  /** The forward change is made: on to the reverse one, if there is one to make. */
  predicate ForwardMade(c: Config, q: Phase, f: Fault) {
    if c.reverse.None? then q == Ended(ST_COMPLETED, false, true, false)
    else SentFrom(q, if c.change == CHG_ADD then ReplaceRev else RemoveRev, c.reverse.value, 0, true, f)
  }

  lemma ChooseSends(c: Config, l: Leg, from: nat, fwdDone: bool, f: Fault)
    requires DomainOf(c, l).Some?
    ensures SentFrom(Choose(c, l, from, fwdDone, f), l, DomainOf(c, l).value, from, fwdDone, f)
  {
    var d := DomainOf(c, l).value;
    var r := NextUsable(d.servers, from);
    if r.Some? {
      assert d.servers[r.value].usable && NoneUsable(d, from, r.value);
      assert Sent(Choose(c, l, from, fwdDone, f), l, r.value, 1, fwdDone, f);
    }
  }

  /** Adding: NOERROR makes the change, YXDOMAIN goes on to replacing, any other answer means cease. */
  lemma AddAnswer(c: Config, s: nat, t: nat, d: bool, r: Rcode, f: Fault)
    ensures var q := Next(c, Waiting(AddFwd, s, t, d), Answer(r), f);
      match r
      case NOERROR => ForwardMade(c, q, f)
      case YXDOMAIN => Sent(q, ReplaceFwd, s, 1, d, f)
      case _ => q == Ended(ST_FAILED, false, d, false)
  {
    if c.reverse.Some? { ChooseSends(c, FirstReverse(c), 0, true, f); }
  }

  /** Replacing: NOERROR makes the change, NXDOMAIN goes back to adding, any other answer means cease. */
  lemma ReplaceAnswer(c: Config, s: nat, t: nat, d: bool, r: Rcode, f: Fault)
    ensures var q := Next(c, Waiting(ReplaceFwd, s, t, d), Answer(r), f);
      match r
      case NOERROR => ForwardMade(c, q, f)
      case NXDOMAIN => Sent(q, AddFwd, s, 1, d, f)
      case _ => q == Ended(ST_FAILED, false, d, false)
  {
    if c.reverse.Some? { ChooseSends(c, FirstReverse(c), 0, true, f); }
  }

  /** Removing the address: NOERROR and NXRRSET go on to the DHCID, any other answer means cease. */
  lemma RemoveAddressAnswer(c: Config, s: nat, t: nat, d: bool, r: Rcode, f: Fault)
    ensures var q := Next(c, Waiting(RemoveAddr, s, t, d), Answer(r), f);
      match r
      case NOERROR => Sent(q, RemoveRRs, s, 1, d, f)
      case NXRRSET => Sent(q, RemoveRRs, s, 1, d, f)
      case _ => q == Ended(ST_FAILED, false, d, false)
  {
  }

  /** Removing the DHCID: NOERROR, NXRRSET and YXRRSET make the change, any other answer means cease. */
  lemma RemoveDhcidAnswer(c: Config, s: nat, t: nat, d: bool, r: Rcode, f: Fault)
    ensures var q := Next(c, Waiting(RemoveRRs, s, t, d), Answer(r), f);
      match r
      case NOERROR => ForwardMade(c, q, f)
      case NXRRSET => ForwardMade(c, q, f)
      case YXRRSET => ForwardMade(c, q, f)
      case _ => q == Ended(ST_FAILED, false, d, false)
  {
    if c.reverse.Some? { ChooseSends(c, FirstReverse(c), 0, true, f); }
  }

  /** The reverse requests: NOERROR completes both of them, NXRRSET the removal only. */
  lemma ReverseAnswer(c: Config, s: nat, t: nat, d: bool, r: Rcode, f: Fault)
    ensures Next(c, Waiting(ReplaceRev, s, t, d), Answer(r), f)
      == if r == NOERROR then Ended(ST_COMPLETED, false, d, true) else Ended(ST_FAILED, false, d, false)
    ensures Next(c, Waiting(RemoveRev, s, t, d), Answer(r), f)
      == if r in {NOERROR, NXRRSET} then Ended(ST_COMPLETED, false, d, true) else Ended(ST_FAILED, false, d, false)
  {
  }

  /** A timeout, an error or a bad response: the same request again while there are tries left; then the
      DHCID removal gives up, and the others go on to the next server, back to adding if replacing. */
  lemma LossAnswer(c: Config, l: Leg, s: nat, t: nat, d: bool, r: Reply, f: Fault)
    requires r in {Timeout, OtherError, InvalidResponse}
    requires (if l in {ReplaceRev, RemoveRev} then c.reverse else c.forward).Some?
    ensures var q := Next(c, Waiting(l, s, t, d), r, f);
      if t < c.tries then Sent(q, l, s, t + 1, d, f)
      else
        match l
        case AddFwd => SentFrom(q, AddFwd, c.forward.value, s + 1, d, f)
        case ReplaceFwd => SentFrom(q, AddFwd, c.forward.value, s + 1, d, f)
        case ReplaceRev => SentFrom(q, ReplaceRev, c.reverse.value, s + 1, d, f)
        case RemoveAddr => SentFrom(q, RemoveAddr, c.forward.value, s + 1, d, f)
        case RemoveRRs => q == Ended(ST_FAILED, false, d, false)
        case RemoveRev => SentFrom(q, RemoveRev, c.reverse.value, s + 1, d, f)
  {
    ChooseSends(c, Restart(l), s + 1, d, f);
  }

  lemma StoppedAnswer(c: Config, l: Leg, s: nat, t: nat, d: bool, f: Fault)
    ensures Next(c, Waiting(l, s, t, d), IoStopped, f) == Ended(ST_FAILED, false, d, false)
  {
  }

  /** The forward change comes first if it is requested; with nothing requested the model is aborted. */
  lemma FirstRequest(c: Config, f: Fault)
    ensures
      if c.forward.Some?
      then SentFrom(First(c, f), if c.change == CHG_ADD then AddFwd else RemoveAddr, c.forward.value, 0, false, f)
      else if c.reverse.Some?
      then SentFrom(First(c, f), if c.change == CHG_ADD then ReplaceRev else RemoveRev, c.reverse.value, 0, false, f)
      else First(c, f) == Ended(ST_FAILED, true, false, false)
  {
    if c.forward.Some? {
      ChooseSends(c, FirstForward(c), 0, false, f);
    } else if c.reverse.Some? {
      ChooseSends(c, FirstReverse(c), 0, false, f);
    }
  }

  // ----- histories -----

  /** A replace is outstanding only if that server said YXDOMAIN to an add, and nothing but losses came since. */
  lemma {:induction false} ReplaceFollowsInUse(c: Config, f: Fault, xs: seq<Exchange>)
    requires Run(c, f, xs).Waiting? && Run(c, f, xs).leg == ReplaceFwd
    ensures var p := Run(c, f, xs); var m := |xs| - p.tries;
      && 0 <= m
      && Run(c, f, xs[..m]).Waiting? && Run(c, f, xs[..m]).leg == AddFwd && Run(c, f, xs[..m]).server == p.server
      && xs[m].reply == Answer(YXDOMAIN)
      && (forall i :: m < i < |xs| ==> xs[i].reply in {Timeout, OtherError, InvalidResponse})
  {
    RunConsistent(c, f, xs);
    assert xs != [];
    var k := |xs| - 1;
    var q := Run(c, f, xs[..k]);
    RunConsistent(c, f, xs[..k]);
    if q.leg == ReplaceFwd {
      ReplaceFollowsInUse(c, f, xs[..k]);
      var m := k - q.tries;
      assert xs[..k][..m] == xs[..m];
    }
  }

  /** The answers that make a change, request by request. */
  predicate Makes(l: Leg, r: Reply) {
    match l
    case AddFwd => r == Answer(NOERROR)
    case ReplaceFwd => r == Answer(NOERROR)
    case ReplaceRev => r == Answer(NOERROR)
    case RemoveAddr => false
    case RemoveRRs => r in {Answer(NOERROR), Answer(NXRRSET), Answer(YXRRSET)}
    case RemoveRev => r in {Answer(NOERROR), Answer(NXRRSET)}
  }

  ghost predicate MadeAt(c: Config, f: Fault, xs: seq<Exchange>, i: nat, reverse: bool)
    requires i < |xs|
  {
    var p := Run(c, f, xs[..i]);
    p.Waiting? && (p.leg in {ReplaceRev, RemoveRev} <==> reverse) && Makes(p.leg, xs[i].reply)
  }

  ghost predicate Made(c: Config, f: Fault, xs: seq<Exchange>, reverse: bool) {
    exists i :: 0 <= i < |xs| && MadeAt(c, f, xs, i, reverse)
  }

  lemma MadeOn(c: Config, f: Fault, xs: seq<Exchange>, k: nat, reverse: bool)
    requires k <= |xs| && Made(c, f, xs[..k], reverse)
    ensures Made(c, f, xs, reverse)
  {
    var i :| 0 <= i < k && MadeAt(c, f, xs[..k], i, reverse);
    assert xs[..k][..i] == xs[..i];
    assert MadeAt(c, f, xs, i, reverse);
  }

  /** A direction is flagged completed if and only if the run has had an answer that makes its change. */
  lemma {:induction false} FlagsAreEarned(c: Config, f: Fault, xs: seq<Exchange>)
    ensures var p := Run(c, f, xs);
      && (p.fwdDone <==> Made(c, f, xs, false))
      && (p.Ended? ==> (p.revDone <==> Made(c, f, xs, true)))
      && (p.Waiting? ==> !Made(c, f, xs, true))
  {
    if xs != [] {
      var k := |xs| - 1;
      FlagsAreEarned(c, f, xs[..k]);
      RunConsistent(c, f, xs[..k]);
      forall reverse: bool
        ensures Made(c, f, xs, reverse) <==> Made(c, f, xs[..k], reverse) || MadeAt(c, f, xs, k, reverse)
      {
        MadeSplits(c, f, xs, reverse);
      }
    }
  }

  lemma MadeSplits(c: Config, f: Fault, xs: seq<Exchange>, reverse: bool)
    requires xs != []
    ensures var k := |xs| - 1;
      Made(c, f, xs, reverse) <==> Made(c, f, xs[..k], reverse) || MadeAt(c, f, xs, k, reverse)
  {
    var k := |xs| - 1;
    if Made(c, f, xs[..k], reverse) {
      MadeOn(c, f, xs, k, reverse);
    }
    if Made(c, f, xs, reverse) && !MadeAt(c, f, xs, k, reverse) {
      var i :| 0 <= i < |xs| && MadeAt(c, f, xs, i, reverse);
      assert xs[..k][..i] == xs[..i];
      assert MadeAt(c, f, xs[..k], i, reverse);
    }
  }
}
