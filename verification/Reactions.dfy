/**
How the handlers of the sending states react to a reply, by the names of the
return codes, states and events.
*/
module Reactions {
  import opened Common
  import opened Dns
  import opened Requests
  import opened Protocol
  import opened NcTrans

  /** Only state, event and entry flag are changed, and possibly a completion flag. */
  predicate Turned(s: Ctx, u: Ctx, state: State, event: Event, fwdDone: bool, revDone: bool) {
    && u.currState == state && u.nextEvent == event && u.onEntry == (s.currState != state)
    && u.fwdDone == fwdDone && u.revDone == revDone && u.status == s.status
    && u.cfg == s.cfg && u.servers == s.servers && u.nextServerPos == s.nextServerPos && u.current == s.current
    && u.attempts == s.attempts && u.reply == s.reply && u.sends == s.sends && u.last == s.last
  }

  predicate TurnedDown(s: Ctx, u: Ctx) {
    Turned(s, u, PROCESS_TRANS_FAILED_ST, UPDATE_FAILED_EVT, s.fwdDone, s.revDone)
  }

  predicate ForwardMade(s: Ctx, u: Ctx) {
    if s.cfg.reverse.Some? then Turned(s, u, SELECTING_REV_SERVER_ST, SELECT_SERVER_EVT, true, s.revDone)
    else Turned(s, u, PROCESS_TRANS_OK_ST, UPDATE_OK_EVT, true, s.revDone)
  }

  /** The reaction to an answer, by the names of the return codes, states and events. */
  lemma AnswerTurns(s: Ctx, l: Leg, r: Rcode)
    requires s.reply == Answer(r)
    ensures var u := Reacted(s, l);
      match l
      case AddFwd =>
        if r == NOERROR then ForwardMade(s, u)
        else if r == YXDOMAIN then Turned(s, u, REPLACING_FWD_ADDRS_ST, FQDN_IN_USE_EVT, s.fwdDone, s.revDone)
        else TurnedDown(s, u)
      case ReplaceFwd =>
        if r == NOERROR then ForwardMade(s, u)
        else if r == NXDOMAIN then Turned(s, u, ADDING_FWD_ADDRS_ST, SERVER_SELECTED_EVT, s.fwdDone, s.revDone)
        else TurnedDown(s, u)
      case ReplaceRev =>
        if r == NOERROR then Turned(s, u, PROCESS_TRANS_OK_ST, UPDATE_OK_EVT, s.fwdDone, true) else TurnedDown(s, u)
      case RemoveAddr =>
        if r in {NOERROR, NXRRSET} then Turned(s, u, REMOVING_FWD_RRS_ST, UPDATE_OK_EVT, s.fwdDone, s.revDone)
        else TurnedDown(s, u)
      case RemoveRRs => if r in {NOERROR, NXRRSET, YXRRSET} then ForwardMade(s, u) else TurnedDown(s, u)
      case RemoveRev =>
        if r in {NOERROR, NXRRSET} then Turned(s, u, PROCESS_TRANS_OK_ST, UPDATE_OK_EVT, s.fwdDone, true)
        else TurnedDown(s, u)
  {
  }

  /** The reaction to a reply that is no answer. */
  lemma FailureTurns(s: Ctx, l: Leg)
    requires !s.reply.Answer?
    ensures var u := Reacted(s, l);
      if s.reply == IoStopped then TurnedDown(s, u)
      else if s.attempts < s.cfg.tries then Turned(s, u, s.currState, SERVER_SELECTED_EVT, s.fwdDone, s.revDone)
      else
        var next := match l
          case AddFwd => SELECTING_FWD_SERVER_ST
          case ReplaceFwd => SELECTING_FWD_SERVER_ST
          case ReplaceRev => SELECTING_REV_SERVER_ST
          case RemoveAddr => SELECTING_FWD_SERVER_ST
          case RemoveRRs => PROCESS_TRANS_FAILED_ST
          case RemoveRev => SELECTING_REV_SERVER_ST;
        Turned(s, u, next, SERVER_IO_ERROR_EVT, s.fwdDone, s.revDone)
  {
  }

  /** Where the search for a server goes: from the start of the domain's list, or on from the last one. */
  function ToSearch(s: Ctx, d: Domain): (seq<Server>, nat) {
    if s.nextEvent == SELECT_SERVER_EVT then (d.servers, 0) else (s.servers, s.nextServerPos)
  }

  ghost predicate NoneFrom(servers: seq<Server>, from: nat, to: nat) {
    forall i :: from <= i < to && i < |servers| ==> !servers[i].usable
  }

  /** Selecting a server: the first one that is not skipped, and on to the sending state. */
  lemma ChoiceFinds(s: Ctx, d: Domain, l: Leg, i: nat)
    requires var (servers, from) := ToSearch(s, d);
      from <= i < |servers| && servers[i].usable && NoneFrom(servers, from, i)
    ensures var u := Chosen(s, d, l);
      && u.currState == SendingState(l) && u.nextEvent == SERVER_SELECTED_EVT
      && u.servers == ToSearch(s, d).0 && u.current == Some(i) && u.nextServerPos == i + 1
      && u.cfg == s.cfg && u.attempts == s.attempts && u.sends == s.sends && u.status == s.status
      && u.fwdDone == s.fwdDone && u.revDone == s.revDone
  {
    var (servers, from) := ToSearch(s, d);
    FoundAt(servers, from, i);
  }

  lemma FoundAt(servers: seq<Server>, from: nat, i: nat)
    requires from <= i < |servers| && servers[i].usable && NoneFrom(servers, from, i)
    ensures NextUsable(servers, from) == Some(i)
  {
    var r := NextUsable(servers, from);
  }

  /** With none left the transaction fails. */
  lemma ChoiceFails(s: Ctx, d: Domain, l: Leg)
    requires var (servers, from) := ToSearch(s, d); NoneFrom(servers, from, |servers|)
    ensures var u := Chosen(s, d, l);
      && u.currState == PROCESS_TRANS_FAILED_ST && u.nextEvent == NO_MORE_SERVERS_EVT
      && u.cfg == s.cfg && u.attempts == s.attempts && u.sends == s.sends && u.status == s.status
      && u.fwdDone == s.fwdDone && u.revDone == s.revDone
  {
    var (servers, from) := ToSearch(s, d);
    assert NextUsable(servers, from).None?;
  }

  function SendingState(l: Leg): State {
    match l
    case AddFwd => ADDING_FWD_ADDRS_ST
    case ReplaceFwd => REPLACING_FWD_ADDRS_ST
    case ReplaceRev => REPLACING_REV_PTRS_ST
    case RemoveAddr => REMOVING_FWD_ADDRS_ST
    case RemoveRRs => REMOVING_FWD_RRS_ST
    case RemoveRev => REMOVING_REV_PTRS_ST
  }

  /** Sending: one attempt and one update more, to the selected server, and then nothing until the reply;
      an update that cannot be built or sent fails the transaction, the latter as an attempt. */
  lemma SendTurns(s: Ctx, l: Leg, f: Fault, server: nat)
    requires s.current == Some(server)
    requires (if l in {ReplaceRev, RemoveRev} then s.cfg.reverse else s.cfg.forward).Some?
    ensures var u := Launched(s, l, f);
      match f
      case NoFault =>
        && u.attempts == s.attempts + 1 && u.sends == s.sends + 1
        && u.last == Some(Transmission(server, RequestOf(s.cfg, l)))
        && u.currState == s.currState && u.nextEvent == NOP_EVT
      case BuildThrows =>
        && u.attempts == s.attempts && u.sends == s.sends && u.last == s.last
        && u.currState == PROCESS_TRANS_FAILED_ST && u.nextEvent == UPDATE_FAILED_EVT
      case SendThrows =>
        && u.attempts == s.attempts + 1 && u.sends == s.sends && u.last == s.last
        && u.currState == PROCESS_TRANS_FAILED_ST && u.nextEvent == UPDATE_FAILED_EVT
  {
  }
}
