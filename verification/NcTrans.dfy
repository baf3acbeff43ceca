/**
The state machinery the two transactions share: current state and next event,
server selection, attempt counting, and sending.
*/
module NcTrans {
  import opened Common
  import opened Dns
  import opened Requests
  import opened Protocol

  datatype State =
    | NEW_ST | END_ST
    | READY_ST | SELECTING_FWD_SERVER_ST | SELECTING_REV_SERVER_ST
    | PROCESS_TRANS_OK_ST | PROCESS_TRANS_FAILED_ST
    | ADDING_FWD_ADDRS_ST | REPLACING_FWD_ADDRS_ST | REPLACING_REV_PTRS_ST
    | REMOVING_FWD_ADDRS_ST | REMOVING_FWD_RRS_ST | REMOVING_REV_PTRS_ST

  datatype Event =
    | NOP_EVT | START_EVT | END_EVT | FAIL_EVT
    | SELECT_SERVER_EVT | SERVER_SELECTED_EVT | SERVER_IO_ERROR_EVT | NO_MORE_SERVERS_EVT
    | IO_COMPLETED_EVT | UPDATE_OK_EVT | UPDATE_FAILED_EVT
    | FQDN_IN_USE_EVT

  /** An update handed to the DNS client, with the position of its server in the server list. */
  datatype Transmission = Transmission(server: nat, message: Message)

  /** The request a state is there to send, if any. */
  function LegOf(state: State): Option<Leg> {
    match state
    case ADDING_FWD_ADDRS_ST => Some(AddFwd)
    case REPLACING_FWD_ADDRS_ST => Some(ReplaceFwd)
    case REPLACING_REV_PTRS_ST => Some(ReplaceRev)
    case REMOVING_FWD_ADDRS_ST => Some(RemoveAddr)
    case REMOVING_FWD_RRS_ST => Some(RemoveRRs)
    case REMOVING_REV_PTRS_ST => Some(RemoveRev)
    case _ => None
  }

  /** Whether an event in a state means that the state's request is to be sent now. */
  predicate Launches(l: Leg, event: Event) {
    || event == SERVER_SELECTED_EVT
    || (l == ReplaceFwd && event == FQDN_IN_USE_EVT)
    || (l == RemoveRRs && event == UPDATE_OK_EVT)
  }

  /** The events that the handler of a state has a case for. */
  predicate Accepts(change: ChangeType, state: State, event: Event) {
    match state
    case READY_ST => event == START_EVT
    case SELECTING_FWD_SERVER_ST => event in {SELECT_SERVER_EVT, SERVER_IO_ERROR_EVT}
    case SELECTING_REV_SERVER_ST => event in {SELECT_SERVER_EVT, SERVER_IO_ERROR_EVT}
    case ADDING_FWD_ADDRS_ST => event in {SERVER_SELECTED_EVT, IO_COMPLETED_EVT}
    case REPLACING_FWD_ADDRS_ST => event in {FQDN_IN_USE_EVT, SERVER_SELECTED_EVT, IO_COMPLETED_EVT}
    case REPLACING_REV_PTRS_ST => event in {SERVER_SELECTED_EVT, IO_COMPLETED_EVT}
    case REMOVING_FWD_ADDRS_ST => event in {SERVER_SELECTED_EVT, IO_COMPLETED_EVT}
    case REMOVING_FWD_RRS_ST => event in {UPDATE_OK_EVT, SERVER_SELECTED_EVT, IO_COMPLETED_EVT}
    case REMOVING_REV_PTRS_ST => event in {SERVER_SELECTED_EVT, IO_COMPLETED_EVT}
    case PROCESS_TRANS_OK_ST => event == UPDATE_OK_EVT
    case PROCESS_TRANS_FAILED_ST =>
      event in {UPDATE_FAILED_EVT, NO_MORE_SERVERS_EVT} || (change == CHG_REMOVE && event == SERVER_IO_ERROR_EVT)
    case _ => false
  }

  datatype Ctx = Ctx(
    cfg: Config, currState: State, nextEvent: Event, onEntry: bool,
    servers: seq<Server>, nextServerPos: nat, current: Option<nat>, attempts: nat, reply: Reply,
    fwdDone: bool, revDone: bool, status: Status, sends: nat, last: Option<Transmission>)

  /** The latest update went to the selected server and is the request of the given leg. */
  ghost predicate Awaits(s: Ctx, l: Leg) {
    && 1 <= s.attempts <= s.cfg.tries && !s.onEntry
    && DomainOf(s.cfg, l).Some? && s.current.Some?
    && s.last == Some(Transmission(s.current.value, RequestOf(s.cfg, l)))
  }

  /** State and data while the request of a leg is being sent or waited for. */
  ghost predicate LegInStep(s: Ctx, l: Leg) {
    && LegFits(s.cfg, l) && DomainOf(s.cfg, l).Some? && s.servers == DomainOf(s.cfg, l).value.servers
    && s.current.Some? && s.current.value < |s.servers| && s.servers[s.current.value].usable
    && s.nextServerPos == s.current.value + 1
    && s.fwdDone == (s.cfg.forward.Some? && IsReverse(l)) && !s.revDone && s.status == ST_PENDING
    && if s.nextEvent == NOP_EVT || s.nextEvent == IO_COMPLETED_EVT then Awaits(s, l)
       else Launches(l, s.nextEvent) && (s.onEntry || s.attempts < s.cfg.tries)
  }

  /** State, event and data belong together: in particular the next event is one that the handler of
      the current state accepts. */
  ghost predicate InStep(s: Ctx) {
    if LegOf(s.currState).Some? then LegInStep(s, LegOf(s.currState).value) else
    match s.currState
    case READY_ST => s.nextEvent == START_EVT && !s.fwdDone && !s.revDone && s.status == ST_PENDING
    case SELECTING_FWD_SERVER_ST =>
      && s.cfg.forward.Some? && !s.fwdDone && !s.revDone && s.status == ST_PENDING
      && (s.nextEvent == SELECT_SERVER_EVT ||
          (s.nextEvent == SERVER_IO_ERROR_EVT && s.servers == s.cfg.forward.value.servers))
    case SELECTING_REV_SERVER_ST =>
      && s.fwdDone == s.cfg.forward.Some? && !s.revDone && s.status == ST_PENDING
      && (s.cfg.reverse.Some? || s.cfg.forward.None?)
      && (s.nextEvent == SELECT_SERVER_EVT ||
          (s.nextEvent == SERVER_IO_ERROR_EVT && s.cfg.reverse.Some? && s.servers == s.cfg.reverse.value.servers))
    case PROCESS_TRANS_OK_ST =>
      && s.nextEvent == UPDATE_OK_EVT && HasDomain(s.cfg)
      && s.fwdDone == s.cfg.forward.Some? && s.revDone == s.cfg.reverse.Some?
    case PROCESS_TRANS_FAILED_ST =>
      && (s.nextEvent == UPDATE_FAILED_EVT || s.nextEvent == NO_MORE_SERVERS_EVT ||
          (s.cfg.change == CHG_REMOVE && s.nextEvent == SERVER_IO_ERROR_EVT))
      && HasDomain(s.cfg) && !s.revDone && (s.fwdDone ==> s.cfg.forward.Some? && s.cfg.reverse.Some?)
      && (s.cfg.reverse.None? ==> s.cfg.forward.Some?)
    case END_ST =>
      && (s.nextEvent == END_EVT || s.nextEvent == FAIL_EVT)
      && Consistent(s.cfg, Ended(s.status, s.nextEvent == FAIL_EVT, s.fwdDone, s.revDone))
    case _ => false
  }

  /** The phase in which the transaction will wait or end once the run loop stops, f being the fault of
      the next send. */
  ghost function Pending(s: Ctx, f: Fault): Phase {
    if LegOf(s.currState).Some? then LegPending(s, LegOf(s.currState).value, f) else
    match s.currState
    case SELECTING_FWD_SERVER_ST =>
      Choose(s.cfg, FirstForward(s.cfg), if s.nextEvent == SELECT_SERVER_EVT then 0 else s.nextServerPos, s.fwdDone, f)
    case SELECTING_REV_SERVER_ST =>
      Choose(s.cfg, FirstReverse(s.cfg), if s.nextEvent == SELECT_SERVER_EVT then 0 else s.nextServerPos, s.fwdDone, f)
    case PROCESS_TRANS_OK_ST => Ended(ST_COMPLETED, false, s.fwdDone, s.revDone)
    case PROCESS_TRANS_FAILED_ST => Ended(ST_FAILED, false, s.fwdDone, s.revDone)
    case END_ST => Ended(s.status, s.nextEvent == FAIL_EVT, s.fwdDone, s.revDone)
    case _ => First(s.cfg, f)
  }

  ghost function LegPending(s: Ctx, l: Leg, f: Fault): Phase {
    var server := if s.current.Some? then s.current.value else 0;
    var waiting := Waiting(l, server, s.attempts, s.fwdDone);
    if s.nextEvent == NOP_EVT then waiting
    else if s.nextEvent == IO_COMPLETED_EVT then Next(s.cfg, waiting, s.reply, f)
    else Launch(l, server, (if s.onEntry then 0 else s.attempts) + 1, s.fwdDone, f)
  }

  /** Waiting for a reply, or over. */
  ghost predicate AtRest(s: Ctx) {
    InStep(s) && (s.nextEvent == NOP_EVT <==> s.currState != END_ST)
  }

  /** How far the run loop is from its next stop. */
  ghost function Rank(s: Ctx): nat {
    if s.nextEvent == NOP_EVT then 0
    else if LegOf(s.currState).Some? then if s.nextEvent == IO_COMPLETED_EVT then 4 else 2
    else if s.currState == END_ST then 0
    else if s.currState == PROCESS_TRANS_OK_ST || s.currState == PROCESS_TRANS_FAILED_ST then 1
    else if s.currState == SELECTING_FWD_SERVER_ST || s.currState == SELECTING_REV_SERVER_ST then 3
    else 4
  }

  /** Where a transaction is headed: the phase it will stop in, and how many updates it had sent before
      the one that phase waits for. */
  datatype Heading = Heading(cfg: Config, phase: Phase, sends: int)

  ghost function Headed(s: Ctx, f: Fault): Option<Heading> {
    if InStep(s) then Some(Heading(s.cfg, Pending(s, f), s.sends - if s.nextEvent == NOP_EVT then 1 else 0)) else None
  }

  /** One handler call: still headed for the same phase, and closer to it. */
  ghost predicate Advances(s: Ctx, u: Ctx, f: Fault) {
    Headed(u, f) == Headed(s, f) && Rank(u) < Rank(s)
  }

  // ----- what a handler of a sending state does, whichever of the six it is -----

  function StateOf(l: Leg): (state: State)
    ensures LegOf(state) == Some(l)
  {
    match l
    case AddFwd => ADDING_FWD_ADDRS_ST
    case ReplaceFwd => REPLACING_FWD_ADDRS_ST
    case ReplaceRev => REPLACING_REV_PTRS_ST
    case RemoveAddr => REMOVING_FWD_ADDRS_ST
    case RemoveRRs => REMOVING_FWD_RRS_ST
    case RemoveRev => REMOVING_REV_PTRS_ST
  }

  function Go(s: Ctx, state: State, event: Event): Ctx {
    s.(currState := state, nextEvent := event, onEntry := state != END_ST && s.currState != state)
  }

  function Fail(s: Ctx): Ctx { Go(s, PROCESS_TRANS_FAILED_ST, UPDATE_FAILED_EVT) }

  /** Entering a state afresh, rather than re-entering it, clears the attempts. */
  function Entered(s: Ctx): Ctx {
    s.(onEntry := false, attempts := if s.onEntry then 0 else s.attempts)
  }

  /** Handing a message to the DNS client. */
  function Posted(s: Ctx, m: Message, f: Fault): Ctx {
    var tried := s.(attempts := s.attempts + 1);
    if f == SendThrows || s.current.None? then Fail(tried)
    else tried.(nextEvent := NOP_EVT, sends := s.sends + 1, last := Some(Transmission(s.current.value, m)))
  }

  /** Sending the request of a leg. */
  function Launched(s: Ctx, l: Leg, f: Fault): Ctx {
    if f == BuildThrows || DomainOf(s.cfg, l).None? then Fail(s) else Posted(s, RequestOf(s.cfg, l), f)
  }

  function GiveUpState(l: Leg): State {
    if l == RemoveRRs then PROCESS_TRANS_FAILED_ST
    else if IsReverse(l) then SELECTING_REV_SERVER_ST
    else SELECTING_FWD_SERVER_ST
  }

  function ProceedEvent(l: Leg): Event {
    if l == ReplaceFwd then FQDN_IN_USE_EVT else if l == RemoveRRs then UPDATE_OK_EVT else SERVER_SELECTED_EVT
  }

  /** Reacting to the reply to the request of a leg. */
  function Reacted(s: Ctx, l: Leg): Ctx {
    if IsLoss(s.reply) then
      if s.attempts < s.cfg.tries then Go(s, s.currState, SERVER_SELECTED_EVT)
      else Go(s, GiveUpState(l), SERVER_IO_ERROR_EVT)
    else if s.reply.IoStopped? then Fail(s)
    else
      match Judge(l, s.reply.rcode)
      case Reject => Fail(s)
      case Proceed(m) => Go(s, StateOf(m), ProceedEvent(m))
      case Accept =>
        if IsReverse(l) then Go(s.(revDone := true), PROCESS_TRANS_OK_ST, UPDATE_OK_EVT)
        else if s.cfg.reverse.Some? then Go(s.(fwdDone := true), SELECTING_REV_SERVER_ST, SELECT_SERVER_EVT)
        else Go(s.(fwdDone := true), PROCESS_TRANS_OK_ST, UPDATE_OK_EVT)
  }

  lemma SendAdvances(s: Ctx, l: Leg)
    requires InStep(s) && s.currState == StateOf(l) && Launches(l, s.nextEvent)
    ensures Advances(s, Launched(Entered(s), l, NoFault), NoFault)
  {
    var u := Launched(Entered(s), l, NoFault);
    assert u.currState == s.currState && u.nextEvent == NOP_EVT;
    assert LegInStep(u, l);
  }

  /** A turn to the failure state, where that is where the transaction is headed. */
  lemma FailAdvances(s: Ctx, u: Ctx, f: Fault)
    requires InStep(s) && Rank(s) > 1 && Pending(s, f) == Ended(ST_FAILED, false, u.fwdDone, false)
    requires u.cfg == s.cfg && u.sends == s.sends && u.fwdDone == s.fwdDone && !u.revDone
    requires u.currState == PROCESS_TRANS_FAILED_ST && u.nextEvent in {UPDATE_FAILED_EVT, NO_MORE_SERVERS_EVT}
    requires HasDomain(u.cfg) && (u.fwdDone ==> u.cfg.forward.Some? && u.cfg.reverse.Some?)
    requires u.cfg.reverse.None? ==> u.cfg.forward.Some?
    ensures Advances(s, u, f)
  {
    assert InStep(u);
  }

  lemma FaultAdvances(s: Ctx, l: Leg, f: Fault)
    requires InStep(s) && s.currState == StateOf(l) && Launches(l, s.nextEvent) && f != NoFault
    ensures Advances(s, Launched(Entered(s), l, f), f)
  {
    var u := Launched(Entered(s), l, f);
    assert Pending(s, f) == LegPending(s, l, f);
    FailAdvances(s, u, f);
  }

  lemma RetryAdvances(s: Ctx, l: Leg, f: Fault)
    requires InStep(s) && s.currState == StateOf(l) && s.nextEvent == IO_COMPLETED_EVT
    requires IsLoss(s.reply) && s.attempts < s.cfg.tries
    ensures Advances(s, Reacted(Entered(s), l), f)
  {
  }

  lemma GiveUpServerAdvances(s: Ctx, l: Leg, f: Fault)
    requires InStep(s) && s.currState == StateOf(l) && s.nextEvent == IO_COMPLETED_EVT && l != RemoveRRs
    requires IsLoss(s.reply) && s.attempts >= s.cfg.tries
    ensures Advances(s, Reacted(Entered(s), l), f)
  {
    var u := Reacted(Entered(s), l);
    assert u.currState == GiveUpState(l) && u.nextEvent == SERVER_IO_ERROR_EVT;
    assert InStep(u);
  }

  lemma GiveUpAdvances(s: Ctx, l: Leg, f: Fault)
    requires InStep(s) && s.currState == StateOf(l) && s.nextEvent == IO_COMPLETED_EVT
    requires IsLoss(s.reply) && s.attempts >= s.cfg.tries
    ensures Advances(s, Reacted(Entered(s), l), f)
  {
    if l == RemoveRRs {
      assert InStep(Reacted(Entered(s), l));
    } else {
      GiveUpServerAdvances(s, l, f);
    }
  }

  lemma AcceptAdvances(s: Ctx, l: Leg, f: Fault)
    requires InStep(s) && s.currState == StateOf(l) && s.nextEvent == IO_COMPLETED_EVT
    requires s.reply.Answer? && Judge(l, s.reply.rcode) == Accept
    ensures Advances(s, Reacted(Entered(s), l), f)
  {
  }

  lemma ProceedAdvances(s: Ctx, l: Leg, f: Fault)
    requires InStep(s) && s.currState == StateOf(l) && s.nextEvent == IO_COMPLETED_EVT
    requires s.reply.Answer? && Judge(l, s.reply.rcode).Proceed?
    ensures Advances(s, Reacted(Entered(s), l), f)
  {
  }

  lemma RejectAdvances(s: Ctx, l: Leg, f: Fault)
    requires InStep(s) && s.currState == StateOf(l) && s.nextEvent == IO_COMPLETED_EVT
    requires s.reply.IoStopped? || (s.reply.Answer? && Judge(l, s.reply.rcode) == Reject)
    ensures Advances(s, Reacted(Entered(s), l), f)
  {
  }

  lemma ReactAdvances(s: Ctx, l: Leg, f: Fault)
    requires InStep(s) && s.currState == StateOf(l) && s.nextEvent == IO_COMPLETED_EVT
    ensures Advances(s, Reacted(Entered(s), l), f)
  {
    if IsLoss(s.reply) {
      if s.attempts < s.cfg.tries { RetryAdvances(s, l, f); } else { GiveUpAdvances(s, l, f); }
    } else if s.reply.IoStopped? || Judge(l, s.reply.rcode) == Reject {
      RejectAdvances(s, l, f);
    } else if Judge(l, s.reply.rcode) == Accept {
      AcceptAdvances(s, l, f);
    } else {
      ProceedAdvances(s, l, f);
    }
  }

  /** What the handler of a sending state leaves, for every event it accepts. */
  function Handled(s: Ctx, l: Leg, f: Fault): Ctx {
    if s.nextEvent == IO_COMPLETED_EVT then Reacted(Entered(s), l) else Launched(Entered(s), l, f)
  }

  lemma SendingAdvances(s: Ctx, l: Leg, f: Fault)
    requires InStep(s) && s.currState == StateOf(l) && s.nextEvent != NOP_EVT
    ensures Advances(s, Handled(s, l, f), f)
  {
    if s.nextEvent == IO_COMPLETED_EVT {
      ReactAdvances(s, l, f);
    } else if f == NoFault {
      SendAdvances(s, l);
    } else {
      FaultAdvances(s, l, f);
    }
  }

  function Restarted(s: Ctx, d: Domain): Ctx {
    s.(servers := d.servers, nextServerPos := 0, current := None)
  }

  predicate ServerLeft(s: Ctx) { NextUsable(s.servers, s.nextServerPos).Some? }

  /** Walking on in the server list to the next usable server, or past its end. */
  function Walked(s: Ctx): Ctx {
    match NextUsable(s.servers, s.nextServerPos)
    case Some(i) => s.(current := Some(i), nextServerPos := i + 1)
    case None =>
      if s.nextServerPos < |s.servers| then s.(current := Some(|s.servers| - 1), nextServerPos := |s.servers|) else s
  }

  /** Choosing a server: the list is taken from the domain the first time, and walked on after that. */
  function Chosen(s: Ctx, d: Domain, l: Leg): Ctx {
    var from := if s.nextEvent == SELECT_SERVER_EVT then Restarted(s, d) else s;
    if ServerLeft(from) then Go(Walked(from), StateOf(l), SERVER_SELECTED_EVT)
    else Go(Walked(from), PROCESS_TRANS_FAILED_ST, NO_MORE_SERVERS_EVT)
  }

  ghost predicate Choosing(s: Ctx, d: Domain, l: Leg) {
    && InStep(s) && DomainOf(s.cfg, l) == Some(d)
    && (|| (s.currState == SELECTING_FWD_SERVER_ST && l == FirstForward(s.cfg))
        || (s.currState == SELECTING_REV_SERVER_ST && l == FirstReverse(s.cfg)))
  }

  /** A turn to a sending state, where that request is what the transaction is headed for. */
  lemma SelectedAdvances(s: Ctx, u: Ctx, l: Leg, f: Fault)
    requires InStep(s) && Rank(s) > 2 && u.current.Some?
    requires Pending(s, f) == Launch(l, u.current.value, 1, u.fwdDone, f)
    requires u.cfg == s.cfg && u.sends == s.sends
    requires u.currState == StateOf(l) && u.nextEvent == SERVER_SELECTED_EVT && u.onEntry && LegInStep(u, l)
    ensures Advances(s, u, f)
  {
    assert LegOf(u.currState) == Some(l);
  }

  lemma ChooseFoundAdvances(s: Ctx, d: Domain, l: Leg, f: Fault)
    requires Choosing(s, d, l)
    requires NextUsable(d.servers, if s.nextEvent == SELECT_SERVER_EVT then 0 else s.nextServerPos).Some?
    ensures Advances(s, Chosen(s, d, l), f)
  {
    var u := Chosen(s, d, l);
    assert Pending(s, f) == Launch(l, u.current.value, 1, s.fwdDone, f);
    SelectedAdvances(s, u, l, f);
  }

  lemma ChooseNoneAdvances(s: Ctx, d: Domain, l: Leg, f: Fault)
    requires Choosing(s, d, l)
    requires NextUsable(d.servers, if s.nextEvent == SELECT_SERVER_EVT then 0 else s.nextServerPos).None?
    ensures Advances(s, Chosen(s, d, l), f)
  {
    var u := Chosen(s, d, l);
    assert Pending(s, f) == Ended(ST_FAILED, false, s.fwdDone, false);
    FailAdvances(s, u, f);
  }

  lemma ChooseAdvances(s: Ctx, d: Domain, l: Leg, f: Fault)
    requires Choosing(s, d, l)
    ensures Advances(s, Chosen(s, d, l), f)
  {
    if NextUsable(d.servers, if s.nextEvent == SELECT_SERVER_EVT then 0 else s.nextServerPos).Some? {
      ChooseFoundAdvances(s, d, l, f);
    } else {
      ChooseNoneAdvances(s, d, l, f);
    }
  }

  lemma ReadyAdvances(s: Ctx, f: Fault)
    requires InStep(s) && s.currState == READY_ST
    ensures Advances(s, Go(s, if s.cfg.forward.Some? then SELECTING_FWD_SERVER_ST else SELECTING_REV_SERVER_ST,
                           SELECT_SERVER_EVT), f)
  {
  }

  /** Without any domain, server selection throws and the model is aborted. */
  function Aborted(s: Ctx): Ctx { Go(s, END_ST, FAIL_EVT).(status := ST_FAILED) }

  lemma AbortAdvances(s: Ctx, f: Fault)
    requires InStep(s) && s.currState == SELECTING_REV_SERVER_ST && s.cfg.reverse.None?
    ensures Advances(s, Aborted(s), f)
  {
  }

  function Finished(s: Ctx, status: Status): Ctx { Go(s.(status := status), END_ST, END_EVT) }

  lemma FinishAdvances(s: Ctx, f: Fault)
    requires InStep(s) && (s.currState == PROCESS_TRANS_OK_ST || s.currState == PROCESS_TRANS_FAILED_ST)
    ensures Advances(s, Finished(s, if s.currState == PROCESS_TRANS_OK_ST then ST_COMPLETED else ST_FAILED), f)
  {
  }

  /** One turn of the run loop, in either transaction: the handler of the current state, or the abort
      that follows when there is no domain to take servers from. */
  function Turn(s: Ctx, f: Fault): Ctx {
    if LegOf(s.currState).Some? then Handled(s, LegOf(s.currState).value, f) else
    match s.currState
    case READY_ST =>
      Go(s, if s.cfg.forward.Some? then SELECTING_FWD_SERVER_ST else SELECTING_REV_SERVER_ST, SELECT_SERVER_EVT)
    case SELECTING_FWD_SERVER_ST =>
      if s.cfg.forward.Some? then Chosen(s, s.cfg.forward.value, FirstForward(s.cfg)) else Aborted(s)
    case SELECTING_REV_SERVER_ST =>
      if s.cfg.reverse.Some? then Chosen(s, s.cfg.reverse.value, FirstReverse(s.cfg)) else Aborted(s)
    case PROCESS_TRANS_OK_ST => Finished(s, ST_COMPLETED)
    case PROCESS_TRANS_FAILED_ST => Finished(s, ST_FAILED)
    case _ => Aborted(s)
  }

  lemma TurnAdvances(s: Ctx, f: Fault)
    requires InStep(s) && s.nextEvent != NOP_EVT && s.currState != END_ST
    ensures Advances(s, Turn(s, f), f)
  {
    if LegOf(s.currState).Some? {
      SendingAdvances(s, LegOf(s.currState).value, f);
    } else {
      match s.currState
      case READY_ST => ReadyAdvances(s, f);
      case SELECTING_FWD_SERVER_ST => ChooseAdvances(s, s.cfg.forward.value, FirstForward(s.cfg), f);
      case SELECTING_REV_SERVER_ST =>
        if s.cfg.reverse.Some? {
          ChooseAdvances(s, s.cfg.reverse.value, FirstReverse(s.cfg), f);
        } else {
          AbortAdvances(s, f);
        }
      case PROCESS_TRANS_OK_ST => FinishAdvances(s, f);
      case PROCESS_TRANS_FAILED_ST => FinishAdvances(s, f);
    }
  }

  /** A transaction that has stopped is where it was headed. */
  lemma Stopped(s: Ctx, f: Fault)
    requires Headed(s, f).Some? && (s.nextEvent == NOP_EVT || s.currState == END_ST)
    ensures AtRest(s)
    ensures Headed(s, f).value ==
      Heading(s.cfg, Pending(s, NoFault), s.sends - if s.nextEvent == NOP_EVT then 1 else 0)
    ensures var p := Pending(s, NoFault);
      && (p.Waiting? <==> s.nextEvent == NOP_EVT)
      && (p.Waiting? ==> s.last == Some(Transmission(p.server, RequestOf(s.cfg, p.leg))))
  {
  }

  /** A reply sends a waiting transaction to the next phase. */
  lemma ReplyHeads(s: Ctx, reply: Reply, f: Fault)
    requires AtRest(s) && s.currState != END_ST
    ensures Headed(s.(nextEvent := IO_COMPLETED_EVT, reply := reply), f)
         == Some(Heading(s.cfg, Next(s.cfg, Pending(s, NoFault), reply, f), s.sends))
  {
  }

  lemma StartHeads(s: Ctx, f: Fault)
    requires s.currState == READY_ST && s.nextEvent == START_EVT && !s.fwdDone && !s.revDone && s.status == ST_PENDING
    ensures Headed(s, f) == Some(Heading(s.cfg, First(s.cfg, f), s.sends))
  {
  }

  class NameChangeTransaction {
    const cfg: Config
    var currState: State
    var nextEvent: Event
    var onEntry: bool
    var servers: seq<Server>
    var nextServerPos: nat
    var current: Option<nat>
    var attempts: nat
    var request: Option<Message>
    var reply: Reply
    var fwdDone: bool
    var revDone: bool
    var status: Status
    var sent: seq<Transmission>

    constructor (cfg: Config)
      ensures this.cfg == cfg && currState == NEW_ST && nextEvent == NOP_EVT && !onEntry
      ensures servers == [] && nextServerPos == 0 && current == None && attempts == 0 && request == None
      ensures reply == OtherError && !fwdDone && !revDone && status == ST_PENDING && sent == []
    {
      this.cfg := cfg;
      currState, nextEvent, onEntry := NEW_ST, NOP_EVT, false;
      servers, nextServerPos, current := [], 0, None;
      attempts, request, reply := 0, None, OtherError;
      fwdDone, revDone, status, sent := false, false, ST_PENDING, [];
    }

    /** Everything the handlers look at; `sends` counts the updates handed to the DNS client and
        `last` is the latest of them. */
    ghost function Snap(): Ctx
      reads this
    {
      Ctx(cfg, currState, nextEvent, onEntry, servers, nextServerPos, current, attempts, reply,
          fwdDone, revDone, status, |sent|, if sent == [] then None else Some(sent[|sent| - 1]))
    }

    method SetState(state: State)
      modifies `currState, `onEntry
      ensures currState == state
      ensures onEntry == (state != END_ST && old(currState) != state)
    {
      onEntry := state != END_ST && currState != state;
      currState := state;
    }

    method Transition(state: State, event: Event)
      modifies `currState, `onEntry, `nextEvent
      ensures Snap() == Go(old(Snap()), state, event)
    {
      SetState(state);
      nextEvent := event;
    }

    method EndModel()
      modifies `currState, `onEntry, `nextEvent
      ensures Snap() == Go(old(Snap()), END_ST, END_EVT)
    {
      Transition(END_ST, END_EVT);
    }

    /** The forward change is made: on to the reverse one, if there is one to make. */
    method ForwardChangeCompleted()
      modifies `currState, `onEntry, `nextEvent, `fwdDone
      ensures Snap() ==
        if cfg.reverse.Some? then Go(old(Snap()).(fwdDone := true), SELECTING_REV_SERVER_ST, SELECT_SERVER_EVT)
        else Go(old(Snap()).(fwdDone := true), PROCESS_TRANS_OK_ST, UPDATE_OK_EVT)
    {
      fwdDone := true;
      if cfg.reverse.Some? {
        Transition(SELECTING_REV_SERVER_ST, SELECT_SERVER_EVT);
      } else {
        Transition(PROCESS_TRANS_OK_ST, UPDATE_OK_EVT);
      }
    }

    /** An exception that escapes a handler ends the model and fails the request. */
    method AbortModel()
      modifies `currState, `onEntry, `nextEvent, `status
      ensures Snap() == Aborted(old(Snap()))
    {
      Transition(END_ST, FAIL_EVT);
      status := ST_FAILED;
    }

    method ClearAttemptsOnEntry()
      modifies `onEntry, `attempts
      ensures Snap() == Entered(old(Snap()))
    {
      var entered := onEntry;
      onEntry := false;
      if entered {
        attempts := 0;
      }
    }

    method RetryTransition(failTo: State)
      modifies `currState, `onEntry, `nextEvent
      ensures Snap() == if old(attempts) < cfg.tries
                        then Go(old(Snap()), old(currState), SERVER_SELECTED_EVT)
                        else Go(old(Snap()), failTo, SERVER_IO_ERROR_EVT)
    {
      if attempts < cfg.tries {
        Transition(currState, SERVER_SELECTED_EVT);
      } else {
        Transition(failTo, SERVER_IO_ERROR_EVT);
      }
    }

    /** Throws if there is no domain to take servers from. */
    method InitServerSelection(domain: Option<Domain>) returns (thrown: bool)
      modifies `servers, `nextServerPos, `current
      ensures thrown == domain.None?
      ensures Snap() == if thrown then old(Snap()) else Restarted(old(Snap()), domain.value)
    {
      if domain.None? {
        return true;
      }
      servers, nextServerPos, current := domain.value.servers, 0, None;
      return false;
    }

    /** Moves on to the next server that the hooks let through, if there is one. */
    method SelectNextServer() returns (found: bool)
      modifies `nextServerPos, `current
      ensures found == ServerLeft(old(Snap())) && Snap() == Walked(old(Snap()))
    {
      while nextServerPos < |servers|
        invariant old(nextServerPos) <= nextServerPos
        invariant NextUsable(servers, nextServerPos) == NextUsable(servers, old(nextServerPos))
        invariant if nextServerPos == old(nextServerPos) then current == old(current)
                  else nextServerPos <= |servers| && current == Some(nextServerPos - 1)
        decreases |servers| - nextServerPos
      {
        current := Some(nextServerPos);
        if servers[nextServerPos].usable {
          nextServerPos := nextServerPos + 1;
          return true;
        }
        nextServerPos := nextServerPos + 1;
      }
      return false;
    }

    /** Hands the request to the DNS client and waits; if that throws, the transaction fails. */
    method SendUpdate(f: Fault)
      requires request.Some?
      modifies `attempts, `currState, `onEntry, `nextEvent, `sent
      ensures Snap() == Posted(old(Snap()), request.value, f)
    {
      attempts := attempts + 1;
      if f == SendThrows || current.None? {
        Transition(PROCESS_TRANS_FAILED_ST, UPDATE_FAILED_EVT);
      } else {
        sent := sent + [Transmission(current.value, request.value)];
        nextEvent := NOP_EVT;
      }
    }
  }
}
