/**
CheckExistsRemoveTransaction: the handlers of the remove transaction and the loop that
runs them.  A handler reports an exception by returning true.
*/
module CheckExistsRemove {
  import opened Common
  import opened Dns
  import opened Requests
  import opened Protocol
  import opened NcTrans

  class CheckExistsRemoveTransaction {
    const t: NameChangeTransaction

    constructor (ncr: Ncr, forward: Option<Domain>, reverse: Option<Domain>)
      ensures t.cfg == Config(CHG_REMOVE, ncr, forward, reverse, 3)
      ensures fresh(t) && t.currState == NEW_ST && t.nextEvent == NOP_EVT
      ensures !t.fwdDone && !t.revDone && t.status == ST_PENDING && t.sent == []
    {
      t := new NameChangeTransaction(Config(CHG_REMOVE, ncr, forward, reverse, MAX_UPDATE_TRIES_PER_SERVER));
    }

    method ReadyHandler() returns (thrown: bool)
      modifies t`currState, t`nextEvent, t`onEntry
      ensures thrown <==> !Accepts(CHG_REMOVE, READY_ST, old(t.nextEvent))
      ensures thrown <==> old(t.nextEvent) !in {START_EVT}
      ensures !thrown ==>
        t.Snap() == Go(old(t.Snap()), if t.cfg.forward.Some? then SELECTING_FWD_SERVER_ST else SELECTING_REV_SERVER_ST,
                       SELECT_SERVER_EVT)
    {
      if t.nextEvent != START_EVT {
        return true;
      }
      if t.cfg.forward.Some? {
        t.Transition(SELECTING_FWD_SERVER_ST, SELECT_SERVER_EVT);
      } else {
        t.Transition(SELECTING_REV_SERVER_ST, SELECT_SERVER_EVT);
      }
      return false;
    }

    method SelectingFwdServerHandler() returns (thrown: bool)
      modifies t`currState, t`nextEvent, t`onEntry, t`servers, t`nextServerPos, t`current
      ensures thrown <==>
        || !Accepts(CHG_REMOVE, SELECTING_FWD_SERVER_ST, old(t.nextEvent))
        || (old(t.nextEvent) == SELECT_SERVER_EVT && t.cfg.forward.None?)
      ensures thrown <==>
        || old(t.nextEvent) !in {SELECT_SERVER_EVT, SERVER_IO_ERROR_EVT}
        || (old(t.nextEvent) == SELECT_SERVER_EVT && t.cfg.forward.None?)
      ensures !thrown && t.cfg.forward.Some? ==> t.Snap() == Chosen(old(t.Snap()), t.cfg.forward.value, RemoveAddr)
    {
      if t.nextEvent == SELECT_SERVER_EVT {
        thrown := t.InitServerSelection(t.cfg.forward);
        if thrown {
          return;
        }
      } else if t.nextEvent != SERVER_IO_ERROR_EVT {
        return true;
      }
      var found := t.SelectNextServer();
      if found {
        t.Transition(REMOVING_FWD_ADDRS_ST, SERVER_SELECTED_EVT);
      } else {
        t.Transition(PROCESS_TRANS_FAILED_ST, NO_MORE_SERVERS_EVT);
      }
      return false;
    }

    method RemovingFwdAddrsHandler(f: Fault) returns (thrown: bool)
      requires t.currState == REMOVING_FWD_ADDRS_ST
      modifies t`currState, t`nextEvent, t`onEntry, t`attempts, t`request, t`sent
      ensures thrown <==> !Accepts(CHG_REMOVE, REMOVING_FWD_ADDRS_ST, old(t.nextEvent))
      ensures thrown <==> old(t.nextEvent) !in {SERVER_SELECTED_EVT, IO_COMPLETED_EVT}
      ensures old(t.nextEvent) == SERVER_SELECTED_EVT ==> t.Snap() == Launched(Entered(old(t.Snap())), RemoveAddr, f)
      ensures old(t.nextEvent) == IO_COMPLETED_EVT ==> t.Snap() == Reacted(Entered(old(t.Snap())), RemoveAddr)
    {
      t.ClearAttemptsOnEntry();
      if t.nextEvent == SERVER_SELECTED_EVT {
        RemovingFwdAddrsSend(f);
      } else if t.nextEvent == IO_COMPLETED_EVT {
        RemovingFwdAddrsReply();
      } else {
        return true;
      }
      return false;
    }

    method RemovingFwdAddrsSend(f: Fault)
      modifies t`currState, t`nextEvent, t`onEntry, t`attempts, t`request, t`sent
      ensures t.Snap() == Launched(old(t.Snap()), RemoveAddr, f)
    {
      t.request := None;
      var built := BuildRemoveFwdAddressRequest(f);
      assert t.Snap() == old(t.Snap());
      if !built {
        t.Transition(PROCESS_TRANS_FAILED_ST, UPDATE_FAILED_EVT);
      } else {
        t.SendUpdate(f);
      }
    }

    /** The part of the handler that deals with the outcome of an exchange. */
    method RemovingFwdAddrsReply()
      modifies t`currState, t`nextEvent, t`onEntry
      ensures t.Snap() == Reacted(old(t.Snap()), RemoveAddr)
    {
      match t.reply
      case Answer(rcode) =>
        if rcode == NOERROR || rcode == NXRRSET {
          t.Transition(REMOVING_FWD_RRS_ST, UPDATE_OK_EVT);
        } else {
          t.Transition(PROCESS_TRANS_FAILED_ST, UPDATE_FAILED_EVT);
        }
      case Timeout => t.RetryTransition(SELECTING_FWD_SERVER_ST);
      case OtherError => t.RetryTransition(SELECTING_FWD_SERVER_ST);
      case InvalidResponse => t.RetryTransition(SELECTING_FWD_SERVER_ST);
      case IoStopped => t.Transition(PROCESS_TRANS_FAILED_ST, UPDATE_FAILED_EVT);
    }

    method RemovingFwdRRsHandler(f: Fault) returns (thrown: bool)
      requires t.currState == REMOVING_FWD_RRS_ST
      modifies t`currState, t`nextEvent, t`onEntry, t`attempts, t`request, t`fwdDone, t`sent
      ensures thrown <==> !Accepts(CHG_REMOVE, REMOVING_FWD_RRS_ST, old(t.nextEvent))
      ensures thrown <==> old(t.nextEvent) !in {UPDATE_OK_EVT, SERVER_SELECTED_EVT, IO_COMPLETED_EVT}
      ensures old(t.nextEvent) in {UPDATE_OK_EVT, SERVER_SELECTED_EVT} ==>
        t.Snap() == Launched(Entered(old(t.Snap())), RemoveRRs, f)
      ensures old(t.nextEvent) == IO_COMPLETED_EVT ==> t.Snap() == Reacted(Entered(old(t.Snap())), RemoveRRs)
    {
      t.ClearAttemptsOnEntry();
      if t.nextEvent == UPDATE_OK_EVT || t.nextEvent == SERVER_SELECTED_EVT {
        RemovingFwdRRsSend(f);
      } else if t.nextEvent == IO_COMPLETED_EVT {
        RemovingFwdRRsReply();
      } else {
        return true;
      }
      return false;
    }

    method RemovingFwdRRsSend(f: Fault)
      modifies t`currState, t`nextEvent, t`onEntry, t`attempts, t`request, t`sent
      ensures t.Snap() == Launched(old(t.Snap()), RemoveRRs, f)
    {
      t.request := None;
      var built := BuildRemoveFwdRRsRequest(f);
      assert t.Snap() == old(t.Snap());
      if !built {
        t.Transition(PROCESS_TRANS_FAILED_ST, UPDATE_FAILED_EVT);
      } else {
        t.SendUpdate(f);
      }
    }

    method RemovingFwdRRsReply()
      modifies t`currState, t`nextEvent, t`onEntry, t`fwdDone
      ensures t.Snap() == Reacted(old(t.Snap()), RemoveRRs)
    {
      match t.reply
      case Answer(rcode) =>
        if rcode == NOERROR || rcode == NXRRSET || rcode == YXRRSET {
          t.ForwardChangeCompleted();
        } else {
          t.Transition(PROCESS_TRANS_FAILED_ST, UPDATE_FAILED_EVT);
        }
      case Timeout => t.RetryTransition(PROCESS_TRANS_FAILED_ST);
      case OtherError => t.RetryTransition(PROCESS_TRANS_FAILED_ST);
      case InvalidResponse => t.RetryTransition(PROCESS_TRANS_FAILED_ST);
      case IoStopped => t.Transition(PROCESS_TRANS_FAILED_ST, UPDATE_FAILED_EVT);
    }

    method SelectingRevServerHandler() returns (thrown: bool)
      modifies t`currState, t`nextEvent, t`onEntry, t`servers, t`nextServerPos, t`current
      ensures thrown <==>
        || !Accepts(CHG_REMOVE, SELECTING_REV_SERVER_ST, old(t.nextEvent))
        || (old(t.nextEvent) == SELECT_SERVER_EVT && t.cfg.reverse.None?)
      ensures thrown <==>
        || old(t.nextEvent) !in {SELECT_SERVER_EVT, SERVER_IO_ERROR_EVT}
        || (old(t.nextEvent) == SELECT_SERVER_EVT && t.cfg.reverse.None?)
      ensures !thrown && t.cfg.reverse.Some? ==> t.Snap() == Chosen(old(t.Snap()), t.cfg.reverse.value, RemoveRev)
      ensures thrown ==> t.Snap() == old(t.Snap())
    {
      if t.nextEvent == SELECT_SERVER_EVT {
        thrown := t.InitServerSelection(t.cfg.reverse);
        if thrown {
          return;
        }
      } else if t.nextEvent != SERVER_IO_ERROR_EVT {
        return true;
      }
      var found := t.SelectNextServer();
      if found {
        t.Transition(REMOVING_REV_PTRS_ST, SERVER_SELECTED_EVT);
      } else {
        t.Transition(PROCESS_TRANS_FAILED_ST, NO_MORE_SERVERS_EVT);
      }
      return false;
    }

    method RemovingRevPtrsHandler(f: Fault) returns (thrown: bool)
      requires t.currState == REMOVING_REV_PTRS_ST
      modifies t`currState, t`nextEvent, t`onEntry, t`attempts, t`request, t`revDone, t`sent
      ensures thrown <==> !Accepts(CHG_REMOVE, REMOVING_REV_PTRS_ST, old(t.nextEvent))
      ensures thrown <==> old(t.nextEvent) !in {SERVER_SELECTED_EVT, IO_COMPLETED_EVT}
      ensures old(t.nextEvent) == SERVER_SELECTED_EVT ==> t.Snap() == Launched(Entered(old(t.Snap())), RemoveRev, f)
      ensures old(t.nextEvent) == IO_COMPLETED_EVT ==> t.Snap() == Reacted(Entered(old(t.Snap())), RemoveRev)
    {
      t.ClearAttemptsOnEntry();
      if t.nextEvent == SERVER_SELECTED_EVT {
        RemovingRevPtrsSend(f);
      } else if t.nextEvent == IO_COMPLETED_EVT {
        RemovingRevPtrsReply();
      } else {
        return true;
      }
      return false;
    }

    method RemovingRevPtrsSend(f: Fault)
      modifies t`currState, t`nextEvent, t`onEntry, t`attempts, t`request, t`sent
      ensures t.Snap() == Launched(old(t.Snap()), RemoveRev, f)
    {
      t.request := None;
      var built := BuildRemoveRevPtrsRequest(f);
      assert t.Snap() == old(t.Snap());
      if !built {
        t.Transition(PROCESS_TRANS_FAILED_ST, UPDATE_FAILED_EVT);
      } else {
        t.SendUpdate(f);
      }
    }

    method RemovingRevPtrsReply()
      modifies t`currState, t`nextEvent, t`onEntry, t`revDone
      ensures t.Snap() == Reacted(old(t.Snap()), RemoveRev)
    {
      match t.reply
      case Answer(rcode) =>
        if rcode == NOERROR || rcode == NXRRSET {
          t.revDone := true;
          t.Transition(PROCESS_TRANS_OK_ST, UPDATE_OK_EVT);
        } else {
          t.Transition(PROCESS_TRANS_FAILED_ST, UPDATE_FAILED_EVT);
        }
      case Timeout => t.RetryTransition(SELECTING_REV_SERVER_ST);
      case OtherError => t.RetryTransition(SELECTING_REV_SERVER_ST);
      case InvalidResponse => t.RetryTransition(SELECTING_REV_SERVER_ST);
      case IoStopped => t.Transition(PROCESS_TRANS_FAILED_ST, UPDATE_FAILED_EVT);
    }

    method ProcessRemoveOkHandler() returns (thrown: bool)
      modifies t`currState, t`nextEvent, t`onEntry, t`status
      ensures thrown <==> !Accepts(CHG_REMOVE, PROCESS_TRANS_OK_ST, old(t.nextEvent))
      ensures thrown <==> old(t.nextEvent) !in {UPDATE_OK_EVT}
      ensures !thrown ==> t.Snap() == Finished(old(t.Snap()), ST_COMPLETED)
    {
      if t.nextEvent != UPDATE_OK_EVT {
        return true;
      }
      t.status := ST_COMPLETED;
      t.EndModel();
      return false;
    }

    method ProcessRemoveFailedHandler() returns (thrown: bool)
      modifies t`currState, t`nextEvent, t`onEntry, t`status
      ensures thrown <==> !Accepts(CHG_REMOVE, PROCESS_TRANS_FAILED_ST, old(t.nextEvent))
      ensures thrown <==> old(t.nextEvent) !in {UPDATE_FAILED_EVT, NO_MORE_SERVERS_EVT, SERVER_IO_ERROR_EVT}
      ensures !thrown ==> t.Snap() == Finished(old(t.Snap()), ST_FAILED)
    {
      if t.nextEvent != UPDATE_FAILED_EVT && t.nextEvent != NO_MORE_SERVERS_EVT && t.nextEvent != SERVER_IO_ERROR_EVT {
        return true;
      }
      t.status := ST_FAILED;
      t.EndModel();
      return false;
    }

    method BuildRemoveFwdAddressRequest(f: Fault) returns (built: bool)
      modifies t`request
      ensures built <==> t.cfg.forward.Some? && f != BuildThrows
      ensures built ==> t.request == Some(RequestOf(t.cfg, RemoveAddr))
    {
      if t.cfg.forward.None? || f == BuildThrows {
        return false;
      }
      var fqdn := t.cfg.ncr.fqdn;
      var request := Message(t.cfg.forward.value.name, [], []);
      request := request.(prereqs := request.prereqs + [WireRR(fqdn, ANY, Only(DHCID), None)]);
      request := request.(updates := request.updates
        + [WireRR(fqdn, NONE, Only(AddressType(t.cfg.ncr.ip)), Some(Address(t.cfg.ncr.ip)))]);
      assert request == RequestOf(t.cfg, RemoveAddr);
      t.request := Some(request);
      return true;
    }

    method BuildRemoveFwdRRsRequest(f: Fault) returns (built: bool)
      modifies t`request
      ensures built <==> t.cfg.forward.Some? && f != BuildThrows
      ensures built ==> t.request == Some(RequestOf(t.cfg, RemoveRRs))
    {
      if t.cfg.forward.None? || f == BuildThrows {
        return false;
      }
      var fqdn := t.cfg.ncr.fqdn;
      var request := Message(t.cfg.forward.value.name, [], []);
      request := request.(prereqs := request.prereqs + [WireRR(fqdn, NONE, Only(A), None)]);
      request := request.(prereqs := request.prereqs + [WireRR(fqdn, NONE, Only(AAAA), None)]);
      request := request.(updates := request.updates + [WireRR(fqdn, ANY, Only(DHCID), None)]);
      assert request == RequestOf(t.cfg, RemoveRRs);
      t.request := Some(request);
      return true;
    }

    method BuildRemoveRevPtrsRequest(f: Fault) returns (built: bool)
      modifies t`request
      ensures built <==> t.cfg.reverse.Some? && f != BuildThrows
      ensures built ==> t.request == Some(RequestOf(t.cfg, RemoveRev))
    {
      if t.cfg.reverse.None? || f == BuildThrows {
        return false;
      }
      var revIp := ReverseOf(t.cfg.ncr.ip);
      var request := Message(t.cfg.reverse.value.name, [], []);
      request := request.(prereqs := request.prereqs + [WireRR(revIp, IN, Only(PTR), Some(Target(t.cfg.ncr.fqdn)))]);
      request := request.(updates := request.updates + [WireRR(revIp, ANY, AnyType, None)]);
      assert request == RequestOf(t.cfg, RemoveRev);
      t.request := Some(request);
      return true;
    }

    /** The handlers of the states that send updates. */
    method RunSendingHandler(f: Fault) returns (thrown: bool)
      requires t.cfg.change == CHG_REMOVE && t.nextEvent != NOP_EVT && LegOf(t.currState).Some? && InStep(t.Snap())
      modifies t
      ensures !thrown && t.Snap() == Handled(old(t.Snap()), LegOf(old(t.currState)).value, f)
    {
      if t.currState == REMOVING_FWD_ADDRS_ST {
        thrown := RemovingFwdAddrsHandler(f);
      } else if t.currState == REMOVING_FWD_RRS_ST {
        thrown := RemovingFwdRRsHandler(f);
      } else {
        thrown := RemovingRevPtrsHandler(f);
      }
    }

    /** One turn of the run loop: the handler of the current state, and the abort that follows from an
        exception. */
    method RunHandler(f: Fault)
      requires t.cfg.change == CHG_REMOVE && t.nextEvent != NOP_EVT && t.currState != END_ST
      requires Headed(t.Snap(), f).Some?
      modifies t
      ensures t.Snap() == Turn(old(t.Snap()), f)
      ensures Headed(t.Snap(), f) == old(Headed(t.Snap(), f)) && Rank(t.Snap()) < old(Rank(t.Snap()))
    {
      ghost var s := t.Snap();
      TurnAdvances(s, f);
      var thrown;
      if LegOf(t.currState).Some? {
        thrown := RunSendingHandler(f);
      } else if t.currState == READY_ST {
        thrown := ReadyHandler();
      } else if t.currState == SELECTING_FWD_SERVER_ST {
        thrown := SelectingFwdServerHandler();
      } else if t.currState == SELECTING_REV_SERVER_ST {
        thrown := SelectingRevServerHandler();
      } else if t.currState == PROCESS_TRANS_OK_ST {
        thrown := ProcessRemoveOkHandler();
      } else {
        thrown := ProcessRemoveFailedHandler();
      }
      if thrown {
        t.AbortModel();
      }
      assert t.Snap() == Turn(s, f);
    }

    /** Runs handlers until the transaction waits for a reply or is over. */
    method RunModel(event: Event, f: Fault)
      requires t.cfg.change == CHG_REMOVE && event != NOP_EVT && t.currState != END_ST
      requires Headed(t.Snap().(nextEvent := event), f).Some?
      modifies t
      ensures Headed(t.Snap(), f) == Headed(old(t.Snap()).(nextEvent := event), f)
      ensures t.currState == END_ST || t.nextEvent == NOP_EVT
    {
      t.nextEvent := event;
      assert t.Snap() == old(t.Snap()).(nextEvent := event);
      ghost var heading := Headed(t.Snap(), f);
      RunHandler(f);
      while t.currState != END_ST && t.nextEvent != NOP_EVT
        invariant Headed(t.Snap(), f) == heading
        decreases Rank(t.Snap())
      {
        RunHandler(f);
      }
    }

    /** Starting the transaction leads to the first phase of the protocol. */
    method StartTransaction(f: Fault)
      requires t.cfg.change == CHG_REMOVE && t.currState == NEW_ST && !t.fwdDone && !t.revDone
      modifies t
      ensures AtRest(t.Snap()) && Pending(t.Snap(), NoFault) == First(t.cfg, f)
      ensures |t.sent| == old(|t.sent|) + if First(t.cfg, f).Waiting? then 1 else 0
      ensures var p := First(t.cfg, f);
        p.Waiting? ==> t.sent[|t.sent| - 1] == Transmission(p.server, RequestOf(t.cfg, p.leg))
    {
      t.status := ST_PENDING;
      t.SetState(READY_ST);
      StartHeads(t.Snap().(nextEvent := START_EVT), f);
      RunModel(START_EVT, f);
      Stopped(t.Snap(), f);
    }

    /** The callback of the DNS client: a reply leads to the next phase of the protocol, and an update
        is sent exactly if that phase waits for one. */
    method IoCompleted(reply: Reply, f: Fault)
      requires t.cfg.change == CHG_REMOVE && AtRest(t.Snap()) && t.currState != END_ST
      modifies t
      ensures AtRest(t.Snap())
      ensures Pending(t.Snap(), NoFault) == Next(t.cfg, old(Pending(t.Snap(), NoFault)), reply, f)
      ensures |t.sent| == old(|t.sent|) + if Pending(t.Snap(), NoFault).Waiting? then 1 else 0
      ensures var p := Pending(t.Snap(), NoFault);
        p.Waiting? ==> t.sent[|t.sent| - 1] == Transmission(p.server, RequestOf(t.cfg, p.leg))
    {
      ReplyHeads(t.Snap(), reply, f);
      t.reply := reply;
      assert t.Snap() == old(t.Snap()).(reply := reply);
      RunModel(IO_COMPLETED_EVT, f);
      Stopped(t.Snap(), f);
    }
  }
}
