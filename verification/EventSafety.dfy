/**
Over every run of either transaction the next event is one that the handler of
the current state accepts.
*/
module EventSafety {
  import opened Common
  import opened Dns
  import opened Requests
  import opened Protocol
  import opened NcTrans

  /** A transaction just started. */
  function Started(c: Config): Ctx {
    Ctx(c, READY_ST, START_EVT, true, [], 0, None, 0, OtherError, false, false, ST_PENDING, 0, None)
  }

  /** One step: the reply that a waiting transaction gets, or the turn of the next handler, whose send
      may meet a fault. */
  function MicroStep(s: Ctx, x: Exchange): Ctx {
    if s.currState == END_ST then s
    else if s.nextEvent == NOP_EVT then s.(nextEvent := IO_COMPLETED_EVT, reply := x.reply)
    else Turn(s, x.fault)
  }

  function MicroRun(s: Ctx, xs: seq<Exchange>): Ctx {
    if xs == [] then s else MicroStep(MicroRun(s, xs[..|xs| - 1]), xs[|xs| - 1])
  }

  lemma {:induction false} RunStaysInStep(s: Ctx, xs: seq<Exchange>)
    requires InStep(s)
    ensures InStep(MicroRun(s, xs)) && MicroRun(s, xs).cfg == s.cfg
  {
    if xs != [] {
      var before, x := xs[..|xs| - 1], xs[|xs| - 1];
      RunStaysInStep(s, before);
      var u := MicroRun(s, before);
      if u.currState != END_ST {
        if u.nextEvent == NOP_EVT {
          ReplyHeads(u, x.reply, x.fault);
        } else {
          TurnAdvances(u, x.fault);
        }
      }
    }
  }

  /** No handler ever sees an event that it would throw on, and the failure state sees an exhausted
      server only in a removal. */
  lemma NoWrongEvent(c: Config, xs: seq<Exchange>)
    ensures var s := MicroRun(Started(c), xs);
      && (s.currState == END_ST || s.nextEvent == NOP_EVT || Accepts(c.change, s.currState, s.nextEvent))
      && (c.change == CHG_ADD && s.currState == PROCESS_TRANS_FAILED_ST ==> s.nextEvent != SERVER_IO_ERROR_EVT)
      && (s.currState == END_ST && s.nextEvent == FAIL_EVT ==> !HasDomain(c))
  {
    RunStaysInStep(Started(c), xs);
  }
}
