/** The disconnection of the Sierra XMM bearer: deactivate the context with
    +CGACT=0 and report success whatever the modem answers. */
module SierraXmmDisconnect {
  import opened Wrappers
  import opened AtCommands

  datatype DisconnectStep = DisconnectFirst | DisconnectCgact | DisconnectLast {
    function Index(): (n: nat)
      ensures n <= 2
    {
      match this
      case DisconnectFirst => 0
      case DisconnectCgact => 1
      case DisconnectLast => 2
    }
  }

  /** Whether cgact_disconnect_ready reports a failed deactivation in the
      debug log: any error except NO CARRIER. */
  predicate LogsFailure(reply: Reply) {
    reply.Failure? && reply.error != NoCarrier
  }

  /** The context of one disconnection (Disconnect3gppContext). */
  class Disconnect3gppContext {
    const cid: nat
    const primary: AtPort
    var step: DisconnectStep

    constructor(cid: nat, primary: AtPort)
      ensures this.cid == cid && this.primary == primary && step == DisconnectFirst
    {
      this.cid := cid;
      this.primary := primary;
      step := DisconnectFirst;
    }

    /** disconnect_3gpp_context_step and cgact_disconnect_ready: the first
        step falls through to +CGACT=0,<cid>, whose reply is only looked at
        for logging, and the last step returns TRUE. */
    method Run() returns (ok: bool, ghost logged: bool)
      requires step == DisconnectFirst
      modifies this, primary
      ensures ok
      ensures primary.sent == old(primary.sent) + [SetCgact(false, cid)]
      ensures logged == LogsFailure(ReplyAt(primary.replies, |old(primary.sent)|))
      ensures step == DisconnectLast
    {
      ghost var before := primary.sent;
      ok, logged := false, false;
      var done := false;
      while !done
        invariant step == DisconnectFirst ==> !done && primary.sent == before
        invariant step == DisconnectLast ==>
                    primary.sent == before + [SetCgact(false, cid)]
                    && logged == LogsFailure(ReplyAt(primary.replies, |before|))
        invariant step != DisconnectCgact
        invariant done ==> ok && step == DisconnectLast
        decreases if done then 0 else 3 - step.Index()
      {
        match step
        case DisconnectFirst =>
          step := DisconnectCgact;
          var reply := primary.Command(SetCgact(false, cid));
          logged := LogsFailure(reply);
          step := DisconnectLast;
        case DisconnectLast =>
          ok, done := true, true;
      }
    }
  }

  /** disconnect_3gpp: deactivate the context on a primary port that answers
      with the given replies. The result is TRUE for every reply, a timeout,
      an error and NO CARRIER included, and the one command sent is
      +CGACT=0,<cid>, given the 30 seconds of a context deactivation. */
  method Disconnect3gpp(cid: nat, replies: seq<Reply>) returns (ok: bool, sent: seq<AtCommand>)
    ensures ok
    ensures sent == [SetCgact(false, cid)]
    ensures Render(sent[0]) == "+CGACT=0," + Text.Decimal(cid) && TimeoutSeconds(sent[0]) == 30
  {
    var primary := new AtPort(replies);
    var ctx := new Disconnect3gppContext(cid, primary);
    ghost var logged;
    ok, logged := ctx.Run();
    sent := primary.sent;
  }
}
