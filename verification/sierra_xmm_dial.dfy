/** The dialling sequence of the Sierra XMM bearer: check whether the context
    is already active, set authentication and DNS provisioning, activate the
    context, map and start the data channel, and hand back the data port. */
module SierraXmmDial {
  import opened Wrappers
  import opened AtCommands

  // ---------------------------------------------------------------------
  // The bearer's configuration and the modem's helpers

  /** The methods a bearer's properties may allow (MMBearerAllowedAuth); the
      empty set is MM_BEARER_ALLOWED_AUTH_UNKNOWN. */
  datatype AuthFlag = AllowNone | AllowPap | AllowChap | AllowMschap | AllowMschapV2 | AllowEap

  /** The IP type of the bearer's properties, as the XDNS step tells it apart. */
  datatype IpType = IpTypeIpv4 | IpTypeIpv6 | IpTypeIpv4v6 | IpTypeOther

  /** What the dial reads from the bearer's configuration. */
  datatype BearerProperties = BearerProperties(
    user: Option<string>,
    password: Option<string>,
    allowedAuth: set<AuthFlag>,
    ipType: IpType)

  /** One entry of a parsed +CGACT? reply (MM3gppPdpContextActive). */
  datatype PdpContextActive = PdpContextActive(cid: nat, active: bool)

  /** The modem's helpers the dial calls: the +CGACT? reply parser, whose
      empty list stands for the NULL it returns both on a parse error and on
      a reply without contexts, and the conversion of a string to the
      modem's current character set, None when it fails. */
  datatype Modem = Modem(
    parseCgact: string -> seq<PdpContextActive>,
    encode: string -> Option<string>)

  // ---------------------------------------------------------------------
  // build_auth_string and the +XDNS family

  /** The +WPPP method: CHAP is preferred over PAP, an unknown set of allowed
      methods means CHAP, and anything else (NONE, or only MSCHAP, MSCHAPv2
      or EAP) means no authentication. */
  function SelectAuthMethod(allowed: set<AuthFlag>): (m: AuthMethod)
    ensures m == AuthChap <==> AllowChap in allowed || allowed == {}
    ensures m == AuthPap <==> AllowChap !in allowed && AllowPap in allowed
    ensures m.Code() <= 2
  {
    if AllowChap in allowed then AuthChap
    else if AllowPap in allowed then AuthPap
    else if allowed == {} then AuthChap
    else AuthNone
  }

  /** A credential converted to the modem's character set; a missing one, or
      one whose conversion fails, is sent as an empty string. */
  function EncodedOrEmpty(credential: Option<string>, encode: string -> Option<string>): string {
    if credential.Some? then encode(credential.value).GetOr("") else ""
  }

  /** build_auth_string: without user and password the command carries no
      authentication and empty credentials; with either of them, the
      selected method and both credentials converted. */
  function BuildAuthString(props: BearerProperties, cid: nat, encode: string -> Option<string>): (c: AtCommand)
    ensures c.SetWppp? && c.cid == cid
    ensures props.user.None? && props.password.None? ==> c.auth == AuthNone && c.user == "" && c.password == ""
    ensures props.user.Some? || props.password.Some? ==> c.auth == SelectAuthMethod(props.allowedAuth)
    ensures props.user.Some? ==> c.user == encode(props.user.value).GetOr("")
    ensures props.password.Some? ==> c.password == encode(props.password.value).GetOr("")
    ensures props.user.None? ==> c.user == ""
    ensures props.password.None? ==> c.password == ""
  {
    if props.user.Some? || props.password.Some? then
      SetWppp(SelectAuthMethod(props.allowedAuth), cid,
              EncodedOrEmpty(props.user, encode), EncodedOrEmpty(props.password, encode))
    else
      SetWppp(AuthNone, cid, "", "")
  }

  /** Without credentials the command is exactly `+WPPP=0,<cid>,"",""`. */
  lemma AuthStringWithoutCredentials(props: BearerProperties, cid: nat, encode: string -> Option<string>)
    requires props.user.None? && props.password.None?
    ensures Render(BuildAuthString(props, cid, encode)) == "+WPPP=0," + Text.Decimal(cid) + ",\"\",\"\""
  {
    assert Text.Decimal(0) == "0";
  }

  /** With a user but no password, the password field is empty and the
      method is still chosen from the allowed set. */
  lemma AuthStringUserOnly(props: BearerProperties, cid: nat, encode: string -> Option<string>)
    requires props.user.Some? && props.password.None?
    ensures BuildAuthString(props, cid, encode)
            == SetWppp(SelectAuthMethod(props.allowedAuth), cid, encode(props.user.value).GetOr(""), "")
  {
  }

  /** The family argument of +XDNS: 1 for IPv4, 2 for IPv6, 3 for IPv4v6 and
      for anything else. */
  function XdnsFamilyFor(t: IpType): (f: DnsFamily)
    ensures f.Code() == 1 <==> t == IpTypeIpv4
    ensures f.Code() == 2 <==> t == IpTypeIpv6
    ensures f.Code() == 3 <==> t != IpTypeIpv4 && t != IpTypeIpv6
  {
    match t
    case IpTypeIpv4 => DnsIpv4
    case IpTypeIpv6 => DnsIpv6
    case _ => DnsIpv4v6
  }

  // ---------------------------------------------------------------------
  // dial_3gpp_cgact_check_ready: is the context already active?

  /** The first entry of the list for cid, if any. */
  function FirstContext(list: seq<PdpContextActive>, cid: nat): (r: Option<PdpContextActive>)
    ensures r.None? <==> forall i :: 0 <= i < |list| ==> list[i].cid != cid
    ensures r.Some? ==> exists i :: 0 <= i < |list| && list[i] == r.value && r.value.cid == cid
                                    && forall j :: 0 <= j < i ==> list[j].cid != cid
  {
    if list == [] then None
    else if list[0].cid == cid then Some(list[0])
    else
      var r := FirstContext(list[1..], cid);
      assert forall i :: 1 <= i < |list| ==> list[i] == list[1..][i - 1];
      if r.Some? then
        ghost var i :| 0 <= i < |list[1..]| && list[1..][i] == r.value && r.value.cid == cid
                       && forall j :: 0 <= j < i ==> list[1..][j].cid != cid;
        assert list[i + 1] == r.value;
        r
      else r
  }

  /** The skip test: the first entry for cid says it is active. */
  predicate ContextActive(list: seq<PdpContextActive>, cid: nat) {
    var p := FirstContext(list, cid);
    p.Some? && p.value.active
  }

  /** The loop over the parsed list: stop at the first entry with the cid. */
  method FindContext(list: seq<PdpContextActive>, cid: nat) returns (found: Option<PdpContextActive>)
    ensures found == FirstContext(list, cid)
  {
    var i := 0;
    while i < |list|
      invariant 0 <= i <= |list|
      invariant FirstContext(list[i..], cid) == FirstContext(list, cid)
      decreases |list| - i
    {
      if list[i].cid == cid {
        return Some(list[i]);
      }
      assert list[i..][1..] == list[i + 1..];
      i := i + 1;
    }
    return None;
  }

  // ---------------------------------------------------------------------
  // The plan of a dial

  /** The context once dial_3gpp has validated it: the cid, the bearer's
      properties, the data port and the two USB configuration indices. */
  datatype DialParams = DialParams(cid: nat, props: BearerProperties, data: nat, acmIndex: nat, ncmIndex: nat)

  /** The commands of a dial that meets no failure: +CGACT?, then unless the
      context is already active +WPPP, +XDNS and +CGACT=1, then
      +XDATACHANNEL and +CGDATA. */
  function DialPlan(p: DialParams, modem: Modem, active: bool): (plan: seq<AtCommand>)
    ensures |plan| == if active then 3 else 6
    ensures plan[0] == CgactQuery && plan[|plan| - 1] == StartDataChannel(p.cid)
  {
    [CgactQuery]
    + (if active then []
       else [BuildAuthString(p.props, p.cid, modem.encode), SetXdns(p.cid, XdnsFamilyFor(p.props.ipType)), SetCgact(true, p.cid)])
    + [SetDataChannel(p.acmIndex, p.ncmIndex, p.cid), StartDataChannel(p.cid)]
  }

  /** Why a dial failed. ErrorNotSet marks the negative USB index case: the
      C code hands a NULL GError to g_task_return_error, which refuses it,
      and then drops the task, so the dial never completes. */
  datatype DialError = NoDataPort | ErrorNotSet | Cancelled | CommandFailed(error: ChannelError)

  /** How a dial ends; AssertionAbort is the g_assert on an empty +CGACT?
      list, which stops the process. */
  datatype DialOutcome = Connected(port: nat) | DialFailed(error: DialError) | AssertionAbort

  /** How a dial ends and the commands it sent, in order. */
  datatype DialRun = DialRun(outcome: DialOutcome, sent: seq<AtCommand>)

  /** Carry out plan from its k-th command on: at each step the task is
      first checked for cancellation, a failed reply ends the dial, and the
      step after the last command hands back the data port. */
  function IssueFrom(plan: seq<AtCommand>, replies: seq<Reply>, cancelled: seq<bool>, data: nat, k: nat): DialRun
    requires k <= |plan|
    decreases |plan| - k
  {
    if CancelledAt(cancelled, k) then DialRun(DialFailed(Cancelled), plan[..k])
    else if k == |plan| then DialRun(Connected(data), plan)
    else match ReplyAt(replies, k)
      case Failure(e) => DialRun(DialFailed(CommandFailed(e)), plan[..k + 1])
      case Success(_) => IssueFrom(plan, replies, cancelled, data, k + 1)
  }

  /** The dial once the context is validated: +CGACT? decides the plan. */
  function Dialled(p: DialParams, modem: Modem, replies: seq<Reply>, cancelled: seq<bool>): DialRun {
    if CancelledAt(cancelled, 0) then DialRun(DialFailed(Cancelled), [])
    else match ReplyAt(replies, 0)
      case Failure(e) => DialRun(DialFailed(CommandFailed(e)), [CgactQuery])
      case Success(text) =>
        var list := modem.parseCgact(text);
        if list == [] then DialRun(AssertionAbort, [CgactQuery])
        else IssueFrom(DialPlan(p, modem, ContextActive(list, p.cid)), replies, cancelled, p.data, 1)
  }

  /** What dial_3gpp is asked for: the data port the modem offers, if any,
      and the USB indices read from the port's device, -1 when missing. */
  datatype DialRequest = DialRequest(cid: nat, props: BearerProperties, dataPort: Option<nat>, ncmIndex: int, acmIndex: int)

  /** dial_3gpp as a whole. */
  function DialSpec(req: DialRequest, modem: Modem, replies: seq<Reply>, cancelled: seq<bool>): DialRun {
    if req.dataPort.None? then DialRun(DialFailed(NoDataPort), [])
    else if req.ncmIndex < 0 || req.acmIndex < 0 then DialRun(DialFailed(ErrorNotSet), [])
    else Dialled(DialParams(req.cid, req.props, req.dataPort.value, req.acmIndex, req.ncmIndex), modem, replies, cancelled)
  }

  // ---------------------------------------------------------------------
  // The step machine

  datatype DialStep =
    | DialFirst | DialCheckCgact | DialSetWppp | DialSetXdns | DialSetCgact
    | DialSetDataChan | DialStartDataChan | DialLast
  {
    /** The value of the C enumerator. */
    function Index(): (n: nat)
      ensures n <= 7
    {
      match this
      case DialFirst => 0
      case DialCheckCgact => 1
      case DialSetWppp => 2
      case DialSetXdns => 3
      case DialSetCgact => 4
      case DialSetDataChan => 5
      case DialStartDataChan => 6
      case DialLast => 7
    }

    /** ctx->step++ */
    function Next(): (s: DialStep)
      requires this != DialLast
      ensures s.Index() == Index() + 1
    {
      match this
      case DialFirst => DialCheckCgact
      case DialCheckCgact => DialSetWppp
      case DialSetWppp => DialSetXdns
      case DialSetXdns => DialSetCgact
      case DialSetCgact => DialSetDataChan
      case DialSetDataChan => DialStartDataChan
      case DialStartDataChan => DialLast
    }
  }

  /** The command each step after +CGACT? sends: the body of the switch in
      dial_3gpp_context_step. */
  function StepCommand(p: DialParams, modem: Modem, step: DialStep): AtCommand
    requires step != DialFirst && step != DialCheckCgact && step != DialLast
  {
    match step
    case DialSetWppp => BuildAuthString(p.props, p.cid, modem.encode)
    case DialSetXdns => SetXdns(p.cid, XdnsFamilyFor(p.props.ipType))
    case DialSetCgact => SetCgact(true, p.cid)
    case DialSetDataChan => SetDataChannel(p.acmIndex, p.ncmIndex, p.cid)
    case DialStartDataChan => StartDataChannel(p.cid)
  }

  /** The step the machine is in once k commands of the plan have been sent,
      for k from 1 on: after +CGACT? either the authentication step or, for
      an active context, the data channel step. */
  function StepAfter(active: bool, k: nat): DialStep {
    var steps := if active then [DialSetDataChan, DialStartDataChan, DialLast]
                 else [DialSetWppp, DialSetXdns, DialSetCgact, DialSetDataChan, DialStartDataChan, DialLast];
    if 1 <= k <= |steps| then steps[k - 1] else DialLast
  }

  /** Steps and plan walk together: the step after k commands sends the
      k-th command of the plan and is followed by the step after k + 1. */
  lemma StepAfterFollowsPlan(p: DialParams, modem: Modem, active: bool, k: nat)
    requires 1 <= k <= |DialPlan(p, modem, active)|
    ensures StepAfter(active, k) != DialFirst && StepAfter(active, k) != DialCheckCgact
    ensures StepAfter(active, k) == DialLast <==> k == |DialPlan(p, modem, active)|
    ensures k < |DialPlan(p, modem, active)| ==>
              DialPlan(p, modem, active)[k] == StepCommand(p, modem, StepAfter(active, k))
              && StepAfter(active, k + 1) == StepAfter(active, k).Next()
  {
  }

  /** The context of one dial (Dial3gppContext): the validated parameters,
      the modem, its primary port and the current step. */
  class Dial3gppContext {
    const params: DialParams
    const modem: Modem
    const primary: AtPort
    var step: DialStep

    constructor(params: DialParams, modem: Modem, primary: AtPort)
      ensures this.params == params && this.modem == modem && this.primary == primary
      ensures step == DialFirst
    {
      this.params := params;
      this.modem := modem;
      this.primary := primary;
      step := DialFirst;
    }

    /** Part way through the plan chosen by +CGACT?: the commands sent so far
        are a prefix of it, the step is the one that sends the next, and the
        rest of the dial is what the plan says from there. */
    ghost predicate OnPlan(active: bool, cancelled: seq<bool>)
      reads this, primary
    {
      var plan := DialPlan(params, modem, active);
      1 <= |primary.sent| <= |plan|
      && step == StepAfter(active, |primary.sent|)
      && primary.sent == plan[..|primary.sent|]
      && Dialled(params, modem, primary.replies, cancelled)
         == IssueFrom(plan, primary.replies, cancelled, params.data, |primary.sent|)
    }

    /** dial_3gpp_context_step and its reply callbacks, from the first step
        until the task returns. cancelled[k] tells whether the task is
        cancelled when the step entered after k commands checks it. */
    method Run(cancelled: seq<bool>) returns (outcome: DialOutcome)
      requires step == DialFirst && primary.sent == []
      modifies this, primary
      ensures DialRun(outcome, primary.sent) == Dialled(params, modem, primary.replies, cancelled)
    {
      ghost var active := false;
      var finished: Option<DialOutcome> := None;
      while finished.None?
        invariant step == DialFirst && finished.None? ==> primary.sent == []
        invariant finished.None? && step != DialFirst ==> OnPlan(active, cancelled)
        invariant finished.Some? ==> DialRun(finished.value, primary.sent) == Dialled(params, modem, primary.replies, cancelled)
        decreases if finished.Some? then 0 else 8 - step.Index()
      {
        if CancelledAt(cancelled, |primary.sent|) {
          finished := Some(DialFailed(Cancelled));
        } else if step == DialFirst {
          finished, active := CheckCgact(cancelled);
        } else {
          finished := NextStep(active, cancelled);
        }
      }
      outcome := finished.value;
    }

    /** The first step, which falls through to CHECK_CGACT, and
        dial_3gpp_cgact_check_ready: send +CGACT?, and unless it fails or
        yields no list, go on with the data channel when the first entry for
        the cid is active and with authentication otherwise. */
    method CheckCgact(ghost cancelled: seq<bool>) returns (finished: Option<DialOutcome>, ghost active: bool)
      requires step == DialFirst && primary.sent == [] && !CancelledAt(cancelled, 0)
      modifies this, primary
      ensures finished.Some? ==> DialRun(finished.value, primary.sent) == Dialled(params, modem, primary.replies, cancelled)
      ensures finished.None? ==> OnPlan(active, cancelled) && step.Index() > DialFirst.Index()
    {
      step := DialCheckCgact;
      active := false;
      var reply := primary.Command(CgactQuery);
      if reply.Failure? {
        return Some(DialFailed(CommandFailed(reply.error))), active;
      }
      var list := modem.parseCgact(reply.value);
      if list == [] {
        return Some(AssertionAbort), active;
      }
      var entry := FindContext(list, params.cid);
      active := ContextActive(list, params.cid);
      step := if entry.Some? && entry.value.active then DialSetDataChan else DialSetWppp;
      finished := None;
      assert primary.sent == DialPlan(params, modem, active)[..1];
    }

    /** One of the later steps and dial_3gpp_res_ready: send the step's
        command and move to the next step when it succeeds; in the last step
        hand back the data port. */
    method NextStep(ghost active: bool, ghost cancelled: seq<bool>) returns (finished: Option<DialOutcome>)
      requires OnPlan(active, cancelled) && !CancelledAt(cancelled, |primary.sent|)
      modifies this, primary
      ensures finished.Some? ==> DialRun(finished.value, primary.sent) == Dialled(params, modem, primary.replies, cancelled)
      ensures finished.None? ==> OnPlan(active, cancelled) && step.Index() > old(step.Index())
    {
      StepAfterFollowsPlan(params, modem, active, |primary.sent|);
      if step == DialLast {
        return Some(Connected(params.data));
      }
      var reply := primary.Command(StepCommand(params, modem, step));
      if reply.Failure? {
        return Some(DialFailed(CommandFailed(reply.error)));
      }
      step := step.Next();
      finished := None;
    }
  }

  /** dial_3gpp: find the data port, validate the USB indices and run the
      steps on a primary port that answers with the given replies. */
  method Dial3gpp(req: DialRequest, modem: Modem, replies: seq<Reply>, cancelled: seq<bool>)
    returns (outcome: DialOutcome, sent: seq<AtCommand>)
    ensures DialRun(outcome, sent) == DialSpec(req, modem, replies, cancelled)
  {
    if req.dataPort.None? {
      return DialFailed(NoDataPort), [];
    }
    if req.ncmIndex < 0 || req.acmIndex < 0 {
      return DialFailed(ErrorNotSet), [];
    }
    var primary := new AtPort(replies);
    var params := DialParams(req.cid, req.props, req.dataPort.value, req.acmIndex, req.ncmIndex);
    var ctx := new Dial3gppContext(params, modem, primary);
    outcome := ctx.Run(cancelled);
    sent := primary.sent;
  }

  // ---------------------------------------------------------------------
  // What a dial does

  /** dial_3gpp accepts the request: there is a data port and neither USB
      index is negative. */
  predicate Accepted(req: DialRequest) {
    req.dataPort.Some? && req.ncmIndex >= 0 && req.acmIndex >= 0
  }

  function ParamsOf(req: DialRequest): DialParams
    requires Accepted(req)
  {
    DialParams(req.cid, req.props, req.dataPort.value, req.acmIndex, req.ncmIndex)
  }

  /** The +CGACT? list a dial works with, when the first reply is a success. */
  function CgactList(modem: Modem, replies: seq<Reply>): seq<PdpContextActive>
    requires ReplyAt(replies, 0).Success?
  {
    modem.parseCgact(ReplyAt(replies, 0).value)
  }

  /** What every run of a plan from its k-th command keeps: it sends a
      prefix of the plan, passes every cancellation check and every reply
      before the last command it sent, and ends in one of three ways. */
  lemma {:induction false} IssueFromFacts(plan: seq<AtCommand>, replies: seq<Reply>, cancelled: seq<bool>, data: nat, k: nat)
    requires k <= |plan|
    ensures k <= |IssueFrom(plan, replies, cancelled, data, k).sent| <= |plan|
    ensures IssueFrom(plan, replies, cancelled, data, k).sent
            == plan[..|IssueFrom(plan, replies, cancelled, data, k).sent|]
    ensures forall j :: k <= j < |IssueFrom(plan, replies, cancelled, data, k).sent| ==> !CancelledAt(cancelled, j)
    ensures forall j :: k <= j < |IssueFrom(plan, replies, cancelled, data, k).sent| - 1 ==> ReplyAt(replies, j).Success?
    ensures match IssueFrom(plan, replies, cancelled, data, k).outcome
            case Connected(port) =>
              port == data && IssueFrom(plan, replies, cancelled, data, k).sent == plan
              && !CancelledAt(cancelled, |plan|)
              && forall j :: k <= j < |plan| ==> ReplyAt(replies, j).Success?
            case DialFailed(Cancelled) =>
              CancelledAt(cancelled, |IssueFrom(plan, replies, cancelled, data, k).sent|)
            case DialFailed(CommandFailed(e)) =>
              |IssueFrom(plan, replies, cancelled, data, k).sent| > k
              && ReplyAt(replies, |IssueFrom(plan, replies, cancelled, data, k).sent| - 1) == Failure(e)
            case _ => false
    decreases |plan| - k
  {
    if !CancelledAt(cancelled, k) && k < |plan| && ReplyAt(replies, k).Success? {
      IssueFromFacts(plan, replies, cancelled, data, k + 1);
    }
  }

  /** Conversely, a plan whose remaining replies all succeed and whose
      remaining checks all pass runs to the end. */
  lemma {:induction false} IssueFromCompletes(plan: seq<AtCommand>, replies: seq<Reply>, cancelled: seq<bool>, data: nat, k: nat)
    requires k <= |plan|
    requires forall j :: k <= j <= |plan| ==> !CancelledAt(cancelled, j)
    requires forall j :: k <= j < |plan| ==> ReplyAt(replies, j).Success?
    ensures IssueFrom(plan, replies, cancelled, data, k) == DialRun(Connected(data), plan)
    decreases |plan| - k
  {
    if k < |plan| {
      IssueFromCompletes(plan, replies, cancelled, data, k + 1);
    }
  }

  /** A dial sends the commands of its plan in order, +CGACT? first. When the
      first entry for the cid is active, +XDATACHANNEL follows +CGACT? and
      neither +WPPP, +XDNS nor +CGACT=1 is sent; otherwise +WPPP follows. */
  lemma DialFollowsPlan(req: DialRequest, modem: Modem, replies: seq<Reply>, cancelled: seq<bool>)
    requires Accepted(req) && ReplyAt(replies, 0).Success? && CgactList(modem, replies) != []
    ensures DialSpec(req, modem, replies, cancelled).sent
            <= DialPlan(ParamsOf(req), modem, ContextActive(CgactList(modem, replies), req.cid))
    ensures !CancelledAt(cancelled, 0) ==> DialSpec(req, modem, replies, cancelled).sent != []
    ensures ContextActive(CgactList(modem, replies), req.cid) ==>
              (|DialSpec(req, modem, replies, cancelled).sent| >= 2 ==>
                 DialSpec(req, modem, replies, cancelled).sent[1] == SetDataChannel(req.acmIndex, req.ncmIndex, req.cid))
              && forall c :: c in DialSpec(req, modem, replies, cancelled).sent ==>
                   !c.SetWppp? && !c.SetXdns? && c != SetCgact(true, req.cid)
    ensures !ContextActive(CgactList(modem, replies), req.cid) ==>
              (|DialSpec(req, modem, replies, cancelled).sent| >= 2 ==>
                 DialSpec(req, modem, replies, cancelled).sent[1] == BuildAuthString(req.props, req.cid, modem.encode))
  {
    var p := ParamsOf(req);
    var active := ContextActive(CgactList(modem, replies), req.cid);
    var plan := DialPlan(p, modem, active);
    if !CancelledAt(cancelled, 0) {
      IssueFromFacts(plan, replies, cancelled, p.data, 1);
    }
  }

  /** A request without a data port, or with a negative USB index, fails
      before any command is sent. */
  lemma DialRefusedRequest(req: DialRequest, modem: Modem, replies: seq<Reply>, cancelled: seq<bool>)
    requires !Accepted(req)
    ensures DialSpec(req, modem, replies, cancelled).sent == []
    ensures DialSpec(req, modem, replies, cancelled).outcome
            == DialFailed(if req.dataPort.None? then NoDataPort else ErrorNotSet)
  {
  }

  /** A failed command ends the dial with its error: it is the last command
      sent, and every command before it succeeded. */
  lemma DialStopsAtFailure(req: DialRequest, modem: Modem, replies: seq<Reply>, cancelled: seq<bool>, e: ChannelError)
    requires DialSpec(req, modem, replies, cancelled).outcome == DialFailed(CommandFailed(e))
    ensures DialSpec(req, modem, replies, cancelled).sent != []
    ensures ReplyAt(replies, |DialSpec(req, modem, replies, cancelled).sent| - 1) == Failure(e)
    ensures forall j :: 0 <= j < |DialSpec(req, modem, replies, cancelled).sent| - 1 ==> ReplyAt(replies, j).Success?
  {
    var p := ParamsOf(req);
    if ReplyAt(replies, 0).Success? {
      var plan := DialPlan(p, modem, ContextActive(CgactList(modem, replies), req.cid));
      IssueFromFacts(plan, replies, cancelled, p.data, 1);
    }
  }

  /** Cancellation is checked before every step: a dial cancelled at the
      k-th check has sent at most k commands, and a dial that ends as
      cancelled does so at the check after its last command. */
  lemma DialCancellation(req: DialRequest, modem: Modem, replies: seq<Reply>, cancelled: seq<bool>)
    ensures forall k :: CancelledAt(cancelled, k) ==> |DialSpec(req, modem, replies, cancelled).sent| <= k
    ensures DialSpec(req, modem, replies, cancelled).outcome == DialFailed(Cancelled) ==>
              CancelledAt(cancelled, |DialSpec(req, modem, replies, cancelled).sent|)
  {
    if Accepted(req) && !CancelledAt(cancelled, 0) && ReplyAt(replies, 0).Success? && CgactList(modem, replies) != [] {
      var p := ParamsOf(req);
      var plan := DialPlan(p, modem, ContextActive(CgactList(modem, replies), req.cid));
      IssueFromFacts(plan, replies, cancelled, p.data, 1);
    }
  }

  /** A dial connects exactly when the request is accepted, +CGACT? yields a
      list, every command of the plan succeeds and no check finds the task
      cancelled; it then hands back the data port after the whole plan. */
  lemma DialConnects(req: DialRequest, modem: Modem, replies: seq<Reply>, cancelled: seq<bool>)
    ensures DialSpec(req, modem, replies, cancelled).outcome.Connected?
            <==> Accepted(req) && ReplyAt(replies, 0).Success? && CgactList(modem, replies) != []
                 && (forall j :: 0 <= j <= |DialPlan(ParamsOf(req), modem, ContextActive(CgactList(modem, replies), req.cid))|
                       ==> !CancelledAt(cancelled, j))
                 && (forall j :: 0 <= j < |DialPlan(ParamsOf(req), modem, ContextActive(CgactList(modem, replies), req.cid))|
                       ==> ReplyAt(replies, j).Success?)
    ensures DialSpec(req, modem, replies, cancelled).outcome.Connected? ==>
              DialSpec(req, modem, replies, cancelled).outcome.port == req.dataPort.value
              && DialSpec(req, modem, replies, cancelled).sent
                 == DialPlan(ParamsOf(req), modem, ContextActive(CgactList(modem, replies), req.cid))
  {
    if Accepted(req) && ReplyAt(replies, 0).Success? && CgactList(modem, replies) != [] {
      var p := ParamsOf(req);
      var plan := DialPlan(p, modem, ContextActive(CgactList(modem, replies), req.cid));
      IssueFromFacts(plan, replies, cancelled, p.data, 1);
      if (forall j :: 0 <= j <= |plan| ==> !CancelledAt(cancelled, j))
         && (forall j :: 0 <= j < |plan| ==> ReplyAt(replies, j).Success?) {
        IssueFromCompletes(plan, replies, cancelled, p.data, 1);
      }
    }
  }

  /** The g_assert fires exactly when the +CGACT? reply arrives and parses to
      no list. */
  lemma DialAbortsOnEmptyList(req: DialRequest, modem: Modem, replies: seq<Reply>, cancelled: seq<bool>)
    ensures DialSpec(req, modem, replies, cancelled).outcome == AssertionAbort
            <==> Accepted(req) && !CancelledAt(cancelled, 0) && ReplyAt(replies, 0).Success?
                 && CgactList(modem, replies) == []
    ensures DialSpec(req, modem, replies, cancelled).outcome == AssertionAbort ==>
              DialSpec(req, modem, replies, cancelled).sent == [CgactQuery]
  {
    if Accepted(req) && !CancelledAt(cancelled, 0) && ReplyAt(replies, 0).Success? && CgactList(modem, replies) != [] {
      var p := ParamsOf(req);
      var plan := DialPlan(p, modem, ContextActive(CgactList(modem, replies), req.cid));
      IssueFromFacts(plan, replies, cancelled, p.data, 1);
    }
  }

  /** The timeouts the dial gives its commands: 3 seconds for +CGACT?, +WPPP,
      +XDNS and +XDATACHANNEL, 30 for +CGACT=1 and 10 for +CGDATA. */
  lemma DialTimeouts(p: DialParams, modem: Modem, active: bool)
    ensures forall i :: 0 <= i < |DialPlan(p, modem, active)| ==>
              TimeoutSeconds(DialPlan(p, modem, active)[i])
              == if DialPlan(p, modem, active)[i] == SetCgact(true, p.cid) then 30
                 else if i == |DialPlan(p, modem, active)| - 1 then 10
                 else 3
  {
  }
}
