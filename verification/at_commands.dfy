/** The AT commands the XMM bearer sends, their wire text and timeouts, and
    the scripted command channel the step machines talk to. */
module AtCommands {
  import opened Wrappers
  import opened Text

  /** The `+WPPP` authentication method (BearerInfineonAuthType). */
  datatype AuthMethod = AuthNone | AuthPap | AuthChap {
    function Code(): (c: nat)
      ensures c <= 2
    {
      match this
      case AuthNone => 0
      case AuthPap => 1
      case AuthChap => 2
    }
  }

  /** The `+XDNS=<cid>,<family>` DNS provisioning selector. */
  datatype DnsFamily = DnsIpv4 | DnsIpv6 | DnsIpv4v6 {
    function Code(): (c: nat)
      ensures 1 <= c <= 3
    {
      match this
      case DnsIpv4 => 1
      case DnsIpv6 => 2
      case DnsIpv4v6 => 3
    }
  }

  datatype AtCommand =
    | CgactQuery                                              // +CGACT?
    | SetWppp(auth: AuthMethod, cid: nat, user: string, password: string)
    | SetXdns(cid: nat, family: DnsFamily)
    | SetCgact(activate: bool, cid: nat)                      // +CGACT=1,<cid> / +CGACT=0,<cid>
    | SetDataChannel(acmIndex: nat, ncmIndex: nat, cid: nat)  // +XDATACHANNEL
    | StartDataChannel(cid: nat)                              // +CGDATA="M-RAW_IP",<cid>
    | CgpaddrQuery(cid: nat)                                  // +CGPADDR=<cid>
    | XdnsQuery                                               // +XDNS?

  /** The text handed to the channel for each command. */
  function Render(c: AtCommand): (s: string)
    ensures |s| > 1 && s[0] == '+'
  {
    match c
    case CgactQuery => "+CGACT?"
    case SetWppp(auth, cid, user, password) =>
      "+WPPP=" + Decimal(auth.Code()) + "," + Decimal(cid) + ",\"" + user + "\",\"" + password + "\""
    case SetXdns(cid, family) => "+XDNS=" + Decimal(cid) + "," + Decimal(family.Code())
    case SetCgact(activate, cid) => "+CGACT=" + (if activate then "1" else "0") + "," + Decimal(cid)
    case SetDataChannel(acm, ncm, cid) =>
      "+XDATACHANNEL=1,1,\"/USBCDC/" + Decimal(acm) + "\",\"/USBHS/NCM/" + Decimal(ncm) + "\",2," + Decimal(cid)
    case StartDataChannel(cid) => "+CGDATA=\"M-RAW_IP\"," + Decimal(cid)
    case CgpaddrQuery(cid) => "+CGPADDR=" + Decimal(cid)
    case XdnsQuery => "+XDNS?"
  }

  /** Seconds the channel waits for the reply: activation and deactivation
      are slow, starting raw-IP framing takes a while, the rest are quick. */
  function TimeoutSeconds(c: AtCommand): (t: nat)
    ensures t == 3 || t == 10 || t == 30
    ensures t == 30 <==> c.SetCgact?
    ensures t == 10 <==> c.StartDataChannel?
  {
    match c
    case SetCgact(_, _) => 30
    case StartDataChannel(_) => 10
    case _ => 3
  }

  /** The errors the channel reports for a command; only NO CARRIER is told
      apart by the bearer. */
  datatype ChannelError = NoCarrier | CommandTimeout | CommandError(message: string)

  type Reply = Result<string, ChannelError>

  /** The k-th reply of a scripted channel. The transport always completes an
      exchange: a reply that never arrives is a timeout. */
  function ReplyAt(script: seq<Reply>, k: nat): Reply
  {
    if k < |script| then script[k] else Failure(CommandTimeout)
  }

  /** Whether the operation's cancellable is cancelled when the k-th check
      runs; unlisted checks see it not cancelled. */
  function CancelledAt(flags: seq<bool>, k: nat): bool
  {
    k < |flags| && flags[k]
  }

  /** The primary AT port as the sequencers use it: every command handed to
      it is recorded in order, and the reply to the n-th command is the n-th
      reply of the script. */
  class AtPort {
    const replies: seq<Reply>
    var sent: seq<AtCommand>

    constructor(replies: seq<Reply>)
      ensures this.replies == replies && sent == []
    {
      this.replies := replies;
      sent := [];
    }

    /** mm_base_modem_at_command_full followed by its _finish: send c and
        wait for its reply. */
    method Command(c: AtCommand) returns (r: Reply)
      modifies this
      ensures sent == old(sent) + [c]
      ensures r == ReplyAt(replies, |old(sent)|)
    {
      r := ReplyAt(replies, |sent|);
      sent := sent + [c];
    }
  }
}
