/** The IP configuration retrieval of the Sierra XMM bearer: ask for the
    context's addresses with +CGPADDR, then for its DNS servers with +XDNS?,
    and hand back a static configuration for each address family the modem
    reported. */
module SierraXmmIpConfig {
  import opened Wrappers
  import opened AtCommands
  import InfineonRegex
  import InfineonHelpers

  /** MMBearerIpMethod. */
  datatype IpMethod = MethodUnknown | MethodPpp | MethodStatic | MethodDhcp

  /** An MMBearerIpConfig as the retrieval fills it in. */
  datatype IpConfig = IpConfig(ipMethod: IpMethod, address: string, prefix: nat, dns: seq<string>)

  /** MMBearerConnectResult: the data port and the configuration of each
      family, if any. */
  datatype ConnectResult = ConnectResult(data: nat, ipv4: Option<IpConfig>, ipv6: Option<IpConfig>)

  /** Why a retrieval failed. */
  datatype IpConfigError =
    | IpCommandFailed(error: ChannelError)
    | AddressParseFailed(cause: InfineonHelpers.CgpaddrError)
    | XdnsParseFailed(response: string)

  /** The reply parsers the retrieval calls: one for +CGPADDR, and one for
      +XDNS? that takes the cid whose servers are wanted and may fail. */
  datatype IpParsers = IpParsers(
    cgpaddr: string -> Result<InfineonHelpers.CgpaddrReply, InfineonHelpers.CgpaddrError>,
    xdns: (string, nat) -> Option<InfineonHelpers.XdnsReply>)

  /** The parsers of the Infineon helpers, standing in for the XMM ones. */
  function InfineonParsers(): IpParsers {
    IpParsers(InfineonHelpers.ParseCgpaddrResponse, (reply: string, cid: nat) => Some(InfineonHelpers.XdnsQuery(reply, cid)))
  }

  /** The configuration ip_info_ready creates for a reported address. */
  function StaticConfig(address: string): (c: IpConfig)
    ensures c.ipMethod == MethodStatic && c.prefix == 0 && c.address == address && c.dns == []
  {
    IpConfig(MethodStatic, address, 0, [])
  }

  /** A configuration for each reported address, none for a missing one. */
  function ConfigFor(address: Option<string>): (c: Option<IpConfig>)
    ensures c.Some? <==> address.Some?
    ensures c.Some? ==> c.value == StaticConfig(address.value)
  {
    if address.Some? then Some(StaticConfig(address.value)) else None
  }

  /** mm_bearer_ip_config_set_dns on a configuration that exists. */
  function WithDns(c: Option<IpConfig>, servers: seq<string>): (r: Option<IpConfig>)
    ensures r.Some? <==> c.Some?
    ensures r.Some? ==> r.value == c.value.(dns := servers)
  {
    if c.Some? then Some(c.value.(dns := servers)) else None
  }

  /** How a retrieval ends and the commands it sent. */
  datatype IpConfigRun = IpConfigRun(result: Result<ConnectResult, IpConfigError>, sent: seq<AtCommand>)

  /** The retrieval as a whole: +CGPADDR=<cid> and its parse, then +XDNS? and
      its parse for the bearer's cid; the first failure ends it. The cid the
      +CGPADDR reply carries is not used. */
  function IpConfigSpec(cid: nat, data: nat, replies: seq<Reply>, parsers: IpParsers): IpConfigRun {
    match ReplyAt(replies, 0)
    case Failure(e) => IpConfigRun(Failure(IpCommandFailed(e)), [CgpaddrQuery(cid)])
    case Success(addrText) =>
      match parsers.cgpaddr(addrText)
      case Failure(cause) => IpConfigRun(Failure(AddressParseFailed(cause)), [CgpaddrQuery(cid)])
      case Success(addrs) =>
        match ReplyAt(replies, 1)
        case Failure(e) => IpConfigRun(Failure(IpCommandFailed(e)), [CgpaddrQuery(cid), XdnsQuery])
        case Success(dnsText) =>
          match parsers.xdns(dnsText, cid)
          case None => IpConfigRun(Failure(XdnsParseFailed(dnsText)), [CgpaddrQuery(cid), XdnsQuery])
          case Some(dns) =>
            IpConfigRun(Success(ConnectResult(data, WithDns(ConfigFor(addrs.ipv4), dns.ipv4),
                                                    WithDns(ConfigFor(addrs.ipv6), dns.ipv6))),
                        [CgpaddrQuery(cid), XdnsQuery])
  }

  datatype IpConfigStep = IpConfigFirst | IpConfigCgpaddr | IpConfigXdns | IpConfigLast {
    function Index(): (n: nat)
      ensures n <= 3
    {
      match this
      case IpConfigFirst => 0
      case IpConfigCgpaddr => 1
      case IpConfigXdns => 2
      case IpConfigLast => 3
    }
  }

  /** The context of one retrieval (GetIPConfig3gppContext): the cid, the
      data port, the primary port, the step, and the two configurations
      being built. */
  class GetIpConfigContext {
    const cid: nat
    const data: nat
    const parsers: IpParsers
    const primary: AtPort
    var step: IpConfigStep
    var ipv4Config: Option<IpConfig>
    var ipv6Config: Option<IpConfig>

    constructor(cid: nat, data: nat, parsers: IpParsers, primary: AtPort)
      ensures this.cid == cid && this.data == data && this.parsers == parsers && this.primary == primary
      ensures step == IpConfigFirst && ipv4Config.None? && ipv6Config.None?
    {
      this.cid := cid;
      this.data := data;
      this.parsers := parsers;
      this.primary := primary;
      step := IpConfigFirst;
      ipv4Config := None;
      ipv6Config := None;
    }

    /** ip_info_ready: a configuration for each address the parser reports. */
    method IpInfoReady(reply: Reply) returns (failed: Option<IpConfigError>)
      requires step == IpConfigCgpaddr && ipv4Config.None? && ipv6Config.None?
      modifies this
      ensures reply.Failure? ==> failed == Some(IpCommandFailed(reply.error))
      ensures reply.Success? && parsers.cgpaddr(reply.value).Failure? ==>
                failed == Some(AddressParseFailed(parsers.cgpaddr(reply.value).error))
      ensures failed.None? <==> reply.Success? && parsers.cgpaddr(reply.value).Success?
      ensures failed.None? ==>
                ipv4Config == ConfigFor(parsers.cgpaddr(reply.value).value.ipv4)
                && ipv6Config == ConfigFor(parsers.cgpaddr(reply.value).value.ipv6)
                && step == IpConfigXdns
      ensures failed.Some? ==> unchanged(this)
    {
      if reply.Failure? {
        return Some(IpCommandFailed(reply.error));
      }
      var parsed := parsers.cgpaddr(reply.value);
      if parsed.Failure? {
        return Some(AddressParseFailed(parsed.error));
      }
      if parsed.value.ipv4.Some? {
        ipv4Config := Some(StaticConfig(parsed.value.ipv4.value));
      }
      if parsed.value.ipv6.Some? {
        ipv6Config := Some(StaticConfig(parsed.value.ipv6.value));
      }
      step := IpConfigXdns;
      failed := None;
    }

    /** dns_info_ready: the servers of each family go to its configuration
        when there is one. */
    method DnsInfoReady(reply: Reply) returns (failed: Option<IpConfigError>)
      requires step == IpConfigXdns
      modifies this
      ensures reply.Failure? ==> failed == Some(IpCommandFailed(reply.error))
      ensures reply.Success? && parsers.xdns(reply.value, cid).None? ==> failed == Some(XdnsParseFailed(reply.value))
      ensures failed.None? <==> reply.Success? && parsers.xdns(reply.value, cid).Some?
      ensures failed.None? ==>
                ipv4Config == WithDns(old(ipv4Config), parsers.xdns(reply.value, cid).value.ipv4)
                && ipv6Config == WithDns(old(ipv6Config), parsers.xdns(reply.value, cid).value.ipv6)
                && step == IpConfigLast
      ensures failed.Some? ==> unchanged(this)
    {
      if reply.Failure? {
        return Some(IpCommandFailed(reply.error));
      }
      var dns := parsers.xdns(reply.value, cid);
      if dns.None? {
        return Some(XdnsParseFailed(reply.value));
      }
      if ipv4Config.Some? {
        ipv4Config := Some(ipv4Config.value.(dns := dns.value.ipv4));
      }
      if ipv6Config.Some? {
        ipv6Config := Some(ipv6Config.value.(dns := dns.value.ipv6));
      }
      step := IpConfigLast;
      failed := None;
    }

    /** get_ip_config_3gpp_context_step with its callbacks, from the first
        step until the task returns. */
    method Run() returns (result: Result<ConnectResult, IpConfigError>)
      requires step == IpConfigFirst && ipv4Config.None? && ipv6Config.None? && primary.sent == []
      modifies this, primary
      ensures IpConfigRun(result, primary.sent) == IpConfigSpec(cid, data, primary.replies, parsers)
    {
      var finished: Option<Result<ConnectResult, IpConfigError>> := None;
      while finished.None?
        invariant step == IpConfigFirst ==> finished.None? && primary.sent == [] && ipv4Config.None? && ipv6Config.None?
        invariant finished.None? && step == IpConfigXdns ==>
                    primary.sent == [CgpaddrQuery(cid)]
                    && ReplyAt(primary.replies, 0).Success?
                    && parsers.cgpaddr(ReplyAt(primary.replies, 0).value).Success?
                    && ipv4Config == ConfigFor(parsers.cgpaddr(ReplyAt(primary.replies, 0).value).value.ipv4)
                    && ipv6Config == ConfigFor(parsers.cgpaddr(ReplyAt(primary.replies, 0).value).value.ipv6)
        invariant finished.None? && step == IpConfigLast ==>
                    IpConfigSpec(cid, data, primary.replies, parsers)
                    == IpConfigRun(Success(ConnectResult(data, ipv4Config, ipv6Config)), primary.sent)
        invariant finished.None? ==> step != IpConfigCgpaddr
        invariant finished.Some? ==>
                    IpConfigRun(finished.value, primary.sent) == IpConfigSpec(cid, data, primary.replies, parsers)
        decreases if finished.Some? then 0 else 4 - step.Index()
      {
        match step
        case IpConfigFirst =>
          step := IpConfigCgpaddr;
          var reply := primary.Command(CgpaddrQuery(cid));
          var failed := IpInfoReady(reply);
          if failed.Some? {
            finished := Some(Failure(failed.value));
          }
        case IpConfigXdns =>
          var reply := primary.Command(XdnsQuery);
          var failed := DnsInfoReady(reply);
          if failed.Some? {
            finished := Some(Failure(failed.value));
          }
        case IpConfigLast =>
          finished := Some(Success(ConnectResult(data, ipv4Config, ipv6Config)));
      }
      result := finished.value;
    }
  }

  /** get_ip_config_3gpp: run the retrieval on a primary port that answers
      with the given replies. */
  method GetIpConfig3gpp(cid: nat, data: nat, replies: seq<Reply>, parsers: IpParsers)
    returns (result: Result<ConnectResult, IpConfigError>, sent: seq<AtCommand>)
    ensures IpConfigRun(result, sent) == IpConfigSpec(cid, data, replies, parsers)
  {
    var primary := new AtPort(replies);
    var ctx := new GetIpConfigContext(cid, data, parsers, primary);
    result := ctx.Run();
    sent := primary.sent;
  }

  // ---------------------------------------------------------------------
  // What a retrieval hands back

  /** A successful retrieval sent +CGPADDR=<cid> and +XDNS?, and holds a
      static configuration with prefix 0 exactly for each address the
      +CGPADDR parser reported, carrying that family's +XDNS servers. */
  lemma IpConfigOnSuccess(cid: nat, data: nat, replies: seq<Reply>, parsers: IpParsers)
    requires IpConfigSpec(cid, data, replies, parsers).result.Success?
    ensures IpConfigSpec(cid, data, replies, parsers).sent == [CgpaddrQuery(cid), XdnsQuery]
    ensures ReplyAt(replies, 0).Success? && parsers.cgpaddr(ReplyAt(replies, 0).value).Success?
    ensures ReplyAt(replies, 1).Success? && parsers.xdns(ReplyAt(replies, 1).value, cid).Some?
    ensures IpConfigSpec(cid, data, replies, parsers).result.value.data == data
    ensures IpConfigSpec(cid, data, replies, parsers).result.value.ipv4.Some?
            <==> parsers.cgpaddr(ReplyAt(replies, 0).value).value.ipv4.Some?
    ensures IpConfigSpec(cid, data, replies, parsers).result.value.ipv6.Some?
            <==> parsers.cgpaddr(ReplyAt(replies, 0).value).value.ipv6.Some?
    ensures IpConfigSpec(cid, data, replies, parsers).result.value.ipv4.Some? ==>
              IpConfigSpec(cid, data, replies, parsers).result.value.ipv4.value
              == IpConfig(MethodStatic, parsers.cgpaddr(ReplyAt(replies, 0).value).value.ipv4.value, 0,
                          parsers.xdns(ReplyAt(replies, 1).value, cid).value.ipv4)
    ensures IpConfigSpec(cid, data, replies, parsers).result.value.ipv6.Some? ==>
              IpConfigSpec(cid, data, replies, parsers).result.value.ipv6.value
              == IpConfig(MethodStatic, parsers.cgpaddr(ReplyAt(replies, 0).value).value.ipv6.value, 0,
                          parsers.xdns(ReplyAt(replies, 1).value, cid).value.ipv6)
  {
  }

  /** Each failure ends the retrieval: a failed or unparsable +CGPADDR
      before +XDNS? is sent, and a failed or unparsable +XDNS? reply fails
      the whole retrieval, the latter naming the reply. */
  lemma IpConfigFailures(cid: nat, data: nat, replies: seq<Reply>, parsers: IpParsers)
    ensures IpConfigSpec(cid, data, replies, parsers).sent <= [CgpaddrQuery(cid), XdnsQuery]
    ensures IpConfigSpec(cid, data, replies, parsers).sent != []
    ensures |IpConfigSpec(cid, data, replies, parsers).sent| == 1 <==>
              ReplyAt(replies, 0).Failure? || parsers.cgpaddr(ReplyAt(replies, 0).value).Failure?
    ensures ReplyAt(replies, 0).Success? && parsers.cgpaddr(ReplyAt(replies, 0).value).Success?
            && ReplyAt(replies, 1).Success? && parsers.xdns(ReplyAt(replies, 1).value, cid).None? ==>
              IpConfigSpec(cid, data, replies, parsers).result == Failure(XdnsParseFailed(ReplyAt(replies, 1).value))
  {
  }

  /** The cid in the +CGPADDR reply only draws a warning in the C code: two
      parsers that differ only in the cid they report give the same
      retrieval. */
  lemma IpConfigIgnoresReportedCid(cid: nat, data: nat, replies: seq<Reply>, parsers: IpParsers, other: IpParsers)
    requires forall t :: other.cgpaddr(t).Success? == parsers.cgpaddr(t).Success?
    requires forall t :: other.cgpaddr(t).Failure? ==> other.cgpaddr(t) == parsers.cgpaddr(t)
    requires forall t :: other.cgpaddr(t).Success? ==>
               other.cgpaddr(t).value.ipv4 == parsers.cgpaddr(t).value.ipv4
               && other.cgpaddr(t).value.ipv6 == parsers.cgpaddr(t).value.ipv6
    requires forall t, c :: other.xdns(t, c) == parsers.xdns(t, c)
    ensures IpConfigSpec(cid, data, replies, other) == IpConfigSpec(cid, data, replies, parsers)
  {
  }

  /** With the Infineon parsers the +XDNS? step never fails to parse, a
      success carries at least one configuration, an IPv4 configuration has
      a colon-free address other than 0.0.0.0 and servers of the same kind,
      and an IPv6 configuration has an address other than the unspecified
      one and servers that all hold a colon. */
  lemma InfineonIpConfig(cid: nat, data: nat, replies: seq<Reply>)
    ensures IpConfigSpec(cid, data, replies, InfineonParsers()).result.Failure? ==>
              !IpConfigSpec(cid, data, replies, InfineonParsers()).result.error.XdnsParseFailed?
    ensures IpConfigSpec(cid, data, replies, InfineonParsers()).result.Success? ==>
              IpConfigSpec(cid, data, replies, InfineonParsers()).result.value.ipv4.Some?
              || IpConfigSpec(cid, data, replies, InfineonParsers()).result.value.ipv6.Some?
    ensures IpConfigSpec(cid, data, replies, InfineonParsers()).result.Success?
            && IpConfigSpec(cid, data, replies, InfineonParsers()).result.value.ipv4.Some? ==>
              InfineonHelpers.IsUsableIpv4(IpConfigSpec(cid, data, replies, InfineonParsers()).result.value.ipv4.value.address)
              && forall v :: v in IpConfigSpec(cid, data, replies, InfineonParsers()).result.value.ipv4.value.dns ==>
                   InfineonHelpers.IsUsableIpv4(v)
    ensures IpConfigSpec(cid, data, replies, InfineonParsers()).result.Success?
            && IpConfigSpec(cid, data, replies, InfineonParsers()).result.value.ipv6.Some? ==>
              InfineonHelpers.IsUsableIpv6(IpConfigSpec(cid, data, replies, InfineonParsers()).result.value.ipv6.value.address)
              && forall v :: v in IpConfigSpec(cid, data, replies, InfineonParsers()).result.value.ipv6.value.dns ==>
                   InfineonHelpers.HasColon(v)
  {
    if ReplyAt(replies, 1).Success? {
      var dnsText := ReplyAt(replies, 1).value;
      InfineonHelpers.XdnsListFamilies(InfineonRegex.XdnsMatches(dnsText, 0), cid);
    }
  }
}
