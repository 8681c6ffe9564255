/** The Infineon reply parsers: +CGPADDR (the addresses of a PDP context)
    and +XDNS (the DNS servers of a PDP context), working on the captures
    the scanners of InfineonRegex produce. */
module InfineonHelpers {
  import opened Wrappers
  import opened Text
  import opened InfineonRegex

  /** The "no address" values the modem reports for an inactive context. */
  const Ipv4Unspecified: string := "0.0.0.0"
  const Ipv6Unspecified: string := "0:0:0:0:0:0:0:0"

  /** g_strrstr (s, ":") != NULL: the parsers' test for an IPv6 address. */
  predicate HasColon(s: string) {
    ':' in s
  }

  // ---------------------------------------------------------------------
  // +CGPADDR

  /** What a successful +CGPADDR parse hands back: the context id and at most
      one address of each family. */
  datatype CgpaddrReply = CgpaddrReply(cid: nat, ipv4: Option<string>, ipv6: Option<string>)

  /** The two failures, both MM_CORE_ERROR_FAILED in the C code. When the
      pattern matched and the cid was read, the cid has already been stored
      in the caller's variable, so NoValidAddress carries it. */
  datatype CgpaddrError = CidNotParsed | NoValidAddress(cid: Option<nat>)

  /** An address the parser keeps in the IPv4 slot. */
  predicate IsUsableIpv4(v: string) {
    !HasColon(v) && v != Ipv4Unspecified
  }

  /** An address the parser keeps in the IPv6 slot. */
  predicate IsUsableIpv6(v: string) {
    HasColon(v) && v != Ipv6Unspecified
  }

  /** The body of mm_infineon_parse_cgpaddr_response once the pattern has
      matched: group 1 must be a guint; the first address goes to the IPv4
      or the IPv6 slot by the presence of a colon and is dropped when it is
      the unspecified address; the second address is taken only as a usable
      IPv6 address, and then replaces whatever the first one put there. */
  function CgpaddrFromCaptures(m: CgpaddrCaptures): (r: Result<CgpaddrReply, CgpaddrError>)
    ensures r.Failure? ==> r.error == CidNotParsed || r.error == NoValidAddress(ParseUint(m.cid))
    ensures r.Success? ==> ParseUint(m.cid) == Some(r.value.cid)
  {
    match ParseUint(m.cid)
    case None => Failure(CidNotParsed)
    case Some(cid) =>
      var ip1 := Unquote(m.addr1);
      var ip2 := Unquote(m.addr2);
      var v4 := if ip1.Some? && IsUsableIpv4(ip1.value) then ip1 else None;
      var v6 := if ip2.Some? && IsUsableIpv6(ip2.value) then ip2
                else if ip1.Some? && IsUsableIpv6(ip1.value) then ip1
                else None;
      if v4.None? && v6.None? then Failure(NoValidAddress(Some(cid)))
      else Success(CgpaddrReply(cid, v4, v6))
  }

  /** mm_infineon_parse_cgpaddr_response: the first match in the reply; a
      reply with no match has no valid address. */
  function ParseCgpaddrResponse(reply: string): (r: Result<CgpaddrReply, CgpaddrError>)
    ensures r.Success? ==> r.value.cid <= MaxUint
    ensures r.Success? ==> r.value.ipv4.Some? || r.value.ipv6.Some?
    ensures r.Success? && r.value.ipv4.Some? ==> r.value.ipv4.value != [] && IsUsableIpv4(r.value.ipv4.value)
    ensures r.Success? && r.value.ipv6.Some? ==> IsUsableIpv6(r.value.ipv6.value)
    ensures CgpaddrSearch(reply, 0).None? ==> r == Failure(NoValidAddress(None))
  {
    match CgpaddrSearch(reply, 0)
    case None => Failure(NoValidAddress(None))
    case Some(m) => CgpaddrFromCaptures(m)
  }

  /** Once the cid is read, the parse succeeds exactly when some address
      survives: a usable first address of either family, or a usable IPv6
      second address. A usable IPv4 first address is always the one
      reported; a usable IPv6 first address is reported unless the second
      field holds a usable IPv6 address. */
  lemma CgpaddrAddressSlots(m: CgpaddrCaptures)
    requires ParseUint(m.cid).Some?
    ensures var ip1, ip2, r := Unquote(m.addr1), Unquote(m.addr2), CgpaddrFromCaptures(m);
            && (r.Success? <==> (ip1.Some? && (IsUsableIpv4(ip1.value) || IsUsableIpv6(ip1.value)))
                                || (ip2.Some? && IsUsableIpv6(ip2.value)))
            && (r.Failure? ==> r.error == NoValidAddress(ParseUint(m.cid)))
            && (r.Success? ==> r.value.cid == ParseUint(m.cid).value)
            && (r.Success? ==> (r.value.ipv4.Some? <==> ip1.Some? && IsUsableIpv4(ip1.value)))
            && (r.Success? && r.value.ipv4.Some? ==> r.value.ipv4 == ip1)
            && (r.Success? ==> (r.value.ipv6.Some?
                                <==> (ip1.Some? && IsUsableIpv6(ip1.value)) || (ip2.Some? && IsUsableIpv6(ip2.value))))
            && (r.Success? && ip2.Some? && IsUsableIpv6(ip2.value) ==> r.value.ipv6 == ip2)
            && (r.Success? && ip1.Some? && IsUsableIpv6(ip1.value) && !(ip2.Some? && IsUsableIpv6(ip2.value))
                ==> r.value.ipv6 == ip1)
  {
  }

  /** An empty first field (`""`, which unquotes to NULL) leaves only the
      second field to report. */
  lemma CgpaddrEmptyFirstField(m: CgpaddrCaptures)
    requires ParseUint(m.cid).Some? && m.addr1 == []
    ensures CgpaddrFromCaptures(m).Success?
            <==> Unquote(m.addr2).Some? && IsUsableIpv6(Unquote(m.addr2).value)
    ensures CgpaddrFromCaptures(m).Success? ==> CgpaddrFromCaptures(m).value.ipv4.None?
  {
  }

  /** A usable IPv6 address in the second field is the one reported,
      whatever the first field holds. */
  lemma CgpaddrSecondAddressWins(m: CgpaddrCaptures)
    requires ParseUint(m.cid).Some?
    requires Unquote(m.addr2).Some? && IsUsableIpv6(Unquote(m.addr2).value)
    ensures CgpaddrFromCaptures(m).Success?
    ensures CgpaddrFromCaptures(m).value.ipv6 == Unquote(m.addr2)
  {
  }

  /** A second field that is not a usable IPv6 address is ignored: the
      result is the one of a reply without it. */
  lemma CgpaddrIgnoresUnusableSecond(m: CgpaddrCaptures)
    requires Unquote(m.addr2).None? || !IsUsableIpv6(Unquote(m.addr2).value)
    ensures CgpaddrFromCaptures(m) == CgpaddrFromCaptures(m.(addr2 := ""))
  {
  }

  /** A reply that reports only unspecified addresses is an error. */
  lemma CgpaddrUnspecifiedFails(m: CgpaddrCaptures)
    requires ParseUint(m.cid).Some?
    requires m.addr1 == Ipv4Unspecified || m.addr1 == Ipv6Unspecified
    requires m.addr2 == [] || m.addr2 == Ipv6Unspecified
    ensures CgpaddrFromCaptures(m) == Failure(NoValidAddress(ParseUint(m.cid)))
  {
    assert HasColon(Ipv6Unspecified);
    assert !HasColon(Ipv4Unspecified) by {
      assert forall i :: 0 <= i < |Ipv4Unspecified| ==> Ipv4Unspecified[i] != ':';
    }
  }

  /** A cid that does not fit in a guint is refused before the addresses
      are looked at. */
  lemma CgpaddrOversizedCidFails(m: CgpaddrCaptures)
    requires AllDigits(m.cid) && DecimalValue(m.cid) > MaxUint
    ensures CgpaddrFromCaptures(m) == Failure(CidNotParsed)
  {
  }

  /** The reply line a modem prints for a context, followed by anything that
      does not continue the pattern, parses to that line's fields. */
  lemma {:induction false} CgpaddrLineParses(cid: nat, addr1: string, addr2: Option<string>, rest: string)
    requires cid <= MaxUint
    requires HasNoQuote(addr1) && (addr2.Some? ==> HasNoQuote(addr2.value))
    requires rest != [] ==> rest[0] != ',' && rest[0] != '"'
    ensures ParseCgpaddrResponse(CgpaddrLine(Decimal(cid), addr1, addr2) + rest)
            == CgpaddrFromCaptures(CgpaddrCaptures(Decimal(cid), addr1, addr2.GetOr("")))
    ensures ParseUint(Decimal(cid)) == Some(cid)
  {
    CgpaddrLineScans(Decimal(cid), addr1, addr2, rest);
    ParseUintOfDecimal(cid);
  }

  // The reply lines of the parser's unit tests.

  /** A plain IPv4 address of the tests. */
  lemma PlainIpv4(v: string)
    requires v == "10.11.12.133" || v == "100.120.138.254"
    ensures v != [] && HasNoQuote(v) && IsUsableIpv4(v)
  {
    assert forall i :: 0 <= i < |v| ==> v[i] != ':' && v[i] != '"';
  }

  /** A plain IPv6 address of the tests. */
  lemma PlainIpv6(v: string)
    requires v == "FE80:0:0:0:0:6B:B43D:6A01" || v == "FE80:0:0:0:0:6B:B43E:1E01"
    ensures v != [] && HasNoQuote(v) && IsUsableIpv6(v)
  {
    assert v[4] == ':';
    assert forall i :: 0 <= i < |v| ==> v[i] != '"';
  }

  lemma CgpaddrExampleIpv4Only(reply: string, addr: string, rest: string)
    requires addr == "10.11.12.133" && rest == "\r\n"
    requires reply == CgpaddrLine("1", addr, None) + rest
    ensures ParseCgpaddrResponse(reply) == Success(CgpaddrReply(1, Some(addr), None))
  {
    assert Decimal(1) == "1";
    PlainIpv4(addr);
    CgpaddrLineParses(1, addr, None, rest);
  }

  lemma CgpaddrExampleIpv6Only(reply: string, addr: string, rest: string)
    requires addr == "FE80:0:0:0:0:6B:B43D:6A01" && rest == "\r\n"
    requires reply == CgpaddrLine("1", addr, None) + rest
    ensures ParseCgpaddrResponse(reply) == Success(CgpaddrReply(1, None, Some(addr)))
  {
    assert Decimal(1) == "1";
    PlainIpv6(addr);
    CgpaddrLineParses(1, addr, None, rest);
  }

  lemma CgpaddrExampleBothFamilies(reply: string, addr1: string, addr2: string, rest: string)
    requires addr1 == "100.120.138.254" && addr2 == "FE80:0:0:0:0:6B:B43E:1E01" && rest == "\r\n"
    requires reply == CgpaddrLine("3", addr1, Some(addr2)) + rest
    ensures ParseCgpaddrResponse(reply) == Success(CgpaddrReply(3, Some(addr1), Some(addr2)))
  {
    assert Decimal(3) == "3";
    PlainIpv4(addr1);
    PlainIpv6(addr2);
    CgpaddrLineParses(3, addr1, Some(addr2), rest);
  }

  lemma CgpaddrExampleUnspecifiedIpv6(reply: string, addr1: string, addr2: string, rest: string)
    requires addr1 == "100.120.138.254" && addr2 == Ipv6Unspecified && rest == "\r\n"
    requires reply == CgpaddrLine("3", addr1, Some(addr2)) + rest
    ensures ParseCgpaddrResponse(reply) == Success(CgpaddrReply(3, Some(addr1), None))
  {
    assert Decimal(3) == "3";
    PlainIpv4(addr1);
    assert HasNoQuote(addr2) by {
      assert forall i :: 0 <= i < |addr2| ==> addr2[i] != '"';
    }
    CgpaddrLineParses(3, addr1, Some(addr2), rest);
  }

  lemma CgpaddrExampleUnspecifiedPair(reply: string, addr1: string, addr2: string, rest: string)
    requires addr1 == Ipv4Unspecified && addr2 == Ipv6Unspecified && rest == "\r\n"
    requires reply == CgpaddrLine("2", addr1, Some(addr2)) + rest
    ensures ParseCgpaddrResponse(reply) == Failure(NoValidAddress(Some(2)))
  {
    assert Decimal(2) == "2";
    CgpaddrLineParses(2, addr1, Some(addr2), rest);
    CgpaddrUnspecifiedFails(CgpaddrCaptures("2", addr1, addr2));
  }

  lemma CgpaddrExampleUnspecifiedIpv4(reply: string, addr1: string, addr2: string, rest: string)
    requires addr1 == Ipv4Unspecified && addr2 == "FE80:0:0:0:0:6B:B43E:1E01" && rest == "\r\n"
    requires reply == CgpaddrLine("3", addr1, Some(addr2)) + rest
    ensures ParseCgpaddrResponse(reply) == Success(CgpaddrReply(3, None, Some(addr2)))
  {
    assert Decimal(3) == "3";
    PlainIpv6(addr2);
    assert HasNoQuote(addr1) && !HasColon(addr1) by {
      assert forall i :: 0 <= i < |addr1| ==> addr1[i] != '"' && addr1[i] != ':';
    }
    CgpaddrLineParses(3, addr1, Some(addr2), rest);
  }

  lemma CgpaddrExampleUnspecifiedOnly(reply: string, addr: string, rest: string)
    requires (addr == Ipv4Unspecified || addr == Ipv6Unspecified) && rest == "\r\n"
    requires reply == CgpaddrLine("1", addr, None) + rest
    ensures ParseCgpaddrResponse(reply) == Failure(NoValidAddress(Some(1)))
  {
    assert Decimal(1) == "1";
    assert HasNoQuote(addr) by {
      assert forall i :: 0 <= i < |addr| ==> addr[i] != '"';
    }
    CgpaddrLineParses(1, addr, None, rest);
    CgpaddrUnspecifiedFails(CgpaddrCaptures("1", addr, ""));
  }

  // ---------------------------------------------------------------------
  // g_ptr_array_contains_string

  /** g_ptr_array_contains_string: a linear scan that stops at the first
      equal entry. */
  method ContainsString(arr: seq<string>, str: string) returns (found: bool)
    ensures found <==> str in arr
  {
    found := false;
    var i := 0;
    while i < |arr|
      invariant 0 <= i <= |arr|
      invariant !found && str !in arr[..i]
      decreases |arr| - i
    {
      if arr[i] == str {
        found := true;
        return;
      }
      i := i + 1;
    }
    assert arr[..i] == arr;
  }

  // ---------------------------------------------------------------------
  // +XDNS

  /** The two DNS lists mm_infineon_parse_xdns_query_response hands back. */
  datatype XdnsReply = XdnsReply(ipv4: seq<string>, ipv6: seq<string>) {
    function List(f: Family): seq<string> {
      if f == Ipv4Family then ipv4 else ipv6
    }
  }

  /** What the C loop reads from one match: group 1 as a guint and the two
      fields unquoted, each None where the C helper fails or returns NULL. */
  datatype XdnsRecord = XdnsRecord(cid: Option<nat>, dns1: Option<string>, dns2: Option<string>)

  function ReadRecord(m: XdnsCaptures): (r: XdnsRecord)
    ensures r.cid.Some? ==> r.cid.value <= MaxUint
    ensures r.dns1.Some? ==> r.dns1.value != []
    ensures r.dns2.Some? ==> r.dns2.value != []
  {
    XdnsRecord(ParseUint(m.cid), Unquote(m.dns1), Unquote(m.dns2))
  }

  function ReadRecords(ms: seq<XdnsCaptures>): (rs: seq<XdnsRecord>)
    ensures |rs| == |ms|
    ensures forall k :: 0 <= k < |ms| ==> rs[k] == ReadRecord(ms[k])
  {
    seq(|ms|, k requires 0 <= k < |ms| => ReadRecord(ms[k]))
  }

  /** The values one record contributes for cid: both fields, first then
      second, when its cid is cid and neither field is missing. */
  function RecordValues(r: XdnsRecord, cid: nat): (vs: seq<string>)
    ensures vs != [] <==> r.cid == Some(cid) && r.dns1.Some? && r.dns2.Some?
  {
    if r.cid == Some(cid) && r.dns1.Some? && r.dns2.Some? then [r.dns1.value, r.dns2.value] else []
  }

  /** The values of all records for cid, in reply order. */
  function XdnsValues(rs: seq<XdnsRecord>, cid: nat): seq<string>
  {
    if rs == [] then [] else XdnsValues(rs[..|rs| - 1], cid) + RecordValues(rs[|rs| - 1], cid)
  }

  /** The two lists of the reply. */
  datatype Family = Ipv4Family | Ipv6Family

  /** A value with a colon goes to the IPv6 list, whatever it is; any other
      value goes to the IPv4 list unless it is 0.0.0.0. */
  predicate IsServer(v: string, f: Family) {
    match f
    case Ipv4Family => IsUsableIpv4(v)
    case Ipv6Family => HasColon(v)
  }

  /** The values that go to the list of family f, in order. */
  function Servers(vs: seq<string>, f: Family): seq<string> {
    if vs == [] then []
    else Servers(vs[..|vs| - 1], f) + (if IsServer(vs[|vs| - 1], f) then [vs[|vs| - 1]] else [])
  }

  /** Appending to a list only values it does not hold yet. */
  function Dedup(vs: seq<string>): seq<string> {
    if vs == [] then []
    else
      var d := Dedup(vs[..|vs| - 1]);
      if vs[|vs| - 1] in d then d else d + [vs[|vs| - 1]]
  }

  /** The lists built from a sequence of records. */
  function XdnsFromRecords(rs: seq<XdnsRecord>, cid: nat): XdnsReply {
    var vs := XdnsValues(rs, cid);
    XdnsReply(Dedup(Servers(vs, Ipv4Family)), Dedup(Servers(vs, Ipv6Family)))
  }

  /** What the parser returns for a reply and a cid. */
  function XdnsQuery(reply: string, cid: nat): XdnsReply {
    XdnsFromRecords(ReadRecords(XdnsMatches(reply, 0)), cid)
  }

  lemma DedupSnoc(xs: seq<string>, v: string)
    ensures Dedup(xs + [v]) == if v in Dedup(xs) then Dedup(xs) else Dedup(xs) + [v]
  {
    assert (xs + [v])[..|xs|] == xs;
  }

  lemma ServersSnoc(vs: seq<string>, v: string, f: Family)
    ensures Dedup(Servers(vs + [v], f))
            == if IsServer(v, f) && v !in Dedup(Servers(vs, f)) then Dedup(Servers(vs, f)) + [v]
               else Dedup(Servers(vs, f))
  {
    assert (vs + [v])[..|vs|] == vs;
    if IsServer(v, f) {
      assert Servers(vs + [v], f) == Servers(vs, f) + [v];
      DedupSnoc(Servers(vs, f), v);
    } else {
      assert Servers(vs + [v], f) == Servers(vs, f) + [];
      assert Servers(vs, f) + [] == Servers(vs, f);
    }
  }

  /** One field of a matching +XDNS record: a value with a colon joins the
      IPv6 list, any other value but 0.0.0.0 joins the IPv4 list, each only
      when the list does not hold it yet. */
  method AddServer(ipv4: seq<string>, ipv6: seq<string>, v: string, ghost vs: seq<string>)
    returns (ipv4': seq<string>, ipv6': seq<string>)
    requires ipv4 == Dedup(Servers(vs, Ipv4Family)) && ipv6 == Dedup(Servers(vs, Ipv6Family))
    ensures ipv4' == Dedup(Servers(vs + [v], Ipv4Family)) && ipv6' == Dedup(Servers(vs + [v], Ipv6Family))
  {
    ServersSnoc(vs, v, Ipv4Family);
    ServersSnoc(vs, v, Ipv6Family);
    ipv4', ipv6' := ipv4, ipv6;
    if ':' in v {
      var known := ContainsString(ipv6, v);
      if !known {
        ipv6' := ipv6 + [v];
      }
    } else if v != Ipv4Unspecified {
      var known := ContainsString(ipv4, v);
      if !known {
        ipv4' := ipv4 + [v];
      }
    }
  }

  /** The body of the loop over the matches: a record for cid with both
      fields present adds its first and then its second field. */
  method AddRecord(ipv4: seq<string>, ipv6: seq<string>, r: XdnsRecord, cid: nat, ghost vs: seq<string>)
    returns (ipv4': seq<string>, ipv6': seq<string>)
    requires ipv4 == Dedup(Servers(vs, Ipv4Family)) && ipv6 == Dedup(Servers(vs, Ipv6Family))
    ensures ipv4' == Dedup(Servers(vs + RecordValues(r, cid), Ipv4Family))
    ensures ipv6' == Dedup(Servers(vs + RecordValues(r, cid), Ipv6Family))
  {
    if r.cid == Some(cid) && r.dns1.Some? && r.dns2.Some? {
      var d1, d2 := r.dns1.value, r.dns2.value;
      assert RecordValues(r, cid) == [d1, d2];
      ghost var vs1 := vs + [d1];
      ipv4', ipv6' := AddServer(ipv4, ipv6, d1, vs);
      ipv4', ipv6' := AddServer(ipv4', ipv6', d2, vs1);
      assert vs1 + [d2] == vs + [d1, d2];
    } else {
      ipv4', ipv6' := ipv4, ipv6;
      assert vs + RecordValues(r, cid) == vs;
    }
  }

  lemma XdnsValuesPrefix(rs: seq<XdnsRecord>, i: nat, cid: nat)
    requires i < |rs|
    ensures XdnsValues(rs[..i + 1], cid) == XdnsValues(rs[..i], cid) + RecordValues(rs[i], cid)
  {
    assert rs[..i + 1][..i] == rs[..i];
  }

  /** mm_infineon_parse_xdns_query_response: every match of the reply in
      turn; the C function always succeeds. */
  method ParseXdnsQueryResponse(reply: string, cid: nat) returns (dnsV4: seq<string>, dnsV6: seq<string>)
    ensures XdnsReply(dnsV4, dnsV6) == XdnsQuery(reply, cid)
  {
    var ms := XdnsMatches(reply, 0);
    ghost var rs := ReadRecords(ms);
    dnsV4, dnsV6 := [], [];
    var i := 0;
    while i < |ms|
      invariant 0 <= i <= |ms|
      invariant dnsV4 == Dedup(Servers(XdnsValues(rs[..i], cid), Ipv4Family))
      invariant dnsV6 == Dedup(Servers(XdnsValues(rs[..i], cid), Ipv6Family))
      decreases |ms| - i
    {
      var r := ReadRecord(ms[i]);
      XdnsValuesPrefix(rs, i, cid);
      dnsV4, dnsV6 := AddRecord(dnsV4, dnsV6, r, cid, XdnsValues(rs[..i], cid));
      i := i + 1;
    }
    assert rs[..i] == rs;
  }

  // ---------------------------------------------------------------------
  // What the +XDNS lists hold

  /** Where a value first occurs. */
  function FirstIndex(xs: seq<string>, v: string): (i: nat)
    requires v in xs
    ensures i < |xs| && xs[i] == v
    ensures forall k :: 0 <= k < i ==> xs[k] != v
  {
    if xs[0] == v then 0 else FirstIndex(xs[1..], v) + 1
  }

  lemma {:induction false} DedupMembers(xs: seq<string>)
    ensures forall v :: v in Dedup(xs) <==> v in xs
  {
    if xs != [] {
      var init := xs[..|xs| - 1];
      DedupMembers(init);
      assert xs == init + [xs[|xs| - 1]];
    }
  }

  lemma {:induction false} DedupDistinct(xs: seq<string>)
    ensures forall i, j :: 0 <= i < j < |Dedup(xs)| ==> Dedup(xs)[i] != Dedup(xs)[j]
  {
    if xs != [] {
      DedupDistinct(xs[..|xs| - 1]);
    }
  }

  /** Dedup keeps the values in the order in which they first occur. */
  lemma {:induction false} DedupOrder(xs: seq<string>)
    ensures forall i, j :: 0 <= i < j < |Dedup(xs)| ==> OccursBefore(xs, Dedup(xs)[i], Dedup(xs)[j])
  {
    if xs != [] {
      var init, v := xs[..|xs| - 1], xs[|xs| - 1];
      assert xs == init + [v];
      var d, d' := Dedup(init), Dedup(xs);
      assert d' == if v in d then d else d + [v];
      DedupOrder(init);
      DedupMembers(init);
      forall i, j | 0 <= i < j < |d'|
        ensures OccursBefore(xs, d'[i], d'[j])
      {
        assert d'[i] == d[i] && d[i] in init;
        FirstIndexInPrefix(init, [v], d[i]);
        if j < |d| {
          assert d'[j] == d[j] && d[j] in init;
          FirstIndexInPrefix(init, [v], d[j]);
        } else {
          assert d'[j] == v && v !in init;
          FirstIndexInPrefix(init, [v], v);
        }
      }
    } else {
      assert Dedup(xs) == [];
    }
  }

  lemma {:induction false} ServersMembers(vs: seq<string>, f: Family)
    ensures forall v :: v in Servers(vs, f) <==> v in vs && IsServer(v, f)
  {
    if vs != [] {
      var init := vs[..|vs| - 1];
      ServersMembers(init, f);
      assert vs == init + [vs[|vs| - 1]];
    }
  }

  /** Filtering keeps the order of first occurrences. */
  lemma {:induction false} ServersOrder(vs: seq<string>, f: Family)
    ensures forall u, w :: OccursBefore(Servers(vs, f), u, w) ==> OccursBefore(vs, u, w)
  {
    ServersMembers(vs, f);
    if vs != [] {
      var init, x := vs[..|vs| - 1], vs[|vs| - 1];
      assert vs == init + [x];
      var ws0 := Servers(init, f);
      var ws := Servers(vs, f);
      ServersOrder(init, f);
      ServersMembers(init, f);
      assert ws == ws0 + (if IsServer(x, f) then [x] else []);
      forall u, w | OccursBefore(ws, u, w)
        ensures OccursBefore(vs, u, w)
      {
        var tail := if IsServer(x, f) then [x] else [];
        FirstIndexInPrefix(ws0, tail, u);
        FirstIndexInPrefix(ws0, tail, w);
        assert u in ws0 && u in init;
        FirstIndexInPrefix(init, [x], u);
        FirstIndexInPrefix(init, [x], w);
        if w in ws0 {
          assert OccursBefore(ws0, u, w);
          assert OccursBefore(init, u, w);
        } else {
          assert w !in init;
        }
      }
    }
  }

  /** u occurs in xs, and before the first occurrence of w. */
  predicate OccursBefore(xs: seq<string>, u: string, w: string) {
    u in xs && w in xs && FirstIndex(xs, u) < FirstIndex(xs, w)
  }

  lemma FirstIndexInPrefix(xs: seq<string>, ys: seq<string>, u: string)
    requires u in xs + ys
    ensures u in xs ==> FirstIndex(xs + ys, u) == FirstIndex(xs, u)
    ensures u !in xs ==> FirstIndex(xs + ys, u) >= |xs|
  {
    var i := FirstIndex(xs + ys, u);
    if u in xs {
      var j := FirstIndex(xs, u);
      assert (xs + ys)[j] == u;
      assert i < |xs| ==> xs[i] == u;
    }
  }

  lemma {:induction false} XdnsValuesAppend(a: seq<XdnsRecord>, b: seq<XdnsRecord>, cid: nat)
    ensures XdnsValues(a + b, cid) == XdnsValues(a, cid) + XdnsValues(b, cid)
    decreases |b|
  {
    if b == [] {
      assert a + b == a;
    } else {
      var init, last := b[..|b| - 1], b[|b| - 1];
      XdnsValuesAppend(a, init, cid);
      assert (a + b)[..|a + b| - 1] == a + init;
      assert (a + b)[|a + b| - 1] == last;
      var u, w, x := XdnsValues(a, cid), XdnsValues(init, cid), RecordValues(last, cid);
      assert XdnsValues(a + b, cid) == u + w + x;
      assert XdnsValues(b, cid) == w + x;
      assert u + w + x == u + (w + x);
    }
  }

  lemma {:induction false} XdnsValuesMembers(ms: seq<XdnsRecord>, cid: nat)
    ensures forall v :: v in XdnsValues(ms, cid) <==> exists k :: 0 <= k < |ms| && v in RecordValues(ms[k], cid)
  {
    if ms != [] {
      var init := ms[..|ms| - 1];
      XdnsValuesMembers(init, cid);
      forall v | v in XdnsValues(ms, cid)
        ensures exists k :: 0 <= k < |ms| && v in RecordValues(ms[k], cid)
      {
        if v in XdnsValues(init, cid) {
          var k :| 0 <= k < |init| && v in RecordValues(init[k], cid);
          assert ms[k] == init[k];
        } else {
          assert v in RecordValues(ms[|ms| - 1], cid);
        }
      }
      forall v, k | 0 <= k < |ms| && v in RecordValues(ms[k], cid)
        ensures v in XdnsValues(ms, cid)
      {
        if k < |init| {
          assert init[k] == ms[k];
        }
      }
    }
  }

  /** Every value a record read from a match contributes is a non-empty
      string. */
  lemma XdnsValuesNonEmpty(ms: seq<XdnsCaptures>, cid: nat)
    ensures forall v :: v in XdnsValues(ReadRecords(ms), cid) ==> v != []
  {
    var rs := ReadRecords(ms);
    XdnsValuesMembers(rs, cid);
    forall v | v in XdnsValues(rs, cid)
      ensures v != []
    {
      var k :| 0 <= k < |rs| && v in RecordValues(rs[k], cid);
      assert rs[k] == ReadRecord(ms[k]);
    }
  }

  lemma XdnsListIs(rs: seq<XdnsRecord>, cid: nat, f: Family)
    ensures XdnsFromRecords(rs, cid).List(f) == Dedup(Servers(XdnsValues(rs, cid), f))
  {
    match f
    case Ipv4Family =>
    case Ipv6Family =>
  }

  /** A value is in a list exactly when some record for cid carries it and
      it belongs to that list's family. */
  lemma XdnsListMembers(rs: seq<XdnsRecord>, cid: nat, f: Family)
    ensures forall v :: v in XdnsFromRecords(rs, cid).List(f) <==> v in XdnsValues(rs, cid) && IsServer(v, f)
  {
    XdnsListIs(rs, cid, f);
    DedupMembers(Servers(XdnsValues(rs, cid), f));
    ServersMembers(XdnsValues(rs, cid), f);
  }

  /** No value is listed twice. */
  lemma XdnsListDistinct(rs: seq<XdnsRecord>, cid: nat, f: Family)
    ensures var l := XdnsFromRecords(rs, cid).List(f);
            forall i, j :: 0 <= i < j < |l| ==> l[i] != l[j]
  {
    XdnsListIs(rs, cid, f);
    DedupDistinct(Servers(XdnsValues(rs, cid), f));
  }

  /** The values are listed in the order in which they first occur among
      the records for cid. */
  lemma XdnsListOrder(rs: seq<XdnsRecord>, cid: nat, f: Family)
    ensures var vs := XdnsValues(rs, cid);
            var l := XdnsFromRecords(rs, cid).List(f);
            forall i, j :: 0 <= i < j < |l| ==> OccursBefore(vs, l[i], l[j])
  {
    var vs := XdnsValues(rs, cid);
    var ws := Servers(vs, f);
    var l := Dedup(ws);
    XdnsListIs(rs, cid, f);
    DedupOrder(ws);
    ServersOrder(vs, f);
    forall i, j | 0 <= i < j < |l|
      ensures OccursBefore(vs, l[i], l[j])
    {
      assert OccursBefore(ws, l[i], l[j]);
    }
  }

  /** The IPv4 list holds non-empty values without a colon and never
      0.0.0.0; the IPv6 list holds non-empty values with a colon, the
      unspecified address included. */
  lemma XdnsListFamilies(ms: seq<XdnsCaptures>, cid: nat)
    ensures forall v :: v in XdnsFromRecords(ReadRecords(ms), cid).ipv4 ==> v != [] && !HasColon(v) && v != Ipv4Unspecified
    ensures forall v :: v in XdnsFromRecords(ReadRecords(ms), cid).ipv6 ==> v != [] && HasColon(v)
  {
    XdnsListMembers(ReadRecords(ms), cid, Ipv4Family);
    XdnsListMembers(ReadRecords(ms), cid, Ipv6Family);
    XdnsValuesNonEmpty(ms, cid);
  }

  /** Records for other context ids, and records with a missing field, are
      skipped: removing one changes nothing. */
  lemma XdnsSkipsOtherRecords(rs1: seq<XdnsRecord>, r: XdnsRecord, rs2: seq<XdnsRecord>, cid: nat)
    requires r.cid != Some(cid) || r.dns1.None? || r.dns2.None?
    ensures XdnsValues(rs1 + [r] + rs2, cid) == XdnsValues(rs1 + rs2, cid)
  {
    var a := rs1 + [r];
    XdnsValuesAppend(a, rs2, cid);
    XdnsValuesAppend(rs1, rs2, cid);
    assert a[..|a| - 1] == rs1;
    assert XdnsValues(a, cid) == XdnsValues(rs1, cid) + RecordValues(r, cid);
    assert RecordValues(r, cid) == [];
    assert XdnsValues(a, cid) == XdnsValues(rs1, cid);
  }

  /** A record for cid reporting the unspecified IPv6 address puts it in the
      IPv6 list: unlike the +CGPADDR parser, this one does not filter it. */
  lemma XdnsKeepsUnspecifiedIpv6(rs: seq<XdnsRecord>, cid: nat, k: nat)
    requires k < |rs| && rs[k].cid == Some(cid) && rs[k].dns1 == Some(Ipv6Unspecified) && rs[k].dns2.Some?
    ensures Ipv6Unspecified in XdnsFromRecords(rs, cid).ipv6
  {
    assert Ipv6Unspecified in RecordValues(rs[k], cid);
    XdnsValuesMembers(rs, cid);
    XdnsListMembers(rs, cid, Ipv6Family);
    assert Ipv6Unspecified[1] == ':';
  }

  /** A reply with no complete record for cid, such as a query for cid 0,
      gives two empty lists. */
  lemma {:induction false} XdnsNoRecordsForCid(rs: seq<XdnsRecord>, cid: nat)
    requires forall k :: 0 <= k < |rs| ==> RecordValues(rs[k], cid) == []
    ensures XdnsValues(rs, cid) == []
    ensures XdnsFromRecords(rs, cid) == XdnsReply([], [])
  {
    if rs != [] {
      var init := rs[..|rs| - 1];
      assert forall k :: 0 <= k < |init| ==> init[k] == rs[k];
      XdnsNoRecordsForCid(init, cid);
      assert RecordValues(rs[|rs| - 1], cid) == [];
    }
  }

  /** The addresses of the parser's unit tests and how they are classed. */
  lemma XdnsExampleAddresses(a: string, b: string, c: string, d: string)
    requires a == "198.224.166.135" && b == "198.224.167.135"
    requires c == "2001:4888:53:FF00:524:D:0:0" && d == "2001:4888:52:FF00:528:D:0:0"
    ensures IsUsableIpv4(a) && IsUsableIpv4(b) && a != b
    ensures HasColon(c) && HasColon(d) && c != d
  {
    assert forall i :: 0 <= i < |a| ==> a[i] != ':';
    assert forall i :: 0 <= i < |b| ==> b[i] != ':';
    assert a[10] != b[10];
    assert c[4] == ':' && d[4] == ':';
    assert c[11] != d[11];
  }

  /** The records of the last two vectors of the parser's unit tests: one
      record for cid 1 with two IPv6 servers, a record for cid 2 with
      0.0.0.0 twice, three records for cid 3 repeating one IPv4 server and
      adding a second IPv4 and both IPv6 servers, and one record for cid 4. */
  function XdnsExampleRecords(a: string, b: string, c: string, d: string): seq<XdnsRecord> {
    [XdnsRecord(Some(1), Some(c), Some(d)),
     XdnsRecord(Some(2), Some(Ipv4Unspecified), Some(Ipv4Unspecified)),
     XdnsRecord(Some(3), Some(a), Some(b)),
     XdnsRecord(Some(3), Some(a), Some(c)),
     XdnsRecord(Some(3), Some(a), Some(d)),
     XdnsRecord(Some(4), Some(Ipv4Unspecified), Some(Ipv4Unspecified))]
  }

  lemma XdnsValuesSnoc(rs: seq<XdnsRecord>, r: XdnsRecord, cid: nat)
    ensures XdnsValues(rs + [r], cid) == XdnsValues(rs, cid) + RecordValues(r, cid)
  {
    assert (rs + [r])[..|rs|] == rs;
  }

  /** The values of three records, record by record. */
  lemma XdnsValuesOfThree(r0: XdnsRecord, r1: XdnsRecord, r2: XdnsRecord, cid: nat)
    ensures XdnsValues([r0, r1, r2], cid)
            == RecordValues(r0, cid) + RecordValues(r1, cid) + RecordValues(r2, cid)
  {
    XdnsValuesSnoc([], r0, cid);
    assert [] + [r0] == [r0];
    XdnsValuesSnoc([r0], r1, cid);
    assert [r0] + [r1] == [r0, r1];
    XdnsValuesSnoc([r0, r1], r2, cid);
    assert [r0, r1] + [r2] == [r0, r1, r2];
  }

  /** The values of six records, record by record. */
  lemma XdnsValuesOfSix(r0: XdnsRecord, r1: XdnsRecord, r2: XdnsRecord, r3: XdnsRecord,
                        r4: XdnsRecord, r5: XdnsRecord, cid: nat)
    ensures XdnsValues([r0, r1, r2, r3, r4, r5], cid)
            == RecordValues(r0, cid) + RecordValues(r1, cid) + RecordValues(r2, cid)
               + RecordValues(r3, cid) + RecordValues(r4, cid) + RecordValues(r5, cid)
  {
    XdnsValuesOfThree(r0, r1, r2, cid);
    XdnsValuesOfThree(r3, r4, r5, cid);
    XdnsValuesAppend([r0, r1, r2], [r3, r4, r5], cid);
    assert [r0, r1, r2] + [r3, r4, r5] == [r0, r1, r2, r3, r4, r5];
  }

  /** The values of the example records for one cid: the two values of
      each of its records, in reply order. */
  lemma XdnsExampleValuesFor(a: string, b: string, c: string, d: string, cid: nat)
    ensures XdnsValues(XdnsExampleRecords(a, b, c, d), cid)
            == RecordValues(XdnsRecord(Some(1), Some(c), Some(d)), cid)
               + RecordValues(XdnsRecord(Some(2), Some(Ipv4Unspecified), Some(Ipv4Unspecified)), cid)
               + RecordValues(XdnsRecord(Some(3), Some(a), Some(b)), cid)
               + RecordValues(XdnsRecord(Some(3), Some(a), Some(c)), cid)
               + RecordValues(XdnsRecord(Some(3), Some(a), Some(d)), cid)
               + RecordValues(XdnsRecord(Some(4), Some(Ipv4Unspecified), Some(Ipv4Unspecified)), cid)
  {
    XdnsValuesOfSix(XdnsRecord(Some(1), Some(c), Some(d)),
                    XdnsRecord(Some(2), Some(Ipv4Unspecified), Some(Ipv4Unspecified)),
                    XdnsRecord(Some(3), Some(a), Some(b)),
                    XdnsRecord(Some(3), Some(a), Some(c)),
                    XdnsRecord(Some(3), Some(a), Some(d)),
                    XdnsRecord(Some(4), Some(Ipv4Unspecified), Some(Ipv4Unspecified)), cid);
  }

  /** The values of the example records for cid 1: its one record's. */
  lemma XdnsExampleValuesCid1(a: string, b: string, c: string, d: string)
    ensures XdnsValues(XdnsExampleRecords(a, b, c, d), 1) == [c, d]
  {
    XdnsExampleValuesFor(a, b, c, d, 1);
    assert [c, d] + [] + [] + [] + [] + [] == [c, d];
  }

  /** The values of the example records for cid 2: 0.0.0.0 twice. */
  lemma XdnsExampleValuesCid2(a: string, b: string, c: string, d: string)
    ensures XdnsValues(XdnsExampleRecords(a, b, c, d), 2) == [Ipv4Unspecified, Ipv4Unspecified]
  {
    XdnsExampleValuesFor(a, b, c, d, 2);
    var z := Ipv4Unspecified;
    assert [] + [z, z] + [] + [] + [] + [] == [z, z];
  }

  /** The values of the example records for cid 3: its three records', in
      reply order. */
  lemma XdnsExampleValuesCid3(a: string, b: string, c: string, d: string)
    ensures XdnsValues(XdnsExampleRecords(a, b, c, d), 3) == [a, b, a, c, a, d]
  {
    XdnsExampleValuesFor(a, b, c, d, 3);
    assert [] + [] + [a, b] + [a, c] + [a, d] + [] == [a, b, a, c, a, d];
  }

  lemma ServersStep(vs: seq<string>, v: string, f: Family)
    ensures Servers(vs + [v], f) == Servers(vs, f) + (if IsServer(v, f) then [v] else [])
  {
    assert (vs + [v])[..|vs|] == vs;
  }

  /** The snoc steps that build the six cid 3 values, kept out of the two
      lemmas below so that each of them only sees the equations it uses. */
  lemma XdnsCid3Prefixes(a: string, b: string, c: string, d: string)
    ensures [] + [a] == [a] && [a] + [b] == [a, b] && [a, b] + [a] == [a, b, a]
    ensures [a, b, a] + [c] == [a, b, a, c] && [a, b, a, c] + [a] == [a, b, a, c, a]
    ensures [a, b, a, c, a] + [d] == [a, b, a, c, a, d]
  {
  }

  /** The cid 3 values in the IPv4 list: a and b enter, the repeated a does
      not. */
  lemma XdnsCid3Ipv4(a: string, b: string, c: string, d: string)
    requires IsUsableIpv4(a) && IsUsableIpv4(b) && a != b
    requires HasColon(c) && HasColon(d)
    ensures Dedup(Servers([a, b, a, c, a, d], Ipv4Family)) == [a, b]
  {
    var f := Ipv4Family;
    XdnsCid3Prefixes(a, b, c, d);
    ServersStep([], a, f);
    assert Servers([a], f) == [a];
    ServersStep([a], b, f);
    assert Servers([a, b], f) == [a, b];
    ServersStep([a, b], a, f);
    assert Servers([a, b, a], f) == [a, b, a];
    ServersStep([a, b, a], c, f);
    assert Servers([a, b, a, c], f) == [a, b, a];
    ServersStep([a, b, a, c], a, f);
    ServersStep([a, b, a, c, a], d, f);
    assert Servers([a, b, a, c, a, d], f) == [a, b, a, a];
    assert [a, b, a] + [a] == [a, b, a, a];
    DedupSnoc([], a);
    DedupSnoc([a], b);
    DedupSnoc([a, b], a);
    DedupSnoc([a, b, a], a);
  }

  /** The cid 3 values in the IPv6 list: c and d enter, in that order. */
  lemma XdnsCid3Ipv6(a: string, b: string, c: string, d: string)
    requires !HasColon(a) && !HasColon(b)
    requires HasColon(c) && HasColon(d) && c != d
    ensures Dedup(Servers([a, b, a, c, a, d], Ipv6Family)) == [c, d]
  {
    var f := Ipv6Family;
    XdnsCid3Prefixes(a, b, c, d);
    ServersStep([], a, f);
    assert Servers([a], f) == [];
    ServersStep([a], b, f);
    assert Servers([a, b], f) == [];
    ServersStep([a, b], a, f);
    assert Servers([a, b, a], f) == [];
    ServersStep([a, b, a], c, f);
    assert Servers([a, b, a, c], f) == [c];
    ServersStep([a, b, a, c], a, f);
    assert Servers([a, b, a, c, a], f) == [c];
    ServersStep([a, b, a, c, a], d, f);
    assert Servers([a, b, a, c, a, d], f) == [c, d];
    assert [] + [c] == [c] && [c] + [d] == [c, d];
    DedupSnoc([], c);
    DedupSnoc([c], d);
  }

  /** Two values of one record, server by server. */
  lemma XdnsPairServers(x: string, y: string, f: Family)
    ensures Servers([x, y], f) == (if IsServer(x, f) then [x] else []) + (if IsServer(y, f) then [y] else [])
  {
    assert [] + [x] == [x];
    assert [x] + [y] == [x, y];
    ServersStep([], x, f);
    ServersStep([x], y, f);
  }

  /** Two distinct servers of one family keep their order; a pair that holds
      no server of the family leaves its list empty. */
  lemma XdnsPairLists(x: string, y: string, f: Family)
    requires IsServer(x, f) == IsServer(y, f)
    requires IsServer(x, f) ==> x != y
    ensures Dedup(Servers([x, y], f)) == if IsServer(x, f) then [x, y] else []
  {
    XdnsPairServers(x, y, f);
    if IsServer(x, f) {
      assert [] + [x] == [x];
      assert [x] + [y] == [x, y];
      DedupSnoc([], x);
      DedupSnoc([x], y);
    } else {
      assert Servers([x, y], f) == [];
    }
  }

  /** The last two vectors of the parser's unit tests, on their records: for
      cid 3 each list holds its two servers once, in first-seen order; for
      cid 1 only the IPv6 list is filled; for cid 2, whose record holds
      0.0.0.0 twice, both lists stay empty. */
  lemma XdnsExamples(a: string, b: string, c: string, d: string)
    requires a == "198.224.166.135" && b == "198.224.167.135"
    requires c == "2001:4888:53:FF00:524:D:0:0" && d == "2001:4888:52:FF00:528:D:0:0"
    ensures XdnsFromRecords(XdnsExampleRecords(a, b, c, d), 3) == XdnsReply([a, b], [c, d])
    ensures XdnsFromRecords(XdnsExampleRecords(a, b, c, d), 1) == XdnsReply([], [c, d])
    ensures XdnsFromRecords(XdnsExampleRecords(a, b, c, d), 2) == XdnsReply([], [])
  {
    XdnsExampleAddresses(a, b, c, d);
    XdnsExampleValuesCid1(a, b, c, d);
    XdnsExampleValuesCid2(a, b, c, d);
    XdnsExampleValuesCid3(a, b, c, d);
    XdnsCid3Ipv4(a, b, c, d);
    XdnsCid3Ipv6(a, b, c, d);
    var z := Ipv4Unspecified;
    assert !HasColon(z) by {
      assert forall i :: 0 <= i < |z| ==> z[i] != ':';
    }
    XdnsPairLists(c, d, Ipv4Family);
    XdnsPairLists(c, d, Ipv6Family);
    XdnsPairLists(z, z, Ipv4Family);
    XdnsPairLists(z, z, Ipv6Family);
  }

  /** The records of the first four vectors of the parser's unit tests: a
      record for cid 1 with e and f, and records for cids 2 to 5 with
      0.0.0.0 twice. */
  function XdnsFirstRecords(e: string, f: string): seq<XdnsRecord> {
    var z := Some(Ipv4Unspecified);
    [XdnsRecord(Some(1), Some(e), Some(f)), XdnsRecord(Some(2), z, z), XdnsRecord(Some(3), z, z),
     XdnsRecord(Some(4), z, z), XdnsRecord(Some(5), z, z)]
  }

  /** The values of five records, record by record. */
  lemma XdnsValuesOfFive(r0: XdnsRecord, r1: XdnsRecord, r2: XdnsRecord, r3: XdnsRecord, r4: XdnsRecord, cid: nat)
    ensures XdnsValues([r0, r1, r2, r3, r4], cid)
            == RecordValues(r0, cid) + RecordValues(r1, cid) + RecordValues(r2, cid)
               + RecordValues(r3, cid) + RecordValues(r4, cid)
  {
    XdnsValuesOfThree(r0, r1, r2, cid);
    XdnsValuesSnoc([r0, r1, r2], r3, cid);
    assert [r0, r1, r2] + [r3] == [r0, r1, r2, r3];
    XdnsValuesSnoc([r0, r1, r2, r3], r4, cid);
    assert [r0, r1, r2, r3] + [r4] == [r0, r1, r2, r3, r4];
  }

  /** The values of the first records for cids 0, 1 and 2. */
  lemma XdnsFirstValues(e: string, f: string)
    ensures XdnsValues(XdnsFirstRecords(e, f), 0) == []
    ensures XdnsValues(XdnsFirstRecords(e, f), 1) == [e, f]
    ensures XdnsValues(XdnsFirstRecords(e, f), 2) == [Ipv4Unspecified, Ipv4Unspecified]
  {
    var z := Some(Ipv4Unspecified);
    var r0, r1, r2, r3, r4 := XdnsRecord(Some(1), Some(e), Some(f)), XdnsRecord(Some(2), z, z),
                              XdnsRecord(Some(3), z, z), XdnsRecord(Some(4), z, z), XdnsRecord(Some(5), z, z);
    assert XdnsFirstRecords(e, f) == [r0, r1, r2, r3, r4];
    XdnsValuesOfFive(r0, r1, r2, r3, r4, 0);
    XdnsValuesOfFive(r0, r1, r2, r3, r4, 1);
    XdnsValuesOfFive(r0, r1, r2, r3, r4, 2);
    assert [e, f] + [] + [] + [] + [] == [e, f];
    assert [] + [z.value, z.value] + [] + [] + [] == [z.value, z.value];
  }

  /** The addresses of the first vectors and how they are classed. */
  lemma XdnsFirstAddresses(e: string, g: string)
    requires e == "172.26.38.1" && g == "172.26.38.2"
    ensures IsUsableIpv4(e) && IsUsableIpv4(g) && e != g && !HasColon(Ipv4Unspecified)
  {
    var z := Ipv4Unspecified;
    assert forall i :: 0 <= i < |e| ==> e[i] != ':';
    assert forall i :: 0 <= i < |g| ==> g[i] != ':';
    assert forall i :: 0 <= i < |z| ==> z[i] != ':';
    assert e[10] != g[10];
  }

  /** Cid 1 with one server and 0.0.0.0: the IPv4 list holds the server. */
  lemma XdnsFirstOneServer(e: string)
    requires IsUsableIpv4(e) && !HasColon(Ipv4Unspecified)
    ensures XdnsFromRecords(XdnsFirstRecords(e, Ipv4Unspecified), 1) == XdnsReply([e], [])
  {
    var z := Ipv4Unspecified;
    XdnsFirstValues(e, z);
    XdnsPairServers(e, z, Ipv4Family);
    XdnsPairServers(e, z, Ipv6Family);
    assert [e] + [] == [e];
    assert [] + [e] == [e];
    DedupSnoc([], e);
  }

  /** The first four vectors of the parser's unit tests, on their records:
      for cid 1 the IPv4 list holds the server, or both servers, and
      0.0.0.0 is dropped; cid 2, whose record holds 0.0.0.0 twice, and cid
      0, which no record carries, give two empty lists. */
  lemma XdnsFirstExamples(e: string, g: string)
    requires e == "172.26.38.1" && g == "172.26.38.2"
    ensures XdnsFromRecords(XdnsFirstRecords(e, Ipv4Unspecified), 1) == XdnsReply([e], [])
    ensures XdnsFromRecords(XdnsFirstRecords(e, g), 1) == XdnsReply([e, g], [])
    ensures XdnsFromRecords(XdnsFirstRecords(e, Ipv4Unspecified), 2) == XdnsReply([], [])
    ensures XdnsFromRecords(XdnsFirstRecords(e, Ipv4Unspecified), 0) == XdnsReply([], [])
  {
    var z := Ipv4Unspecified;
    XdnsFirstAddresses(e, g);
    XdnsFirstOneServer(e);
    XdnsFirstValues(e, g);
    XdnsFirstValues(e, z);
    XdnsPairLists(e, g, Ipv4Family);
    XdnsPairLists(e, g, Ipv6Family);
    XdnsPairLists(z, z, Ipv4Family);
    XdnsPairLists(z, z, Ipv6Family);
  }
}
