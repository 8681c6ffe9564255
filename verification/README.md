# Sierra XMM bearer and Infineon reply parsers

A Dafny model of two parts of ModemManager's support for Intel XMM modems.

- **The Infineon reply parsers** (`plugins/infineon/mm-modem-helpers-infineon.c`):
  - the `+CGPADDR` parser, which reads a PDP context's IPv4 and IPv6 addresses;
  - the `+XDNS?` parser, which collects the DNS servers of one context into an IPv4 list and an IPv6 list, without duplicates;
  - the linear search `g_ptr_array_contains_string` that the `+XDNS?` parser uses.

  The regular expressions are modelled as explicit scanners with the regex engine's semantics (module `InfineonRegex`). The parsers work on the captures those scanners return (module `InfineonHelpers`).
- **The three step machines of the Sierra XMM bearer** (`plugins/sierra/mm-broadband-bearer-sierra-xmm.c`):
  - *dial* (`SierraXmmDial`), with `+WPPP` authentication and `+XDNS` family selection;
  - *get IP config* (`SierraXmmIpConfig`);
  - *disconnect* (`SierraXmmDisconnect`).

  Each machine is a class holding its `step` field. Its `Run` method drives the steps over an `AtPort`, a primary AT port that records every command sent and answers from a script of replies. A wrapper method (`Dial3gpp`, `GetIpConfig3gpp`, `Disconnect3gpp`) creates the port and the context and runs them. Each wrapper is proved equal to a reference function (`DialSpec`, `IpConfigSpec`), or to an explicit result. The lemmas about those functions state what the bearer promises: which commands are sent, when the dial stops, when it connects, and what configuration comes back.

Shared pieces:
- `Text`: `%u` rendering, `mm_get_uint_from_str`, `g_strstrip` and unquoting.
- `AtCommands`: the command set with its wire text and timeouts, and the scripted port.
- `Wrappers`: `Option` and `Result`.

Where the code and its description differ, the model follows the code:
- **An empty `+CGACT?` list aborts.** `dial_3gpp_cgact_check_ready` asserts that the parsed `+CGACT?` list is non-empty before its own error check. An empty list, which is also what a parse failure gives, therefore stops the process: `AssertionAbort`. It is not reported as an error.
- **A negative USB index fails before any command.** `dial_3gpp` checks the two USB configuration indices itself, before any command is sent. When either is negative, it passes its `GError` variable, still NULL, to `g_task_return_error`. GLib refuses a NULL error there, and the task is then unreferenced, so the dial's callback never runs. The model marks this outcome as `DialFailed(ErrorNotSet)`.
- **Extra `+CGPADDR` failure paths.** The `+CGPADDR` parser fails when the pattern does not match, and also when the cid does not fit in a `guint`.

## Model

| member | source | states |
|---|---|---|
| Text.Decimal | plugins/sierra/mm-broadband-bearer-sierra-xmm.c:184-192 | `%u` yields a non-empty string of digits with no leading zero |
| Text.DecimalValueOfDecimal | plugins/sierra/mm-broadband-bearer-sierra-xmm.c:184-192 | the digits `%u` prints have the printed number as their decimal value |
| Text.ParseUint | plugins/infineon/mm-modem-helpers-infineon.c:59-64 | a parsed cid is a non-empty run of digits whose value fits in a guint |
| Text.ParseUintOfDecimal | plugins/infineon/mm-modem-helpers-infineon.c:59-64 | printing a guint with `%u` and parsing it back gives the same number |
| Text.Strip | plugins/infineon/mm-modem-helpers-infineon.c:66-67 | the stripped string is no longer than the input and neither starts nor ends with white space |
| Text.StripRemovesEdgeSpace | plugins/infineon/mm-modem-helpers-infineon.c:66-67 | the stripped string is a contiguous slice of the input, and everything before and after that slice is white space |
| Text.StripIdempotent | plugins/infineon/mm-modem-helpers-infineon.c:66-67 | stripping twice is stripping once |
| Text.Unquote | plugins/infineon/mm-modem-helpers-infineon.c:66-67 | an unquoted value is never empty (an empty one is NULL), and a capture without quotes is returned unchanged |
| Text.UnquoteQuoted | plugins/infineon/mm-modem-helpers-infineon.c:66-67 | quoting a trimmed value and unquoting it gives the value back |
| AtCommands.AuthMethod.Code | plugins/sierra/mm-broadband-bearer-sierra-xmm.c:140-144 | the `+WPPP` method codes are 0, 1 and 2 |
| AtCommands.DnsFamily.Code | plugins/sierra/mm-broadband-bearer-sierra-xmm.c:272-283 | the `+XDNS` family codes lie between 1 and 3 |
| AtCommands.Render | plugins/sierra/mm-broadband-bearer-sierra-xmm.c:235-348 | every command's text starts with `+` |
| AtCommands.TimeoutSeconds | plugins/sierra/mm-broadband-bearer-sierra-xmm.c:240-348 | 30 s exactly for `+CGACT=0/1`, 10 s exactly for `+CGDATA`, 3 s for every other command |
| AtCommands.AtPort.Command | plugins/sierra/mm-broadband-bearer-sierra-xmm.c:240-249 | the command is appended to the sent log, and the reply is the script's reply for its position |
| InfineonRegex.CgpaddrMatchAt | plugins/infineon/mm-modem-helpers-infineon.c:53-58 | a match's cid capture is a non-empty run of digits, and its address captures hold no quote |
| InfineonRegex.CgpaddrSearch | plugins/infineon/mm-modem-helpers-infineon.c:58 | the leftmost match keeps the same capture shapes |
| InfineonRegex.CgpaddrLineScans | plugins/infineon/mm-modem-helpers-infineon.c:53-67 | scanning a reply line printed from a cid and one or two quoted addresses returns exactly those fields, whatever follows the line |
| InfineonRegex.XdnsMatchAt | plugins/infineon/mm-modem-helpers-infineon.c:154-159 | a match ends after its start, within the reply, with a digit cid and captures that do not cross a line end |
| InfineonRegex.XdnsSearch | plugins/infineon/mm-modem-helpers-infineon.c:159-191 | the leftmost match at or after a position has the same shape |
| InfineonRegex.XdnsLineMatchesAt | plugins/infineon/mm-modem-helpers-infineon.c:154-159 | at a printed line `+XDNS: <cid>, "<dns1>", "<dns2>"` followed by a line break, the anchored pattern captures exactly those three fields and ends after the line's last quote |
| InfineonRegex.XdnsMatchesLine | plugins/infineon/mm-modem-helpers-infineon.c:159-191 | such a line is the next match, and the following `g_match_info_next` resumes after the line break |
| InfineonRegex.XdnsTextScans | plugins/infineon/mm-modem-helpers-infineon.c:154-191 | scanning a reply printed from a list of lines, each ended by line breaks, yields the fields of every line, one match per line, in order |
| InfineonHelpers.CgpaddrFromCaptures | plugins/infineon/mm-modem-helpers-infineon.c:59-113 | a failure is either the unparsable cid or "no valid address" carrying the cid read; a success reports the cid parsed from group 1 |
| InfineonHelpers.ParseCgpaddrResponse | plugins/infineon/mm-modem-helpers-infineon.c:33-114 | a success has a guint cid and at least one address; an IPv4 address is non-empty, has no colon and is not 0.0.0.0; an IPv6 address has a colon and is not the unspecified one; no match means "no valid address" |
| InfineonHelpers.CgpaddrAddressSlots | plugins/infineon/mm-modem-helpers-infineon.c:66-102 | once the cid parses: success exactly when the first field is a usable IPv4 or IPv6 address or the second a usable IPv6 one; the IPv4 slot is the first field exactly when that is a usable IPv4 address; the IPv6 slot is the second field when usable, else the first field when it is a usable IPv6 address; a failure carries the cid |
| InfineonHelpers.CgpaddrEmptyFirstField | plugins/infineon/mm-modem-helpers-infineon.c:66-95 | an empty first field reports no IPv4 address, and the reply succeeds exactly when the second field is a usable IPv6 address |
| InfineonHelpers.CgpaddrSecondAddressWins | plugins/infineon/mm-modem-helpers-infineon.c:88-95 | a usable IPv6 second address is the one reported, whatever the first field holds |
| InfineonHelpers.CgpaddrIgnoresUnusableSecond | plugins/infineon/mm-modem-helpers-infineon.c:88-95 | a second field that is not a usable IPv6 address leaves the result as if it were absent |
| InfineonHelpers.CgpaddrUnspecifiedFails | plugins/infineon/mm-modem-helpers-infineon.c:70-102 | a reply with only unspecified addresses fails with "no valid address", and the cid it read |
| InfineonHelpers.CgpaddrOversizedCidFails | plugins/infineon/mm-modem-helpers-infineon.c:59-64 | a cid above G_MAXUINT is refused before the addresses are looked at |
| InfineonHelpers.CgpaddrLineParses | plugins/infineon/mm-modem-helpers-infineon.c:33-114 | parsing a printed reply line is the capture-level parse of its own fields, and the cid reads back as printed |
| InfineonHelpers.CgpaddrExampleIpv4Only | plugins/infineon/tests/test-modem-helpers-infineon.c:40-45 | the IPv4-only test line gives cid 1 and only that IPv4 address |
| InfineonHelpers.CgpaddrExampleIpv6Only | plugins/infineon/tests/test-modem-helpers-infineon.c:46-51 | the IPv6-only test line gives cid 1 and only that IPv6 address |
| InfineonHelpers.CgpaddrExampleUnspecifiedOnly | plugins/infineon/tests/test-modem-helpers-infineon.c:52-63 | a line holding only 0.0.0.0, or only the unspecified IPv6 address, fails, with cid 1 |
| InfineonHelpers.CgpaddrExampleUnspecifiedPair | plugins/infineon/tests/test-modem-helpers-infineon.c:64-69 | the line with both unspecified addresses fails, with cid 2 |
| InfineonHelpers.CgpaddrExampleBothFamilies | plugins/infineon/tests/test-modem-helpers-infineon.c:70-75 | the two-address line gives cid 3 and both addresses |
| InfineonHelpers.CgpaddrExampleUnspecifiedIpv4 | plugins/infineon/tests/test-modem-helpers-infineon.c:76-81 | 0.0.0.0 first and an IPv6 address second gives only the IPv6 address |
| InfineonHelpers.CgpaddrExampleUnspecifiedIpv6 | plugins/infineon/tests/test-modem-helpers-infineon.c:82-87 | an IPv4 address first and the unspecified IPv6 second gives only the IPv4 address |
| InfineonHelpers.ContainsString | plugins/infineon/mm-modem-helpers-infineon.c:116-134 | the scan reports true exactly when the string is in the array |
| InfineonHelpers.ReadRecord | plugins/infineon/mm-modem-helpers-infineon.c:161-164 | the cid read from a match fits in a guint, and an unquoted field is never empty |
| InfineonHelpers.RecordValues | plugins/infineon/mm-modem-helpers-infineon.c:161-164 | a record contributes values exactly when its cid is the one asked for and both fields are present |
| InfineonHelpers.AddServer | plugins/infineon/mm-modem-helpers-infineon.c:165-189 | adding one field keeps both lists equal to the deduplicated, family-filtered values seen so far |
| InfineonHelpers.AddRecord | plugins/infineon/mm-modem-helpers-infineon.c:161-190 | one loop iteration extends the values seen by the record's contribution, and keeps both lists in step |
| InfineonHelpers.ParseXdnsQueryResponse | plugins/infineon/mm-modem-helpers-infineon.c:138-204 | the two lists returned are those of the reference `XdnsQuery`, built from every match of the reply in order |
| InfineonHelpers.DedupMembers | plugins/infineon/mm-modem-helpers-infineon.c:167-186 | deduplication keeps exactly the values of its input |
| InfineonHelpers.DedupDistinct | plugins/infineon/mm-modem-helpers-infineon.c:167-186 | a deduplicated list holds no value twice |
| InfineonHelpers.DedupOrder | plugins/infineon/mm-modem-helpers-infineon.c:167-186 | values keep the order of their first occurrence |
| InfineonHelpers.ServersMembers | plugins/infineon/mm-modem-helpers-infineon.c:165-189 | a family's servers are exactly the values of that family |
| InfineonHelpers.ServersOrder | plugins/infineon/mm-modem-helpers-infineon.c:165-189 | filtering by family keeps the order of first occurrences |
| InfineonHelpers.XdnsValuesAppend | plugins/infineon/mm-modem-helpers-infineon.c:160-192 | the values of two runs of records are the values of each, concatenated |
| InfineonHelpers.XdnsValuesMembers | plugins/infineon/mm-modem-helpers-infineon.c:160-192 | a value is collected exactly when some record for the cid carries it |
| InfineonHelpers.XdnsValuesNonEmpty | plugins/infineon/mm-modem-helpers-infineon.c:163-164 | no collected value is empty |
| InfineonHelpers.XdnsListMembers | plugins/infineon/mm-modem-helpers-infineon.c:160-192 | a value is in a list exactly when a record for the cid carries it and it belongs to that list's family |
| InfineonHelpers.XdnsListDistinct | plugins/infineon/mm-modem-helpers-infineon.c:167-186 | neither list holds a value twice |
| InfineonHelpers.XdnsListOrder | plugins/infineon/mm-modem-helpers-infineon.c:160-192 | each list follows the order in which its values first occur among the records for the cid |
| InfineonHelpers.XdnsListFamilies | plugins/infineon/mm-modem-helpers-infineon.c:165-189 | IPv4 servers are non-empty, have no colon and are never 0.0.0.0; IPv6 servers are non-empty and have a colon |
| InfineonHelpers.XdnsSkipsOtherRecords | plugins/infineon/mm-modem-helpers-infineon.c:161-164 | removing a record for another cid, or one with a missing field, changes nothing |
| InfineonHelpers.XdnsKeepsUnspecifiedIpv6 | plugins/infineon/mm-modem-helpers-infineon.c:166-170 | an unspecified IPv6 server of the cid does end up in the IPv6 list |
| InfineonHelpers.XdnsNoRecordsForCid | plugins/infineon/tests/test-modem-helpers-infineon.c:154-160 | a reply with no complete record for the cid gives two empty lists |
| InfineonHelpers.XdnsFirstExamples | plugins/infineon/tests/test-modem-helpers-infineon.c:133-160 | the first four test vectors, on their records: cid 1 gives one and then two IPv4 servers with 0.0.0.0 dropped; cids 2 and 0 give two empty lists |
| InfineonHelpers.XdnsExamples | plugins/infineon/tests/test-modem-helpers-infineon.c:161-174 | the last two test vectors, on their records: cid 1 gives two IPv6 servers; cid 3 gives each of its IPv4 and IPv6 servers once, in first-seen order; cid 2 gives two empty lists |
| SierraXmmDial.SelectAuthMethod | plugins/sierra/mm-broadband-bearer-sierra-xmm.c:169-177 | CHAP exactly when CHAP is allowed or the set is unknown; PAP exactly when PAP but not CHAP is allowed; otherwise no authentication |
| SierraXmmDial.BuildAuthString | plugins/sierra/mm-broadband-bearer-sierra-xmm.c:147-195 | a `+WPPP` for the cid; no credentials means method 0 and empty fields; with either credential, the selected method, and each field is its credential after charset conversion (empty when that credential is absent or its conversion fails) |
| SierraXmmDial.AuthStringWithoutCredentials | plugins/sierra/mm-broadband-bearer-sierra-xmm.c:191-192 | without credentials the text is exactly `+WPPP=0,<cid>,"",""` |
| SierraXmmDial.AuthStringUserOnly | plugins/sierra/mm-broadband-bearer-sierra-xmm.c:179-188 | a user without a password sends the converted user (empty if conversion fails) and an empty password |
| SierraXmmDial.XdnsFamilyFor | plugins/sierra/mm-broadband-bearer-sierra-xmm.c:268-283 | family 1 exactly for IPv4, 2 exactly for IPv6, 3 for IPv4v6 and for anything else |
| SierraXmmDial.FirstContext | plugins/sierra/mm-broadband-bearer-sierra-xmm.c:117-125 | no entry is found exactly when no entry has the cid; otherwise the entry found is the first with the cid |
| SierraXmmDial.FindContext | plugins/sierra/mm-broadband-bearer-sierra-xmm.c:117-125 | the loop over the list stops at the first entry for the cid |
| SierraXmmDial.DialPlan | plugins/sierra/mm-broadband-bearer-sierra-xmm.c:235-355 | a dial that meets no failure sends 6 commands, or 3 when the context is active; `+CGACT?` first, `+CGDATA` last |
| SierraXmmDial.DialStep.Next | plugins/sierra/mm-broadband-bearer-sierra-xmm.c:42-51 | `step++` moves to the enumerator with the next value |
| SierraXmmDial.StepAfterFollowsPlan | plugins/sierra/mm-broadband-bearer-sierra-xmm.c:235-355 | after k commands the step sends the plan's next command and is followed by the step for k+1; the last step comes exactly after the whole plan |
| SierraXmmDial.Dial3gppContext.Run | plugins/sierra/mm-broadband-bearer-sierra-xmm.c:218-356 | the step machine ends as the reference dial `Dialled` does, having sent the same commands |
| SierraXmmDial.Dial3gppContext.CheckCgact | plugins/sierra/mm-broadband-bearer-sierra-xmm.c:86-138 | sends `+CGACT?`; a failed reply or an empty list ends the dial; otherwise the machine is on the plan chosen by whether the cid's first entry is active |
| SierraXmmDial.Dial3gppContext.NextStep | plugins/sierra/mm-broadband-bearer-sierra-xmm.c:198-216 | sends the step's command and advances on success; a failure ends the dial; the last step returns the data port |
| SierraXmmDial.Dial3gpp | plugins/sierra/mm-broadband-bearer-sierra-xmm.c:358-412 | outcome and commands sent equal the reference `DialSpec` |
| SierraXmmDial.IssueFromFacts | plugins/sierra/mm-broadband-bearer-sierra-xmm.c:198-233 | a run from the k-th command sends a prefix of the plan, passes every check before its end, and ends connected (whole plan), cancelled, or on the failed reply of its last command |
| SierraXmmDial.IssueFromCompletes | plugins/sierra/mm-broadband-bearer-sierra-xmm.c:198-233 | when every remaining reply succeeds and no check is cancelled, the run connects after the whole plan |
| SierraXmmDial.DialFollowsPlan | plugins/sierra/mm-broadband-bearer-sierra-xmm.c:117-137 | the commands sent are a prefix of the plan; for an active context `+XDATACHANNEL` follows `+CGACT?` and no `+WPPP`, `+XDNS` or `+CGACT=1` is sent; otherwise `+WPPP` follows |
| SierraXmmDial.DialRefusedRequest | plugins/sierra/mm-broadband-bearer-sierra-xmm.c:386-408 | no data port, or a negative USB index, fails before any command with the matching error |
| SierraXmmDial.DialStopsAtFailure | plugins/sierra/mm-broadband-bearer-sierra-xmm.c:100-105 | a command failure is the reply to the last command sent, and every earlier command succeeded |
| SierraXmmDial.DialCancellation | plugins/sierra/mm-broadband-bearer-sierra-xmm.c:229-233 | a dial cancelled at the k-th check has sent at most k commands; a cancelled dial stopped at the check after its last command |
| SierraXmmDial.DialConnects | plugins/sierra/mm-broadband-bearer-sierra-xmm.c:351-354 | connects exactly when the request is accepted, `+CGACT?` gives a list, every planned command succeeds and no check is cancelled; then returns the data port after the whole plan |
| SierraXmmDial.DialAbortsOnEmptyList | plugins/sierra/mm-broadband-bearer-sierra-xmm.c:107-115 | the assertion fires exactly when `+CGACT?` succeeds and yields no list, after that one command |
| SierraXmmDial.DialTimeouts | plugins/sierra/mm-broadband-bearer-sierra-xmm.c:240-348 | along the plan, `+CGACT=1` waits 30 s, the final `+CGDATA` 10 s, and every other command 3 s |
| SierraXmmIpConfig.StaticConfig | plugins/sierra/mm-broadband-bearer-sierra-xmm.c:508-521 | a reported address becomes a static configuration with prefix 0 and no DNS |
| SierraXmmIpConfig.ConfigFor | plugins/sierra/mm-broadband-bearer-sierra-xmm.c:508-521 | a configuration exists exactly for a reported address |
| SierraXmmIpConfig.WithDns | plugins/sierra/mm-broadband-bearer-sierra-xmm.c:556-560 | servers are set only on an existing configuration, and nothing else in it changes |
| SierraXmmIpConfig.GetIpConfigContext.IpInfoReady | plugins/sierra/mm-broadband-bearer-sierra-xmm.c:478-526 | a failed or unparsable reply fails with its cause and changes nothing; otherwise one configuration per reported address and the XDNS step |
| SierraXmmIpConfig.GetIpConfigContext.DnsInfoReady | plugins/sierra/mm-broadband-bearer-sierra-xmm.c:528-564 | a failed reply, or an unparsable one (named in the error), fails and changes nothing; otherwise each existing configuration gets its family's servers |
| SierraXmmIpConfig.GetIpConfigContext.Run | plugins/sierra/mm-broadband-bearer-sierra-xmm.c:566-616 | the step machine ends as the reference `IpConfigSpec` does, having sent the same commands |
| SierraXmmIpConfig.GetIpConfig3gpp | plugins/sierra/mm-broadband-bearer-sierra-xmm.c:618-653 | result and commands sent equal the reference `IpConfigSpec` |
| SierraXmmIpConfig.IpConfigOnSuccess | plugins/sierra/mm-broadband-bearer-sierra-xmm.c:506-564 | a success sent `+CGPADDR=<cid>` and `+XDNS?`, and holds a static, prefix-0 configuration exactly for each reported address, with that family's servers |
| SierraXmmIpConfig.IpConfigFailures | plugins/sierra/mm-broadband-bearer-sierra-xmm.c:492-504 | a failed or unparsable `+CGPADDR` stops before `+XDNS?`; an unparsable `+XDNS?` reply fails the retrieval, naming the reply |
| SierraXmmIpConfig.IpConfigIgnoresReportedCid | plugins/sierra/mm-broadband-bearer-sierra-xmm.c:506 | the cid the `+CGPADDR` reply reports does not affect the result |
| SierraXmmIpConfig.InfineonIpConfig | plugins/infineon/mm-modem-helpers-infineon.c:98-102 | with the Infineon parsers, `+XDNS?` never fails to parse, a success has a configuration, and each configuration's address and servers are of its family |
| SierraXmmDisconnect.Disconnect3gppContext.Run | plugins/sierra/mm-broadband-bearer-sierra-xmm.c:693-756 | sends `+CGACT=0,<cid>` once and returns TRUE whatever the reply; the failure is logged exactly for an error other than NO CARRIER |
| SierraXmmDisconnect.Disconnect3gpp | plugins/sierra/mm-broadband-bearer-sierra-xmm.c:758-789 | always succeeds, after exactly one command, `+CGACT=0,<cid>`, with a 30 s timeout |

## Left out

- The bearer calls `mm_xmm_parse_cgpaddr_response` and `mm_xmm_parse_xdns_query_response`, declared in `mm-modem-helpers-xmm.h`. That header and its source are not part of this model.
  - The get-IP-config machine takes its two parsers as parameters (`IpParsers`).
  - `InfineonParsers` plugs in the Infineon parsers of the same name and shape as stand-ins. `InfineonIpConfig` is stated for that choice.
- `mm_3gpp_parse_cgact_read_response` and the modem's charset conversion (`mm_broadband_modem_take_and_convert_to_current_charset`) are not part of this model. They are function-valued parameters of `Modem`.
  - The `+CGACT?` parser's NULL, whether from an error or from a reply with no contexts, is its empty list.
- GLib's asynchronous plumbing is modelled as a sequential run over a scripted port:
  - the GTask, callbacks and main loop;
  - the serial port and its timeouts;
  - the reply to the k-th command is the k-th scripted reply, and a missing one is a timeout.

  Cancellation is a list telling which checks see the cancellable cancelled.
- The following are left out because they change no observable result:
  - reference counting and freeing, including the strings the parsers leak;
  - `mm_dbg` logging, which appears only as the `LogsFailure` ghost result of disconnect;
  - `g_warn_if_fail`.
- The `g_assert`s on non-NULL arguments are not modelled. NULL cannot be expressed in the model's types.
- The `ip_family` argument of `get_ip_config_3gpp` is stored but never read, so it is not modelled.
- The secondary AT port is looked up by `dial_3gpp` and never used, so it is not modelled.
- Kernel device properties are left out. The USB configuration indices are inputs of `DialRequest`, -1 when missing. Port lookup is also left out: the data port is an optional input.
- ErrorNotSet stands for a dial that never completes (the negative USB index case). The model gives it an outcome of its own, but nothing reaches the caller in that case.
- The error domains and messages of GError are represented only by the error's kind (`DialError`, `IpConfigError`, `CgpaddrError`).
- XdnsFirstExamples: the first four `+XDNS?` test vectors are stated on the records the scanner reads from those replies, not on the reply text. The `+CGPADDR` examples, by contrast, are stated on the reply text.
- XdnsExamples: the last two `+XDNS?` test vectors are likewise stated on their records, not on the reply text.
- Render: its contract states only the leading `+`. The full text of each command is its definition. `AuthStringWithoutCredentials` and `Disconnect3gpp` state the exact text for `+WPPP` without credentials and for `+CGACT=0`.
