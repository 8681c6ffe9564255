/** The two reply patterns of the Infineon helpers, as explicit scanners with
    the regex engine's semantics: the leftmost position where the pattern
    matches, greedy repetition, and for the XDNS pattern the backtracking of
    its greedy `(.*)` captures (which do not cross a line end).

      +CGPADDR:\s*(\d+)\s*,("([^"]*)"),*("([^"]*)")*
      +XDNS:\s*(\d+)\s*,\s*"(.*)"\s*,\s*"(.*)"        (repeated over the reply)
*/
module InfineonRegex {
  import opened Wrappers
  import opened Text

  const CgpaddrTag: string := "+CGPADDR:"
  const XdnsTag: string := "+XDNS:"

  predicate HasNoQuote(s: string) {
    forall i :: 0 <= i < |s| ==> s[i] != '"'
  }

  predicate HasNoLineBreak(s: string) {
    forall i :: 0 <= i < |s| ==> !IsLineBreak(s[i])
  }

  predicate HasPrefixAt(s: string, i: nat, t: string) {
    i + |t| <= |s| && s[i..i + |t|] == t
  }

  /** The end of the run matched by `\s*` from i. */
  function SkipSpaces(s: string, i: nat): (j: nat)
    requires i <= |s|
    ensures i <= j <= |s|
    ensures forall k :: i <= k < j ==> IsSpace(s[k])
    ensures j < |s| ==> !IsSpace(s[j])
    decreases |s| - i
  {
    if i < |s| && IsSpace(s[i]) then SkipSpaces(s, i + 1) else i
  }

  /** The run is determined by where it stops. */
  lemma {:induction false} SkipSpacesAt(s: string, i: nat, j: nat)
    requires i <= j <= |s|
    requires forall k :: i <= k < j ==> IsSpace(s[k])
    requires j < |s| ==> !IsSpace(s[j])
    ensures SkipSpaces(s, i) == j
    decreases j - i
  {
    if i < j {
      SkipSpacesAt(s, i + 1, j);
    }
  }

  /** The end of the run matched by `\d*` (the caller checks that it is not empty) from i. */
  function SkipDigits(s: string, i: nat): (j: nat)
    requires i <= |s|
    ensures i <= j <= |s|
    ensures forall k :: i <= k < j ==> IsDigit(s[k])
    ensures j < |s| ==> !IsDigit(s[j])
    decreases |s| - i
  {
    if i < |s| && IsDigit(s[i]) then SkipDigits(s, i + 1) else i
  }

  /** The run is determined by where it stops. */
  lemma {:induction false} SkipDigitsAt(s: string, i: nat, j: nat)
    requires i <= j <= |s|
    requires forall k :: i <= k < j ==> IsDigit(s[k])
    requires j < |s| ==> !IsDigit(s[j])
    ensures SkipDigits(s, i) == j
    decreases j - i
  {
    if i < j {
      SkipDigitsAt(s, i + 1, j);
    }
  }

  /** The end of the run matched by `,*` from i. */
  function SkipCommas(s: string, i: nat): (j: nat)
    requires i <= |s|
    ensures i <= j <= |s|
    ensures forall k :: i <= k < j ==> s[k] == ','
    ensures j < |s| ==> s[j] != ','
    decreases |s| - i
  {
    if i < |s| && s[i] == ',' then SkipCommas(s, i + 1) else i
  }

  /** The run is determined by where it stops. */
  lemma {:induction false} SkipCommasAt(s: string, i: nat, j: nat)
    requires i <= j <= |s|
    requires forall k :: i <= k < j ==> s[k] == ','
    requires j < |s| ==> s[j] != ','
    ensures SkipCommas(s, i) == j
    decreases j - i
  {
    if i < j {
      SkipCommasAt(s, i + 1, j);
    }
  }

  /** The end of the run matched by `[^"]*` from i. */
  function SkipToQuote(s: string, i: nat): (j: nat)
    requires i <= |s|
    ensures i <= j <= |s|
    ensures forall k :: i <= k < j ==> s[k] != '"'
    ensures j < |s| ==> s[j] == '"'
    decreases |s| - i
  {
    if i < |s| && s[i] != '"' then SkipToQuote(s, i + 1) else i
  }

  /** The run is determined by where it stops. */
  lemma {:induction false} SkipToQuoteAt(s: string, i: nat, j: nat)
    requires i <= j <= |s|
    requires forall k :: i <= k < j ==> s[k] != '"'
    requires j < |s| ==> s[j] == '"'
    ensures SkipToQuote(s, i) == j
    decreases j - i
  {
    if i < j {
      SkipToQuoteAt(s, i + 1, j);
    }
  }

  // ---------------------------------------------------------------------
  // +CGPADDR

  /** The captures of one +CGPADDR match: group 1 (cid) and the contents of
      groups 3 and 5 (the empty string when group 5 did not take part). */
  datatype CgpaddrCaptures = CgpaddrCaptures(cid: string, addr1: string, addr2: string)

  /** `("([^"]*)")*` at i: a repeated group captures its last iteration. */
  function LastQuoted(s: string, i: nat, last: string): (r: string)
    requires i <= |s|
    requires HasNoQuote(last)
    ensures HasNoQuote(r)
    decreases |s| - i
  {
    if i < |s| && s[i] == '"' then
      var j := SkipToQuote(s, i + 1);
      if j < |s| then LastQuoted(s, j + 1, s[i + 1..j]) else last
    else last
  }

  /** The +CGPADDR pattern anchored at i. */
  function CgpaddrMatchAt(s: string, i: nat): (m: Option<CgpaddrCaptures>)
    requires i <= |s|
    ensures m.Some? ==> m.value.cid != [] && AllDigits(m.value.cid)
    ensures m.Some? ==> HasNoQuote(m.value.addr1) && HasNoQuote(m.value.addr2)
  {
    if !HasPrefixAt(s, i, CgpaddrTag) then None
    else
      var a := SkipSpaces(s, i + |CgpaddrTag|);
      var b := SkipDigits(s, a);
      var c := SkipSpaces(s, b);
      if a == b || c + 1 >= |s| || s[c] != ',' || s[c + 1] != '"' then None
      else
        var d := SkipToQuote(s, c + 2);
        if d == |s| then None
        else
          var e := SkipCommas(s, d + 1);
          Some(CgpaddrCaptures(s[a..b], s[c + 2..d], LastQuoted(s, e, "")))
  }

  /** g_regex_match: the match at the leftmost position where there is one. */
  function CgpaddrSearch(s: string, i: nat): (m: Option<CgpaddrCaptures>)
    requires i <= |s|
    ensures m.Some? ==> m.value.cid != [] && AllDigits(m.value.cid)
    ensures m.Some? ==> HasNoQuote(m.value.addr1) && HasNoQuote(m.value.addr2)
    decreases |s| - i
  {
    var m := CgpaddrMatchAt(s, i);
    if m.Some? || i == |s| then m else CgpaddrSearch(s, i + 1)
  }

  /** The text of a +CGPADDR reply line as the modem prints it. */
  function CgpaddrLine(cid: string, addr1: string, addr2: Option<string>): string {
    CgpaddrLineHead(cid, addr1) + QuotedAfterComma(addr2)
  }

  function CgpaddrLineHead(cid: string, addr1: string): string {
    CgpaddrTag + " " + cid + ",\"" + addr1 + "\""
  }

  function QuotedAfterComma(v: Option<string>): string {
    if v.Some? then ",\"" + v.value + "\"" else ""
  }

  /** The pattern anchored at the start of a string laid out as a reply line:
      the tag, one space, the cid digits, a comma, the quoted first address,
      and then whatever follows its closing quote at d. */
  lemma {:induction false} CgpaddrMatchAtLayout(s: string, cid: string, addr1: string, d: nat)
    requires cid != [] && AllDigits(cid) && HasNoQuote(addr1)
    requires d == |CgpaddrTag| + 1 + |cid| + 2 + |addr1| && d < |s|
    requires s[..|CgpaddrTag|] == CgpaddrTag && s[|CgpaddrTag|] == ' '
    requires s[|CgpaddrTag| + 1..|CgpaddrTag| + 1 + |cid|] == cid
    requires s[|CgpaddrTag| + 1 + |cid|] == ',' && s[|CgpaddrTag| + 2 + |cid|] == '"'
    requires s[|CgpaddrTag| + 3 + |cid|..d] == addr1 && s[d] == '"'
    ensures CgpaddrMatchAt(s, 0).Some?
    ensures CgpaddrMatchAt(s, 0).value.cid == cid && CgpaddrMatchAt(s, 0).value.addr1 == addr1
    ensures CgpaddrMatchAt(s, 0).value.addr2 == LastQuoted(s, SkipCommas(s, d + 1), "")
  {
    var b := |CgpaddrTag| + 1 + |cid|;
    assert HasPrefixAt(s, 0, CgpaddrTag);
    CgpaddrCidScans(s, cid);
    assert forall k :: b + 2 <= k < d ==> s[k] == addr1[k - b - 2];
    SkipToQuoteAt(s, b + 2, d);
    CgpaddrMatchAtParts(s, |CgpaddrTag| + 1, b, d, SkipCommas(s, d + 1));
  }

  /** The anchored match put together from the scans. */
  lemma CgpaddrMatchAtParts(s: string, a: nat, b: nat, d: nat, e: nat)
    requires HasPrefixAt(s, 0, CgpaddrTag) && a < b && b + 1 < |s|
    requires SkipSpaces(s, |CgpaddrTag|) == a && SkipDigits(s, a) == b && SkipSpaces(s, b) == b
    requires s[b] == ',' && s[b + 1] == '"' && SkipToQuote(s, b + 2) == d && d < |s|
    requires SkipCommas(s, d + 1) == e
    ensures CgpaddrMatchAt(s, 0) == Some(CgpaddrCaptures(s[a..b], s[b + 2..d], LastQuoted(s, e, "")))
  {
  }

  /** The scans over `\s*(\d+)\s*` of a line holding the tag, one space and
      the cid followed by a comma. */
  lemma CgpaddrCidScans(s: string, cid: string)
    requires cid != [] && AllDigits(cid)
    requires |CgpaddrTag| + 1 + |cid| < |s| && s[|CgpaddrTag|] == ' '
    requires s[|CgpaddrTag| + 1..|CgpaddrTag| + 1 + |cid|] == cid
    requires s[|CgpaddrTag| + 1 + |cid|] == ','
    ensures SkipSpaces(s, |CgpaddrTag|) == |CgpaddrTag| + 1
    ensures SkipDigits(s, |CgpaddrTag| + 1) == |CgpaddrTag| + 1 + |cid|
    ensures SkipSpaces(s, |CgpaddrTag| + 1 + |cid|) == |CgpaddrTag| + 1 + |cid|
  {
    var n := |CgpaddrTag|;
    var a := n + 1;
    var b := a + |cid|;
    SkipSpacesAt(s, n, a);
    assert forall k :: a <= k < b ==> s[k] == cid[k - a];
    SkipDigitsAt(s, a, b);
    SkipSpacesAt(s, b, b);
  }

  /** After the first address: an optional `,"<addr2>"` and then a character
      that neither continues the commas nor opens another quoted string. */
  lemma CgpaddrTailScans(s: string, d: nat, addr2: Option<string>, rest: string)
    requires d < |s| && (addr2.Some? ==> HasNoQuote(addr2.value))
    requires s[d + 1..] == QuotedAfterComma(addr2) + rest
    requires rest != [] ==> rest[0] != ',' && rest[0] != '"'
    ensures LastQuoted(s, SkipCommas(s, d + 1), "") == addr2.GetOr("")
  {
    QuotedAfterCommaLayout(s, d + 1, addr2, rest);
    if addr2.Some? {
      SecondAddressScans(s, d, addr2.value, rest);
    } else {
      SkipCommasAt(s, d + 1, d + 1);
    }
  }

  lemma SecondAddressScans(s: string, d: nat, v: string, rest: string)
    requires d < |s| && HasNoQuote(v)
    requires |s| > d + 3 + |v| && s[d + 1] == ',' && s[d + 2] == '"'
    requires s[d + 3..d + 3 + |v|] == v && s[d + 3 + |v|] == '"'
    requires s[d + 4 + |v|..] == rest
    requires rest != [] ==> rest[0] != ',' && rest[0] != '"'
    ensures LastQuoted(s, SkipCommas(s, d + 1), "") == v
  {
    var o := d + 2;
    var f := o + 1 + |v|;
    SkipCommasAt(s, d + 1, o);
    assert forall k :: o + 1 <= k < f ==> s[k] == v[k - o - 1];
    SkipToQuoteAt(s, o + 1, f);
    assert LastQuoted(s, o, "") == LastQuoted(s, f + 1, v);
    assert f + 1 < |s| ==> s[f + 1] == rest[0];
  }

  /** Where the pieces of a printed reply line sit in the text. */
  lemma CgpaddrHeadLayout(head: string, tail: string, cid: string, addr1: string)
    requires head == CgpaddrTag + " " + cid + ",\"" + addr1 + "\""
    ensures var s := head + tail; var n := |CgpaddrTag|; var d := |head| - 1;
            && d == n + 1 + |cid| + 2 + |addr1| && d < |s|
            && s[..n] == CgpaddrTag && s[n] == ' '
            && s[n + 1..n + 1 + |cid|] == cid
            && s[n + 1 + |cid|] == ',' && s[n + 2 + |cid|] == '"'
            && s[n + 3 + |cid|..d] == addr1 && s[d] == '"'
            && s[d + 1..] == tail
  {
    var s := head + tail;
    var n := |CgpaddrTag|;
    assert s[..|head|] == head;
    assert head[..n] == CgpaddrTag;
    assert head[n + 1..n + 1 + |cid|] == cid;
    assert head[n + 3 + |cid|..|head| - 1] == addr1;
  }

  lemma QuotedAfterCommaLayout(s: string, o: nat, v: Option<string>, rest: string)
    requires o <= |s| && s[o..] == QuotedAfterComma(v) + rest
    ensures v.Some? ==> |s| > o + 2 + |v.value| && s[o] == ',' && s[o + 1] == '"'
                        && s[o + 2..o + 2 + |v.value|] == v.value && s[o + 2 + |v.value|] == '"'
                        && s[o + 3 + |v.value|..] == rest
    ensures v.None? ==> s[o..] == rest
  {
    if v.Some? {
      var t := s[o..];
      var n := |v.value|;
      assert s[o] == t[0] && s[o + 1] == t[1] && s[o + 2 + n] == t[2 + n];
      assert s[o + 2..o + 2 + n] == t[2..2 + n] == v.value;
      assert s[o + 3 + n..] == t[3 + n..] == rest;
    }
  }

  /** Where the pieces of a reply line sit in s, the line followed by rest:
      the closing quote of the first address at d, and after it the
      optional second address and rest. */
  lemma CgpaddrLineLaidOut(s: string, cid: string, addr1: string, addr2: Option<string>, rest: string)
      returns (d: nat)
    requires s == CgpaddrLine(cid, addr1, addr2) + rest
    ensures d == |CgpaddrTag| + 1 + |cid| + 2 + |addr1| && d < |s|
    ensures s[..|CgpaddrTag|] == CgpaddrTag && s[|CgpaddrTag|] == ' '
    ensures s[|CgpaddrTag| + 1..|CgpaddrTag| + 1 + |cid|] == cid
    ensures s[|CgpaddrTag| + 1 + |cid|] == ',' && s[|CgpaddrTag| + 2 + |cid|] == '"'
    ensures s[|CgpaddrTag| + 3 + |cid|..d] == addr1 && s[d] == '"'
    ensures s[d + 1..] == QuotedAfterComma(addr2) + rest
  {
    var head := CgpaddrLineHead(cid, addr1);
    var tail := QuotedAfterComma(addr2) + rest;
    assert s == head + tail;
    d := |head| - 1;
    CgpaddrHeadLayout(head, tail, cid, addr1);
  }

  /** A match is known from its three captures. */
  lemma CgpaddrMatchFromFields(r: Option<CgpaddrCaptures>, cid: string, addr1: string, addr2: string)
    requires r.Some? && r.value.cid == cid && r.value.addr1 == addr1 && r.value.addr2 == addr2
    ensures r == Some(CgpaddrCaptures(cid, addr1, addr2))
  {
  }

  /** Scanning a well-formed reply line recovers exactly the fields it was
      printed from, whatever follows the line. */
  lemma CgpaddrLineScans(cid: string, addr1: string, addr2: Option<string>, rest: string)
    requires cid != [] && AllDigits(cid)
    requires HasNoQuote(addr1) && (addr2.Some? ==> HasNoQuote(addr2.value))
    requires rest != [] ==> rest[0] != ',' && rest[0] != '"'
    ensures CgpaddrSearch(CgpaddrLine(cid, addr1, addr2) + rest, 0)
            == Some(CgpaddrCaptures(cid, addr1, addr2.GetOr("")))
  {
    var s := CgpaddrLine(cid, addr1, addr2) + rest;
    var d := CgpaddrLineLaidOut(s, cid, addr1, addr2, rest);
    CgpaddrMatchAtLayout(s, cid, addr1, d);
    CgpaddrTailScans(s, d, addr2, rest);
    CgpaddrMatchFromFields(CgpaddrMatchAt(s, 0), cid, addr1, addr2.GetOr(""));
    CgpaddrSearchFirst(s, 0);
  }

  lemma CgpaddrSearchFirst(s: string, i: nat)
    requires i <= |s| && CgpaddrMatchAt(s, i).Some?
    ensures CgpaddrSearch(s, i) == CgpaddrMatchAt(s, i)
  {
  }

  // ---------------------------------------------------------------------
  // +XDNS

  /** The captures of one +XDNS match: the cid digits and the text between
      the two pairs of quotes. */
  datatype XdnsCaptures = XdnsCaptures(cid: string, dns1: string, dns2: string)

  /** Where the line holding position i ends. */
  function LineEnd(s: string, i: nat): (j: nat)
    requires i <= |s|
    ensures i <= j <= |s|
    ensures forall k :: i <= k < j ==> !IsLineBreak(s[k])
    ensures j < |s| ==> IsLineBreak(s[j])
    decreases |s| - i
  {
    if i < |s| && !IsLineBreak(s[i]) then LineEnd(s, i + 1) else i
  }

  /** The last double quote in s[lo..hi], if there is one. */
  function LastQuoteIn(s: string, lo: nat, hi: nat): (q: Option<nat>)
    requires lo <= hi <= |s|
    ensures q.Some? ==> lo <= q.value < hi && s[q.value] == '"'
    ensures q.Some? ==> forall k :: q.value < k < hi ==> s[k] != '"'
    ensures q.None? ==> forall k :: lo <= k < hi ==> s[k] != '"'
    decreases hi - lo
  {
    if hi == lo then None
    else if s[hi - 1] == '"' then Some(hi - 1)
    else LastQuoteIn(s, lo, hi - 1)
  }

  /** `\s*,\s*"(.*)"` at i: the bounds of the second capture. Its greedy
      `(.*)` runs to the last quote on the line. */
  function XdnsSecondCapture(s: string, i: nat): (r: Option<(nat, nat)>)
    requires i <= |s|
    ensures r.Some? ==> i < r.value.0 <= r.value.1 < |s| && s[r.value.1] == '"'
    ensures r.Some? ==> forall k :: r.value.0 <= k < r.value.1 ==> !IsLineBreak(s[k])
  {
    var r := SkipSpaces(s, i);
    if r == |s| || s[r] != ',' then None
    else
      var t := SkipSpaces(s, r + 1);
      if t == |s| || s[t] != '"' then None
      else
        match LastQuoteIn(s, t + 1, LineEnd(s, t + 1))
        case None => None
        case Some(e) => Some((t + 1, e))
  }

  /** `"(.*)"\s*,\s*"(.*)"` with the first capture starting at g: the greedy
      first capture ends at the last quote below hi after which the rest of
      the pattern matches. Returns that quote and the second capture's bounds. */
  function XdnsCaptureBounds(s: string, g: nat, hi: nat): (r: Option<(nat, nat, nat)>)
    requires g <= hi <= |s|
    ensures r.Some? ==> g <= r.value.0 < hi && r.value.0 < r.value.1 <= r.value.2 < |s|
    ensures r.Some? ==> s[r.value.0] == '"' && s[r.value.2] == '"'
    ensures r.Some? ==> forall k :: r.value.1 <= k < r.value.2 ==> !IsLineBreak(s[k])
    decreases hi - g
  {
    if hi == g then None
    else
      var second := if s[hi - 1] == '"' then XdnsSecondCapture(s, hi) else None;
      if second.Some? then Some((hi - 1, second.value.0, second.value.1))
      else XdnsCaptureBounds(s, g, hi - 1)
  }

  /** What every +XDNS match captures: digits for the cid, and two fields
      that stay on one line. */
  predicate XdnsCapturesShape(m: XdnsCaptures) {
    m.cid != [] && AllDigits(m.cid) && HasNoLineBreak(m.dns1) && HasNoLineBreak(m.dns2)
  }

  lemma SliceHasNoLineBreak(s: string, lo: nat, hi: nat)
    requires lo <= hi <= |s|
    requires forall k :: lo <= k < hi ==> !IsLineBreak(s[k])
    ensures HasNoLineBreak(s[lo..hi])
  {
    forall k | 0 <= k < hi - lo
      ensures !IsLineBreak(s[lo..hi][k])
    {
      assert s[lo..hi][k] == s[lo + k];
    }
  }

  lemma SliceAllDigits(s: string, lo: nat, hi: nat)
    requires lo <= hi <= |s|
    requires forall k :: lo <= k < hi ==> IsDigit(s[k])
    ensures AllDigits(s[lo..hi])
  {
    forall k | 0 <= k < hi - lo
      ensures IsDigit(s[lo..hi][k])
    {
      assert s[lo..hi][k] == s[lo + k];
    }
  }

  /** `+XDNS:\s*(\d+)\s*,\s*"` at i: the bounds of the cid digits and the
      position g just after the opening quote of the first field. */
  function XdnsHead(s: string, i: nat): (r: Option<(nat, nat, nat)>)
    requires i <= |s|
    ensures r.Some? ==> i < r.value.0 < r.value.1 < r.value.2 <= |s|
    ensures r.Some? ==> forall k :: r.value.0 <= k < r.value.1 ==> IsDigit(s[k])
  {
    if !HasPrefixAt(s, i, XdnsTag) then None
    else
      var a := SkipSpaces(s, i + |XdnsTag|);
      var b := SkipDigits(s, a);
      var c := SkipSpaces(s, b);
      if a == b || c == |s| || s[c] != ',' then None
      else
        var d := SkipSpaces(s, c + 1);
        if d == |s| || s[d] != '"' then None
        else Some((a, b, d + 1))
  }

  /** The +XDNS pattern anchored at i: its captures and where the match ends. */
  function XdnsMatchAt(s: string, i: nat): (m: Option<(XdnsCaptures, nat)>)
    requires i <= |s|
    ensures m.Some? ==> i < m.value.1 <= |s| && XdnsCapturesShape(m.value.0)
  {
    var head := XdnsHead(s, i);
    if head.None? then None
    else
      var g := head.value.2;
      var bounds := XdnsCaptureBounds(s, g, LineEnd(s, g));
      if bounds.None? then None
      else
        var a, b := head.value.0, head.value.1;
        var q, h, e := bounds.value.0, bounds.value.1, bounds.value.2;
        SliceAllDigits(s, a, b);
        SliceHasNoLineBreak(s, g, q);
        SliceHasNoLineBreak(s, h, e);
        Some((XdnsCaptures(s[a..b], s[g..q], s[h..e]), e + 1))
  }

  /** The leftmost match starting at or after i. */
  function XdnsSearch(s: string, i: nat): (m: Option<(XdnsCaptures, nat)>)
    requires i <= |s|
    ensures m.Some? ==> i < m.value.1 <= |s| && XdnsCapturesShape(m.value.0)
    decreases |s| - i
  {
    var m := XdnsMatchAt(s, i);
    if m.Some? || i == |s| then m else XdnsSearch(s, i + 1)
  }

  /** g_regex_match and then g_match_info_next until no match is left: every
      next search starts where the previous match ended. */
  function XdnsMatches(s: string, i: nat): (ms: seq<XdnsCaptures>)
    requires i <= |s|
    decreases |s| - i
  {
    var m := XdnsSearch(s, i);
    if m.None? then [] else [m.value.0] + XdnsMatches(s, m.value.1)
  }

  /** The search finds the match at i when there is one. */
  lemma XdnsSearchFirst(s: string, i: nat)
    requires i <= |s| && XdnsMatchAt(s, i).Some?
    ensures XdnsSearch(s, i) == XdnsMatchAt(s, i)
  {
  }

  // The text of a +XDNS? reply as the modem prints it.

  /** One reply line: the tag, a space, the cid, and the two fields quoted
      and separated by a comma and a space. */
  function XdnsLine(m: XdnsCaptures): string {
    XdnsTag + " " + m.cid + ", \"" + m.dns1 + "\", \"" + m.dns2 + "\""
  }

  /** The fields a line can carry and be read back from: a digit cid, and
      fields with neither a quote nor a line break. */
  predicate IsPrintableXdns(m: XdnsCaptures) {
    && m.cid != [] && AllDigits(m.cid)
    && HasNoQuote(m.dns1) && HasNoLineBreak(m.dns1)
    && HasNoQuote(m.dns2) && HasNoLineBreak(m.dns2)
  }

  /** What ends a line: one or more line break characters (CR, LF). */
  predicate IsLineEnding(e: string) {
    e != [] && forall k :: 0 <= k < |e| ==> IsLineBreak(e[k]) && IsSpace(e[k])
  }

  /** A reply made of the lines for ms, line k ended by ends[k]. */
  function XdnsText(ms: seq<XdnsCaptures>, ends: seq<string>): string
    requires |ms| == |ends|
  {
    if ms == [] then [] else XdnsLine(ms[0]) + ends[0] + XdnsText(ms[1..], ends[1..])
  }

  lemma PrefixSplit(s: string, i: nat, a: string, b: string)
    requires HasPrefixAt(s, i, a + b)
    ensures HasPrefixAt(s, i, a) && HasPrefixAt(s, i + |a|, b)
  {
    assert s[i..i + |a|] == s[i..i + |a + b|][..|a|];
    assert s[i + |a|..i + |a| + |b|] == s[i..i + |a + b|][|a|..];
  }

  lemma SuffixSplit(s: string, i: nat, a: string, b: string)
    requires i <= |s| && s[i..] == a + b
    ensures HasPrefixAt(s, i, a) && s[i + |a|..] == b
  {
    assert s[i..i + |a|] == s[i..][..|a|];
    assert s[i + |a|..] == s[i..][|a|..];
  }

  lemma PrefixChars(s: string, i: nat, t: string)
    requires HasPrefixAt(s, i, t)
    ensures forall k :: i <= k < i + |t| ==> s[k] == t[k - i]
  {
    forall k | i <= k < i + |t|
      ensures s[k] == t[k - i]
    {
      assert s[k] == s[i..i + |t|][k - i];
    }
  }

  /** The end of a line is where the first line break is. */
  lemma {:induction false} LineEndAt(s: string, i: nat, j: nat)
    requires i <= j <= |s|
    requires forall k :: i <= k < j ==> !IsLineBreak(s[k])
    requires j < |s| ==> IsLineBreak(s[j])
    ensures LineEnd(s, i) == j
    decreases j - i
  {
    if i < j {
      LineEndAt(s, i + 1, j);
    }
  }

  /** The characters of `+XDNS: <cid>, "` at i. */
  predicate XdnsFrontAt(s: string, i: nat, cid: string) {
    var b := i + 7 + |cid|;
    && b + 3 <= |s| && HasPrefixAt(s, i, XdnsTag) && s[i + 6] == ' '
    && HasPrefixAt(s, i + 7, cid) && s[b] == ',' && s[b + 1] == ' ' && s[b + 2] == '"'
  }

  /** The characters of `<dns1>", "<dns2>"` at g. */
  predicate XdnsBackAt(s: string, g: nat, dns1: string, dns2: string) {
    var q := g + |dns1|;
    var l := q + 5 + |dns2|;
    && l <= |s| && HasPrefixAt(s, g, dns1)
    && s[q] == '"' && s[q + 1] == ',' && s[q + 2] == ' ' && s[q + 3] == '"'
    && HasPrefixAt(s, q + 4, dns2) && s[l - 1] == '"'
  }

  /** Where the pieces of a printed line sit when it starts at i in s:
      the cid at i + 7, the first field at g = i + 10 + |cid|, the quote
      closing it at q = g + |dns1|, the second field at q + 4 and the last
      quote at q + 4 + |dns2|. */
  predicate XdnsLineLaidOut(s: string, i: nat, m: XdnsCaptures) {
    XdnsFrontAt(s, i, m.cid) && XdnsBackAt(s, i + 7 + |m.cid| + 3, m.dns1, m.dns2)
  }

  /** The characters of `, "` at p. */
  lemma OpenQuoteAt(s: string, p: nat)
    requires HasPrefixAt(s, p, ", \"")
    ensures s[p] == ',' && s[p + 1] == ' ' && s[p + 2] == '"'
  {
    assert s[p..p + 3][0] == s[p] && s[p..p + 3][1] == s[p + 1] && s[p..p + 3][2] == s[p + 2];
  }

  /** The characters of `", "` at p. */
  lemma SeparatorAt(s: string, p: nat)
    requires HasPrefixAt(s, p, "\", \"")
    ensures s[p] == '"' && s[p + 1] == ',' && s[p + 2] == ' ' && s[p + 3] == '"'
  {
    assert s[p..p + 4][0] == s[p] && s[p..p + 4][1] == s[p + 1];
    assert s[p..p + 4][2] == s[p + 2] && s[p..p + 4][3] == s[p + 3];
  }

  lemma CharAt(s: string, p: nat, c: char)
    requires HasPrefixAt(s, p, [c])
    ensures s[p] == c
  {
    assert s[p..p + 1][0] == s[p];
  }

  /** A printed line's front, character by character. */
  lemma XdnsLineFront(s: string, i: nat, cid: string)
    requires HasPrefixAt(s, i, XdnsTag + " " + cid + ", \"")
    ensures XdnsFrontAt(s, i, cid)
  {
    PrefixSplit(s, i, XdnsTag + " " + cid, ", \"");
    OpenQuoteAt(s, i + 7 + |cid|);
    PrefixSplit(s, i, XdnsTag + " ", cid);
    PrefixSplit(s, i, XdnsTag, " ");
    CharAt(s, i + 6, ' ');
  }

  /** A printed line's back, character by character. */
  lemma XdnsLineBack(s: string, g: nat, dns1: string, dns2: string)
    requires HasPrefixAt(s, g, dns1 + "\", \"" + dns2 + "\"")
    ensures XdnsBackAt(s, g, dns1, dns2)
  {
    PrefixSplit(s, g, dns1 + "\", \"" + dns2, "\"");
    CharAt(s, g + |dns1| + 4 + |dns2|, '"');
    PrefixSplit(s, g, dns1 + "\", \"", dns2);
    PrefixSplit(s, g, dns1, "\", \"");
    SeparatorAt(s, g + |dns1|);
  }

  /** A printed line as its two halves, split at the first field. */
  lemma XdnsLineHalves(m: XdnsCaptures)
    ensures XdnsLine(m) == (XdnsTag + " " + m.cid + ", \"") + (m.dns1 + "\", \"" + m.dns2 + "\"")
    ensures |XdnsTag + " " + m.cid + ", \""| == 7 + |m.cid| + 3
  {
  }

  lemma XdnsLineLayout(s: string, i: nat, m: XdnsCaptures)
    requires HasPrefixAt(s, i, XdnsLine(m))
    ensures XdnsLineLaidOut(s, i, m)
    ensures |XdnsLine(m)| == 7 + |m.cid| + 3 + |m.dns1| + 4 + |m.dns2| + 1
  {
    XdnsLineHalves(m);
    PrefixSplit(s, i, XdnsTag + " " + m.cid + ", \"", m.dns1 + "\", \"" + m.dns2 + "\"");
    XdnsLineFront(s, i, m.cid);
    XdnsLineBack(s, i + 7 + |m.cid| + 3, m.dns1, m.dns2);
  }

  /** `+XDNS:\s*(\d+)\s*,\s*"` over the tag, one space, the digits up to b
      and `, "`. */
  lemma XdnsHeadAt(s: string, i: nat, b: nat, g: nat)
    requires i + 7 < b && g == b + 3 && g <= |s|
    requires HasPrefixAt(s, i, XdnsTag) && s[i + 6] == ' '
    requires forall k :: i + 7 <= k < b ==> IsDigit(s[k])
    requires s[b] == ',' && s[b + 1] == ' ' && s[b + 2] == '"'
    ensures XdnsHead(s, i) == Some((i + 7, b, g))
  {
    SkipSpacesAt(s, i + |XdnsTag|, i + 7);
    SkipDigitsAt(s, i + 7, b);
    SkipSpacesAt(s, b, b);
    SkipSpacesAt(s, b + 1, b + 2);
  }

  /** `+XDNS:\s*(\d+)\s*,\s*"` over a laid-out line. */
  lemma XdnsHeadOfLine(s: string, i: nat, m: XdnsCaptures, b: nat, g: nat)
    requires XdnsLineLaidOut(s, i, m) && m.cid != [] && AllDigits(m.cid)
    requires b == i + 7 + |m.cid| && g == b + 3
    ensures XdnsHead(s, i) == Some((i + 7, b, g)) && s[i + 7..b] == m.cid
  {
    PrefixChars(s, i + 7, m.cid);
    XdnsHeadAt(s, i, b, g);
  }

  /** The part of a line from the first field to the last quote, as the
      greedy captures see it: the first field closes at q, `", "` follows,
      the second field runs to the quote at l - 1, and no line breaks. */
  predicate XdnsFieldsShape(s: string, g: nat, q: nat, l: nat) {
    && g <= q && q + 5 <= l <= |s|
    && s[q] == '"' && s[q + 1] == ',' && s[q + 2] == ' ' && s[q + 3] == '"' && s[l - 1] == '"'
    && (forall k :: g <= k < l ==> !IsLineBreak(s[k]))
    && (forall k :: q + 4 <= k < l - 1 ==> s[k] != '"')
  }

  /** What follows a line at l: its ending e, then the end of the reply or
      the next line's tag. */
  predicate XdnsEndsLineAt(s: string, l: nat, e: string) {
    HasPrefixAt(s, l, e) && IsLineEnding(e) && (l + |e| < |s| ==> s[l + |e|] == '+')
  }

  /** The characters between the first field's opening quote and the line
      end: no line break anywhere, and quotes only at q, q + 3 and the end. */
  lemma XdnsLineChars(s: string, i: nat, m: XdnsCaptures)
    requires XdnsLineLaidOut(s, i, m) && IsPrintableXdns(m)
    ensures var g := i + 10 + |m.cid|; var q := g + |m.dns1|; var l := q + 5 + |m.dns2|;
            && XdnsFieldsShape(s, g, q, l)
            && s[g..q] == m.dns1 && s[q + 4..l - 1] == m.dns2
  {
    var g := i + 10 + |m.cid|;
    var q := g + |m.dns1|;
    var l := q + 5 + |m.dns2|;
    PrefixChars(s, g, m.dns1);
    PrefixChars(s, q + 4, m.dns2);
  }

  /** `\s*,\s*"(.*)"` cannot start inside the second field or at the quote
      that ends it: from there on the line holds only one more quote. */
  lemma NoSecondCaptureBefore(s: string, p: nat, l: nat)
    requires p < l <= |s| && s[l - 1] == '"'
    requires forall k :: p <= k < l - 1 ==> s[k] != '"' && !IsLineBreak(s[k])
    requires l < |s| ==> IsLineBreak(s[l])
    ensures XdnsSecondCapture(s, p).None?
  {
    var r := SkipSpaces(s, p);
    assert r <= l - 1;
    if r < |s| && s[r] == ',' {
      var t := SkipSpaces(s, r + 1);
      assert t <= l - 1;
      if t < |s| && s[t] == '"' {
        assert t == l - 1;
        LineEndAt(s, l, l);
      }
    }
  }

  /** Nor can it start after the line, where the next line begins with
      something other than a comma. */
  lemma NoSecondCaptureAfter(s: string, l: nat, e: string)
    requires HasPrefixAt(s, l, e) && IsLineEnding(e)
    requires l + |e| < |s| ==> s[l + |e|] == '+'
    ensures XdnsSecondCapture(s, l).None?
  {
    PrefixChars(s, l, e);
    SkipSpacesAt(s, l, l + |e|);
  }

  /** The greedy search for the first capture's closing quote passes over
      every position whose second capture fails. */
  lemma {:induction false} XdnsBoundsDescend(s: string, g: nat, hi: nat, lo: nat)
    requires g <= lo <= hi <= |s|
    requires forall h :: lo < h <= hi ==> s[h - 1] != '"' || XdnsSecondCapture(s, h).None?
    ensures XdnsCaptureBounds(s, g, hi) == XdnsCaptureBounds(s, g, lo)
    decreases hi - lo
  {
    if lo < hi {
      XdnsBoundsDescend(s, g, hi - 1, lo);
    }
  }

  /** The greedy first capture of a printed line ends at the quote q that
      closes the first field, and the second capture is the second field. */
  lemma XdnsBoundsOfLine(s: string, g: nat, q: nat, l: nat, e: string)
    requires XdnsFieldsShape(s, g, q, l) && XdnsEndsLineAt(s, l, e)
    ensures XdnsCaptureBounds(s, g, LineEnd(s, g)) == Some((q, q + 4, l - 1))
  {
    assert LineEnd(s, g) == l by {
      PrefixChars(s, l, e);
      LineEndAt(s, g, l);
    }
    XdnsNoLaterSecond(s, q, l, e);
    XdnsBoundsDescend(s, g, l, q + 1);
    XdnsBoundsAtQuote(s, g, q, l);
  }

  /** After the first field's closing quote, only the quote at the line
      end and the one opening the second field could start a second
      capture, and neither does. */
  lemma XdnsNoLaterSecond(s: string, q: nat, l: nat, e: string)
    requires q + 5 <= l <= |s|
    requires s[q + 1] == ',' && s[q + 2] == ' ' && s[q + 3] == '"' && s[l - 1] == '"'
    requires forall k :: q + 4 <= k < l ==> !IsLineBreak(s[k])
    requires forall k :: q + 4 <= k < l - 1 ==> s[k] != '"'
    requires HasPrefixAt(s, l, e) && IsLineEnding(e)
    requires l + |e| < |s| ==> s[l + |e|] == '+'
    ensures forall h :: q + 1 < h <= l ==> s[h - 1] != '"' || XdnsSecondCapture(s, h).None?
  {
    NoSecondCaptureAfter(s, l, e);
    PrefixChars(s, l, e);
    NoSecondCaptureBefore(s, q + 4, l);
  }

  /** The second capture right after the first field's closing quote. */
  lemma XdnsBoundsAtQuote(s: string, g: nat, q: nat, l: nat)
    requires g <= q && q + 5 <= l <= |s|
    requires s[q] == '"' && s[q + 1] == ',' && s[q + 2] == ' ' && s[q + 3] == '"' && s[l - 1] == '"'
    requires LineEnd(s, q + 4) == l
    ensures XdnsCaptureBounds(s, g, q + 1) == Some((q, q + 4, l - 1))
  {
    SkipSpacesAt(s, q + 1, q + 1);
    SkipSpacesAt(s, q + 2, q + 3);
    assert XdnsSecondCapture(s, q + 1) == Some((q + 4, l - 1));
  }

  /** The match is put together from the head and the capture bounds, one
      capture at a time. */
  lemma XdnsMatchAtParts(s: string, i: nat, a: nat, b: nat, g: nat, q: nat, l: nat)
    requires i <= |s| && g <= q && q + 5 <= l <= |s|
    requires XdnsHead(s, i) == Some((a, b, g))
    requires XdnsCaptureBounds(s, g, LineEnd(s, g)) == Some((q, q + 4, l - 1))
    ensures XdnsMatchAt(s, i).Some? && XdnsMatchAt(s, i).value.1 == l
    ensures XdnsMatchAt(s, i).value.0.cid == s[a..b]
    ensures XdnsMatchAt(s, i).value.0.dns1 == s[g..q]
    ensures XdnsMatchAt(s, i).value.0.dns2 == s[q + 4..l - 1]
  {
  }

  /** A match is known from its three captures and its end. */
  lemma XdnsMatchFromFields(r: Option<(XdnsCaptures, nat)>, m: XdnsCaptures, l: nat)
    requires r.Some? && r.value.1 == l
    requires r.value.0.cid == m.cid && r.value.0.dns1 == m.dns1 && r.value.0.dns2 == m.dns2
    ensures r == Some((m, l))
  {
  }

  /** The two fields of a laid-out line, as the greedy captures find them. */
  lemma XdnsFieldsOfLine(s: string, i: nat, m: XdnsCaptures, g: nat, q: nat, l: nat, e: string)
    requires IsPrintableXdns(m) && XdnsLineLaidOut(s, i, m)
    requires g == i + 10 + |m.cid| && q == g + |m.dns1| && l == q + 5 + |m.dns2|
    requires XdnsEndsLineAt(s, l, e)
    ensures g <= q && q + 5 <= l <= |s|
    ensures XdnsCaptureBounds(s, g, LineEnd(s, g)) == Some((q, q + 4, l - 1))
    ensures s[g..q] == m.dns1 && s[q + 4..l - 1] == m.dns2
  {
    XdnsLineChars(s, i, m);
    XdnsBoundsOfLine(s, g, q, l, e);
  }

  /** A printed line and its ending at i: the line is laid out at i and
      its ending sits at l. */
  lemma XdnsLineSplit(s: string, i: nat, m: XdnsCaptures, e: string) returns (l: nat)
    requires HasPrefixAt(s, i, XdnsLine(m) + e)
    ensures l == i + |XdnsLine(m)| && l == i + 15 + |m.cid| + |m.dns1| + |m.dns2|
    ensures XdnsLineLaidOut(s, i, m) && HasPrefixAt(s, l, e)
  {
    PrefixSplit(s, i, XdnsLine(m), e);
    XdnsLineLayout(s, i, m);
    l := i + |XdnsLine(m)|;
  }

  /** Where the scanner functions place the pieces of a line laid out at i
      and ending at l: the head ends at g, the first field runs from g to q,
      the second from q + 4 to l - 1, and line breaks follow l. */
  lemma XdnsLinePositions(s: string, i: nat, m: XdnsCaptures, l: nat, e: string)
      returns (b: nat, g: nat, q: nat)
    requires IsPrintableXdns(m) && XdnsLineLaidOut(s, i, m)
    requires l == i + 15 + |m.cid| + |m.dns1| + |m.dns2| && XdnsEndsLineAt(s, l, e)
    ensures i <= |s| && g <= q && q + 5 <= l <= |s|
    ensures XdnsHead(s, i) == Some((i + 7, b, g)) && s[i + 7..b] == m.cid
    ensures XdnsCaptureBounds(s, g, LineEnd(s, g)) == Some((q, q + 4, l - 1))
    ensures s[g..q] == m.dns1 && s[q + 4..l - 1] == m.dns2
    ensures l + |e| <= |s| && forall k :: l <= k < l + |e| ==> IsLineBreak(s[k])
  {
    b := i + 7 + |m.cid|;
    g := b + 3;
    q := g + |m.dns1|;
    XdnsHeadOfLine(s, i, m, b, g);
    XdnsFieldsOfLine(s, i, m, g, q, l, e);
    PrefixChars(s, l, e);
  }

  /** The match whose captures are the fields of m. */
  lemma XdnsMatchOfFields(s: string, i: nat, m: XdnsCaptures, b: nat, g: nat, q: nat, l: nat)
    requires i <= |s| && g <= q && q + 5 <= l <= |s|
    requires XdnsHead(s, i) == Some((i + 7, b, g)) && s[i + 7..b] == m.cid
    requires XdnsCaptureBounds(s, g, LineEnd(s, g)) == Some((q, q + 4, l - 1))
    requires s[g..q] == m.dns1 && s[q + 4..l - 1] == m.dns2
    ensures XdnsMatchAt(s, i) == Some((m, l))
  {
    XdnsMatchAtParts(s, i, i + 7, b, g, q, l);
    XdnsMatchFromFields(XdnsMatchAt(s, i), m, l);
  }

  /** The pattern anchored at a printed line reads back exactly its fields
      and ends at l, after the line's last quote. */
  lemma XdnsLineMatchesAt(s: string, i: nat, m: XdnsCaptures, e: string) returns (l: nat)
    requires IsPrintableXdns(m) && IsLineEnding(e)
    requires HasPrefixAt(s, i, XdnsLine(m) + e)
    requires i + |XdnsLine(m) + e| < |s| ==> s[i + |XdnsLine(m) + e|] == '+'
    ensures l == i + |XdnsLine(m)| && XdnsMatchAt(s, i) == Some((m, l))
    ensures l + |e| <= |s| && forall k :: l <= k < l + |e| ==> IsLineBreak(s[k])
  {
    l := XdnsLineSplit(s, i, m, e);
    var b, g, q := XdnsLinePositions(s, i, m, l, e);
    XdnsMatchOfFields(s, i, m, b, g, q, l);
  }

  /** No match starts inside a line ending. */
  lemma {:induction false} XdnsSearchSkipsEnding(s: string, l: nat, j: nat)
    requires l <= j <= |s|
    requires forall k :: l <= k < j ==> IsLineBreak(s[k])
    ensures XdnsSearch(s, l) == XdnsSearch(s, j)
    decreases j - l
  {
    if l < j {
      assert !HasPrefixAt(s, l, XdnsTag) by {
        assert s[l] != '+';
        if l + |XdnsTag| <= |s| {
          assert s[l..l + |XdnsTag|][0] == s[l];
        }
      }
      XdnsSearchSkipsEnding(s, l + 1, j);
    }
  }

  /** A printed reply starts with the tag of its first line. */
  lemma XdnsTextStart(ms: seq<XdnsCaptures>, ends: seq<string>)
    requires |ms| == |ends| && ms != []
    ensures XdnsText(ms, ends) != [] && XdnsText(ms, ends)[0] == '+'
  {
    assert XdnsText(ms, ends)[0] == XdnsLine(ms[0])[0];
  }

  /** A match at i ending at l, followed by line breaks up to j: the
      matching from i yields it and goes on from j. */
  lemma XdnsMatchesAfterLine(s: string, i: nat, m: XdnsCaptures, l: nat, j: nat)
    requires i <= l <= j <= |s| && XdnsMatchAt(s, i) == Some((m, l))
    requires forall k :: l <= k < j ==> IsLineBreak(s[k])
    ensures XdnsMatches(s, i) == [m] + XdnsMatches(s, j)
  {
    XdnsSearchFirst(s, i);
    XdnsSearchSkipsEnding(s, l, j);
  }

  /** A printed line at i is one match; the search then resumes at j, after
      the line's ending. */
  lemma XdnsMatchesLine(s: string, i: nat, m: XdnsCaptures, e: string) returns (j: nat)
    requires IsPrintableXdns(m) && IsLineEnding(e)
    requires HasPrefixAt(s, i, XdnsLine(m) + e)
    requires i + |XdnsLine(m) + e| < |s| ==> s[i + |XdnsLine(m) + e|] == '+'
    ensures j == i + |XdnsLine(m) + e| && XdnsMatches(s, i) == [m] + XdnsMatches(s, j)
  {
    var l := XdnsLineMatchesAt(s, i, m, e);
    j := l + |e|;
    XdnsMatchesAfterLine(s, i, m, l, j);
  }

  /** A non-empty printed reply at i: its first line and ending, and from j
      on the reply printed from the remaining lines. */
  lemma XdnsTextFirstLine(s: string, i: nat, ms: seq<XdnsCaptures>, ends: seq<string>) returns (j: nat)
    requires |ms| == |ends| && ms != [] && i <= |s| && s[i..] == XdnsText(ms, ends)
    ensures HasPrefixAt(s, i, XdnsLine(ms[0]) + ends[0]) && j == i + |XdnsLine(ms[0]) + ends[0]|
    ensures j <= |s| && s[j..] == XdnsText(ms[1..], ends[1..])
    ensures j < |s| ==> s[j] == '+'
  {
    var head := XdnsLine(ms[0]) + ends[0];
    var rest := XdnsText(ms[1..], ends[1..]);
    assert s[i..] == head + rest;
    SuffixSplit(s, i, head, rest);
    j := i + |head|;
    if j < |s| {
      XdnsTextStart(ms[1..], ends[1..]);
      assert s[j] == s[j..][0];
    }
  }

  /** The first line of a printed reply at i is its first match; the
      matching goes on at j, where the rest of the reply starts. */
  lemma XdnsTextFirstMatch(s: string, i: nat, ms: seq<XdnsCaptures>, ends: seq<string>) returns (j: nat)
    requires |ms| == |ends| && ms != [] && i <= |s| && s[i..] == XdnsText(ms, ends)
    requires IsPrintableXdns(ms[0]) && IsLineEnding(ends[0])
    ensures j <= |s| && s[j..] == XdnsText(ms[1..], ends[1..])
    ensures XdnsMatches(s, i) == [ms[0]] + XdnsMatches(s, j)
  {
    j := XdnsTextFirstLine(s, i, ms, ends);
    var j' := XdnsMatchesLine(s, i, ms[0], ends[0]);
    assert j' == j;
  }

  /** Nothing is matched at the end of the reply. */
  lemma XdnsTextScansEnd(s: string, i: nat)
    requires i <= |s| && s[i..] == []
    ensures XdnsMatches(s, i) == []
  {
    assert i == |s|;
  }

  /** The lines after the first are printable too. */
  lemma XdnsPrintableTail(ms: seq<XdnsCaptures>, ends: seq<string>)
    requires |ms| == |ends| && ms != []
    requires forall k :: 0 <= k < |ms| ==> IsPrintableXdns(ms[k]) && IsLineEnding(ends[k])
    ensures forall k :: 0 <= k < |ms[1..]| ==> IsPrintableXdns(ms[1..][k]) && IsLineEnding(ends[1..][k])
  {
    forall k | 0 <= k < |ms[1..]|
      ensures IsPrintableXdns(ms[1..][k]) && IsLineEnding(ends[1..][k])
    {
      assert ms[1..][k] == ms[k + 1] && ends[1..][k] == ends[k + 1];
    }
  }

  /** Scanning a printed reply gives back the fields of its lines, in
      order: from position i, where the rest of s is such a reply. */
  lemma {:induction false} XdnsTextScansFrom(s: string, i: nat, ms: seq<XdnsCaptures>, ends: seq<string>)
    requires |ms| == |ends| && i <= |s| && s[i..] == XdnsText(ms, ends)
    requires forall k :: 0 <= k < |ms| ==> IsPrintableXdns(ms[k]) && IsLineEnding(ends[k])
    ensures XdnsMatches(s, i) == ms
    decreases |ms|
  {
    if ms == [] {
      XdnsTextScansEnd(s, i);
    } else {
      var j := XdnsTextFirstMatch(s, i, ms, ends);
      XdnsPrintableTail(ms, ends);
      XdnsTextScansFrom(s, j, ms[1..], ends[1..]);
      assert [ms[0]] + ms[1..] == ms;
    }
  }

  /** Scanning a reply printed from a list of lines gives back their fields,
      one match per line, in order. */
  lemma XdnsTextScans(ms: seq<XdnsCaptures>, ends: seq<string>)
    requires |ms| == |ends|
    requires forall k :: 0 <= k < |ms| ==> IsPrintableXdns(ms[k]) && IsLineEnding(ends[k])
    ensures XdnsMatches(XdnsText(ms, ends), 0) == ms
  {
    var s := XdnsText(ms, ends);
    assert s[0..] == s;
    XdnsTextScansFrom(s, 0, ms, ends);
  }
}
