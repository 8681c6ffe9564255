/** Character classes and number conversions used by the reply parsers and by
    the command builders: the model of the small string helpers the C code
    takes from GLib (g_ascii_isspace, g_strstrip, "%u") and from the modem
    helper library (mm_get_uint_from_str, mm_get_string_unquoted_from_match_info). */
module Text {
  import opened Wrappers

  /** G_MAXUINT: a guint is 32 bits wide. */
  const MaxUint: nat := 0xFFFF_FFFF

  predicate IsDigit(c: char) {
    '0' <= c <= '9'
  }

  /** `\s` of the regex engine and g_ascii_isspace: space, tab, line feed,
      vertical tab, form feed, carriage return. */
  predicate IsSpace(c: char) {
    c == ' ' || c == '\t' || c == '\n' || c == '\r' || c as int == 11 || c as int == 12
  }

  /** The characters that end a line under the "any newline" convention:
      `.` in a regex matches everything else. */
  predicate IsLineBreak(c: char) {
    c == '\n' || c == '\r' || c as int == 11 || c as int == 12 || c as int == 0x85
  }

  predicate AllDigits(s: string) {
    forall i :: 0 <= i < |s| ==> IsDigit(s[i])
  }

  function DigitValue(c: char): (d: nat)
    requires IsDigit(c)
    ensures d < 10
  {
    c as int - '0' as int
  }

  function DigitChar(d: nat): (c: char)
    requires d < 10
    ensures IsDigit(c) && DigitValue(c) == d
  {
    ('0' as int + d) as char
  }

  /** The value of a string of decimal digits, most significant first. */
  function DecimalValue(s: string): nat
    requires AllDigits(s)
  {
    if s == [] then 0 else 10 * DecimalValue(s[..|s| - 1]) + DigitValue(s[|s| - 1])
  }

  /** `%u`: the decimal rendering of a number, without leading zeros. */
  function Decimal(n: nat): (s: string)
    ensures s != [] && AllDigits(s)
    ensures n != 0 ==> s[0] != '0'
  {
    if n < 10 then [DigitChar(n)] else Decimal(n / 10) + [DigitChar(n % 10)]
  }

  lemma {:induction false} DecimalValueOfDecimal(n: nat)
    ensures DecimalValue(Decimal(n)) == n
  {
    if n >= 10 {
      var s := Decimal(n);
      assert s[..|s| - 1] == Decimal(n / 10);
      DecimalValueOfDecimal(n / 10);
    }
  }

  /** mm_get_uint_from_str: a non-empty string of decimal digits whose value
      fits in a guint; anything else is refused. */
  function ParseUint(s: string): (r: Option<nat>)
    ensures r.Some? ==> r.value <= MaxUint
    ensures r.Some? ==> s != [] && AllDigits(s)
  {
    if s != [] && AllDigits(s) && DecimalValue(s) <= MaxUint then Some(DecimalValue(s)) else None
  }

  /** Printing a guint with "%u" and reading it back gives the same number. */
  lemma ParseUintOfDecimal(n: nat)
    requires n <= MaxUint
    ensures ParseUint(Decimal(n)) == Some(n)
  {
    DecimalValueOfDecimal(n);
  }

  /** g_strstrip: the string without its leading and trailing white space. */
  function Strip(s: string): (r: string)
    ensures |r| <= |s|
    ensures r != [] ==> !IsSpace(r[0]) && !IsSpace(r[|r| - 1])
  {
    if s == [] then []
    else if IsSpace(s[0]) then Strip(s[1..])
    else if IsSpace(s[|s| - 1]) then Strip(s[..|s| - 1])
    else s
  }

  /** mm_get_string_unquoted_from_match_info applied to a capture: a capture
      enclosed in double quotes loses them and the white space inside them;
      an empty result stands for "no value" (the C function returns NULL). */
  function Unquote(capture: string): (r: Option<string>)
    ensures r.Some? ==> r.value != []
    ensures (forall i :: 0 <= i < |capture| ==> capture[i] != '"') ==> r == (if capture == [] then None else Some(capture))
  {
    var t := if |capture| >= 2 && capture[0] == '"' && capture[|capture| - 1] == '"'
             then Strip(capture[1..|capture| - 1]) else capture;
    if t == [] then None else Some(t)
  }

  /** A string that neither starts nor ends with white space is left as it is. */
  lemma StripTrimmed(s: string)
    requires s != [] ==> !IsSpace(s[0]) && !IsSpace(s[|s| - 1])
    ensures Strip(s) == s
  {
  }

  /** r is s with s[..i] and s[j..] cut off, and both cut parts are white space. */
  predicate IsEdgeTrim(s: string, r: string, i: nat, j: nat) {
    && i <= j <= |s| && r == s[i..j]
    && (forall k :: 0 <= k < i ==> IsSpace(s[k]))
    && (forall k :: j <= k < |s| ==> IsSpace(s[k]))
  }

  /** Where the slice that Strip keeps starts and ends. */
  lemma {:induction false} StripBounds(s: string) returns (i: nat, j: nat)
    ensures IsEdgeTrim(s, Strip(s), i, j)
    decreases |s|
  {
    if s == [] {
      i, j := 0, 0;
    } else if IsSpace(s[0]) {
      var i', j' := StripBounds(s[1..]);
      i, j := i' + 1, j' + 1;
      assert s[1..][i'..j'] == s[i..j];
      assert forall k :: 1 <= k < |s| ==> s[k] == s[1..][k - 1];
    } else if IsSpace(s[|s| - 1]) {
      var init := s[..|s| - 1];
      i, j := StripBounds(init);
      assert init[i..j] == s[i..j];
      assert forall k :: 0 <= k < |init| ==> s[k] == init[k];
    } else {
      i, j := 0, |s|;
      assert s[0..|s|] == s;
    }
  }

  /** g_strstrip removes the leading and the trailing white space and
      nothing else: the result is a slice of the input, and everything
      outside the slice is white space. */
  lemma StripRemovesEdgeSpace(s: string)
    ensures exists i, j :: 0 <= i <= j <= |s| && Strip(s) == s[i..j]
                           && forall k :: (0 <= k < i || j <= k < |s|) ==> IsSpace(s[k])
  {
    var i, j := StripBounds(s);
    assert IsEdgeTrim(s, Strip(s), i, j);
  }

  /** g_strstrip is idempotent. */
  lemma StripIdempotent(s: string)
    ensures Strip(Strip(s)) == Strip(s)
  {
    StripTrimmed(Strip(s));
  }

  /** Quoting a non-empty value without surrounding white space and
      unquoting it again gives the value back. */
  lemma UnquoteQuoted(v: string)
    requires v != [] && !IsSpace(v[0]) && !IsSpace(v[|v| - 1])
    ensures Unquote("\"" + v + "\"") == Some(v)
  {
    var q := "\"" + v + "\"";
    assert q[1..|q| - 1] == v;
    StripTrimmed(v);
  }
}
