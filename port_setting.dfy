/** The "port" setting: read with a leading %d conversion, kept when it is a
    valid TCP port, otherwise replaced by the default port. */
module PortSetting {

  /** What one %d conversion reports: the input ran out before any
      conversion (the C library's EOF), the characters did not form a number,
      or the number read. */
  datatype ScanResult = EndOfInput | NoMatch | Matched(value: int)

  const DefaultPort := 20434
  const MaxPort := 65535

  predicate InPortRange(p: int) {
    0 <= p <= MaxPort
  }

  /** The C locale's white space: space, tab, newline, vertical tab, form feed
      and carriage return. */
  predicate IsSpace(c: char) {
    c == ' ' || '\t' <= c <= '\r'
  }

  predicate IsDigit(c: char) {
    '0' <= c <= '9'
  }

  /** The digit's value; only ever applied to digits. */
  function DigitValue(c: char): int {
    c as int - '0' as int
  }

  /** The input with its leading white space removed. */
  function SkipSpace(s: string): string {
    if s != [] && IsSpace(s[0]) then SkipSpace(s[1..]) else s
  }

  /** Length of the run of digits the input starts with. */
  function LeadingDigits(s: string): (n: nat)
    ensures n <= |s|
  {
    if s != [] && IsDigit(s[0]) then 1 + LeadingDigits(s[1..]) else 0
  }

  /** The decimal value of a run of digits, most significant first. */
  function DigitsValue(d: string): int {
    if d == [] then 0 else 10 * DigitsValue(d[..|d| - 1]) + DigitValue(d[|d| - 1])
  }

  /** One %d conversion: skip white space, take an optional sign, then the
      longest run of digits. Values beyond the C int range are kept exact.
      The input runs out exactly when it is blank, and a number is read only
      when the first non-blank character is a digit or a sign. */
  function ScanInt(s: string): (r: ScanResult)
    ensures r == EndOfInput <==> SkipSpace(s) == []
    ensures r.Matched? ==>
      var c := SkipSpace(s)[0]; IsDigit(c) || c == '-' || c == '+'
  {
    var t := SkipSpace(s);
    if t == [] then EndOfInput
    else
      var negative := t[0] == '-';
      var u := if t[0] == '-' || t[0] == '+' then t[1..] else t;
      var n := LeadingDigits(u);
      if n == 0 then NoMatch
      else
        var v: int := DigitsValue(u[..n]);
        Matched(if negative then -v else v)
  }

  /** The port the peripheral connects to. The conversion's count is used as
      a truth value, so the end-of-input result (-1) passes the test and the
      never-assigned local, given here as uninitialised, is range-checked. */
  function PortFromSetting(s: string, uninitialised: int): (port: int)
    ensures InPortRange(port)
  {
    match ScanInt(s)
    case EndOfInput => if InPortRange(uninitialised) then uninitialised else DefaultPort
    case NoMatch => DefaultPort
    case Matched(v) => if InPortRange(v) then v else DefaultPort
  }

  /** The decimal spelling of n, without sign or leading zeros. */
  function DecimalString(n: nat): (s: string)
    ensures |s| >= 1
    ensures forall i :: 0 <= i < |s| ==> IsDigit(s[i])
  {
    var last := ['0' + (n % 10) as char];
    if n < 10 then last else DecimalString(n / 10) + last
  }

  lemma {:induction false} DecimalStringValue(n: nat)
    ensures DigitsValue(DecimalString(n)) == n
    decreases n
  {
    var s := DecimalString(n);
    if n >= 10 {
      DecimalStringValue(n / 10);
      assert s[..|s| - 1] == DecimalString(n / 10);
    }
  }

  /** A run of digits followed by nothing or by a non-digit is read whole. */
  lemma {:induction false} LeadingDigitsOfRun(d: string, rest: string)
    requires forall i :: 0 <= i < |d| ==> IsDigit(d[i])
    requires rest == [] || !IsDigit(rest[0])
    ensures LeadingDigits(d + rest) == |d|
    decreases |d|
  {
    if d != [] {
      assert (d + rest)[1..] == d[1..] + rest;
      LeadingDigitsOfRun(d[1..], rest);
    }
  }

  /** White space, a number, then anything that does not continue the number:
      the conversion reads exactly that number. */
  lemma ScanNumber(space: string, n: nat, rest: string)
    requires forall i :: 0 <= i < |space| ==> IsSpace(space[i])
    requires rest == [] || !IsDigit(rest[0])
    ensures ScanInt(space + DecimalString(n) + rest) == Matched(n)
  {
    var d := DecimalString(n);
    var t := d + rest;
    assert space + d + rest == space + t;
    SkipSpacePrefix(space, t);
    DecimalStringValue(n);
    UnsignedRun(t, d, rest);
  }

  /** A run of digits and a non-digit read as the run's value. */
  lemma UnsignedRun(t: string, d: string, rest: string)
    requires forall i :: 0 <= i < |d| ==> IsDigit(d[i])
    requires d != [] && (rest == [] || !IsDigit(rest[0]))
    requires t == d + rest
    ensures ScanInt(t) == Matched(DigitsValue(d))
  {
    assert t[0] == d[0];
    assert SkipSpace(t) == t;
    LeadingDigitsOfRun(d, rest);
    assert t[..|d|] == d;
  }

  /** The same with a minus sign in front of the digits. */
  lemma ScanNegativeNumber(space: string, t: string, n: nat, rest: string)
    requires forall i :: 0 <= i < |space| ==> IsSpace(space[i])
    requires rest == [] || !IsDigit(rest[0])
    requires |t| >= 1 && t[0] == '-' && t[1..] == DecimalString(n) + rest
    ensures ScanInt(space + t) == Matched(-(n as int))
  {
    SkipSpacePrefix(space, t);
    DecimalStringValue(n);
    SignedRun(t, DecimalString(n), rest);
  }

  /** A minus sign, a run of digits and a non-digit read as the negated run. */
  lemma SignedRun(t: string, d: string, rest: string)
    requires forall i :: 0 <= i < |d| ==> IsDigit(d[i])
    requires d != [] && (rest == [] || !IsDigit(rest[0]))
    requires |t| >= 1 && t[0] == '-' && t[1..] == d + rest
    ensures ScanInt(t) == Matched(-DigitsValue(d))
  {
    assert SkipSpace(t) == t;
    LeadingDigitsOfRun(d, rest);
    assert (d + rest)[..|d|] == d;
  }

  lemma {:induction false} SkipSpacePrefix(space: string, t: string)
    requires forall i :: 0 <= i < |space| ==> IsSpace(space[i])
    requires t == [] || !IsSpace(t[0])
    ensures SkipSpace(space + t) == t
    decreases |space|
  {
    if space != [] {
      assert (space + t)[1..] == space[1..] + t;
      SkipSpacePrefix(space[1..], t);
    }
  }

  /** Every valid port written in decimal, possibly padded, is kept. */
  lemma PortRoundTrip(p: nat, space: string, rest: string, uninitialised: int)
    requires InPortRange(p)
    requires forall i :: 0 <= i < |space| ==> IsSpace(space[i])
    requires rest == [] || !IsDigit(rest[0])
    ensures PortFromSetting(space + DecimalString(p) + rest, uninitialised) == p
  {
    ScanNumber(space, p, rest);
  }

  /** A number above the port range falls back to the default. */
  lemma TooLargeGivesDefault(n: nat, uninitialised: int)
    requires n > MaxPort
    ensures PortFromSetting(DecimalString(n), uninitialised) == DefaultPort
  {
    ScanNumber("", n, "");
    assert "" + DecimalString(n) + "" == DecimalString(n);
  }

  /** A negative number falls back to the default. */
  lemma NegativeGivesDefault(s: string, n: nat, uninitialised: int)
    requires n > 0
    requires |s| >= 1 && s[0] == '-' && s[1..] == DecimalString(n)
    ensures PortFromSetting(s, uninitialised) == DefaultPort
  {
    ScanNegativeNumber([], s, n, []);
    assert [] + s == s && DecimalString(n) + [] == DecimalString(n);
  }

  /** Text whose first non-blank character starts no number gives the default. */
  lemma NonNumericGivesDefault(s: string, uninitialised: int)
    requires SkipSpace(s) != []
    requires var c := SkipSpace(s)[0]; !IsDigit(c) && c != '-' && c != '+'
    ensures PortFromSetting(s, uninitialised) == DefaultPort
  {
  }

  /** A sign with no digits matches no number, so it gives the default port. */
  lemma LoneSignGivesDefault(s: string, uninitialised: int)
    requires |s| == 1 && (s[0] == '-' || s[0] == '+')
    ensures ScanInt(s) == NoMatch
    ensures PortFromSetting(s, uninitialised) == DefaultPort
  {
  }

  /** An empty or blank setting reaches the end of input before any
      conversion: the port is whatever the unassigned local held, when that
      is in range. */
  lemma {:induction false} BlankKeepsUninitialised(s: string, uninitialised: int)
    requires forall i :: 0 <= i < |s| ==> IsSpace(s[i])
    ensures ScanInt(s) == EndOfInput
    ensures PortFromSetting(s, uninitialised) ==
      if InPortRange(uninitialised) then uninitialised else DefaultPort
  {
    SkipSpacePrefix(s, []);
    assert s + [] == s;
  }
}
