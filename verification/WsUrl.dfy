/**
  The relay URL parser, for the WebSocket URIs of section 3 of RFC 6455 with bracketed IP literals as in
  section 3.2.2 of RFC 3986, against a printer for the values it returns.
 */
module WsUrl {
  import opened Wrappers

  type Port = p: int | 0 <= p < 65536

  datatype Url = Url(useTls: bool, host: string, port: Port, path: string)

  /** `Threw` is the exception `std::stoi` raises on a port it cannot convert. */
  datatype Outcome = Parsed(url: Url) | Rejected | Threw

  // ---------------------------------------------------------------- library calls

  /** `std::string::find` of a character. */
  function Find(s: string, c: char): (i: Option<nat>)
    ensures i.Some? ==> i.value < |s| && s[i.value] == c && c !in s[..i.value]
    ensures i.None? <==> c !in s
  {
    if |s| == 0 then None
    else if s[0] == c then Some(0)
    else
      match Find(s[1..], c)
      case None => assert s == [s[0]] + s[1..]; None
      case Some(i) => assert s[..i + 1] == [s[0]] + s[1..][..i]; Some(i + 1)
  }

  /** `std::string::rfind` of a character. */
  function RFind(s: string, c: char): (i: Option<nat>)
    ensures i.Some? ==> i.value < |s| && s[i.value] == c && c !in s[i.value + 1..]
    ensures i.None? <==> c !in s
  {
    if |s| == 0 then None
    else if s[|s| - 1] == c then Some(|s| - 1)
    else
      assert s == s[..|s| - 1] + [s[|s| - 1]];
      match RFind(s[..|s| - 1], c)
      case None => None
      case Some(i) => assert s[i + 1..] == s[..|s| - 1][i + 1..] + [s[|s| - 1]]; Some(i)
  }

  predicate IsDigit(c: char) { '0' <= c <= '9' }

  predicate IsSpace(c: char) { c == ' ' || '\t' <= c <= '\r' }

  function Digit(c: char): nat
    requires IsDigit(c)
  {
    c as int - '0' as int
  }

  /** The longest prefix of decimal digits. */
  function DigitPrefix(s: string): (d: string)
    ensures d <= s && forall i | 0 <= i < |d| :: IsDigit(d[i])
  {
    if |s| == 0 || !IsDigit(s[0]) then "" else [s[0]] + DigitPrefix(s[1..])
  }

  function DecimalValue(digits: string): nat
    requires forall i | 0 <= i < |digits| :: IsDigit(digits[i])
  {
    if |digits| == 0 then 0
    else 10 * DecimalValue(digits[..|digits| - 1]) + Digit(digits[|digits| - 1])
  }

  function SkipSpaces(s: string): string {
    if |s| > 0 && IsSpace(s[0]) then SkipSpaces(s[1..]) else s
  }

  /**
    `std::stoi`: leading white space and a sign are allowed, whatever follows the digits is ignored. None
    is its exception, for no digits or a value beyond 32 bits.
   */
  function StoI(s: string): Option<int> {
    var t := SkipSpaces(s);
    var signed := |t| > 0 && (t[0] == '-' || t[0] == '+');
    var digits := DigitPrefix(if signed then t[1..] else t);
    var magnitude: int := DecimalValue(digits);
    var value := if signed && t[0] == '-' then -magnitude else magnitude;
    if |digits| > 0 && -0x8000_0000 <= value < 0x8000_0000 then Some(value) else None
  }

  /** The cast to a 16-bit port keeps the low bits. */
  function ToPort(v: int): Port { v % 65536 }

  // ---------------------------------------------------------------- the parser

  function DefaultPort(useTls: bool): Port { if useTls then 443 else 80 }

  /** Splits `host[:port]`. */
  function SplitAuthority(authority: string, useTls: bool, path: string): Outcome {
    if |authority| > 0 && authority[0] == '[' then
      match Find(authority, ']')
      case None => Rejected
      case Some(bracket) =>
        var host := authority[1..bracket];
        if bracket + 1 < |authority| && authority[bracket + 1] == ':' then
          WithPort(useTls, host, authority[bracket + 2..], path)
        else NonEmpty(Url(useTls, host, DefaultPort(useTls), path))
    else
      match RFind(authority, ':')
      case None => NonEmpty(Url(useTls, authority, DefaultPort(useTls), path))
      case Some(colon) => WithPort(useTls, authority[..colon], authority[colon + 1..], path)
  }

  function WithPort(useTls: bool, host: string, port: string, path: string): Outcome {
    match StoI(port)
    case None => Threw
    case Some(v) => NonEmpty(Url(useTls, host, ToPort(v), path))
  }

  function NonEmpty(url: Url): Outcome { if url.host == "" then Rejected else Parsed(url) }

  function ParseRest(rest: string, useTls: bool): Outcome {
    match Find(rest, '/')
    case None => SplitAuthority(rest, useTls, "/")
    case Some(slash) => SplitAuthority(rest[..slash], useTls, rest[slash..])
  }

  function Parse(url: string): Outcome {
    if "wss://" <= url then ParseRest(url[6..], true)
    else if "ws://" <= url then ParseRest(url[5..], false)
    else Rejected
  }

  /** The parser as it is written: the text is cut down step by step and the results go to out-parameters. */
  method ParseWsUrl(url: string)
    returns (ok: bool, threw: bool, host: string, port: Port, path: string, useTls: bool)
    ensures Parse(url) == if threw then Threw else if ok then Parsed(Url(useTls, host, port, path)) else Rejected
  {
    ok, threw, host, port, path, useTls := false, false, "", 0, "", false;
    var u := url;
    if "wss://" <= u {
      useTls := true;
      u := u[6..];
    } else if "ws://" <= u {
      useTls := false;
      u := u[5..];
    } else {
      return;
    }
    var hostPort;
    var slash := Find(u, '/');
    if slash.Some? {
      hostPort := u[..slash.value];
      path := u[slash.value..];
    } else {
      hostPort := u;
      path := "/";
    }
    ok, threw, host, port := ParseHostPort(hostPort, useTls, path);
  }

  method ParseHostPort(hostPort: string, useTls: bool, ghost path: string)
    returns (ok: bool, threw: bool, host: string, port: Port)
    ensures SplitAuthority(hostPort, useTls, path)
         == if threw then Threw else if ok then Parsed(Url(useTls, host, port, path)) else Rejected
  {
    ok, threw, host, port := false, false, "", if useTls then 443 else 80;
    var portText := None;
    if hostPort != "" && hostPort[0] == '[' {
      var bracket := Find(hostPort, ']');
      if bracket == None {
        return;
      }
      host := hostPort[1..bracket.value];
      if bracket.value + 1 < |hostPort| && hostPort[bracket.value + 1] == ':' {
        portText := Some(hostPort[bracket.value + 2..]);
      }
    } else {
      var colon := RFind(hostPort, ':');
      if colon.Some? {
        host := hostPort[..colon.value];
        portText := Some(hostPort[colon.value + 1..]);
      } else {
        host := hostPort;
      }
    }
    if portText.Some? {
      var v := StoI(portText.value);
      if v == None {
        threw := true;
        return;
      }
      port := ToPort(v.value);
    }
    ok := host != "";
  }

  // ---------------------------------------------------------------- the printer

  function Decimal(n: nat): (s: string)
    ensures |s| > 0 && forall i | 0 <= i < |s| :: IsDigit(s[i])
  {
    var last := ['0' + (n % 10) as char];
    if n < 10 then last else Decimal(n / 10) + last
  }

  /** The optional parts a URL may be written with. */
  datatype Form = Form(brackets: bool, explicitPort: bool, explicitPath: bool)

  function Authority(form: Form, u: Url): string {
    (if form.brackets then "[" + u.host + "]" else u.host)
    + (if form.explicitPort then ":" + Decimal(u.port) else "")
  }

  function Scheme(useTls: bool): string { if useTls then "wss://" else "ws://" }

  function Print(form: Form, u: Url): string {
    Scheme(u.useTls) + Authority(form, u) + (if form.explicitPath then u.path else "")
  }

  /** When the printed form says everything about the URL. */
  predicate Expressible(form: Form, u: Url) {
    && u.host != "" && '/' !in u.host
    && (if form.explicitPath then u.path != "" && u.path[0] == '/' else u.path == "/")
    && (if form.brackets then ']' !in u.host else u.host[0] != '[')
    && (!form.explicitPort ==> u.port == DefaultPort(u.useTls))
    && (!form.explicitPort && !form.brackets ==> ':' !in u.host)
  }

  // ---------------------------------------------------------------- numbers

  lemma {:induction false} DecimalRoundTrip(n: nat)
    ensures DecimalValue(Decimal(n)) == n
  {
    var s := Decimal(n);
    if n >= 10 {
      DecimalRoundTrip(n / 10);
      assert s[..|s| - 1] == Decimal(n / 10);
    } else {
      assert s[..|s| - 1] == "";
    }
  }

  lemma {:induction false} AllDigits(s: string)
    requires forall i | 0 <= i < |s| :: IsDigit(s[i])
    ensures DigitPrefix(s) == s
  {
    if |s| > 0 {
      AllDigits(s[1..]);
    }
  }

  /** A text of digits is converted to its value. */
  lemma {:induction false} StoIOfDigits(s: string, value: Port)
    requires |s| > 0 && (forall i | 0 <= i < |s| :: IsDigit(s[i])) && DecimalValue(s) == value
    ensures StoI(s) == Some(value)
  {
    AllDigits(s);
    assert IsDigit(s[0]);
    assert SkipSpaces(s) == s;
  }

  lemma PortRoundTrip(p: Port)
    ensures StoI(Decimal(p)) == Some(p) && ToPort(p) == p
  {
    DecimalRoundTrip(p);
    StoIOfDigits(Decimal(p), p);
  }

  // ---------------------------------------------------------------- round trip

  lemma FindAt(s: string, c: char, i: nat)
    requires i < |s| && s[i] == c && c !in s[..i]
    ensures Find(s, c) == Some(i)
  {
  }

  lemma RFindAt(s: string, c: char, i: nat)
    requires i < |s| && s[i] == c && c !in s[i + 1..]
    ensures RFind(s, c) == Some(i)
  {
  }

  lemma NotInDigits(s: string, c: char)
    requires !IsDigit(c) && forall i | 0 <= i < |s| :: IsDigit(s[i])
    ensures c !in s
  {
  }

  /** The host is what the first pair of brackets holds; after them only ':' starts a port. */
  lemma SplitAtBracket(a: string, bracket: nat, useTls: bool, path: string)
    requires 0 < bracket < |a| && a[0] == '[' && a[bracket] == ']' && ']' !in a[..bracket]
    ensures SplitAuthority(a, useTls, path)
         == if bracket + 1 < |a| && a[bracket + 1] == ':' then WithPort(useTls, a[1..bracket], a[bracket + 2..], path)
            else NonEmpty(Url(useTls, a[1..bracket], DefaultPort(useTls), path))
  {
    FindAt(a, ']', bracket);
  }

  lemma SplitBracketed(form: Form, u: Url, path: string)
    requires form.brackets && ']' !in u.host
    ensures SplitAuthority(Authority(form, u), u.useTls, path)
         == NonEmpty(u.(port := if form.explicitPort then u.port else DefaultPort(u.useTls), path := path))
  {
    var a := Authority(form, u);
    var bracket := 1 + |u.host|;
    assert a[..bracket] == "[" + u.host;
    assert a[1..bracket] == u.host;
    SplitAtBracket(a, bracket, u.useTls, path);
    if form.explicitPort {
      assert a[bracket + 2..] == Decimal(u.port);
      PortRoundTrip(u.port);
    }
  }

  lemma LastColon(host: string, digits: string)
    requires ':' !in digits
    ensures RFind(host + (":" + digits), ':') == Some(|host|)
  {
    var a := host + (":" + digits);
    assert a[|host| + 1..] == digits;
    RFindAt(a, ':', |host|);
  }

  lemma SplitPlainWithPort(form: Form, u: Url, path: string)
    requires !form.brackets && form.explicitPort && u.host != "" && u.host[0] != '['
    ensures SplitAuthority(Authority(form, u), u.useTls, path) == Parsed(u.(path := path))
  {
    var digits := Decimal(u.port);
    var a := u.host + (":" + digits);
    assert Authority(form, u) == a && a[0] == u.host[0];
    NotInDigits(digits, ':');
    LastColon(u.host, digits);
    assert a[|u.host| + 1..] == digits && a[..|u.host|] == u.host;
    PortRoundTrip(u.port);
    assert SplitAuthority(a, u.useTls, path) == WithPort(u.useTls, u.host, digits, path);
  }

  /** The text after the scheme splits into the authority and the path that were printed. */
  lemma ParseRestOfPrinted(form: Form, u: Url)
    requires '/' !in u.host
    requires form.explicitPath ==> u.path != "" && u.path[0] == '/'
    ensures ParseRest(Authority(form, u) + (if form.explicitPath then u.path else ""), u.useTls)
         == SplitAuthority(Authority(form, u), u.useTls, if form.explicitPath then u.path else "/")
  {
    var a := Authority(form, u);
    NotInDigits(Decimal(u.port), '/');
    assert '/' !in a;
    if form.explicitPath {
      var rest := a + u.path;
      assert rest[..|a|] == a && rest[|a|..] == u.path;
      FindAt(rest, '/', |a|);
    } else {
      assert a + "" == a;
    }
  }

  lemma ParseOfPrinted(form: Form, u: Url)
    ensures Parse(Print(form, u))
         == ParseRest(Authority(form, u) + (if form.explicitPath then u.path else ""), u.useTls)
  {
    var rest := Authority(form, u) + (if form.explicitPath then u.path else "");
    assert Print(form, u) == Scheme(u.useTls) + rest;
    if u.useTls {
      assert (Scheme(true) + rest)[6..] == rest;
    } else {
      assert (Scheme(false) + rest)[5..] == rest;
      assert (Scheme(false) + rest)[2] == ':';
      assert "wss://"[2] == 's';
    }
  }

  /** Every URL that a form can express is read back from that form. */
  lemma RoundTrip(form: Form, u: Url)
    requires Expressible(form, u)
    ensures Parse(Print(form, u)) == Parsed(u)
  {
    ParseOfPrinted(form, u);
    ParseRestOfPrinted(form, u);
    var path := if form.explicitPath then u.path else "/";
    if form.brackets {
      SplitBracketed(form, u, path);
    } else if form.explicitPort {
      SplitPlainWithPort(form, u, path);
    } else {
      assert Authority(form, u) == u.host;
    }
  }

  /** What any accepted text yields: a host without '/', a path that starts with it, and a host some form can write. */
  predicate WellFormed(u: Url) {
    && u.host != "" && '/' !in u.host
    && u.path != "" && u.path[0] == '/'
    && (']' !in u.host || u.host[0] != '[')
  }

  lemma SplitResult(authority: string, useTls: bool, path: string)
    requires SplitAuthority(authority, useTls, path).Parsed?
    ensures var u := SplitAuthority(authority, useTls, path).url;
            && u.useTls == useTls && u.path == path && u.host != ""
            && (forall c | c in u.host :: c in authority)
            && (authority[0] == '[' ==> ']' in authority && ']' !in u.host)
            && (authority[0] != '[' ==> u.host <= authority)
  {
  }

  lemma ParseRestResult(rest: string, useTls: bool)
    requires ParseRest(rest, useTls).Parsed?
    ensures WellFormed(ParseRest(rest, useTls).url) && ParseRest(rest, useTls).url.useTls == useTls
  {
    match Find(rest, '/')
    case None => SplitResult(rest, useTls, "/");
    case Some(slash) => SplitResult(rest[..slash], useTls, rest[slash..]);
  }

  lemma ParseResult(s: string)
    requires Parse(s).Parsed?
    ensures WellFormed(Parse(s).url)
  {
    if "wss://" <= s {
      ParseRestResult(s[6..], true);
    } else {
      ParseRestResult(s[5..], false);
    }
  }

  /** The printed form is read back as the URL exactly when the form can express it. */
  lemma RoundTripIff(form: Form, u: Url)
    ensures Parse(Print(form, u)) == Parsed(u) <==> Expressible(form, u)
  {
    if Expressible(form, u) {
      RoundTrip(form, u);
    } else if Parse(Print(form, u)) == Parsed(u) {
      ParseResult(Print(form, u));
      ParseOfPrinted(form, u);
      ParseRestOfPrinted(form, u);
      var path := if form.explicitPath then u.path else "/";
      SplitResult(Authority(form, u), u.useTls, path);
      Inexpressible(form, u, path);
    }
  }

  lemma Inexpressible(form: Form, u: Url, path: string)
    requires WellFormed(u) && !Expressible(form, u)
    requires path == if form.explicitPath then u.path else "/"
    ensures SplitAuthority(Authority(form, u), u.useTls, path) != Parsed(u)
  {
    var a := Authority(form, u);
    var outcome := SplitAuthority(a, u.useTls, path);
    if outcome.Parsed? {
      SplitResult(a, u.useTls, path);
      if form.brackets {
        assert a[0] == '[';
        if ']' !in u.host {
          SplitBracketed(form, u, path);
        }
      } else {
        assert a[0] == u.host[0];
        NotInDigits(Decimal(u.port), ']');
        assert !form.explicitPort ==> a == u.host;
      }
    }
  }

  /** The parser returns exactly the well-formed URLs. */
  lemma ParserImage(u: Url)
    ensures (exists s :: Parse(s) == Parsed(u)) <==> WellFormed(u)
  {
    if WellFormed(u) {
      var form := Form(']' !in u.host, true, true);
      RoundTrip(form, u);
      assert Parse(Print(form, u)) == Parsed(u);
    }
    if exists s :: Parse(s) == Parsed(u) {
      var s :| Parse(s) == Parsed(u);
      ParseResult(s);
    }
  }

  /** Printing what was parsed, in a form that suits it, and parsing again changes nothing. */
  lemma NormalisationIsStable(s: string)
    requires Parse(s).Parsed?
    ensures var u := Parse(s).url;
            Parse(Print(Form(']' !in u.host, true, true), u)) == Parsed(u)
  {
    ParseResult(s);
    RoundTrip(Form(']' !in Parse(s).url.host, true, true), Parse(s).url);
  }
}
