/** Every text the URL parser may be given, by its shape, and what the parser makes of it. */
module UrlTexts {
  import opened Wrappers
  import opened WsUrl

  // ---------------------------------------------------------------- numbers

  /** The text of a port as `std::stoi` sees it. */
  datatype Number = Number(spaces: string, sign: string, digits: string, tail: string) {
    function Text(): string { spaces + (sign + (digits + tail)) }

    /** The parts are as long as they can be. */
    predicate Greedy() {
      && (forall i | 0 <= i < |spaces| :: IsSpace(spaces[i]))
      && (sign == "" || sign == "+" || sign == "-")
      && (forall i | 0 <= i < |digits| :: '0' <= digits[i] <= '9')
      && (tail != "" ==> !IsDigit(tail[0]))
      && (sign == "" && digits == "" && tail != "" ==> !IsSpace(tail[0]) && tail[0] != '+' && tail[0] != '-')
    }
  }

  lemma {:induction false} SkipSpacesStops(spaces: string, rest: string)
    requires forall i | 0 <= i < |spaces| :: IsSpace(spaces[i])
    requires rest != "" ==> !IsSpace(rest[0])
    ensures SkipSpaces(spaces + rest) == rest
  {
    if spaces == "" {
      assert spaces + rest == rest;
    } else {
      SkipSpacesStops(spaces[1..], rest);
      assert (spaces + rest)[1..] == spaces[1..] + rest;
    }
  }

  lemma {:induction false} DigitPrefixStops(digits: string, tail: string)
    requires forall i | 0 <= i < |digits| :: IsDigit(digits[i])
    requires tail != "" ==> !IsDigit(tail[0])
    ensures DigitPrefix(digits + tail) == digits
  {
    if digits == "" {
      assert digits + tail == tail;
    } else {
      DigitPrefixStops(digits[1..], tail);
      assert (digits + tail)[1..] == digits[1..] + tail;
    }
  }

  /** `std::stoi` on a text of which the parts are known. */
  lemma StoIByParts(s: string, t: string, signed: bool, digits: string)
    requires SkipSpaces(s) == t && signed == (|t| > 0 && (t[0] == '-' || t[0] == '+'))
    requires digits == DigitPrefix(if signed then t[1..] else t)
    ensures var magnitude: int := DecimalValue(digits);
            var value := if signed && t[0] == '-' then -magnitude else magnitude;
            StoI(s) == if digits != "" && -2147483648 <= value <= 2147483647 then Some(value) else None
  {
  }

  lemma {:induction false} PartsOf(n: Number) returns (t: string, signed: bool)
    requires n.Greedy()
    ensures SkipSpaces(n.Text()) == t && signed == (|t| > 0 && (t[0] == '-' || t[0] == '+'))
    ensures DigitPrefix(if signed then t[1..] else t) == n.digits
    ensures signed && t[0] == '-' <==> n.sign == "-"
  {
    t, signed := n.sign + (n.digits + n.tail), n.sign != "";
    SignedRest(n);
    SkipSpacesStops(n.spaces, t);
    DigitPrefixStops(n.digits, n.tail);
  }

  /** Spaces and a sign are allowed, anything may follow the digits, and the value must fit 32 bits. */
  lemma {:induction false} StoIOf(n: Number)
    requires n.Greedy()
    ensures var magnitude: int := DecimalValue(n.digits);
            var value := if n.sign == "-" then -magnitude else magnitude;
            StoI(n.Text()) == if n.digits != "" && -2147483648 <= value <= 2147483647 then Some(value) else None
  {
    var t, signed := PartsOf(n);
    StoIByParts(n.Text(), t, signed, n.digits);
  }

  lemma {:induction false} SignedRest(n: Number)
    requires n.Greedy()
    ensures var rest := n.sign + (n.digits + n.tail);
            var signed := |rest| > 0 && (rest[0] == '-' || rest[0] == '+');
            && (rest != "" ==> !IsSpace(rest[0]))
            && signed == (n.sign != "")
            && (if signed then rest[1..] else rest) == n.digits + n.tail
            && (signed && rest[0] == '-' <==> n.sign == "-")
  {
    var rest := n.sign + (n.digits + n.tail);
    if n.sign == "" {
      assert rest == n.digits + n.tail;
    } else {
      assert rest[1..] == n.digits + n.tail;
    }
  }

  lemma SpacesEnd(s: string) returns (i: nat)
    ensures i <= |s| && (forall k | 0 <= k < i :: IsSpace(s[k])) && (i < |s| ==> !IsSpace(s[i]))
  {
    i := 0;
    while i < |s| && IsSpace(s[i])
      invariant i <= |s| && forall k | 0 <= k < i :: IsSpace(s[k])
    {
      i := i + 1;
    }
  }

  lemma DigitsEnd(s: string, j: nat) returns (k: nat)
    requires j <= |s|
    ensures j <= k <= |s| && (forall l | j <= l < k :: IsDigit(s[l])) && (k < |s| ==> !IsDigit(s[k]))
  {
    k := j;
    while k < |s| && IsDigit(s[k])
      invariant j <= k <= |s| && forall l | j <= l < k :: IsDigit(s[l])
    {
      k := k + 1;
    }
  }

  lemma PartsJoin(s: string, i: nat, j: nat, k: nat)
    requires i <= j <= k <= |s|
    ensures s[..i] + (s[i..j] + (s[j..k] + s[k..])) == s
  {
    assert s[j..k] + s[k..] == s[j..];
    assert s[i..j] + s[j..] == s[i..];
  }

  lemma PartsAreGreedy(s: string, i: nat, j: nat, k: nat)
    requires i <= j <= k <= |s|
    requires (forall l | 0 <= l < i :: IsSpace(s[l])) && (i < |s| ==> !IsSpace(s[i]))
    requires j == if i < |s| && (s[i] == '+' || s[i] == '-') then i + 1 else i
    requires (forall l | j <= l < k :: IsDigit(s[l])) && (k < |s| ==> !IsDigit(s[k]))
    ensures Number(s[..i], s[i..j], s[j..k], s[k..]).Greedy()
  {
    if i < j {
      assert s[i..j] == [s[i]];
    }
  }

  /** Every text is a number in this sense. */
  lemma NumberOf(s: string) returns (n: Number)
    ensures n.Greedy() && n.Text() == s
  {
    var i := SpacesEnd(s);
    var j := if i < |s| && (s[i] == '+' || s[i] == '-') then i + 1 else i;
    var k := DigitsEnd(s, j);
    PartsJoin(s, i, j, k);
    PartsAreGreedy(s, i, j, k);
    n := Number(s[..i], s[i..j], s[j..k], s[k..]);
  }

  // ---------------------------------------------------------------- URLs

  datatype Authority =
    | Host(host: string)
    | HostAndPort(host: string, port: string)
    | Bracketed(host: string, tail: string)
    | Unclosed(rest: string)
  {
    function Text(): string {
      match this
      case Host(host) => host
      case HostAndPort(host, port) => host + (":" + port)
      case Bracketed(host, tail) => "[" + (host + ("]" + tail))
      case Unclosed(rest) => "[" + rest
    }

    predicate Proper() {
      match this
      case Host(host) => ':' !in host && (host != "" ==> host[0] != '[')
      case HostAndPort(host, port) => ':' !in port && (host != "" ==> host[0] != '[')
      case Bracketed(host, _) => ']' !in host
      case Unclosed(rest) => ']' !in rest
    }

    /** What is to be converted to the port, if anything. */
    function PortText(): Option<string> {
      match this
      case HostAndPort(_, port) => Some(port)
      case Bracketed(_, tail) => if tail != "" && tail[0] == ':' then Some(tail[1..]) else None
      case _ => None
    }
  }

  /** A text with a scheme, an authority up to the first slash, and the rest. */
  datatype Text = Text(tls: bool, authority: Authority, rest: string) {
    function Spelled(): string {
      (if tls then "wss://" else "ws://") + (authority.Text() + rest)
    }

    predicate Proper() {
      authority.Proper() && '/' !in authority.Text() && (rest != "" ==> rest[0] == '/')
    }
  }

  /** What the text stands for: the port defaults to 443 or 80, the path to "/", and a host is needed. */
  function Meaning(t: Text): Outcome {
    var path := if t.rest == "" then "/" else t.rest;
    if t.authority.Unclosed? then Rejected
    else
      match t.authority.PortText()
      case None =>
        if t.authority.host == "" then Rejected
        else Parsed(Url(t.tls, t.authority.host, if t.tls then 443 else 80, path))
      case Some(port) =>
        match StoI(port)
        case None => Threw
        case Some(v) =>
          if t.authority.host == "" then Rejected else Parsed(Url(t.tls, t.authority.host, v % 65536, path))
  }

  lemma UnknownSchemeIsRejected(s: string)
    requires !("wss://" <= s) && !("ws://" <= s)
    ensures Parse(s) == Rejected
  {
  }

  lemma {:induction false} SplitOf(a: Authority, tls: bool, path: string)
    requires a.Proper()
    ensures SplitAuthority(a.Text(), tls, path)
         == if a.Unclosed? then Rejected
            else if a.PortText().None? then NonEmpty(Url(tls, a.host, DefaultPort(tls), path))
            else WithPort(tls, a.host, a.PortText().value, path)
  {
    var text := a.Text();
    match a
    case Host(host) =>
    case HostAndPort(host, port) => SplitAtColon(host, port, tls, path);
    case Bracketed(host, tail) => SplitAtBrackets(host, tail, tls, path);
    case Unclosed(rest) =>
  }

  lemma SplitAtLastColon(a: string, colon: nat, tls: bool, path: string)
    requires colon < |a| && a[colon] == ':' && ':' !in a[colon + 1..] && a[0] != '['
    ensures SplitAuthority(a, tls, path) == WithPort(tls, a[..colon], a[colon + 1..], path)
  {
    RFindAt(a, ':', colon);
  }

  lemma {:induction false} SplitAtColon(host: string, port: string, tls: bool, path: string)
    requires ':' !in port && (host != "" ==> host[0] != '[')
    ensures SplitAuthority(host + (":" + port), tls, path) == WithPort(tls, host, port, path)
  {
    var text := host + (":" + port);
    assert text[..|host|] == host && text[|host| + 1..] == port && text[|host|] == ':';
    SplitAtLastColon(text, |host|, tls, path);
  }

  lemma {:induction false} SplitAtBrackets(host: string, tail: string, tls: bool, path: string)
    requires ']' !in host
    ensures SplitAuthority("[" + (host + ("]" + tail)), tls, path)
         == if tail != "" && tail[0] == ':' then WithPort(tls, host, tail[1..], path)
            else NonEmpty(Url(tls, host, DefaultPort(tls), path))
  {
    var text, bracket := "[" + (host + ("]" + tail)), |host| + 1;
    assert text[..bracket] == "[" + host && text[1..bracket] == host;
    assert text[bracket + 1..] == tail;
    SplitAtBracket(text, bracket, tls, path);
    if tail != "" {
      assert text[bracket + 1] == tail[0] && text[bracket + 2..] == tail[1..];
    }
  }

  lemma {:induction false} RestOf(a: string, rest: string, tls: bool)
    requires '/' !in a && (rest != "" ==> rest[0] == '/')
    ensures ParseRest(a + rest, tls) == SplitAuthority(a, tls, if rest == "" then "/" else rest)
  {
    if rest == "" {
      assert a + rest == a;
    } else {
      assert (a + rest)[..|a|] == a && (a + rest)[|a|..] == rest;
      FindAt(a + rest, '/', |a|);
    }
  }

  /** What the parser makes of every text with a scheme. */
  lemma {:induction false} ParseByShape(t: Text)
    requires t.Proper()
    ensures Parse(t.Spelled()) == Meaning(t)
  {
    var a := t.authority.Text();
    SchemeIsCut(t.tls, a + t.rest);
    RestOf(a, t.rest, t.tls);
    SplitOf(t.authority, t.tls, if t.rest == "" then "/" else t.rest);
  }

  lemma SchemeIsCut(tls: bool, rest: string)
    ensures Parse((if tls then "wss://" else "ws://") + rest) == ParseRest(rest, tls)
  {
    if tls {
      assert ("wss://" + rest)[6..] == rest;
    } else {
      assert ("ws://" + rest)[5..] == rest;
      assert ("ws://" + rest)[2] == ':' && "wss://"[2] == 's';
    }
  }

  /** A text is what precedes its first slash and the rest. */
  lemma AtSlash(u: string) returns (text: string, rest: string)
    ensures text + rest == u && '/' !in text && (rest != "" ==> rest[0] == '/')
  {
    text, rest := u, "";
    match Find(u, '/')
    case None =>
    case Some(slash) => text, rest := u[..slash], u[slash..];
  }

  /** The shapes cover every text with a scheme. */
  lemma EveryTextHasAShape(s: string) returns (t: Text)
    requires "wss://" <= s || "ws://" <= s
    ensures t.Proper() && t.Spelled() == s
  {
    var tls := "wss://" <= s;
    var text, rest := AtSlash(if tls then s[6..] else s[5..]);
    var a := AuthorityOf(text);
    t := Text(tls, a, rest);
  }

  lemma AuthorityOf(s: string) returns (a: Authority)
    ensures a.Proper() && a.Text() == s
  {
    if s != "" && s[0] == '[' {
      a := ClosedOrNot(s);
    } else {
      match RFind(s, ':')
      case None => a := Host(s);
      case Some(colon) => a := HostAndPort(s[..colon], s[colon + 1..]);
    }
  }

  lemma ClosedOrNot(s: string) returns (a: Authority)
    requires s != "" && s[0] == '['
    ensures a.Proper() && a.Text() == s
  {
    var rest := s[1..];
    assert s == "[" + rest;
    match Find(rest, ']')
    case None =>
      a := Unclosed(rest);
    case Some(i) =>
      a := Bracketed(rest[..i], rest[i + 1..]);
      assert rest == rest[..i] + ("]" + rest[i + 1..]);
  }
}
