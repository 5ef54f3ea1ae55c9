/** Host/port splitting of Go's `net` package, applied to the bound
    listener address. */
module GoNet {
  import opened Results
  import opened GoStrings

  datatype AddrError =
    | MissingPort
    | TooManyColons
    | MissingCloseBracket
    | UnexpectedOpenBracket
    | UnexpectedCloseBracket

  datatype HostPort = HostPort(host: string, port: string)

  /** `net.SplitHostPort`: the port follows the last colon; a host holding
      colons must be bracketed, and brackets may appear nowhere else. */
  function SplitHostPort(hp: string): (r: Result<HostPort, AddrError>)
    ensures r.Success? ==> ':' !in r.value.port
    ensures r.Success? ==>
      || hp == r.value.host + ":" + r.value.port
      || hp == "[" + r.value.host + "]:" + r.value.port
  {
    match LastIndexOf(hp, ':')
    case None => Failure(MissingPort)
    case Some(i) =>
      if hp[0] == '[' then
        match IndexOf(hp, ']')
        case None => Failure(MissingCloseBracket)
        case Some(end) =>
          if end + 1 == |hp| then Failure(MissingPort)
          else if end + 1 != i then
            (if hp[end + 1] == ':' then Failure(TooManyColons) else Failure(MissingPort))
          else if '[' in hp[1..] then Failure(UnexpectedOpenBracket)
          else if ']' in hp[end + 1..] then Failure(UnexpectedCloseBracket)
          else
            assert hp == "[" + hp[1..end] + "]:" + hp[i + 1..];
            Success(HostPort(hp[1..end], hp[i + 1..]))
      else
        var host := hp[..i];
        if ':' in host then Failure(TooManyColons)
        else if '[' in hp then Failure(UnexpectedOpenBracket)
        else if ']' in hp then Failure(UnexpectedCloseBracket)
        else
          assert hp == host + ":" + hp[i + 1..];
          Success(HostPort(host, hp[i + 1..]))
  }

  /** `net.JoinHostPort`: brackets the host when it holds a colon. */
  function JoinHostPort(host: string, port: string): string {
    if ':' in host then "[" + host + "]:" + port else host + ":" + port
  }

  /** Splitting a joined address gives back its host and port, provided
      neither contains a bracket and the port contains no colon. */
  lemma SplitJoinHostPort(host: string, port: string)
    requires '[' !in host && ']' !in host
    requires ':' !in port && '[' !in port && ']' !in port
    ensures SplitHostPort(JoinHostPort(host, port)) == Success(HostPort(host, port))
  {
    if ':' in host {
      SplitBracketed(host, port);
    } else {
      SplitPlain(host, port);
    }
  }

  lemma SplitBracketed(host: string, port: string)
    requires ':' in host && '[' !in host && ']' !in host
    requires ':' !in port && '[' !in port && ']' !in port
    ensures SplitHostPort("[" + host + "]:" + port) == Success(HostPort(host, port))
  {
    var hp := "[" + host + "]:" + port;
    var n := |host|;
    BracketedDelimiters(host, port);
    BracketedParts(host, port);
    SplitAtBrackets(hp, n + 1, n + 2);
  }

  /** The pieces of a bracketed address, and where brackets are absent. */
  lemma BracketedParts(host: string, port: string)
    requires '[' !in host && ']' !in port && '[' !in port
    ensures var hp := "[" + host + "]:" + port;
      && hp[0] == '['
      && hp[1..|host| + 1] == host
      && hp[|host| + 3..] == port
      && '[' !in hp[1..]
      && ']' !in hp[|host| + 2..]
  {
    var hp := "[" + host + "]:" + port;
    assert hp[1..] == host + "]:" + port;
    assert hp[|host| + 2..] == ":" + port;
  }

  /** `SplitHostPort` on an address that opens with a bracket, once the
      closing bracket and the last colon are known to be adjacent and no
      stray bracket follows. */
  lemma SplitAtBrackets(hp: string, end: nat, i: nat)
    requires |hp| > 0 && hp[0] == '['
    requires IndexOf(hp, ']') == Some(end) && LastIndexOf(hp, ':') == Some(i)
    requires end + 1 == i
    requires '[' !in hp[1..] && ']' !in hp[end + 1..]
    ensures SplitHostPort(hp) == Success(HostPort(hp[1..end], hp[i + 1..]))
  {
  }

  /** In a bracketed address the port's colon sits right after the closing
      bracket, which sits right after the host. */
  lemma BracketedDelimiters(host: string, port: string)
    requires ']' !in host && ':' !in port
    ensures LastIndexOf("[" + host + "]:" + port, ':') == Some(|host| + 2)
    ensures IndexOf("[" + host + "]:" + port, ']') == Some(|host| + 1)
  {
    LastIndexOfBefore("[" + host + "]:", port, ':');
    ClosingBracket(host, port);
  }

  /** The first `]` of a bracketed address is the one closing the host. */
  lemma ClosingBracket(host: string, port: string)
    requires ']' !in host
    ensures IndexOf("[" + host + "]:" + port, ']') == Some(|host| + 1)
  {
    var opening := "[" + host;
    var rest := "]:" + port;
    assert opening + rest == "[" + host + "]:" + port;
    IndexOfAfter(opening, rest, ']');
  }

  lemma SplitPlain(host: string, port: string)
    requires ':' !in host && '[' !in host && ']' !in host
    requires ':' !in port && '[' !in port && ']' !in port
    ensures SplitHostPort(host + ":" + port) == Success(HostPort(host, port))
  {
    var hp := host + ":" + port;
    var n := |host|;
    LastIndexOfBefore(host + ":", port, ':');
    assert hp[..n] == host;
    assert hp[0] != '[' by {
      if n > 0 {
        assert hp[0] == host[0];
      }
    }
  }
}
