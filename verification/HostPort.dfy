/** Writing and reading `host:port` pairs: net.JoinHostPort on the generator's side,
    net.SplitHostPort, strings.Split and getProto on the readers' side. */
module HostPort {
  import opened Text

  /** A host that needs no brackets and that every reader takes apart the same way. */
  ghost predicate PlainHost(host: string) { forall c :: c in {':', '%', '[', ']'} ==> c !in host }

  function JoinHostPort(host: string, port: string): string {
    if ':' in host || '%' in host then "[" + host + "]:" + port else host + ":" + port
  }

  /** Splits at the first separator (strings.SplitN with limit 2). */
  function Cut(s: string, sep: char): Option<(string, string)> {
    if s == "" then None
    else if s[0] == sep then Some(("", s[1..]))
    else match Cut(s[1..], sep)
      case None => None
      case Some(p) => Some(([s[0]] + p.0, p.1))
  }

  lemma {:induction false} CutFirst(a: string, b: string, sep: char)
    requires sep !in a
    ensures Cut(a + [sep] + b, sep) == Some((a, b))
  {
    var s := a + [sep] + b;
    if a == "" {
      assert s[1..] == b;
    } else {
      CutFirst(a[1..], b, sep);
      assert s[1..] == a[1..] + [sep] + b;
      assert a == [a[0]] + a[1..];
    }
  }

  /** The cut is at the first separator, if there is one. */
  lemma {:induction false} CutMeans(s: string, sep: char)
    ensures Cut(s, sep) == None <==> sep !in s
    ensures Cut(s, sep).Some? ==> var p := Cut(s, sep).value; sep !in p.0 && s == p.0 + [sep] + p.1
  {
    if s == "" {
    } else {
      assert s == [s[0]] + s[1..];
      CutMeans(s[1..], sep);
    }
  }

  /** net.SplitHostPort on an address that does not open with a bracket: exactly one
      colon, and neither brackets nor a zone. Bracketed hosts are read up to `]:`. */
  function SplitHostPort(s: string): Option<(string, string)> {
    if s != "" && s[0] == '[' then
      match Cut(s[1..], ']')
      case None => None
      case Some(p) =>
        if p.1 == "" || p.1[0] != ':' || ':' in p.1[1..] || '[' in p.0 || '[' in p.1 || ']' in p.1 then None
        else Some((p.0, p.1[1..]))
    else
      match Cut(s, ':')
      case None => None
      case Some(p) =>
        if ':' in p.1 || '%' in p.0 || '[' in s || ']' in s then None else Some(p)
  }

  /** A host with a colon or a zone goes into brackets, and SplitHostPort takes it out again. */
  lemma {:induction false} BracketsReadBack(host: string, port: string)
    requires (':' in host || '%' in host) && '[' !in host && ']' !in host && PlainPort(port)
    ensures JoinHostPort(host, port) == "[" + host + "]:" + port
    ensures SplitHostPort(JoinHostPort(host, port)) == Some((host, port))
  {
    var s := "[" + host + "]:" + port;
    assert s[1..] == host + [']'] + (":" + port);
    CutFirst(host, ":" + port, ']');
    assert (":" + port)[1..] == port;
    assert ':' !in port && '[' !in port && ']' !in port;
  }

  /** A port that leaves the address unambiguous. */
  ghost predicate PlainPort(port: string) { forall c :: c in {':', '[', ']'} ==> c !in port }

  /** What was written for a plain host is read back by both readers of SRV targets: Split
      gives the host, and SplitHostPort host and port exactly when the port is plain. */
  lemma {:induction false} ReadBack(host: string, port: string)
    requires PlainHost(host)
    ensures JoinHostPort(host, port) == host + ":" + port
    ensures SplitHostPort(host + ":" + port) == if PlainPort(port) then Some((host, port)) else None
    ensures Split(host + ":" + port, ':')[0] == host
  {
    var s := host + ":" + port;
    assert s == host + [':'] + port;
    CutFirst(host, port, ':');
    SplitFirst(host, port, ':');
    assert s[0] == if host == "" then ':' else host[0];
    assert '[' !in host && ']' !in host;
    assert s[0] != '[' && '%' !in host;
    assert !PlainPort(port) ==> ':' in port || '[' in port || ']' in port;
    assert ('[' in s <==> '[' in port) && (']' in s <==> ']' in port);
  }
}
