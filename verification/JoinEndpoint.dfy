/** Reading the API endpoint back from a join command: the route that a node provisioned from it is given to
  * the API server. */
module JoinEndpoint {
  import opened Text
  import opened IPv4
  import opened Dotted
  import opened JoinToken

  /** The word after the first "join" that is not the last word. */
  function Endpoint(words: seq<string>): (r: Option<string>) {
    if |words| < 2 then None
    else if words[0] == "join" then Some(words[1])
    else Endpoint(words[1..])
  }

  /** net.SplitHostPort for hosts without brackets. */
  function Host(endpoint: string): (r: Option<string>) {
    var parts := Split(endpoint, ':');
    if |parts| == 2 && '[' !in endpoint && ']' !in endpoint then Some(parts[0]) else None
  }

  /** KubernetesAPIAllowedIP; None: an error. */
  function AllowedIP(joinCommand: string): (r: Option<string>) {
    var endpoint := Endpoint(Fields(joinCommand));
    if endpoint.None? then None
    else
      var host := Host(endpoint.value);
      if host.None? then None
      else
        var ip := Parse(host.value);
        if ip.None? then None else Some(Format(ip.value) + "/32")
  }

  method KubernetesAPIAllowedIP(joinCommand: string) returns (r: Option<string>)
    ensures r == AllowedIP(joinCommand)
  {
    var fields := Fields(joinCommand);
    var i := 0;
    while i + 1 < |fields|
      invariant i <= |fields|
      invariant Endpoint(fields) == Endpoint(fields[i..])
    {
      if fields[i] == "join" {
        var host := Host(fields[i + 1]);
        if host.None? {
          return None;
        }
        var ip := Parse(host.value);
        return if ip.None? then None else Some(Format(ip.value) + "/32");
      }
      assert fields[i..][1..] == fields[i + 1..];
      i := i + 1;
    }
    return None;
  }

  predicate HostText(s: string) {
    Printable(s) && ':' !in s && '[' !in s && ']' !in s
  }

  lemma HostOf(host: string, port: string)
    requires HostText(host) && HostText(port)
    ensures Host(host + ":" + port) == Some(host)
  {
    SplitFirst(host, port, ':');
    SplitPlain(port, ':');
    assert host + [':'] + port == host + ":" + port;
  }

  /** Without a "join" before the last word there is no endpoint; otherwise it is the word after the first one. */
  lemma {:induction false} FirstJoin(before: seq<string>, server: string, rest: seq<string>)
    requires "join" !in before
    ensures Endpoint(before) == None && Endpoint(before + ["join"]) == None
    ensures Endpoint(before + ["join", server] + rest) == Some(server)
    decreases |before|
  {
    var words := before + ["join", server] + rest;
    if before == [] {
      assert words[0] == "join" && words[1] == server;
    } else {
      FirstJoin(before[1..], server, rest);
      assert words[1..] == before[1..] + ["join", server] + rest;
      assert (before + ["join"])[1..] == before[1..] + ["join"];
    }
  }

  lemma EndpointOf(server: string, rest: seq<string>)
    ensures Endpoint(["kubeadm", "join", server, "--token"] + rest) == Some(server)
  {
    FirstJoin(["kubeadm"], server, ["--token"] + rest);
    assert ["kubeadm"] + ["join", server] + (["--token"] + rest) == ["kubeadm", "join", server, "--token"] + rest;
  }

  lemma CommandFields(url: string, token: Token, hash: string)
    requires Printable(Server(url)) && Printable(hash)
    ensures Fields(JoinCommand(url, token, hash)) ==
      ["kubeadm", "join", Server(url), "--token"]
        + [token.id + "." + token.secret, "--discovery-token-ca-cert-hash", hash]
  {
    CommandJoinsWords(url, token, hash);
    PrintableWords(url, token, hash);
    FieldsOfJoined(Words(url, token, hash), ' ');
  }

  /** A command built locally for a server at host and port: the provisioners can read a route from it exactly
    * when the host is an address, and then it is that address; a host name makes every launch fail. */
  lemma LocalCommandRoute(url: string, token: Token, hash: string, host: string, port: string)
    requires HostText(host) && HostText(port) && Printable(hash)
    requires Server(url) == host + ":" + port
    ensures AllowedIP(JoinCommand(url, token, hash)) == if Parse(host).Some? then Some(host + "/32") else None
  {
    CommandFields(url, token, hash);
    EndpointOf(Server(url), [token.id + "." + token.secret, "--discovery-token-ca-cert-hash", hash]);
    HostOf(host, port);
    if Parse(host).Some? {
      FormatParse(host);
    }
  }

  lemma PrintableWords(url: string, token: Token, hash: string)
    requires Printable(Server(url)) && Printable(hash)
    ensures forall w | w in Words(url, token, hash) :: Printable(w)
  {
    PrintableToken(token);
  }

  lemma PrintableToken(token: Token)
    ensures Printable(token.id + "." + token.secret)
  {
  }
}
