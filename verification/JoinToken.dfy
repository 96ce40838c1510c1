/** The bootstrap token in a NodeProvisionNetConfig and the two refreshers that renew it.
  *
  * The local refresher runs inside requireNetConfig; the remote one runs kubeadm over SSH and
  * patches the status over SSH.  A token is good while its secret exists; times are seconds. */
module JoinToken {
  import opened Text

  const HOUR := 3600
  const LIFETIME := 24 * HOUR

  /** requireNetConfig renews a token older than this. */
  const MAX_AGE := 20 * HOUR

  predicate IsName(s: string) {
    forall c | c in s :: 'a' <= c <= 'z' || '0' <= c <= '9'
  }

  /** Six and sixteen letters and digits. */
  type TokenId = s: string | IsName(s) && |s| == 6 witness "aaaaaa"
  type TokenSecret = s: string | IsName(s) && |s| == 16 witness "aaaaaaaaaaaaaaaa"

  datatype Token = Token(id: TokenId, secret: TokenSecret)

  /** A bootstrap-token secret of kube-system, named after the token's ID. */
  datatype Bootstrap = Bootstrap(secret: TokenSecret, expires: int)

  /** A command printed for the remote refresher, and the stamp it will be patched with. */
  datatype Pending = Pending(cmd: string, created: int, stamp: Option<int>)

  /** A token made by the local refresher; its command is built after it. */
  datatype Made = Made(token: Token, created: int)

  datatype State = State(
    now: int,
    join: string, stamp: Option<int>,        // clusterJoinCommand, joinTokenRefreshedAt
    secrets: map<TokenId, Bootstrap>,
    remote: Option<Pending>,
    local: Option<Made>,                     // a local refresh between its create and its patch
    patched: Option<int>)                    // requireNetConfig between its patch and its re-read

  datatype Event =
    | RemoteCreate(cmd: string)              // kubeadm prints a command with the token it has made
    | RemoteStamp
    | RemoteApply(applied: bool)
    | LocalCreate(token: Token)
    | LocalPatch(url: string, hash: string, applied: bool, answered: bool)
    | LocalDone                              // requireNetConfig returns, or gives up
    | Clean(id: TokenId)                     // the cluster removes an expired secret
    | Crash
    | Wait(d: nat)

  predicate NeedsRefresh(s: State) {
    s.join == "" || s.stamp.None? || s.now - s.stamp.value > MAX_AGE
  }

  // ── The command ──────────────────────────────────────────────────────────

  function TrimPrefix(s: string, prefix: string): (r: string) {
    if prefix <= s then s[|prefix|..] else s
  }

  function Server(url: string): (s: string) {
    TrimPrefix(TrimPrefix(url, "https://"), "http://")
  }

  function JoinCommand(url: string, token: Token, hash: string): (cmd: string)
    ensures cmd != ""
  {
    var text := token.id + "." + token.secret;
    "kubeadm join " + Server(url) + " --token " + text + " --discovery-token-ca-cert-hash " + hash
  }

  /** The word after a flag. */
  function After(words: seq<string>, flag: string): (r: Option<string>) {
    if |words| < 2 then None
    else if words[0] == flag then Some(words[1])
    else After(words[1..], flag)
  }

  /** What kubeadm reads as the token of a command. */
  function ReadToken(cmd: string): (r: Option<Token>) {
    var word := After(Split(cmd, ' '), "--token");
    if word.None? then None
    else
      var parts := Split(word.value, '.');
      if |parts| == 2 && IsName(parts[0]) && |parts[0]| == 6 && IsName(parts[1]) && |parts[1]| == 16
      then Some(Token(parts[0], parts[1])) else None
  }

  /** The server's address and the hash are words, and the address is no flag. */
  predicate Plain(url: string, hash: string) {
    ' ' !in url && ' ' !in hash && Server(url) != "--token"
  }

  lemma ServerPlain(url: string, c: char)
    requires c !in url
    ensures c !in Server(url)
  {
  }

  lemma JoinCons(a: string, rest: seq<string>)
    requires rest != []
    ensures Join([a] + rest, ' ') == a + " " + Join(rest, ' ')
  {
    assert ([a] + rest)[1..] == rest;
  }

  lemma Assoc(x: string, a: string, b: string, c: string)
    ensures x + (a + b + c) == x + a + b + c
  {
  }

  /** A word between two spaces. */
  lemma Spaced(word: string, rest: string)
    ensures " " + (word + " " + rest) == " " + word + " " + rest
  {
  }

  /** The words of a command built locally. */
  function Words(url: string, token: Token, hash: string): (ws: seq<string>) {
    ["kubeadm", "join", Server(url), "--token"]
      + [token.id + "." + token.secret, "--discovery-token-ca-cert-hash", hash]
  }

  lemma CommandJoinsWords(url: string, token: Token, hash: string)
    ensures JoinCommand(url, token, hash) == Join(Words(url, token, hash), ' ')
  {
    WordsJoined(Server(url), token.id + "." + token.secret, hash);
  }

  lemma TailJoined(text: string, hash: string)
    ensures Join([text, "--discovery-token-ca-cert-hash", hash], ' ')
      == text + " --discovery-token-ca-cert-hash " + hash
  {
    var flag := "--discovery-token-ca-cert-hash";
    JoinCons(flag, [hash]);
    JoinCons(text, [flag, hash]);
    assert [flag] + [hash] == [flag, hash] && [text] + [flag, hash] == [text, flag, hash];
    FlagSpaced(flag, hash);
    assert text + " " + (flag + " " + hash) == text + (" " + (flag + " " + hash));
  }

  lemma HeadJoined(server: string, rest: seq<string>)
    requires rest != []
    ensures Join(["kubeadm", "join", server, "--token"] + rest, ' ')
      == "kubeadm join " + server + " --token " + Join(rest, ' ')
  {
    var four := ["--token"] + rest;
    var three := [server] + four;
    var two := ["join"] + three;
    JoinCons("--token", rest);
    JoinCons(server, four);
    JoinCons("join", three);
    JoinCons("kubeadm", two);
    assert ["kubeadm"] + two == ["kubeadm", "join", server, "--token"] + rest;
    FlagSpaced("--token", Join(rest, ' '));
    HeadText(server, Join(rest, ' '), Join(four, ' '));
  }

  lemma HeadText(server: string, rest: string, four: string)
    requires four == "--token" + " " + rest && " " + four == " --token " + rest
    ensures "kubeadm" + " " + ("join" + " " + (server + " " + four)) == "kubeadm join " + server + " --token " + rest
  {
    assert server + " " + four == server + (" " + four);
    assert "kubeadm" + " " + ("join" + " " + (server + " " + four)) == "kubeadm join " + (server + (" " + four));
    assert "kubeadm join " + (server + (" --token " + rest)) == "kubeadm join " + server + " --token " + rest;
  }

  lemma WordsJoined(server: string, text: string, hash: string)
    ensures Join(["kubeadm", "join", server, "--token"] + [text, "--discovery-token-ca-cert-hash", hash], ' ')
      == "kubeadm join " + server + " --token " + text + " --discovery-token-ca-cert-hash " + hash
  {
    HeadJoined(server, [text, "--discovery-token-ca-cert-hash", hash]);
    TailJoined(text, hash);
    Assoc("kubeadm join " + server + " --token ", text, " --discovery-token-ca-cert-hash ", hash);
  }

  lemma FlagSpaced(flag: string, rest: string)
    ensures flag == "--token" ==> " " + (flag + " " + rest) == " --token " + rest
    ensures flag == "--discovery-token-ca-cert-hash" ==>
      " " + (flag + " " + rest) == " --discovery-token-ca-cert-hash " + rest
  {
    Spaced(flag, rest);
  }

  /** The server is the URL without its scheme. */
  lemma ServerOfUrl(host: string)
    requires !("http" <= host)
    ensures Server("https://" + host) == Server("http://" + host) == Server(host) == host
  {
    assert ("https://" + host)[8..] == host && ("http://" + host)[7..] == host;
    assert "https://" <= host ==> "http" <= host;
    assert "http://" <= host ==> "http" <= host;
    assert ("http://" + host)[4] == ':' && "https://"[4] == 's';
  }

  /** A command built locally reads as seven words: the server without its scheme, the ID and the secret with a
    * dot between them, and the hash, each behind what announces it. */
  lemma JoinCommandWords(url: string, token: Token, hash: string)
    requires ' ' !in url && ' ' !in hash
    ensures Split(JoinCommand(url, token, hash), ' ') ==
      ["kubeadm", "join", Server(url), "--token"]
        + [token.id + "." + token.secret, "--discovery-token-ca-cert-hash", hash]
  {
    ServerPlain(url, ' ');
    assert ' ' !in token.id + "." + token.secret;
    CommandJoinsWords(url, token, hash);
    SplitJoin(Words(url, token, hash), ' ');
  }

  lemma AfterSkips(word: string, rest: seq<string>, flag: string)
    requires word != flag && rest != []
    ensures After([word] + rest, flag) == After(rest, flag)
  {
    assert ([word] + rest)[1..] == rest;
  }

  lemma SecondAfter(server: string, word: string, rest: seq<string>)
    requires server != "--token"
    ensures After(["kubeadm", "join", server, "--token"] + ([word] + rest), "--token") == Some(word)
  {
    var d := ["--token"] + ([word] + rest);
    var c := [server] + d;
    var b := ["join"] + c;
    AfterSkips(server, d, "--token");
    AfterSkips("join", c, "--token");
    AfterSkips("kubeadm", b, "--token");
    assert ["kubeadm", "join", server, "--token"] + ([word] + rest) == ["kubeadm"] + b;
  }

  /** So kubeadm reads from it the very token that was made. */
  lemma ReadsBack(url: string, token: Token, hash: string)
    requires Plain(url, hash)
    ensures ReadToken(JoinCommand(url, token, hash)) == Some(token)
  {
    var pair, rest := token.id + "." + token.secret, ["--discovery-token-ca-cert-hash", hash];
    JoinCommandWords(url, token, hash);
    assert [pair, "--discovery-token-ca-cert-hash", hash] == [pair] + rest;
    SecondAfter(Server(url), pair, rest);
    SplitFirst(token.id, token.secret, '.');
    SplitPlain(token.secret, '.');
    assert token.id + ['.'] + token.secret == pair;
  }

  // ── The machine ──────────────────────────────────────────────────────────

  /** Creating a secret whose name exists changes nothing. */
  function Created(secrets: map<TokenId, Bootstrap>, token: Token, now: int): map<TokenId, Bootstrap> {
    if token.id in secrets then secrets else secrets[token.id := Bootstrap(token.secret, now + LIFETIME)]
  }

  /** Until when the cluster accepts a token. */
  function Expiry(s: State, token: Token): (r: Option<int>) {
    if token.id in s.secrets && s.secrets[token.id].secret == token.secret then Some(s.secrets[token.id].expires)
    else None
  }

  function Next(s: State, e: Event): State {
    match e
    case RemoteCreate(cmd) =>
      var token := ReadToken(cmd);
      if token.None? || s.remote.Some? || token.value.id in s.secrets then s
      else s.(secrets := Created(s.secrets, token.value, s.now), remote := Some(Pending(cmd, s.now, None)))
    case RemoteStamp =>
      if s.remote.None? || s.remote.value.stamp.Some? then s
      else s.(remote := Some(s.remote.value.(stamp := Some(s.now))))
    case RemoteApply(applied) =>
      if s.remote.None? || s.remote.value.stamp.None? then s
      else if applied then s.(join := s.remote.value.cmd, stamp := s.remote.value.stamp, remote := None)
      else s.(remote := None)
    case LocalCreate(token) =>
      if !NeedsRefresh(s) || s.local.Some? then s
      else s.(secrets := Created(s.secrets, token, s.now), local := Some(Made(token, s.now)))
    case LocalPatch(url, hash, applied, answered) =>
      if s.local.None? then s
      else
        var token := s.local.value.token;
        var t := if applied then s.(join := JoinCommand(url, token, hash), stamp := Some(s.now)) else s;
        t.(local := None, patched := if applied && answered then Some(s.now) else None)
    case LocalDone => s.(local := None, patched := None)
    case Clean(id) =>
      if id in s.secrets && s.secrets[id].expires <= s.now then s.(secrets := s.secrets - {id}) else s
    case Crash => s.(remote := None, local := None, patched := None)
    case Wait(d) => s.(now := s.now + d)
  }

  function Run(s: State, es: seq<Event>): State
    decreases |es|
  {
    if es == [] then s else Run(Next(s, es[0]), es[1..])
  }

  /** How long things may take: from creating a token to stamping it, from stamping to the remote
    * patch, from the local patch to the re-read. */
  datatype Delays = Delays(stamp: nat, apply: nat, reread: nat)

  /** The local refresher draws no token ID that is in use and finds words for the server and the hash, and
    * nothing takes longer than `d` says. */
  predicate Prompt(s: State, e: Event, d: Delays) {
    match e
    case RemoteStamp => s.remote.Some? ==> s.now - s.remote.value.created <= d.stamp
    case RemoteApply(_) =>
      s.remote.Some? && s.remote.value.stamp.Some? ==> s.now - s.remote.value.stamp.value <= d.apply
    case LocalCreate(token) => token.id !in s.secrets
    case LocalPatch(url, hash, _, _) => Plain(url, hash) && (s.local.Some? ==> s.now - s.local.value.created <= d.stamp)
    case Wait(t) => s.patched.Some? ==> s.now + t - s.patched.value <= d.reread
    case _ => true
  }

  predicate AllPrompt(s: State, es: seq<Event>, d: Delays)
    decreases |es|
  {
    es == [] || (Prompt(s, es[0], d) && AllPrompt(Next(s, es[0]), es[1..], d))
  }

  /** A token is accepted up to `end` at least, or `end` is past. */
  predicate GoodUntil(s: State, token: Token, end: int) {
    end <= s.now || (Expiry(s, token).Some? && Expiry(s, token).value >= end)
  }

  /** The command's token was good for its lifetime when it was stamped, less the delay. */
  predicate Backed(s: State, cmd: string, from: int, d: Delays) {
    cmd != "" && Names(s, cmd, from + LIFETIME - d.stamp) && from <= s.now
  }

  /** The command names a token that is accepted so long. */
  predicate Names(s: State, cmd: string, end: int) {
    ReadToken(cmd).Some? && GoodUntil(s, ReadToken(cmd).value, end)
  }

  predicate Issued(s: State, token: Token, created: int) {
    created <= s.now && GoodUntil(s, token, created + LIFETIME)
  }

  ghost predicate Inv(s: State, d: Delays) {
    && (s.join != "" <==> s.stamp.Some?)
    && (s.stamp.Some? ==> Backed(s, s.join, s.stamp.value, d))
    && (s.local.Some? ==> Issued(s, s.local.value.token, s.local.value.created))
    && (s.remote.Some? ==>
          var p := s.remote.value;
          && p.cmd != "" && p.created <= s.now && Names(s, p.cmd, p.created + LIFETIME)
          && (p.stamp.Some? ==> Backed(s, p.cmd, p.stamp.value, d)))
    && (s.patched.Some? ==>
          && s.stamp.Some? && s.stamp.value >= s.patched.value - d.apply
          && s.patched.value <= s.now <= s.patched.value + d.reread)
  }

  /** A good token stays good: no secret is overwritten, and only expired ones are removed. */
  lemma GoodStays(s: State, e: Event, token: Token, end: int)
    requires GoodUntil(s, token, end)
    ensures GoodUntil(Next(s, e), token, end)
  {
  }

  lemma RemoteStays(s: State, e: Event, d: Delays)
    requires Inv(s, d) && s.remote.Some?
    ensures
      var t, p := Next(s, e), s.remote.value;
      && p.created <= t.now && Names(t, p.cmd, p.created + LIFETIME)
      && (p.stamp.Some? ==> Backed(t, p.cmd, p.stamp.value, d))
  {
    var p := s.remote.value;
    GoodStays(s, e, ReadToken(p.cmd).value, p.created + LIFETIME);
    if p.stamp.Some? {
      GoodStays(s, e, ReadToken(p.cmd).value, p.stamp.value + LIFETIME - d.stamp);
    }
  }

  /** What stands on tokens still stands after any step. */
  lemma BackingStays(s: State, e: Event, d: Delays)
    requires Inv(s, d)
    ensures
      var t := Next(s, e);
      && (s.stamp.Some? ==> Backed(t, s.join, s.stamp.value, d))
      && (s.local.Some? ==> Issued(t, s.local.value.token, s.local.value.created))
      && (s.remote.Some? ==>
            var p := s.remote.value;
            && p.created <= t.now && Names(t, p.cmd, p.created + LIFETIME)
            && (p.stamp.Some? ==> Backed(t, p.cmd, p.stamp.value, d)))
  {
    if s.stamp.Some? {
      GoodStays(s, e, ReadToken(s.join).value, s.stamp.value + LIFETIME - d.stamp);
    }
    if s.local.Some? {
      GoodStays(s, e, s.local.value.token, s.local.value.created + LIFETIME);
    }
    if s.remote.Some? {
      RemoteStays(s, e, d);
    }
  }

  /** The command is never empty: an empty one names no token. */
  lemma NoTokenInNothing()
    ensures ReadToken("") == None
  {
    assert Split("", ' ') == [""];
  }

  lemma KeepRemote(s: State, e: Event, d: Delays)
    requires Inv(s, d) && Prompt(s, e, d) && (e.RemoteCreate? || e.RemoteStamp? || e.RemoteApply?)
    ensures Inv(Next(s, e), d)
  {
    NoTokenInNothing();
    BackingStays(s, e, d);
  }

  lemma KeepLocal(s: State, e: Event, d: Delays)
    requires Inv(s, d) && Prompt(s, e, d) && (e.LocalCreate? || e.LocalPatch? || e.LocalDone?)
    ensures Inv(Next(s, e), d)
  {
    BackingStays(s, e, d);
    if e.LocalPatch? && s.local.Some? {
      ReadsBack(e.url, s.local.value.token, e.hash);
    }
  }

  lemma Keep(s: State, e: Event, d: Delays)
    requires Inv(s, d) && Prompt(s, e, d)
    ensures Inv(Next(s, e), d)
  {
    if e.RemoteCreate? || e.RemoteStamp? || e.RemoteApply? {
      KeepRemote(s, e, d);
    } else if e.LocalCreate? || e.LocalPatch? || e.LocalDone? {
      KeepLocal(s, e, d);
    } else {
      BackingStays(s, e, d);
    }
  }

  /** requireNetConfig may return what it reads now. */
  predicate Returns(s: State) {
    !NeedsRefresh(s) || s.patched.Some?
  }

  /** From every command requireNetConfig returns kubeadm reads a token, and the cluster accepts that token for
    * at least four more hours, less the delay between creating and stamping it. */
  lemma {:induction false} FourHoursLeft(s: State, es: seq<Event>, d: Delays)
    requires Inv(s, d) && AllPrompt(s, es, d) && d.apply + d.reread <= MAX_AGE && d.stamp < 4 * HOUR
    ensures
      var t := Run(s, es);
      Returns(t) ==>
        && ReadToken(t.join).Some? && Expiry(t, ReadToken(t.join).value).Some?
        && Expiry(t, ReadToken(t.join).value).value - t.now >= 4 * HOUR - d.stamp
    decreases |es|
  {
    if es != [] {
      Keep(s, es[0], d);
      FourHoursLeft(Next(s, es[0]), es[1..], d);
    }
  }

  /** The create of the token's secret takes "already exists" for success: the token kubeadm reads from the
    * command recorded then is one the cluster accepts exactly when the ID drawn was not in use, or in use for
    * the very same token; and one newly made is accepted for a day. */
  lemma CollisionIff(s: State, url: string, token: Token, hash: string)
    requires NeedsRefresh(s) && s.local.None? && Plain(url, hash)
    ensures
      var t := Run(s, [LocalCreate(token), LocalPatch(url, hash, true, true)]);
      && Returns(t) && ReadToken(t.join) == Some(token)
      && (Expiry(t, token).Some? <==> token.id !in s.secrets || s.secrets[token.id].secret == token.secret)
      && (token.id !in s.secrets ==> Expiry(t, token) == Some(s.now + 86400))
  {
    LocalRefreshEffect(s, url, token, hash);
    ReadsBack(url, token, hash);
  }

  /** A local refresh starts exactly when there is no command, no stamp, or one older than 20 hours. */
  lemma RefreshStartsIff(s: State, token: Token)
    requires s.local.None?
    ensures Next(s, LocalCreate(token)).local.Some? <==>
      s.join == "" || s.stamp.None? || s.now - s.stamp.value > 72000
  {
  }

  /** A refresh that has just gone through is enough for 20 hours, and no longer. */
  lemma RefreshLasts(s: State, url: string, token: Token, hash: string, d: nat)
    requires NeedsRefresh(s) && s.local.None?
    ensures
      var t := Run(s, [LocalCreate(token), LocalPatch(url, hash, true, true)]);
      NeedsRefresh(Next(t, Wait(d))) <==> d > 72000
  {
    LocalRefreshEffect(s, url, token, hash);
  }

  /** A patch that fails or whose answer is lost: the refresh is over without a return; refused, it leaves the
    * command as it was, and the token made for it in the cluster. */
  lemma FailedPatch(s: State, url: string, token: Token, hash: string, applied: bool)
    requires NeedsRefresh(s) && s.local.None? && s.patched.None?
    ensures
      var t := Run(s, [LocalCreate(token), LocalPatch(url, hash, applied, false)]);
      && t.local.None? && t.patched.None? && t.secrets == Created(s.secrets, token, s.now)
      && t.join == (if applied then JoinCommand(url, token, hash) else s.join)
      && t.stamp == (if applied then Some(s.now) else s.stamp)
  {
    var a, b := LocalCreate(token), LocalPatch(url, hash, applied, false);
    Unroll2(s, a, b);
    assert [a] + [b] == [a, b];
  }

  /** A refresh given up or lost in a crash is started again with another token, whose command is recorded. */
  lemma RefreshAgain(s: State, lost: Token, e: Event, url: string, token: Token, hash: string)
    requires NeedsRefresh(s) && s.local.None? && (e.Crash? || e.LocalDone?)
    ensures
      var t := Next(Next(s, LocalCreate(lost)), e);
      && t.local.None? && t.patched.None? && t.join == s.join && t.stamp == s.stamp
      && var u := Run(t, [LocalCreate(token), LocalPatch(url, hash, true, true)]);
         u.join == JoinCommand(url, token, hash) && u.stamp == Some(s.now)
  {
    LocalRefreshEffect(Next(Next(s, LocalCreate(lost)), e), url, token, hash);
  }

  /** A remote refresh lost in a crash leaves its token in the cluster and the command as it was; the next one
    * goes through. */
  lemma RemoteAgain(s: State, lost: string, cmd: string, first: Token, token: Token)
    requires s.remote.None? && ReadToken(lost) == Some(first) && first.id !in s.secrets
    requires ReadToken(cmd) == Some(token) && token.id !in s.secrets && token.id != first.id
    ensures
      var t := Next(Next(s, RemoteCreate(lost)), Crash);
      && t.remote.None? && t.join == s.join && t.secrets == Created(s.secrets, first, s.now)
      && Next(Next(Next(t, RemoteCreate(cmd)), RemoteStamp), RemoteApply(true)).join == cmd
  {
    RemoteCreated(s, lost, first);
    RemoteRefreshRuns(Next(Next(s, RemoteCreate(lost)), Crash), cmd, token);
  }

  /** A remote patch that is refused ends the refresh and leaves the command and its stamp as they were. */
  lemma RemoteRefused(s: State, p: Pending)
    requires s.remote == Some(p) && p.stamp.Some?
    ensures Next(s, RemoteApply(false)) == s.(remote := None)
  {
  }

  /** The cluster removes a secret exactly once it has expired. */
  lemma CleanIff(s: State, id: TokenId)
    ensures
      var t := Next(s, Clean(id));
      && (id in t.secrets <==> id in s.secrets && s.now < s.secrets[id].expires)
      && t.secrets - {id} == s.secrets - {id} && t.join == s.join
  {
  }

  /** A token is made of the digits, codes 48 to 57, and the small letters, codes 97 to 122. */
  lemma NameIff(s: string)
    ensures IsName(s) <==> forall c | c in s :: 48 <= c as int <= 57 || 97 <= c as int <= 122
  {
  }

  /** A remote refresh that goes through makes its token good for a day and records the printed command with the
    * time it was stamped. */
  lemma RemoteRefreshRuns(s: State, cmd: string, token: Token)
    requires s.remote.None? && ReadToken(cmd) == Some(token) && token.id !in s.secrets
    ensures
      var t := Next(Next(Next(s, RemoteCreate(cmd)), RemoteStamp), RemoteApply(true));
      && t.join == cmd && t.stamp == Some(s.now) && t.remote.None?
      && Expiry(t, token) == Some(s.now + 86400)
  {
    RemoteCreated(s, cmd, token);
    RemoteStored(s, cmd, token);
  }

  lemma RemoteCreated(s: State, cmd: string, token: Token)
    requires s.remote.None? && ReadToken(cmd) == Some(token) && token.id !in s.secrets
    ensures Next(s, RemoteCreate(cmd)) ==
      s.(secrets := Created(s.secrets, token, s.now), remote := Some(Pending(cmd, s.now, None)))
  {
  }

  lemma RemoteStored(s: State, cmd: string, token: Token)
    requires token.id !in s.secrets
    ensures
      var a := s.(secrets := Created(s.secrets, token, s.now), remote := Some(Pending(cmd, s.now, None)));
      var t := Next(Next(a, RemoteStamp), RemoteApply(true));
      && t == a.(join := cmd, stamp := Some(s.now), remote := None)
      && Expiry(t, token) == Some(s.now + 86400)
  {
  }

  lemma LocalRefreshEffect(s: State, url: string, token: Token, hash: string)
    requires NeedsRefresh(s) && s.local.None?
    ensures
      var t := Run(s, [LocalCreate(token), LocalPatch(url, hash, true, true)]);
      && t.secrets == Created(s.secrets, token, s.now)
      && t.join == JoinCommand(url, token, hash) && t.stamp == Some(s.now) && t.now == s.now
      && t.patched == Some(s.now) && Returns(t)
  {
    var a, b := LocalCreate(token), LocalPatch(url, hash, true, true);
    Unroll2(s, a, b);
    assert [a] + [b] == [a, b];
  }

  // ── requireNetConfig ─────────────────────────────────────────────────────

  /** What the local refresh meets, and how long it takes up to the stamp.  `created`: the create
    * succeeds or finds the secret there. */
  datatype Answer = Answer(created: bool, token: Token, info: Option<(string, string)>,
                           took: nat, applied: bool, answered: bool, reread: bool)

  /** The machine's steps for those answers; `info`: the server's URL and the certificate's hash. */
  function LocalEvents(a: Answer): (es: seq<Event>) {
    if !a.created then []
    else if a.info.None? then [LocalCreate(a.token)]
    else [LocalCreate(a.token), Wait(a.took), LocalPatch(a.info.value.0, a.info.value.1, a.applied, a.answered)]
  }

  predicate Refreshes(a: Answer) {
    a.created && a.info.Some? && a.applied && a.answered
  }

  class NetConfig {
    var now: int
    var join: string
    var stamp: Option<int>
    var secrets: map<TokenId, Bootstrap>
    ghost var local: Option<Made>
    ghost var patched: Option<int>

    ghost function View(): State
      reads this
    {
      State(now, join, stamp, secrets, None, local, patched)
    }

    constructor (now: int)
      ensures View() == State(now, "", None, map[], None, None, None)
    {
      this.now, join, stamp, secrets, local, patched := now, "", None, map[], None, None;
    }

    /** Exactly the steps its answers call for, with nobody else writing. */
    method RefreshLocalJoinToken(a: Answer) returns (ok: bool)
      requires NeedsRefresh(View()) && local.None? && patched.None?
      modifies this
      ensures View() == Run(old(View()), LocalEvents(a))
      ensures ok <==> Refreshes(a)
    {
      if !a.created {
        return false;
      }
      ghost var before := View();
      CreateSecret(a.token);
      Unroll1(before, LocalCreate(a.token));
      if a.info.None? {
        return false;
      }
      Unroll3(before, LocalCreate(a.token), Wait(a.took),
              LocalPatch(a.info.value.0, a.info.value.1, a.applied, a.answered));
      now := now + a.took;
      ok := PatchStatus(a.token, a.info.value.0, a.info.value.1, a.applied, a.answered);
    }

    /** An existing secret of that name is taken for the one to be made. */
    method CreateSecret(token: Token)
      requires NeedsRefresh(View()) && local.None?
      modifies this
      ensures View() == Next(old(View()), LocalCreate(token))
      ensures local.Some? && local.value.token == token && patched == old(patched)
    {
      if token.id !in secrets {
        secrets := secrets[token.id := Bootstrap(token.secret, now + LIFETIME)];
      }
      local := Some(Made(token, now));
    }

    method PatchStatus(token: Token, url: string, hash: string, applied: bool, answered: bool) returns (ok: bool)
      requires local.Some? && local.value.token == token
      modifies this
      ensures View() == Next(old(View()), LocalPatch(url, hash, applied, answered))
      ensures ok <==> applied && answered
    {
      if applied {
        join, stamp := JoinCommand(url, token, hash), Some(now);
      }
      local := None;
      ok := applied && answered;
      patched := if ok then Some(now) else None;
    }

    /** A token that is recent enough is returned as it is; otherwise the refresh runs, and its command
      * is returned exactly when refresh and re-read succeed. */
    method RequireNetConfig(a: Answer) returns (r: Option<string>)
      requires local.None? && patched.None?
      modifies this
      ensures
        var before := old(View());
        && View() == Next(Run(before, if NeedsRefresh(before) then LocalEvents(a) else []), LocalDone)
        && (r.Some? <==> !NeedsRefresh(before) || (Refreshes(a) && a.reread))
        && (r.Some? ==> r.value == join)
        && (before.join != "" && before.stamp.Some? && before.now - before.stamp.value <= 72000 ==>
              r == Some(before.join) && View() == before)
    {
      if join != "" && stamp.Some? && now - stamp.value <= MAX_AGE {
        return Some(join);
      }
      var ok := RefreshLocalJoinToken(a);
      local, patched := None, None;
      return if ok && a.reread then Some(join) else None;
    }
  }

  lemma Unroll1(s: State, a: Event)
    ensures Run(s, [a]) == Next(s, a)
  {
    assert [a][1..] == [];
  }

  lemma Unroll2(s: State, a: Event, b: Event)
    ensures Run(s, [a] + [b]) == Next(Next(s, a), b)
  {
    assert ([a] + [b])[1..] == [b];
    Unroll1(Next(s, a), b);
  }

  lemma Unroll3(s: State, a: Event, b: Event, c: Event)
    ensures Run(s, [a, b, c]) == Next(Next(Next(s, a), b), c)
  {
    assert [a, b, c][1..] == [b] + [c];
    Unroll2(Next(s, a), b, c);
  }
}
