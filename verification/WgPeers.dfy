/** Adding and removing our own peer blocks in wg0.conf. */
module WgPeers {
  import opened Text
  import opened WgConf

  // ── What the appender writes ─────────────────────────────────────────────

  function PeerBody(key: string, ip: string): (ls: Lines) {
    ["PublicKey = " + key, "AllowedIPs = " + ip + "/32", "PersistentKeepalive = 25"]
  }

  function Append(conf: Lines, key: string, ip: string): (r: Lines) {
    conf + ["", "[Peer]"] + PeerBody(key, ip)
  }

  function OurBlock(key: string, ip: string, closed: bool): (c: Chunk) {
    Block("[Peer]", PeerBody(key, ip) + if closed then [""] else [])
  }

  /** grep -qF 'PublicKey = KEY' */
  predicate Greps(conf: Lines, key: string) {
    exists line | line in conf :: Contains(line, "PublicKey = " + key)
  }

  /** Step A then step B of the persist script.  A missing file counts as an empty one. */
  function Persist(conf: Lines, key: string, ip: string): (r: Lines) {
    var a := Filter(StaleIp(ip, key), conf);
    if Greps(a, key) then a else Append(a, key, ip)
  }

  /** An open last block is closed by the appender's leading blank line. */
  function CloseLast(cs: seq<Chunk>): (r: seq<Chunk>) {
    if cs == [] then [Plain("")]
    else if |cs| == 1 && Open(cs[0]) then [cs[0].(body := cs[0].body + [""])]
    else [cs[0]] + CloseLast(cs[1..])
  }

  // ── Keys and addresses ───────────────────────────────────────────────────

  /** A base64 key of 32 bytes. */
  predicate ValidKey(key: string) {
    |key| == 44 && forall c | c in key :: c != ' ' && c != '.'
  }

  /** Dotted decimal. */
  predicate ValidIp(ip: string) {
    '.' in ip && forall c | c in ip :: c == '.' || '0' <= c <= '9'
  }

  /** A key in another key's line would have to reach over the space before it. */
  lemma KeyAligned(owner: string, key: string, i: nat)
    requires ValidKey(owner) && ValidKey(key)
    requires OccursAt("PublicKey = " + owner, key, i)
    ensures i == 12 && owner == key
  {
    var line := "PublicKey = " + owner;
    assert line[11] == ' ';
    OutsideOccurrence(line, key, i, 11);
    assert line[12..56] == owner;
  }

  lemma PrefixAligned(owner: string, key: string, i: nat)
    requires ValidKey(owner) && ValidKey(key)
    requires OccursAt("PublicKey = " + owner, "PublicKey = " + key, i)
    ensures owner == key
  {
    var line := "PublicKey = " + owner;
    assert i == 0 && line[0..56] == line;
    assert line[12..] == owner && ("PublicKey = " + key)[12..] == key;
  }

  lemma KeyLineIff(owner: string, key: string)
    requires ValidKey(owner) && ValidKey(key)
    ensures MentionsKey("PublicKey = " + owner, key) <==> owner == key
    ensures Contains("PublicKey = " + owner, "PublicKey = " + key) <==> owner == key
  {
    var line := "PublicKey = " + owner;
    assert line == [] + "PublicKey" + (" = " + owner);
    ContainsAppended([], "PublicKey", " = " + owner);
    assert line == "PublicKey = " + owner + [];
    ContainsAppended("PublicKey = ", owner, []);
    ContainsSelf(line);
    if i :| 0 <= i <= |line| && OccursAt(line, key, i) {
      KeyAligned(owner, key, i);
    }
    if i :| 0 <= i <= |line| && OccursAt(line, "PublicKey = " + key, i) {
      PrefixAligned(owner, key, i);
    }
  }

  lemma AllowedLineIff(owner: string, ip: string)
    requires ValidIp(owner) && ValidIp(ip)
    ensures MentionsIp("AllowedIPs = " + owner + "/32", ip) <==> EndsWith(owner, ip)
  {
    var line := "AllowedIPs = " + owner + "/32";
    var needle := ip + "/32";
    assert line == [] + "AllowedIPs" + (" = " + owner + "/32");
    ContainsAppended([], "AllowedIPs", " = " + owner + "/32");
    if EndsWith(owner, ip) {
      var front := "AllowedIPs = " + owner[..|owner| - |ip|];
      assert line == front + needle + [];
      ContainsAppended(front, needle, []);
    }
    if i :| 0 <= i <= |line| && OccursAt(line, needle, i) {
      SlashAligned(owner, ip, i);
    }
  }

  lemma SlashAt(owner: string, ip: string, i: nat)
    requires ValidIp(owner) && ValidIp(ip)
    requires OccursAt("AllowedIPs = " + owner + "/32", ip + "/32", i)
    ensures i + |ip| == 13 + |owner|
    ensures OccursAt("AllowedIPs = " + owner + "/32", ip, i)
  {
    var line := "AllowedIPs = " + owner + "/32";
    assert line[i..i + |ip| + 3] == ip + "/32";
    assert line[i..i + |ip|] == line[i..i + |ip| + 3][..|ip|] == ip;
    assert line[i + |ip|] == line[i..i + |ip| + 3][|ip|] == '/';
    assert forall j | 13 <= j < 13 + |owner| :: line[j] == owner[j - 13] && line[j] in owner;
  }

  lemma SlashAligned(owner: string, ip: string, i: nat)
    requires ValidIp(owner) && ValidIp(ip)
    requires OccursAt("AllowedIPs = " + owner + "/32", ip + "/32", i)
    ensures EndsWith(owner, ip)
  {
    var line := "AllowedIPs = " + owner + "/32";
    SlashAt(owner, ip, i);
    assert line[12] == ' ';
    OutsideOccurrence(line, ip, i, 12);
    assert ip == line[i..13 + |owner|] == owner[|owner| - |ip|..];
  }

  /** Our block mentions exactly its own key. */
  lemma OurKeyIff(owner: string, ip: string, closed: bool, key: string)
    requires ValidKey(owner) && ValidKey(key) && ValidIp(ip)
    ensures HasKey(OurBlock(owner, ip, closed).body, key) <==> owner == key
  {
    var body := OurBlock(owner, ip, closed).body;
    KeyLineIff(owner, key);
    assert 'b' in "PublicKey";
    assert "PublicKey"[2] == 'b';
    MissingChar(body[1], "PublicKey", 'b');
    MissingChar(body[2], "PublicKey", 'b');
    MissingChar("", "PublicKey", 'b');
    assert body[0] == "PublicKey = " + owner && body[0] in body;
    assert forall line | line in body :: line in [body[0], body[1], body[2], ""];
  }

  /** Our block claims exactly the addresses its own address ends with. */
  lemma OurIpIff(owner: string, own: string, closed: bool, ip: string)
    requires ValidKey(owner) && ValidIp(own) && ValidIp(ip)
    ensures HasIp(OurBlock(owner, own, closed).body, ip) <==> EndsWith(own, ip)
  {
    var body := OurBlock(owner, own, closed).body;
    AllowedLineIff(own, ip);
    assert '.' in ip + "/32";
    MissingChar(body[0], ip + "/32", '.');
    MissingChar(body[2], ip + "/32", '.');
    MissingChar("", ip + "/32", '.');
    assert body[1] == "AllowedIPs = " + own + "/32" && body[1] in body;
    assert forall line | line in body :: line in [body[0], body[1], body[2], ""];
  }

  // ── Appending ────────────────────────────────────────────────────────────

  lemma PeerBodyLines(key: string, ip: string)
    ensures forall i | 0 <= i < 3 :: !Ends(PeerBody(key, ip)[i]) && !IsPeer(PeerBody(key, ip)[i])
    ensures IsPeer("[Peer]") && IsBlank("") && !IsPeer("")
  {
    var body := PeerBody(key, ip);
    assert body[0][0] == 'P' && body[1][0] == 'A' && body[2][0] == 'P';
    assert forall i | 0 <= i < 3 :: body[i][0] in body[i];
    assert "[Peer]"[0] == '[';
  }

  lemma ParseOurs(key: string, ip: string)
    ensures Parse(["[Peer]"] + PeerBody(key, ip)) == [OurBlock(key, ip, false)]
    ensures Clean(["[Peer]"] + PeerBody(key, ip), false)
  {
    PeerBodyLines(key, ip);
    assert PeerBody(key, ip) + [] == PeerBody(key, ip);
    ParseBlock("[Peer]", PeerBody(key, ip), []);
  }

  lemma {:induction false} ChunksAppend(conf: Lines, block: Option<Chunk>, key: string, ip: string)
    requires block.Some? ==> block.value.Block? && Open(block.value)
    requires Clean(conf, block.Some?)
    ensures Chunks(Append(conf, key, ip), block) == CloseLast(Chunks(conf, block)) + [OurBlock(key, ip, false)]
    ensures Clean(Append(conf, key, ip), block.Some?)
    decreases |conf|
  {
    var ours := ["[Peer]"] + PeerBody(key, ip);
    ParseOurs(key, ip);
    if conf == [] {
      assert IsBlank("");
      assert Append(conf, key, ip)[0] == "" && Append(conf, key, ip)[1..] == ours;
    } else {
      var line, rest := conf[0], conf[1..];
      assert Append(conf, key, ip)[0] == line && Append(conf, key, ip)[1..] == Append(rest, key, ip);
      if IsPeer(line) {
        ChunksAppend(rest, Some(Block(line, [])), key, ip);
      } else if block.None? {
        ChunksAppend(rest, None, key, ip);
      } else {
        var b := block.value.(body := block.value.body + [line]);
        ChunksAppend(rest, if Ends(line) then None else Some(b), key, ip);
      }
    }
  }

  lemma BlankMentionsNothing(rule: Rule, body: Lines)
    ensures Discards(rule, body + [""]) == Discards(rule, body)
  {
    MissingChar("", "PublicKey", "PublicKey"[0]);
    MissingChar("", "AllowedIPs", "AllowedIPs"[0]);
    assert forall line | line in body + [""] :: line in body || line == "";
  }

  lemma {:induction false} KeepCloseLast(rule: Rule, cs: seq<Chunk>)
    requires forall c | c in cs :: Kept(rule, c)
    ensures Keep(rule, CloseLast(cs)) == CloseLast(cs)
    ensures forall c | c in CloseLast(cs) :: Kept(rule, c)
    ensures Flatten(CloseLast(cs)) == Flatten(cs) + [""]
    decreases |cs|
  {
    if cs == [] {
    } else if |cs| == 1 && Open(cs[0]) {
      assert cs[0] in cs;
      BlankMentionsNothing(rule, cs[0].body);
      assert CloseLast(cs)[1..] == [] && cs[1..] == [];
      assert Flatten(CloseLast(cs)) == ChunkLines(CloseLast(cs)[0]);
    } else {
      var rest := CloseLast(cs[1..]);
      KeepCloseLast(rule, cs[1..]);
      assert CloseLast(cs) == [cs[0]] + rest && ([cs[0]] + rest)[1..] == rest;
      assert cs[0] in cs;
      FlattenCons(cs[0], rest);
      assert Flatten(cs) == ChunkLines(cs[0]) + Flatten(cs[1..]);
    }
  }

  lemma {:induction false} KeepAppend(rule: Rule, cs: seq<Chunk>, c: Chunk)
    ensures Keep(rule, cs + [c]) == Keep(rule, cs) + (if Kept(rule, c) then [c] else [])
    decreases |cs|
  {
    if cs != [] {
      assert (cs + [c])[1..] == cs[1..] + [c];
      KeepAppend(rule, cs[1..], c);
    }
  }

  ghost predicate AllKept(rule: Rule, conf: Lines) {
    forall c | c in Parse(conf) :: Kept(rule, c)
  }

  /** Appending our block and stripping our key leaves the original lines and one blank line. */
  lemma StripAfterAppend(conf: Lines, key: string, ip: string)
    requires Clean(conf, false) && ValidKey(key) && ValidIp(ip)
    requires AllKept(ByKey(key), conf)
    ensures Filter(ByKey(key), Append(conf, key, ip)) == conf + [""]
  {
    var rule := ByKey(key);
    ChunksAppend(conf, None, key, ip);
    FilterExact(rule, Append(conf, key, ip));
    KeepAppend(rule, CloseLast(Parse(conf)), OurBlock(key, ip, false));
    KeepCloseLast(rule, Parse(conf));
    OurKeyIff(key, ip, false, key);
    FlattenParse(conf);
    assert Keep(rule, CloseLast(Parse(conf))) + [] == CloseLast(Parse(conf));
  }

  // ── Persisting ───────────────────────────────────────────────────────────

  /** Cutting the persisted conf: the kept pieces, and our block after them when it was appended. */
  lemma ParsePersist(conf: Lines, key: string, ip: string)
    requires Clean(conf, false)
    ensures Clean(Persist(conf, key, ip), false)
    ensures
      var rule := StaleIp(ip, key);
      Parse(Persist(conf, key, ip)) ==
        if Greps(Filter(rule, conf), key) then Keep(rule, Parse(conf))
        else CloseLast(Keep(rule, Parse(conf))) + [OurBlock(key, ip, false)]
  {
    FilterStable(StaleIp(ip, key), conf);
    ChunksAppend(Filter(StaleIp(ip, key), conf), None, key, ip);
  }

  lemma {:induction false} CloseLastMembers(cs: seq<Chunk>, c: Chunk)
    ensures c in CloseLast(cs) ==>
      c in cs || c == Plain("") || (exists d | d in cs :: Open(d) && c == d.(body := d.body + [""]))
    ensures c in cs ==> c in CloseLast(cs) || (Open(c) && c.(body := c.body + [""]) in CloseLast(cs))
    decreases |cs|
  {
    if |cs| > 0 {
      if |cs| == 1 && Open(cs[0]) {
        assert cs[0] in cs;
      } else {
        CloseLastMembers(cs[1..], c);
      }
    }
  }

  lemma CloseLastKept(rule: Rule, cs: seq<Chunk>)
    requires forall c | c in cs :: Kept(rule, c)
    ensures forall c | c in CloseLast(cs) :: Kept(rule, c)
  {
    KeepCloseLast(rule, cs);
  }

  /** Afterwards no block claims our address under another key. */
  lemma PersistEvictsStale(conf: Lines, key: string, ip: string, c: Chunk)
    requires Clean(conf, false) && ValidKey(key) && ValidIp(ip)
    requires c in Parse(Persist(conf, key, ip)) && c.Block? && HasIp(c.body, ip)
    ensures HasKey(c.body, key)
  {
    var rule := StaleIp(ip, key);
    ParsePersist(conf, key, ip);
    ChunksValid(conf, None);
    KeepValid(rule, Parse(conf));
    CloseLastKept(rule, Keep(rule, Parse(conf)));
    if c == OurBlock(key, ip, false) {
      OurKeyIff(key, ip, false, key);
    } else {
      assert Kept(rule, c);
    }
  }

  lemma {:induction false} InFlatten(cs: seq<Chunk>, c: Chunk, line: string)
    requires c in cs && line in ChunkLines(c)
    ensures line in Flatten(cs)
    decreases |cs|
  {
    if c != cs[0] {
      InFlatten(cs[1..], c, line);
    }
  }

  lemma OurKeyLine(cs: seq<Chunk>, key: string, ip: string, closed: bool)
    requires OurBlock(key, ip, closed) in cs
    ensures Greps(Flatten(cs), key)
  {
    var line, block := "PublicKey = " + key, OurBlock(key, ip, closed);
    assert ChunkLines(block)[1] == PeerBody(key, ip)[0] == line;
    InFlatten(cs, block, line);
    ContainsSelf(line);
  }

  /** Persisting the same peer again changes nothing. */
  lemma PersistIdempotent(conf: Lines, key: string, ip: string)
    requires Clean(conf, false) && ValidKey(key) && ValidIp(ip)
    ensures Persist(Persist(conf, key, ip), key, ip) == Persist(conf, key, ip)
  {
    var rule := StaleIp(ip, key);
    var a, once := Filter(rule, conf), Persist(conf, key, ip);
    FilterStable(rule, conf);
    ParsePersist(conf, key, ip);
    if !Greps(a, key) {
      forall c | c in Parse(once)
        ensures Kept(rule, c)
      {
        if c.Block? && HasIp(c.body, ip) {
          PersistEvictsStale(conf, key, ip, c);
        }
      }
      UntouchedIff(rule, once);
      FlattenParse(once);
      OurKeyLine(Parse(once), key, ip, false);
    }
  }

  /** A key no line of the conf shows: persisting it adds exactly our block at the end and takes
    * out exactly the blocks that claim our address. */
  lemma PersistFreshKey(conf: Lines, key: string, ip: string)
    requires Clean(conf, false) && !Greps(Filter(StaleIp(ip, key), conf), key)
    ensures Persist(conf, key, ip) ==
      Flatten(Keep(StaleIp(ip, key), Parse(conf)))
        + ["", "[Peer]", "PublicKey = " + key, "AllowedIPs = " + ip + "/32", "PersistentKeepalive = 25"]
  {
    FilterExact(StaleIp(ip, key), conf);
  }

  // ── What other peers keep ────────────────────────────────────────────────

  /** The conf holds the block the appender writes for this key and address. */
  ghost predicate HasOurs(conf: Lines, key: string, ip: string) {
    OurBlock(key, ip, false) in Parse(conf) || OurBlock(key, ip, true) in Parse(conf)
  }

  lemma HasOursKept(rule: Rule, conf: Lines, key: string, ip: string)
    requires Clean(conf, false) && HasOurs(conf, key, ip)
    requires !Discards(rule, OurBlock(key, ip, false).body) && !Discards(rule, OurBlock(key, ip, true).body)
    ensures HasOurs(Filter(rule, conf), key, ip)
  {
    FilterStable(rule, conf);
    ChunksValid(conf, None);
    KeepValid(rule, Parse(conf));
  }

  /** Whoever wrote a block and however it is laid out: stripping a key removes it exactly when one of
    * its lines shows the key as its public key, and adds nothing. */
  lemma StripKeepsIff(conf: Lines, key: string, c: Chunk)
    requires Clean(conf, false)
    ensures c in Parse(Filter(ByKey(key), conf)) <==> c in Parse(conf) && (c.Block? ==> !HasKey(c.body, key))
  {
    FilterStable(ByKey(key), conf);
    ChunksValid(conf, None);
    KeepValid(ByKey(key), Parse(conf));
  }

  /** Stripping a key leaves every other key's block. */
  lemma StripKeepsOthers(conf: Lines, key: string, other: string, ip: string)
    requires Clean(conf, false) && ValidKey(key) && ValidKey(other) && ValidIp(ip)
    requires HasOurs(conf, other, ip) && other != key
    ensures HasOurs(Filter(ByKey(key), conf), other, ip)
  {
    OurKeyIff(other, ip, false, key);
    OurKeyIff(other, ip, true, key);
    HasOursKept(ByKey(key), conf, other, ip);
  }

  /** Stripping a key leaves no block of that key. */
  lemma StripRemovesKey(conf: Lines, key: string, ip: string)
    requires Clean(conf, false) && ValidKey(key) && ValidIp(ip)
    ensures !HasOurs(Filter(ByKey(key), conf), key, ip)
  {
    FilterStable(ByKey(key), conf);
    ChunksValid(conf, None);
    KeepValid(ByKey(key), Parse(conf));
    OurKeyIff(key, ip, false, key);
    OurKeyIff(key, ip, true, key);
  }

  lemma CloseLastOurs(cs: seq<Chunk>, key: string, ip: string)
    requires OurBlock(key, ip, false) in cs || OurBlock(key, ip, true) in cs
    ensures OurBlock(key, ip, false) in CloseLast(cs) || OurBlock(key, ip, true) in CloseLast(cs)
  {
    var a, b := OurBlock(key, ip, false), OurBlock(key, ip, true);
    assert a.(body := a.body + [""]) == b;
    CloseLastMembers(cs, a);
    CloseLastMembers(cs, b);
    assert IsBlank("") && b.body[3] == "";
    assert !Open(b);
  }

  lemma PersistKeepsKept(conf: Lines, key: string, ip: string, c: Chunk)
    requires Clean(conf, false) && c in Parse(conf) && Kept(StaleIp(ip, key), c)
    ensures c in Parse(Persist(conf, key, ip)) || (Open(c) && Closed(c) in Parse(Persist(conf, key, ip)))
  {
    var rule := StaleIp(ip, key);
    ParsePersist(conf, key, ip);
    ChunksValid(conf, None);
    KeepValid(rule, Parse(conf));
    CloseLastMembers(Keep(rule, Parse(conf)), c);
  }

  function Closed(c: Chunk): Chunk
    requires c.Block?
  {
    c.(body := c.body + [""])
  }

  /** Whoever wrote a block and however it is laid out: persisting a peer removes it exactly when it
    * claims our address and does not show our key.  A kept block without an end gets one when ours is
    * appended. */
  lemma PersistKeepsIff(conf: Lines, key: string, ip: string, c: Chunk)
    requires Clean(conf, false) && ValidKey(key) && ValidIp(ip) && c in Parse(conf) && c.Block?
    ensures c in Parse(Persist(conf, key, ip)) || Closed(c) in Parse(Persist(conf, key, ip)) <==>
      !(HasIp(c.body, ip) && !HasKey(c.body, key))
  {
    if HasIp(c.body, ip) && !HasKey(c.body, key) {
      BlankMentionsNothing(StaleIp(ip, key), c.body);
      BlankMentionsNothing(ByKey(key), c.body);
      forall d | d in Parse(Persist(conf, key, ip))
        ensures d != c && d != Closed(c)
      {
        if d.Block? && HasIp(d.body, ip) {
          PersistEvictsStale(conf, key, ip, d);
        }
      }
    } else {
      PersistKeepsKept(conf, key, ip, c);
    }
  }

  /** Among whatever other lines, the block claims this address and no other. */
  ghost predicate Claims(body: Lines, own: string) {
    && "AllowedIPs = " + own + "/32" in body
    && forall line | line in body && Contains(line, "AllowedIPs") :: line == "AllowedIPs = " + own + "/32"
  }

  /** The script looks for our address as a substring: however another block is laid out, persisting a
    * peer leaves it exactly when it shows our key or its address does not end with ours. */
  lemma PersistKeepsClaimIff(conf: Lines, key: string, ip: string, c: Chunk, own: string)
    requires Clean(conf, false) && ValidKey(key) && ValidIp(ip) && ValidIp(own)
    requires c in Parse(conf) && c.Block? && Claims(c.body, own)
    ensures c in Parse(Persist(conf, key, ip)) || Closed(c) in Parse(Persist(conf, key, ip)) <==>
      HasKey(c.body, key) || !EndsWith(own, ip)
  {
    AllowedLineIff(own, ip);
    PersistKeepsIff(conf, key, ip, c);
  }

  /** Whatever else stands on the line before and after it: a block with our address on an allowed-ips line, and
    * our key nowhere, is gone when we have been persisted. */
  lemma StaleLineEvicts(conf: Lines, key: string, ip: string, c: Chunk, line: string, pre: string, post: string)
    requires Clean(conf, false) && ValidKey(key) && ValidIp(ip) && c in Parse(conf) && c.Block?
    requires line in c.body && "AllowedIPs = " <= line && line == pre + (ip + "/32") + post
    requires forall l | l in c.body :: !Contains(l, key)
    ensures c !in Parse(Persist(conf, key, ip)) && Closed(c) !in Parse(Persist(conf, key, ip))
  {
    ContainsAppended(pre, ip + "/32", post);
    assert line == "" + "AllowedIPs" + line[10..];
    ContainsAppended("", "AllowedIPs", line[10..]);
    PersistKeepsIff(conf, key, ip, c);
  }

  /** And a block with a key on its public-key line is gone when that key has been stripped. */
  lemma KeyLineStripped(conf: Lines, key: string, c: Chunk, line: string, pre: string, post: string)
    requires Clean(conf, false) && c in Parse(conf) && c.Block?
    requires line in c.body && "PublicKey" <= line && line == pre + key + post
    ensures c !in Parse(Filter(ByKey(key), conf))
  {
    ContainsAppended(pre, key, post);
    assert line == "" + "PublicKey" + line[9..];
    ContainsAppended("", "PublicKey", line[9..]);
    StripKeepsIff(conf, key, c);
  }

  /** The same for a block as the appender writes it. */
  lemma PersistKeepsOtherIff(conf: Lines, key: string, ip: string, other: string, own: string)
    requires Clean(conf, false) && ValidKey(key) && ValidKey(other) && ValidIp(ip) && ValidIp(own)
    requires HasOurs(conf, other, own) && other != key
    ensures HasOurs(Persist(conf, key, ip), other, own) <==> !EndsWith(own, ip)
  {
    var rule := StaleIp(ip, key);
    OurIpIff(other, own, false, ip);
    OurIpIff(other, own, true, ip);
    OurKeyIff(other, own, false, key);
    OurKeyIff(other, own, true, key);
    ParsePersist(conf, key, ip);
    FilterStable(rule, conf);
    if !EndsWith(own, ip) {
      HasOursKept(rule, conf, other, own);
      CloseLastOurs(Parse(Filter(rule, conf)), other, own);
    } else {
      forall c | c in Parse(Persist(conf, key, ip))
        ensures c != OurBlock(other, own, false) && c != OurBlock(other, own, true)
      {
        if c.Block? && HasIp(c.body, ip) {
          PersistEvictsStale(conf, key, ip, c);
        }
      }
    }
  }

  /** The conf holds our block afterwards exactly when it did before, or no line showed our key:
    * a key already present with another address is left as it is. */
  lemma PersistHoldsIff(conf: Lines, key: string, ip: string)
    requires Clean(conf, false) && ValidKey(key) && ValidIp(ip)
    ensures HasOurs(Persist(conf, key, ip), key, ip) <==>
      HasOurs(conf, key, ip) || !Greps(Filter(StaleIp(ip, key), conf), key)
  {
    var rule := StaleIp(ip, key);
    OurKeyIff(key, ip, false, key);
    OurKeyIff(key, ip, true, key);
    ParsePersist(conf, key, ip);
    FilterStable(rule, conf);
    ChunksValid(conf, None);
    KeepValid(rule, Parse(conf));
    if HasOurs(conf, key, ip) {
      CloseLastOurs(Parse(Filter(rule, conf)), key, ip);
    }
  }

  lemma {:induction false} KeepLines(rule: Rule, cs: seq<Chunk>)
    ensures forall line | line in Flatten(Keep(rule, cs)) :: line in Flatten(cs)
    decreases |cs|
  {
    if cs != [] {
      KeepLines(rule, cs[1..]);
    }
  }

  lemma FilterLines(rule: Rule, conf: Lines)
    requires Clean(conf, false)
    ensures forall line | line in Filter(rule, conf) :: line in conf
  {
    FilterExact(rule, conf);
    KeepLines(rule, Parse(conf));
    FlattenParse(conf);
  }

  /** Appending another key's block shows no key that was not shown before. */
  lemma AppendUnseen(conf: Lines, key: string, owner: string, ip: string)
    requires ValidKey(key) && ValidKey(owner) && key != owner && ValidIp(ip) && !Greps(conf, key)
    ensures !Greps(Append(conf, owner, ip), key)
  {
    var needle, body := "PublicKey = " + key, PeerBody(owner, ip);
    KeyLineIff(owner, key);
    assert 'b' in needle by { assert needle[2] == 'b'; }
    MissingChar(body[1], needle, 'b');
    MissingChar(body[2], needle, 'b');
    MissingChar("", needle, 'b');
    MissingChar("[Peer]", needle, 'b');
    assert forall line | line in ["", "[Peer]"] + body :: line in ["", "[Peer]", body[0], body[1], body[2]];
    assert Append(conf, owner, ip) == conf + (["", "[Peer]"] + body);
  }

  /** A key no line shows is still shown by no line after a filter or another key's append. */
  lemma UnseenStaysUnseen(conf: Lines, rule: Rule, key: string, owner: string, ip: string)
    requires Clean(conf, false) && !Greps(conf, key)
    requires ValidKey(key) && ValidKey(owner) && key != owner && ValidIp(ip)
    ensures !Greps(Filter(rule, conf), key)
    ensures !Greps(Persist(conf, owner, ip), key)
  {
    FilterLines(rule, conf);
    FilterLines(StaleIp(ip, owner), conf);
    AppendUnseen(Filter(StaleIp(ip, owner), conf), key, owner, ip);
  }
}
