/** The two parsers of `wg show wg0 dump`.
  *
  * The provisioner builds a map from address to key, where a later line overwrites an earlier one;
  * the cluster controller looks for the first line with a given address.  Both start from the
  * lines of the trimmed output. */
module WgDump {
  import opened Text
  import opened IPv4
  import opened Dotted

  // ── Lines and fields ─────────────────────────────────────────────────────

  /** One entry of a peer's allowed-ips column. */
  datatype Claim = Claim(key: string, addr: string)

  function Tagged(key: string, entries: seq<string>): (cs: seq<Claim>) {
    if entries == [] then [] else [Claim(key, entries[0])] + Tagged(key, entries[1..])
  }

  function LineClaims(line: string): (cs: seq<Claim>) {
    var fields := Fields(line);
    if |fields| < 4 then [] else Tagged(fields[0], Split(fields[3], ','))
  }

  function AllClaims(lines: seq<string>): (cs: seq<Claim>) {
    if lines == [] then [] else LineClaims(lines[0]) + AllClaims(lines[1..])
  }

  lemma {:induction false} TaggedAt(key: string, entries: seq<string>)
    ensures Tagged(key, entries) == seq(|entries|, i requires 0 <= i < |entries| => Claim(key, entries[i]))
    decreases |entries|
  {
    if entries != [] {
      TaggedAt(key, entries[1..]);
    }
  }

  /** What a peer's line of the dump says, as `wg` prints it with tabs: key, preshared key, endpoint, allowed
    * addresses with commas between them, and whatever columns follow. */
  lemma KernelLine(key: string, preshared: string, endpoint: string, ips: seq<string>, more: seq<string>)
    requires Printable(key) && Printable(preshared) && Printable(endpoint) && ips != []
    requires forall ip | ip in ips :: Printable(ip) && ',' !in ip
    requires forall m | m in more :: Printable(m)
    ensures
      LineClaims(Join([key, preshared, endpoint, Join(ips, ',')] + more, '\t'))
        == seq(|ips|, i requires 0 <= i < |ips| => Claim(key, ips[i]))
  {
    JoinedPrintable(ips);
    FieldsOfJoined([key, preshared, endpoint, Join(ips, ',')] + more, '\t');
    SplitJoin(ips, ',');
    TaggedAt(key, ips);
  }

  lemma {:induction false} JoinedPrintable(ips: seq<string>)
    requires ips != [] && forall ip | ip in ips :: Printable(ip)
    ensures Printable(Join(ips, ','))
    decreases |ips|
  {
    assert ips[0] in ips;
    if |ips| > 1 {
      JoinedPrintable(ips[1..]);
    }
  }

  /** The first line is the interface's. */
  function DumpClaims(lines: seq<string>): (cs: seq<Claim>) {
    if lines == [] then [] else AllClaims(lines[1..])
  }

  /** The claims of line i and all later ones. */
  function ClaimsFrom(lines: seq<string>, i: nat): (cs: seq<Claim>)
    requires i <= |lines|
  {
    if i == 0 then DumpClaims(lines) else AllClaims(lines[i..])
  }

  lemma NextLine(lines: seq<string>, i: nat)
    requires i < |lines|
    ensures i == 0 ==> ClaimsFrom(lines, 0) == ClaimsFrom(lines, 1)
    ensures i > 0 ==> ClaimsFrom(lines, i) == LineClaims(lines[i]) + ClaimsFrom(lines, i + 1)
    ensures i > 0 && LineClaims(lines[i]) == [] ==> ClaimsFrom(lines, i) == ClaimsFrom(lines, i + 1)
    ensures ClaimsFrom(lines, |lines|) == []
    ensures Fields("") == []
  {
    assert lines[i..][1..] == lines[i + 1..];
  }

  // ── What each parser makes of an entry ───────────────────────────────────

  function Stem(entry: string): (s: string) {
    Split(entry, '/')[0]
  }

  predicate PrefixOk(p: string) {
    p != "" && (forall c | c in p :: IsDigit(c)) && Number(p) <= 32
  }

  /** What the net package makes of an entry that is no IPv4 address: the text of an IPv6 address, or
    * nothing. */
  type Reader = string -> Option<string>

  /** net.ParseCIDR, else net.ParseIP; the address is then written back as text. */
  function ReadAddr(v6: Reader, entry: string): (r: Option<string>) {
    if entry == "" || entry == "(none)" then None
    else
      var parts := Split(entry, '/');
      var a := Parse(parts[0]);
      if a.None? then v6(entry)
      else if |parts| > 2 || (|parts| == 2 && !PrefixOk(parts[1])) then None
      else Some(Format(a.value))
  }

  function Last(v6: Reader, cs: seq<Claim>, ip: string): (r: Option<string>) {
    if cs == [] then None
    else
      var c := cs[|cs| - 1];
      if ReadAddr(v6, c.addr) == Some(ip) then Some(c.key) else Last(v6, cs[..|cs| - 1], ip)
  }

  function First(cs: seq<Claim>, ip: string): (r: Option<string>) {
    if cs == [] then None
    else if Stem(cs[0].addr) == ip then Some(cs[0].key)
    else First(cs[1..], ip)
  }

  // ── readVPNServerPeers ───────────────────────────────────────────────────

  function At(peers: map<string, string>, ip: string): Option<string> {
    if ip in peers then Some(peers[ip]) else None
  }

  ghost predicate Mirrors(v6: Reader, peers: map<string, string>, cs: seq<Claim>) {
    forall ip :: At(peers, ip) == Last(v6, cs, ip)
  }

  lemma LastOne(v6: Reader, cs: seq<Claim>, c: Claim, ip: string)
    ensures Last(v6, cs + [c], ip) == if ReadAddr(v6, c.addr) == Some(ip) then Some(c.key) else Last(v6, cs, ip)
  {
    assert (cs + [c])[..|cs|] == cs;
  }

  lemma MirrorsOne(v6: Reader, peers: map<string, string>, cs: seq<Claim>, c: Claim, a: Option<string>)
    requires Mirrors(v6, peers, cs) && a == ReadAddr(v6, c.addr)
    ensures Mirrors(v6, if a.None? then peers else peers[a.value := c.key], cs + [c])
  {
    forall ip: string
      ensures At(if a.None? then peers else peers[a.value := c.key], ip) == Last(v6, cs + [c], ip)
    {
      LastOne(v6, cs, c, ip);
      assert At(peers, ip) == Last(v6, cs, ip);
    }
  }

  method ReadLine(v6: Reader, peers: map<string, string>, fields: seq<string>, ghost cs: seq<Claim>)
    returns (r: map<string, string>)
    requires |fields| >= 4 && Mirrors(v6, peers, cs)
    ensures Mirrors(v6, r, cs + Tagged(fields[0], Split(fields[3], ',')))
  {
    r := peers;
    var entries := Split(fields[3], ',');
    ghost var done := cs;
    assert done + Tagged(fields[0], entries[0..]) == cs + Tagged(fields[0], entries);
    for i := 0 to |entries|
      invariant Mirrors(v6, r, done)
      invariant done + Tagged(fields[0], entries[i..]) == cs + Tagged(fields[0], entries)
    {
      var cidr := entries[i];
      var ip := ReadAddr(v6, cidr);
      MirrorsOne(v6, r, done, Claim(fields[0], cidr), ip);
      assert entries[i..][1..] == entries[i + 1..];
      assert done + Tagged(fields[0], entries[i..])
          == done + [Claim(fields[0], cidr)] + Tagged(fields[0], entries[i + 1..]);
      done := done + [Claim(fields[0], cidr)];
      if cidr == "" || cidr == "(none)" {
        continue;
      }
      if ip.Some? {
        r := r[ip.value := fields[0]];
      }
    }
    assert Tagged(fields[0], entries[|entries|..]) == [];
    assert done == cs + Tagged(fields[0], entries);
  }

  /** The map holds, for each address, the key of the last line that claims it. */
  method ReadVPNServerPeers(v6: Reader, lines: seq<string>) returns (peers: map<string, string>)
    ensures forall ip :: At(peers, ip) == Last(v6, DumpClaims(lines), ip)
  {
    peers := map[];
    ghost var done: seq<Claim> := [];
    for i := 0 to |lines|
      invariant Mirrors(v6, peers, done)
      invariant done + ClaimsFrom(lines, i) == DumpClaims(lines)
    {
      NextLine(lines, i);
      var line := lines[i];
      if i == 0 || line == "" {
        continue;
      }
      var fields := Fields(line);
      if |fields| < 4 {
        continue;
      }
      peers := ReadLine(v6, peers, fields, done);
      Regroup(done, LineClaims(line), ClaimsFrom(lines, i + 1));
      done := done + LineClaims(line);
    }
    assert ClaimsFrom(lines, |lines|) == [];
    assert done == DumpClaims(lines);
  }

  lemma Regroup(a: seq<Claim>, b: seq<Claim>, c: seq<Claim>)
    ensures a + (b + c) == (a + b) + c
  {
  }

  // ── removeVPNPeer ────────────────────────────────────────────────────────

  lemma {:induction false} FirstAppend(cs: seq<Claim>, ds: seq<Claim>, ip: string)
    ensures First(cs + ds, ip) == if First(cs, ip).Some? then First(cs, ip) else First(ds, ip)
    decreases |cs|
  {
    if cs == [] {
      assert cs + ds == ds;
    } else {
      assert (cs + ds)[1..] == cs[1..] + ds;
      FirstAppend(cs[1..], ds, ip);
    }
  }

  method FindInLine(fields: seq<string>, vpnIP: string) returns (peerKey: string)
    requires |fields| >= 4 && fields[0] != ""
    ensures First(Tagged(fields[0], Split(fields[3], ',')), vpnIP)
      == if peerKey == "" then None else Some(peerKey)
  {
    peerKey := "";
    var entries := Split(fields[3], ',');
    for i := 0 to |entries|
      invariant First(Tagged(fields[0], entries[i..]), vpnIP) == First(Tagged(fields[0], entries), vpnIP)
      invariant peerKey == ""
    {
      assert entries[i..][1..] == entries[i + 1..];
      if Stem(entries[i]) == vpnIP {
        peerKey := fields[0];
        break;
      }
    }
  }

  /** The first line with the address wins; "" stands for no such line. */
  method FindPeerKey(lines: seq<string>, vpnIP: string) returns (peerKey: string)
    ensures First(DumpClaims(lines), vpnIP) == if peerKey == "" then None else Some(peerKey)
  {
    peerKey := "";
    for i := 0 to |lines|
      invariant peerKey == ""
      invariant First(ClaimsFrom(lines, i), vpnIP) == First(DumpClaims(lines), vpnIP)
    {
      NextLine(lines, i);
      var line := lines[i];
      if i == 0 || line == "" {
        continue;
      }
      var fields := Fields(line);
      if |fields| < 4 {
        continue;
      }
      assert fields[0] in fields;
      FirstAppend(LineClaims(line), ClaimsFrom(lines, i + 1), vpnIP);
      peerKey := FindInLine(fields, vpnIP);
      if peerKey != "" {
        break;
      }
    }
    assert peerKey == "" ==> ClaimsFrom(lines, |lines|) == [];
  }

  // ── When they agree ──────────────────────────────────────────────────────

  /** An entry with this very IPv4 address has a valid prefix length, and no entry of another kind is
    * written back as it.  Entries of other addresses and of other families may be anything. */
  predicate Proper(v6: Reader, entry: string, ip: string) {
    (Stem(entry) == ip ==> ReadAddr(v6, entry).Some?) && v6(entry) != Some(ip)
  }

  ghost predicate AllProper(v6: Reader, cs: seq<Claim>, ip: string) {
    forall c | c in cs :: Proper(v6, c.addr, ip)
  }

  ghost predicate OneOwner(cs: seq<Claim>, ip: string) {
    forall c, d | c in cs && d in cs && Stem(c.addr) == ip && Stem(d.addr) == ip :: c.key == d.key
  }

  /** For such an entry both parsers see the address alike. */
  lemma SameAddress(v6: Reader, entry: string, ip: string)
    requires Proper(v6, entry, ip) && Parse(ip).Some?
    ensures Stem(entry) == ip <==> ReadAddr(v6, entry) == Some(ip)
  {
    if Parse(Stem(entry)).Some? {
      FormatParse(Stem(entry));
    }
  }

  ghost predicate Claimed(cs: seq<Claim>, ip: string) {
    exists c | c in cs :: Stem(c.addr) == ip
  }

  lemma {:induction false} FirstClaims(cs: seq<Claim>, ip: string)
    ensures First(cs, ip).Some? <==> Claimed(cs, ip)
    ensures First(cs, ip).Some? ==> exists c | c in cs :: Stem(c.addr) == ip && c.key == First(cs, ip).value
    decreases |cs|
  {
    if cs != [] {
      FirstClaims(cs[1..], ip);
      assert cs == [cs[0]] + cs[1..];
    }
  }

  lemma ClaimedOne(cs: seq<Claim>, c: Claim, ip: string)
    ensures Claimed(cs + [c], ip) <==> Claimed(cs, ip) || Stem(c.addr) == ip
  {
    assert forall d :: d in cs + [c] <==> d in cs || d == c;
  }

  lemma {:induction false} LastClaims(v6: Reader, cs: seq<Claim>, ip: string)
    requires Parse(ip).Some? && AllProper(v6, cs, ip)
    ensures Last(v6, cs, ip).Some? <==> Claimed(cs, ip)
    ensures Last(v6, cs, ip).Some? ==> exists c | c in cs :: Stem(c.addr) == ip && c.key == Last(v6, cs, ip).value
    decreases |cs|
  {
    if cs != [] {
      var n := |cs| - 1;
      var init, c := cs[..n], cs[n];
      assert cs == init + [c];
      assert Stem(c.addr) == ip <==> ReadAddr(v6, c.addr) == Some(ip) by {
        SameAddress(v6, c.addr, ip);
      }
      LastClaims(v6, init, ip);
      ClaimedOne(init, c, ip);
      if Stem(c.addr) != ip && Last(v6, init, ip).Some? {
        var d :| d in init && Stem(d.addr) == ip && d.key == Last(v6, init, ip).value;
        assert d in cs;
      }
    }
  }

  /** Both report absence alike; where an address has one owner they report the same key. */
  lemma ParsersAgree(v6: Reader, lines: seq<string>, ip: string)
    requires Parse(ip).Some? && AllProper(v6, DumpClaims(lines), ip)
    ensures First(DumpClaims(lines), ip).None? <==> Last(v6, DumpClaims(lines), ip).None?
    ensures OneOwner(DumpClaims(lines), ip) ==> First(DumpClaims(lines), ip) == Last(v6, DumpClaims(lines), ip)
  {
    FirstClaims(DumpClaims(lines), ip);
    LastClaims(v6, DumpClaims(lines), ip);
  }

  predicate Agree(v6: Reader, cs: seq<Claim>, ip: string) {
    First(cs, ip) == Last(v6, cs, ip)
  }

  /** They agree however the server orders its table exactly when the address has one owner. */
  lemma AgreeInEveryOrderIff(v6: Reader, cs: seq<Claim>, ip: string)
    requires Parse(ip).Some? && AllProper(v6, cs, ip)
    ensures OneOwner(cs, ip) <==>
      forall ds: seq<Claim> | multiset(ds) == multiset(cs) :: Agree(v6, ds, ip)
  {
    if OneOwner(cs, ip) {
      forall ds: seq<Claim> | multiset(ds) == multiset(cs)
        ensures Agree(v6, ds, ip)
      {
        SameMembers(ds, cs);
        FirstClaims(ds, ip);
        LastClaims(v6, ds, ip);
      }
    } else {
      var c, d :| c in cs && d in cs && Stem(c.addr) == ip && Stem(d.addr) == ip && c.key != d.key;
      var ds := Sandwich(cs, c, d);
      var n := |ds| - 1;
      SameAddress(v6, d.addr, ip);
      assert First(ds, ip) == Some(c.key) && Last(v6, ds, ip) == Some(d.key);
      assert !Agree(v6, ds, ip);
    }
  }

  lemma SameMembers(ds: seq<Claim>, cs: seq<Claim>)
    requires multiset(ds) == multiset(cs)
    ensures forall c :: c in ds <==> c in cs
  {
    forall c: Claim
      ensures c in ds <==> c in cs
    {
      assert c in ds <==> c in multiset(ds);
      assert c in cs <==> c in multiset(cs);
    }
  }

  lemma TakeOut(cs: seq<Claim>, c: Claim) returns (rest: seq<Claim>)
    requires c in cs
    ensures multiset(cs) == multiset(rest) + multiset{c}
  {
    var i :| 0 <= i < |cs| && cs[i] == c;
    rest := cs[..i] + cs[i + 1..];
    assert cs == cs[..i] + [c] + cs[i + 1..];
  }

  /** The same claims with c first and d last. */
  lemma Sandwich(cs: seq<Claim>, c: Claim, d: Claim) returns (ds: seq<Claim>)
    requires c in cs && d in cs && c != d
    ensures multiset(ds) == multiset(cs) && |ds| > 0 && ds[0] == c && ds[|ds| - 1] == d
  {
    var a := TakeOut(cs, c);
    assert d in multiset(cs) && d in multiset(a);
    var b := TakeOut(a, d);
    ds := [c] + b + [d];
  }

  /** So from what `wg` prints for an interface with one peer at an address, both parsers get the peer's key. */
  lemma KernelDumpRead(v6: Reader, interface: string, key: string, preshared: string, endpoint: string,
                       a: Address, more: seq<string>)
    requires Printable(key) && Printable(preshared) && Printable(endpoint)
    requires forall m | m in more :: Printable(m)
    ensures
      var dump := [interface, Join([key, preshared, endpoint, Format(a) + "/32"] + more, '\t')];
      && First(DumpClaims(dump), Format(a)) == Some(key)
      && Last(v6, DumpClaims(dump), Format(a)) == Some(key)
  {
    var entry := Format(a) + "/32";
    FormatChars(a);
    KernelLine(key, preshared, endpoint, [entry], more);
    assert Join([entry], ',') == entry;
    var line := Join([key, preshared, endpoint, entry] + more, '\t');
    assert LineClaims(line) == [Claim(key, entry)];
    OneLine(interface, line, Claim(key, entry));
    SlashSplit(Format(a));
    ParseFormat(a);
    assert ReadAddr(v6, entry) == Some(Format(a));
    assert [Claim(key, entry)][..0] == [];
  }

  lemma OneLine(interface: string, line: string, c: Claim)
    requires LineClaims(line) == [c]
    ensures DumpClaims([interface, line]) == [c]
  {
    assert [interface, line][1..] == [line] && [line][1..] == [];
    assert AllClaims([line]) == LineClaims(line) + AllClaims([]);
  }

  /** An entry is read exactly when its prefix length is at most 32, and then as its address. */
  lemma PrefixedEntry(v6: Reader, a: Address, prefix: Byte)
    ensures ReadAddr(v6, Format(a) + "/" + Dec(prefix)) == if prefix <= 32 then Some(Format(a)) else None
  {
    var text, digits := Format(a), Dec(prefix);
    FormatChars(a);
    SplitFirst(text, digits, '/');
    SplitPlain(digits, '/');
    assert text + ['/'] + digits == text + "/" + digits;
    assert (text + "/" + digits)[|text|] == '/';
    NumberDec(prefix);
    ParseFormat(a);
  }

  lemma SlashSplit(address: string)
    requires '/' !in address && address != ""
    ensures Split(address + "/32", '/') == [address, "32"] && PrefixOk("32")
    ensures address + "/32" != "" && address + "/32" != "(none)"
  {
    SplitFirst(address, "32", '/');
    SplitPlain("32", '/');
    assert address + ['/'] + "32" == address + "/32";
    assert (address + "/32")[|address|] == '/';
    NumberTwo('3', '2');
  }
}
