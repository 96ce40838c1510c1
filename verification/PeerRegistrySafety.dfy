/** What every run of the peer registry keeps. */
module PeerRegistrySafety {
  import opened Text
  import opened IPv4
  import opened Dotted
  import opened Scan
  import opened AddressPool
  import opened WgConf
  import opened WgPeers
  import opened PeerRegistry
  import Ledger

  // ── Addresses of one pool ────────────────────────────────────────────────

  lemma PoolText(c: Cidr, ip: string)
    requires ValidCidr(c) && InPool(c, ip)
    ensures ValidIp(ip)
  {
    var v: Address :| SharesPrefix(c, v) && ip == Format(v);
    FormatChars(v);
  }

  lemma PoolSuffix(c: Cidr, a: string, b: string)
    requires 8 <= c.prefix <= 32 && InPool(c, a) && InPool(c, b)
    ensures EndsWith(a, b) <==> a == b
  {
    var v: Address :| SharesPrefix(c, v) && a == Format(v);
    var w: Address :| SharesPrefix(c, w) && b == Format(w);
    RangeSuffixFree(c, v, w);
    FormatInjective(v, w);
  }

  // ── The conf file ────────────────────────────────────────────────────────

  /** A rewrite of the conf on behalf of `key` and `ip`: it keeps the layout and every other key's
    * block with another address, and shows no key but `key` anew. */
  ghost predicate Respects(c: Cidr, conf: Lines, after: Lines, key: string, ip: string)
    requires ValidCidr(c)
  {
    && Clean(after, false)
    && (forall k | ValidKey(k) && k != key && Greps(after, k) :: Greps(conf, k))
    && (forall k, a | ValidKey(k) && InPool(c, a) && k != key && a != ip && HasOurs(conf, k, a) :: HasOurs(after, k, a))
  }

  lemma ClearRespects(c: Cidr, conf: Lines, key: string, ip: string)
    requires 8 <= c.prefix <= 32 && Clean(conf, false) && ValidKey(key) && InPool(c, ip)
    ensures Respects(c, conf, Filter(StaleIp(ip, key), conf), key, ip)
    ensures !Greps(conf, key) ==> !Greps(Filter(StaleIp(ip, key), conf), key)
  {
    var rule := StaleIp(ip, key);
    PoolText(c, ip);
    FilterStable(rule, conf);
    FilterLines(rule, conf);
    forall k, a | ValidKey(k) && InPool(c, a) && k != key && a != ip && HasOurs(conf, k, a)
      ensures HasOurs(Filter(rule, conf), k, a)
    {
      PoolText(c, a);
      PoolSuffix(c, a, ip);
      OurIpIff(k, a, false, ip);
      OurIpIff(k, a, true, ip);
      HasOursKept(rule, conf, k, a);
    }
  }

  lemma AppendRespects(c: Cidr, conf: Lines, key: string, ip: string)
    requires ValidCidr(c) && Clean(conf, false) && ValidKey(key) && InPool(c, ip)
    ensures Respects(c, conf, Append(conf, key, ip), key, ip)
    ensures HasOurs(Append(conf, key, ip), key, ip)
  {
    PoolText(c, ip);
    ChunksAppend(conf, None, key, ip);
    forall k | ValidKey(k) && k != key && Greps(Append(conf, key, ip), k)
      ensures Greps(conf, k)
    {
      if !Greps(conf, k) {
        AppendUnseen(conf, k, key, ip);
      }
    }
    forall k, a | ValidKey(k) && HasOurs(conf, k, a)
      ensures HasOurs(Append(conf, key, ip), k, a)
    {
      CloseLastOurs(WgConf.Parse(conf), k, a);
    }
  }

  lemma RepeatRespects(c: Cidr, conf: Lines, key: string, ip: string)
    requires 8 <= c.prefix <= 32 && Clean(conf, false) && ValidKey(key) && InPool(c, ip)
    ensures Respects(c, conf, Persist(conf, key, ip), key, ip)
    ensures HasOurs(conf, key, ip) ==> HasOurs(Persist(conf, key, ip), key, ip)
  {
    PoolText(c, ip);
    ParsePersist(conf, key, ip);
    PersistHoldsIff(conf, key, ip);
    forall k | ValidKey(k) && k != key && Greps(Persist(conf, key, ip), k)
      ensures Greps(conf, k)
    {
      if !Greps(conf, k) {
        UnseenStaysUnseen(conf, StaleIp(ip, key), k, key, ip);
      }
    }
    forall k, a | ValidKey(k) && InPool(c, a) && k != key && a != ip && HasOurs(conf, k, a)
      ensures HasOurs(Persist(conf, key, ip), k, a)
    {
      PoolText(c, a);
      PoolSuffix(c, a, ip);
      PersistKeepsOtherIff(conf, key, ip, k, a);
    }
  }

  lemma StripRespects(c: Cidr, conf: Lines, key: string, ip: string)
    requires ValidCidr(c) && Clean(conf, false) && ValidKey(key)
    ensures Respects(c, conf, Filter(ByKey(key), conf), key, ip)
    ensures forall k, a | ValidKey(k) && InPool(c, a) && k != key && HasOurs(conf, k, a) ::
      HasOurs(Filter(ByKey(key), conf), k, a)
    ensures forall k | Greps(Filter(ByKey(key), conf), k) :: Greps(conf, k)
  {
    FilterStable(ByKey(key), conf);
    FilterLines(ByKey(key), conf);
    forall k, a | ValidKey(k) && InPool(c, a) && k != key && HasOurs(conf, k, a)
      ensures HasOurs(Filter(ByKey(key), conf), k, a)
    {
      PoolText(c, a);
      StripKeepsOthers(conf, key, k, a);
    }
  }

  // ── The invariant, step by step ──────────────────────────────────────────

  lemma NodeApart(c: Cidr, s: State, m: string, n: string)
    requires ValidCidr(c) && Inv(c, s)
    requires m in s.nodes && n in s.nodes && m != n && s.nodes[m].Holds? && s.nodes[n].Holds?
    ensures s.nodes[m].key != s.nodes[n].key
    ensures !s.nodes[m].stage.Chosen? && !s.nodes[n].stage.Chosen? ==> s.nodes[m].ip != s.nodes[n].ip
  {
    assert NodeOk(c, s, m) && NodeOk(c, s, n);
  }

  /** One node rewrites the conf and may move on to another stage. */
  lemma RewriteKeeps(c: Cidr, s: State, node: string, after: Lines, stage: Stage)
    requires ValidCidr(c) && Inv(c, s)
    requires node in s.nodes && s.nodes[node].Holds? && !s.nodes[node].stage.Chosen? && !stage.Chosen?
    requires Respects(c, s.conf, after, s.nodes[node].key, s.nodes[node].ip)
    requires
      var n := s.nodes[node];
      if stage.Stored? || stage.Booked? then HasOurs(after, n.key, n.ip) else !Greps(after, n.key)
    ensures Inv(c, Enter(s.(conf := after), node, stage))
  {
    var t := Enter(s.(conf := after), node, stage);
    assert NodeOk(c, s, node);
    forall m | m in t.nodes
      ensures NodeOk(c, t, m)
    {
      assert NodeOk(c, s, m);
      if m != node && s.nodes[m].Holds? {
        NodeApart(c, s, m, node);
      }
    }
    forall p | p in t.book.peers
      ensures PeerOk(t, p)
    {
      assert PeerOk(s, p);
    }
    assert forall k | ValidKey(k) && Greps(after, k) :: k in s.owner;
  }

  lemma KeepClear(c: Cidr, s: State, e: Event)
    requires 8 <= c.prefix <= 32 && Inv(c, s) && e.Clear?
    ensures Inv(c, Next(c, s, e))
  {
    if At(s, e.node, InTable) {
      var n := s.nodes[e.node];
      assert NodeOk(c, s, e.node);
      ClearRespects(c, s.conf, n.key, n.ip);
      RewriteKeeps(c, s, e.node, Filter(StaleIp(n.ip, n.key), s.conf), Cleared);
    }
  }

  lemma KeepStore(c: Cidr, s: State, e: Event)
    requires ValidCidr(c) && Inv(c, s) && e.Store?
    ensures Inv(c, Next(c, s, e))
  {
    if At(s, e.node, Cleared) {
      var n := s.nodes[e.node];
      assert NodeOk(c, s, e.node);
      AppendRespects(c, s.conf, n.key, n.ip);
      RewriteKeeps(c, s, e.node, Append(s.conf, n.key, n.ip), Stored);
    }
  }

  lemma SetSame(live: map<string, string>, key: string, ip: string)
    requires key in live && live[key] == ip && !Taken(live, key, ip)
    ensures Set(live, key, ip) == live
  {
  }

  lemma KeepRepeat(c: Cidr, s: State, e: Event)
    requires 8 <= c.prefix <= 32 && Inv(c, s) && e.Repeat?
    ensures Inv(c, Next(c, s, e))
  {
    if At(s, e.node, Booked) {
      var n := s.nodes[e.node];
      assert NodeOk(c, s, e.node);
      SetSame(s.live, n.key, n.ip);
      RepeatRespects(c, s.conf, n.key, n.ip);
      RewriteKeeps(c, s, e.node, Persist(s.conf, n.key, n.ip), Booked);
      assert s.nodes[e.node := n] == s.nodes;
    }
  }

  lemma KeepLeave(c: Cidr, s: State, node: string)
    requires ValidCidr(c) && Inv(c, s)
    ensures Inv(c, Leave(s, node))
  {
    var t := Leave(s, node);
    forall m | m in t.nodes
      ensures NodeOk(c, t, m)
    {
      assert NodeOk(c, s, m);
    }
    forall p | p in t.book.peers
      ensures PeerOk(t, p)
    {
      assert PeerOk(s, p);
    }
  }

  lemma KeepAllocate(c: Cidr, s: State, e: Event)
    requires ValidCidr(c) && Inv(c, s) && e.Allocate?
    ensures Inv(c, Next(c, s, e))
  {
    var t := Next(c, s, e);
    if t != s {
      forall m | m in t.nodes
        ensures NodeOk(c, t, m)
      {
        if m != e.node {
          assert NodeOk(c, s, m);
        }
      }
      forall p | p in t.book.peers
        ensures PeerOk(t, p)
      {
        assert PeerOk(s, p);
      }
    }
  }

  /** After `wg set` the node has gone on or, when the answer was lost, given up. */
  function AfterSet(s: State, node: string, answered: bool): State
    requires At(s, node, Chosen)
  {
    var t := s.(live := Set(s.live, s.nodes[node].key, s.nodes[node].ip));
    if answered then Enter(t, node, InTable) else Leave(t, node)
  }

  lemma SetKeepsNodes(c: Cidr, s: State, node: string, answered: bool)
    requires ValidCidr(c) && Inv(c, s) && At(s, node, Chosen)
    requires !Taken(s.live, s.nodes[node].key, s.nodes[node].ip)
    ensures NodesOk(c, AfterSet(s, node, answered))
  {
    var t := AfterSet(s, node, answered);
    assert NodeOk(c, s, node);
    forall m | m in t.nodes
      ensures NodeOk(c, t, m)
    {
      assert NodeOk(c, s, m);
      if m != node && s.nodes[m].Holds? {
        NodeApart(c, s, m, node);
      }
    }
  }

  lemma SetKeepsLedger(c: Cidr, s: State, node: string, answered: bool)
    requires ValidCidr(c) && Inv(c, s) && At(s, node, Chosen)
    requires !Taken(s.live, s.nodes[node].key, s.nodes[node].ip)
    ensures LedgerOk(AfterSet(s, node, answered))
  {
    var t := AfterSet(s, node, answered);
    assert NodeOk(c, s, node);
    forall p | p in t.book.peers
      ensures PeerOk(t, p)
    {
      assert PeerOk(s, p);
    }
  }

  lemma KeepRegister(c: Cidr, s: State, e: Event)
    requires ValidCidr(c) && Inv(c, s) && Careful(s, e) && e.Register?
    ensures Inv(c, Next(c, s, e))
  {
    KeepLeave(c, s, e.node);
    if At(s, e.node, Chosen) {
      var n := s.nodes[e.node];
      assert NodeOk(c, s, e.node);
      if !Taken(s.live, n.key, n.ip) {
        SetKeepsNodes(c, s, e.node, e.answered);
        SetKeepsLedger(c, s, e.node, e.answered);
        SetExclusive(s.live, n.key, n.ip);
      }
    }
  }

  lemma KeepNote(c: Cidr, s: State, e: Event)
    requires ValidCidr(c) && Inv(c, s) && e.Note?
    ensures Inv(c, Next(c, s, e))
  {
    var t := Next(c, s, e);
    forall m | m in t.nodes
      ensures NodeOk(c, t, m)
    {
      assert NodeOk(c, s, m);
    }
    if At(s, e.node, Stored) {
      assert NodeOk(c, s, e.node);
      PoolText(c, s.nodes[e.node].ip);
    }
    forall p | p in t.book.peers
      ensures PeerOk(t, p)
    {
      assert p in s.book.peers ==> PeerOk(s, p);
    }
  }

  // ── What a clean-up resolves to ──────────────────────────────────────────

  /** A key a clean-up of the node may remove: none, one made for the node, or a dead one. */
  ghost predicate OwnOrDead(s: State, node: string, key: string) {
    key == "" || (key in s.owner && (s.owner[key] == node || Dead(s, key)))
  }

  lemma LedgerOwnOrDead(c: Cidr, s: State, e: Event)
    requires ValidCidr(c) && Inv(c, s) && Careful(s, e) && e.CleanStart?
    ensures OwnOrDead(s, e.node, Ledger.Resolved(s.book.peers, e.node, e.vpnIP, e.ip).0)
  {
    Ledger.MatchIn(s.book.peers, e.node, e.vpnIP);
    var m := Ledger.Match(s.book.peers, e.node, e.vpnIP);
    if m.Some? {
      var p := m.value;
      assert PeerOk(s, p);
      if p.node in s.nodes {
        assert NodeOk(c, s, p.node);
      }
    }
  }

  /** Whatever mixture of ledger, table and status a clean-up of a node resolves its peer from, with any
    * steps of other nodes between its two look-ups, it has no key afterwards, a key made for the node or a
    * dead one, as long as it goes by addresses the node still owns. */
  lemma ResolvesOwnOrDead(c: Cidr, s: State, e: Event)
    requires ValidCidr(c) && Inv(c, s) && Careful(s, e) && (e.CleanStart? || e.CleanLook?)
    ensures
      var t := Next(c, s, e);
      e.node in t.nodes && t.nodes[e.node].Leaving? ==> OwnOrDead(t, e.node, t.nodes[e.node].key)
  {
    var t := Next(c, s, e);
    if e.CleanStart? {
      LedgerOwnOrDead(c, s, e);
      DeadStays(s, t, e.node, t.nodes[e.node].key);
    } else if e.node in s.nodes && s.nodes[e.node].Leaving? {
      assert NodeOk(c, s, e.node);
      DeadStays(s, t, e.node, t.nodes[e.node].key);
    }
  }

  /** When one more node is cleaning up and nothing else has changed. */
  lemma DeadStays(s: State, t: State, node: string, key: string)
    requires OwnOrDead(s, node, key) && t.owner == s.owner && t.live == s.live
    requires forall m | m in t.nodes && t.nodes[m].Holds? :: m in s.nodes && t.nodes[m] == s.nodes[m]
    ensures OwnOrDead(t, node, key)
  {
  }

  lemma KeepCleanStart(c: Cidr, s: State, e: Event)
    requires ValidCidr(c) && Inv(c, s) && Careful(s, e) && (e.CleanStart? || e.CleanLook?)
    ensures Inv(c, Next(c, s, e))
  {
    var t := NextClean(s, e);
    ResolvesOwnOrDead(c, s, e);
    forall m | m in t.nodes
      ensures NodeOk(c, t, m)
    {
      if m != e.node {
        assert NodeOk(c, s, m);
      }
    }
    forall p | p in t.book.peers
      ensures PeerOk(t, p)
    {
      assert PeerOk(s, p);
    }
  }

  lemma KeepCleanBook(c: Cidr, s: State, e: Event)
    requires ValidCidr(c) && Inv(c, s) && e.CleanBook?
    ensures Inv(c, Next(c, s, e))
  {
    var t := NextClean(s, e);
    if Cleaning(s, e.node, 3) {
      Ledger.StayingMembers(s.book.peers, e.node, s.nodes[e.node].ip);
      forall m | m in t.nodes
        ensures NodeOk(c, t, m)
      {
        assert NodeOk(c, s, m);
      }
      forall p | p in t.book.peers
        ensures PeerOk(t, p)
      {
        assert PeerOk(s, p);
      }
    }
  }

  /** A clean-up's key is used by no node. */
  lemma CleaningKey(c: Cidr, s: State, node: string, m: string)
    requires ValidCidr(c) && Inv(c, s) && node in s.nodes && s.nodes[node].Leaving?
    requires m in s.nodes && s.nodes[m].Holds?
    ensures s.nodes[m].key != s.nodes[node].key
  {
    assert NodeOk(c, s, node) && NodeOk(c, s, m);
  }

  lemma KeepCleanTable(c: Cidr, s: State, e: Event)
    requires ValidCidr(c) && Inv(c, s) && e.CleanTable?
    ensures Inv(c, Next(c, s, e))
  {
    var t := NextClean(s, e);
    if Cleaning(s, e.node, 1) {
      forall m | m in t.nodes
        ensures NodeOk(c, t, m)
      {
        assert NodeOk(c, s, m);
        if s.nodes[m].Holds? {
          CleaningKey(c, s, e.node, m);
        }
      }
      forall p | p in t.book.peers
        ensures PeerOk(t, p)
      {
        assert PeerOk(s, p);
      }
    }
  }

  lemma KeepCleanConf(c: Cidr, s: State, e: Event)
    requires ValidCidr(c) && Inv(c, s) && e.CleanConf?
    ensures Inv(c, Next(c, s, e))
  {
    var t := NextClean(s, e);
    if Cleaning(s, e.node, 2) {
      var key := s.nodes[e.node].key;
      assert NodeOk(c, s, e.node);
      if e.applied && key != "" {
        StripRespects(c, s.conf, key, "");
      }
      forall m | m in t.nodes
        ensures NodeOk(c, t, m)
      {
        assert NodeOk(c, s, m);
        if s.nodes[m].Holds? {
          CleaningKey(c, s, e.node, m);
        }
      }
      forall p | p in t.book.peers
        ensures PeerOk(t, p)
      {
        assert PeerOk(s, p);
      }
    }
  }

  lemma Keep(c: Cidr, s: State, e: Event)
    requires 8 <= c.prefix <= 32 && Inv(c, s) && Careful(s, e)
    ensures Inv(c, Next(c, s, e))
  {
    match e
    case Allocate(_, _, _, _) => KeepAllocate(c, s, e);
    case Register(_, _, _, _) => KeepRegister(c, s, e);
    case Clear(_) => KeepClear(c, s, e);
    case Store(_) => KeepStore(c, s, e);
    case Note(_) => KeepNote(c, s, e);
    case Repeat(_) => KeepRepeat(c, s, e);
    case Fail(node) => KeepLeave(c, s, node);
    case CleanStart(_, _, _) => KeepCleanStart(c, s, e);
    case CleanLook(_, _) => KeepCleanStart(c, s, e);
    case CleanTable(_, _) => KeepCleanTable(c, s, e);
    case CleanConf(_, _) => KeepCleanConf(c, s, e);
    case CleanBook(_, _) => KeepCleanBook(c, s, e);
  }

  // ── Whole runs ───────────────────────────────────────────────────────────

  /** Nothing in flight, whatever earlier controllers and people left behind, as long as the ledger
    * does not contradict the table. */
  ghost predicate Initial(s: State) {
    s.nodes == map[] && Clean(s.conf, false) && Exclusive(s.live) && KeysKnown(s) && LedgerOk(s)
  }

  lemma {:induction false} RunKeeps(c: Cidr, s: State, es: seq<Event>)
    requires 8 <= c.prefix <= 32 && Inv(c, s) && AllCareful(c, s, es)
    ensures Inv(c, Run(c, s, es))
    decreases |es|
  {
    if es != [] {
      Keep(c, s, es[0]);
      RunKeeps(c, Next(c, s, es[0]), es[1..]);
    }
  }

  /** The node is past its registration. */
  predicate Past(s: State, node: string) {
    node in s.nodes && s.nodes[node].Holds? && !s.nodes[node].stage.Chosen?
  }

  /** However the steps of the nodes mix: nodes past their registration are live at their addresses
    * and no two of them hold the same key or address, those that have finished are in the conf too,
    * the conf stays well formed, and the ledger never contradicts the table. */
  lemma NoSharedAddress(c: Cidr, s: State, es: seq<Event>)
    requires 8 <= c.prefix <= 32 && Initial(s) && AllCareful(c, s, es)
    ensures
      var t := Run(c, s, es);
      && (forall m | Past(t, m) :: t.nodes[m].key in t.live && t.live[t.nodes[m].key] == t.nodes[m].ip)
      && (forall m, n | Past(t, m) && Past(t, n) && m != n ::
            t.nodes[m].key != t.nodes[n].key && t.nodes[m].ip != t.nodes[n].ip)
      && (forall m | At(t, m, Stored) || At(t, m, Booked) :: Registered(t, t.nodes[m].key, t.nodes[m].ip))
      && Clean(t.conf, false) && LedgerOk(t)
  {
    RunKeeps(c, s, es);
    var t := Run(c, s, es);
    forall m | Past(t, m)
      ensures t.nodes[m].key in t.live && t.live[t.nodes[m].key] == t.nodes[m].ip
      ensures At(t, m, Stored) || At(t, m, Booked) ==> Registered(t, t.nodes[m].key, t.nodes[m].ip)
    {
      assert NodeOk(c, t, m);
    }
    forall m, n | Past(t, m) && Past(t, n) && m != n
      ensures t.nodes[m].key != t.nodes[n].key && t.nodes[m].ip != t.nodes[n].ip
    {
      NodeApart(c, t, m, n);
    }
  }

  /** The ledger stays consistent through every interleaving, careful or not. */
  lemma {:induction false} BookConsistent(c: Cidr, s: State, es: seq<Event>)
    requires ValidCidr(c) && Ledger.Consistent(s.book)
    ensures Ledger.Consistent(Run(c, s, es).book)
    decreases |es|
  {
    if es != [] {
      var e := es[0];
      if e.Note? && At(s, e.node, Stored) {
        var n := s.nodes[e.node];
        Ledger.RecordConsistent(s.book, Ledger.Peer(e.node, n.key, n.ip));
      } else if e.CleanBook? && Cleaning(s, e.node, 3) {
        Ledger.ReleaseConsistent(s.book, e.node, s.nodes[e.node].ip);
      }
      BookConsistent(c, Next(c, s, e), es[1..]);
    }
  }

  /** The address a node has recorded is not allocated again as long as the ledger lists it. */
  lemma NotedNotReallocated(c: Cidr, s: State, e: Event, f: Event)
    requires ValidCidr(c) && e.Note? && At(s, e.node, Stored) && f.Allocate?
    ensures
      var t := Next(c, s, e);
      f.ip == s.nodes[e.node].ip ==> Next(c, t, f) == t
  {
    var n := s.nodes[e.node];
    Ledger.RecordIdempotent(s.book, Ledger.Peer(e.node, n.key, n.ip));
  }

  /** The clean-up of the node a key was made for. */
  ghost predicate OwnClean(s: State, e: Event, key: string) {
    (e.CleanTable? || e.CleanConf?) && key in s.owner && s.owner[key] == e.node
  }

  lemma LiveThroughRegister(c: Cidr, s: State, e: Event, key: string)
    requires ValidCidr(c) && Inv(c, s) && Careful(s, e) && e.Register? && key in s.live
    ensures key in Next(c, s, e).live && Next(c, s, e).live[key] == s.live[key]
  {
    if At(s, e.node, Chosen) {
      assert NodeOk(c, s, e.node);
    }
  }

  lemma LiveThroughRepeat(c: Cidr, s: State, e: Event, key: string)
    requires ValidCidr(c) && Inv(c, s) && e.Repeat? && key in s.live
    ensures key in Next(c, s, e).live && Next(c, s, e).live[key] == s.live[key]
  {
    if At(s, e.node, Booked) {
      var n := s.nodes[e.node];
      assert NodeOk(c, s, e.node);
      if !Taken(s.live, n.key, n.ip) {
        SetSame(s.live, n.key, n.ip);
      }
    }
  }

  lemma LiveThroughClean(c: Cidr, s: State, e: Event, key: string)
    requires ValidCidr(c) && Inv(c, s) && e.CleanTable? && key in s.live && !OwnClean(s, e, key)
    ensures key in Next(c, s, e).live && Next(c, s, e).live[key] == s.live[key]
  {
    if Cleaning(s, e.node, 1) {
      assert NodeOk(c, s, e.node);
    }
  }

  lemma LiveStep(c: Cidr, s: State, e: Event, key: string)
    requires ValidCidr(c) && Inv(c, s) && Careful(s, e)
    requires key in s.live && !OwnClean(s, e, key)
    ensures key in Next(c, s, e).live && Next(c, s, e).live[key] == s.live[key]
  {
    if e.Register? {
      LiveThroughRegister(c, s, e, key);
    } else if e.Repeat? {
      LiveThroughRepeat(c, s, e, key);
    } else if e.CleanTable? {
      LiveThroughClean(c, s, e, key);
    }
  }

  ghost predicate NoOwnClean(c: Cidr, s: State, es: seq<Event>, key: string)
    requires ValidCidr(c)
    decreases |es|
  {
    es == [] || (!OwnClean(s, es[0], key) && NoOwnClean(c, Next(c, s, es[0]), es[1..], key))
  }

  /** In no run is a live peer overwritten, moved or removed before its own node cleans up, not even
    * one that was live before the run. */
  lemma {:induction false} LivePeerStays(c: Cidr, s: State, es: seq<Event>, key: string)
    requires 8 <= c.prefix <= 32 && Inv(c, s) && AllCareful(c, s, es)
    requires key in s.live && NoOwnClean(c, s, es, key)
    ensures key in Run(c, s, es).live && Run(c, s, es).live[key] == s.live[key]
    decreases |es|
  {
    if es != [] {
      Keep(c, s, es[0]);
      LiveStep(c, s, es[0], key);
      LivePeerStays(c, Next(c, s, es[0]), es[1..], key);
    }
  }

  lemma OursShown(conf: Lines, key: string, ip: string)
    requires HasOurs(conf, key, ip)
    ensures Greps(conf, key)
  {
    FlattenParse(conf);
    OurKeyLine(WgConf.Parse(conf), key, ip, OurBlock(key, ip, true) in WgConf.Parse(conf));
  }

  /** A node past its table check works on another address than any other live peer's. */
  lemma OtherAddress(c: Cidr, s: State, node: string, key: string)
    requires ValidCidr(c) && Inv(c, s) && key in s.live
    requires node in s.nodes && s.nodes[node].Holds? && !s.nodes[node].stage.Chosen?
    ensures s.nodes[node].key == key || s.nodes[node].ip != s.live[key]
    ensures ValidKey(s.nodes[node].key) && InPool(c, s.nodes[node].ip) && ValidKey(key)
    ensures s.nodes[node].stage.Booked? && s.nodes[node].key == key ==> s.nodes[node].ip == s.live[key]
    ensures !s.nodes[node].stage.Stored? && !s.nodes[node].stage.Booked? ==> !Greps(s.conf, s.nodes[node].key)
  {
    assert NodeOk(c, s, node);
  }

  lemma OursThroughRepeat(c: Cidr, conf: Lines, key: string, ip: string, other: string, own: string)
    requires 8 <= c.prefix <= 32 && Clean(conf, false) && ValidKey(key) && InPool(c, ip)
    requires ValidKey(other) && InPool(c, own) && HasOurs(conf, other, own) && (key == other <==> ip == own)
    ensures HasOurs(Persist(conf, key, ip), other, own)
  {
    RepeatRespects(c, conf, key, ip);
  }

  lemma OursThroughAppend(c: Cidr, conf: Lines, key: string, ip: string, other: string, own: string)
    requires ValidCidr(c) && Clean(conf, false) && ValidKey(key) && InPool(c, ip)
    requires ValidKey(other) && InPool(c, own) && HasOurs(conf, other, own)
    ensures key != other && ip != own ==> HasOurs(Append(conf, key, ip), other, own)
  {
    AppendRespects(c, conf, key, ip);
  }

  lemma OursThroughStrip(c: Cidr, conf: Lines, key: string, other: string, own: string)
    requires ValidCidr(c) && Clean(conf, false) && ValidKey(key) && key != other
    requires ValidKey(other) && InPool(c, own) && HasOurs(conf, other, own)
    ensures HasOurs(Filter(ByKey(key), conf), other, own)
  {
    StripRespects(c, conf, key, "");
  }

  lemma ConfThroughClear(c: Cidr, s: State, e: Event, key: string, ip: string)
    requires 8 <= c.prefix <= 32 && Inv(c, s) && e.Clear?
    requires Registered(s, key, ip) && InPool(c, ip)
    ensures HasOurs(Next(c, s, e).conf, key, ip)
  {
    if At(s, e.node, InTable) {
      OursShown(s.conf, key, ip);
      OtherAddress(c, s, e.node, key);
      ClearRespects(c, s.conf, s.nodes[e.node].key, s.nodes[e.node].ip);
    }
  }

  lemma StoreConf(c: Cidr, s: State, node: string)
    requires ValidCidr(c) && At(s, node, Cleared)
    ensures
      var n := s.nodes[node];
      Next(c, s, Store(node)).conf == if Greps(s.conf, n.key) then s.conf else Append(s.conf, n.key, n.ip)
  {
  }

  lemma ConfThroughStore(c: Cidr, s: State, e: Event, key: string, ip: string)
    requires 8 <= c.prefix <= 32 && Inv(c, s) && e.Store?
    requires Registered(s, key, ip) && InPool(c, ip)
    ensures HasOurs(Next(c, s, e).conf, key, ip)
  {
    if At(s, e.node, Cleared) {
      var n := s.nodes[e.node];
      StoreConf(c, s, e.node);
      OursShown(s.conf, key, ip);
      OtherAddress(c, s, e.node, key);
      OursThroughAppend(c, s.conf, n.key, n.ip, key, ip);
    } else {
      assert Next(c, s, e) == s;
    }
  }

  lemma RepeatConf(c: Cidr, s: State, node: string)
    requires ValidCidr(c) && At(s, node, Booked)
    ensures
      var n := s.nodes[node];
      Next(c, s, Repeat(node)).conf == if Taken(s.live, n.key, n.ip) then s.conf else Persist(s.conf, n.key, n.ip)
  {
  }

  lemma ConfThroughRepeat(c: Cidr, s: State, e: Event, key: string, ip: string)
    requires 8 <= c.prefix <= 32 && Inv(c, s) && e.Repeat?
    requires Registered(s, key, ip) && InPool(c, ip)
    ensures HasOurs(Next(c, s, e).conf, key, ip)
  {
    if At(s, e.node, Booked) {
      var n := s.nodes[e.node];
      RepeatConf(c, s, e.node);
      OtherAddress(c, s, e.node, key);
      OursThroughRepeat(c, s.conf, n.key, n.ip, key, ip);
    } else {
      assert Next(c, s, e) == s;
    }
  }

  lemma CleanConfEffect(c: Cidr, s: State, e: Event)
    requires ValidCidr(c) && e.CleanConf?
    ensures
      var t := Next(c, s, e);
      if Cleaning(s, e.node, 2) && e.applied && s.nodes[e.node].key != ""
      then t.conf == Filter(ByKey(s.nodes[e.node].key), s.conf) else t.conf == s.conf
  {
  }

  lemma ConfThroughClean(c: Cidr, s: State, e: Event, key: string, ip: string)
    requires 8 <= c.prefix <= 32 && Inv(c, s) && e.CleanConf?
    requires Registered(s, key, ip) && InPool(c, ip) && !OwnClean(s, e, key)
    ensures HasOurs(Next(c, s, e).conf, key, ip)
  {
    CleanConfEffect(c, s, e);
    if Cleaning(s, e.node, 2) && s.nodes[e.node].key != "" {
      assert NodeOk(c, s, e.node);
      OursThroughStrip(c, s.conf, s.nodes[e.node].key, key, ip);
    }
  }

  lemma RegisteredStep(c: Cidr, s: State, e: Event, key: string, ip: string)
    requires 8 <= c.prefix <= 32 && Inv(c, s) && Careful(s, e)
    requires Registered(s, key, ip) && InPool(c, ip) && !OwnClean(s, e, key)
    ensures Registered(Next(c, s, e), key, ip)
  {
    LiveStep(c, s, e, key);
    if e.Clear? {
      ConfThroughClear(c, s, e, key, ip);
    } else if e.Store? {
      ConfThroughStore(c, s, e, key, ip);
    } else if e.Repeat? {
      ConfThroughRepeat(c, s, e, key, ip);
    } else if e.CleanConf? {
      ConfThroughClean(c, s, e, key, ip);
    }
  }

  /** A registered peer stays in the table and in the conf, with its address, until its own node
    * cleans up. */
  lemma {:induction false} RegisteredStays(c: Cidr, s: State, es: seq<Event>, key: string, ip: string)
    requires 8 <= c.prefix <= 32 && Inv(c, s) && AllCareful(c, s, es)
    requires Registered(s, key, ip) && InPool(c, ip) && NoOwnClean(c, s, es, key)
    ensures Registered(Run(c, s, es), key, ip)
    decreases |es|
  {
    if es != [] {
      Keep(c, s, es[0]);
      RegisteredStep(c, s, es[0], key, ip);
      RegisteredStays(c, Next(c, s, es[0]), es[1..], key, ip);
    }
  }

  // ── What the two conditions are for ──────────────────────────────────────

  /** Registering without having read the table leaves every other peer alone exactly when no other
    * peer has the address. */
  lemma UnreadRegisterStealsIff(s: State, e: Event)
    requires e.Register? && !e.read && e.applied && At(s, e.node, Chosen)
    ensures
      var n := s.nodes[e.node];
      (forall k | k in s.live && k != n.key :: k in NextRegister(s, e).live && NextRegister(s, e).live[k] == s.live[k])
        <==> !Taken(s.live, n.key, n.ip)
  {
    SetStealsIff(s.live, s.nodes[e.node].key, s.nodes[e.node].ip);
  }

  /** A clean-up from its look into the table to its last server command, all of which take effect. */
  ghost function CleanedFrom(s: State, node: string, read: bool): State {
    NextClean(NextClean(NextClean(s, CleanLook(node, read)), CleanTable(node, true)), CleanConf(node, true))
  }

  ghost function CleanedUp(s: State, start: Event, read: bool): State
    requires start.CleanStart?
  {
    CleanedFrom(NextClean(s, start), start.node, read)
  }

  ghost function Removed(s: State, target: string): State {
    if target == "" then s else s.(live := s.live - {target}, conf := Filter(ByKey(target), s.conf))
  }

  lemma CleanUpEffect(s: State, node: string, read: bool)
    requires Cleaning(s, node, 0)
    ensures
      var t, r := CleanedFrom(s, node, read), Removed(s, Target(s, s.nodes[node], read));
      t.live == r.live && t.conf == r.conf
  {
  }

  /** What holds of table, conf and keys whether clean-ups are careful or not. */
  ghost predicate Orderly(s: State) {
    Clean(s.conf, false) && Exclusive(s.live) && KeysKnown(s)
  }

  lemma RemovedLive(s: State, target: string, key: string, ip: string)
    requires key in s.live && s.live[key] == ip && key != ""
    ensures key in Removed(s, target).live && Removed(s, target).live[key] == ip <==> target != key
  {
  }

  lemma RemovedConf(c: Cidr, s: State, target: string, key: string, ip: string)
    requires ValidCidr(c) && Orderly(s) && HasOurs(s.conf, key, ip) && InPool(c, ip) && ValidKey(key)
    requires target == "" || ValidKey(target)
    ensures HasOurs(Removed(s, target).conf, key, ip) <==> target != key
  {
    PoolText(c, ip);
    if target == key {
      StripRemovesKey(s.conf, key, ip);
    } else if target != "" {
      StripRespects(c, s.conf, target, "");
    }
  }

  /** A clean-up about to look into the table comes with this key, or with none and this address. */
  predicate ComesTo(n: Node, read: bool, key: string, ip: string)
    requires n.Leaving?
  {
    if n.key != "" then n.key == key else read && n.ip == ip
  }

  /** A clean-up resolves to a live peer's key exactly when it comes with the key or the address. */
  lemma TargetIff(s: State, n: Node, read: bool, key: string, ip: string)
    requires Exclusive(s.live) && n.Leaving?
    requires key in s.live && s.live[key] == ip && key != "" && ip != ""
    ensures Target(s, n, read) == key <==> ComesTo(n, read, key, ip)
  {
  }

  /** From its look into the table on, a clean-up removes a registered peer from the table and the conf
    * exactly when it came with that peer's key, or with none and the peer's address. */
  lemma LookRemovesIff(c: Cidr, s: State, node: string, read: bool, key: string, ip: string)
    requires ValidCidr(c) && Orderly(s) && Cleaning(s, node, 0)
    requires s.nodes[node].key == "" || ValidKey(s.nodes[node].key)
    requires Registered(s, key, ip) && InPool(c, ip)
    ensures
      var t, hit := CleanedFrom(s, node, read), ComesTo(s.nodes[node], read, key, ip);
      && (Registered(t, key, ip) <==> !hit)
      && (hit ==> key !in t.live && !HasOurs(t.conf, key, ip))
  {
    var target := Target(s, s.nodes[node], read);
    PoolNotEmpty(c, ip);
    assert ValidKey(key);
    TargetIff(s, s.nodes[node], read, key, ip);
    CleanUpEffect(s, node, read);
    RemovedLive(s, target, key, ip);
    RemovedConf(c, s, target, key, ip);
  }

  /** The ledger and the status addresses point a clean-up at the peer: the first ledger peer with the
    * node's name or VPN address is this one, or there is none and the address gone by is its own. */
  ghost predicate PointsAt(s: State, e: Event, read: bool, key: string, ip: string)
    requires e.CleanStart?
  {
    if exists p | p in s.book.peers :: p.node == e.node || p.ip == e.vpnIP
    then exists i: nat | Ledger.FirstAbout(s.book.peers, e.node, e.vpnIP, i) :: s.book.peers[i].key == key
    else read && ip == (if e.vpnIP != "" then e.vpnIP else e.ip)
  }

  /** A clean-up of any node, careful or not, that runs without a step of another node between its own,
    * removes a registered peer from the table and the conf exactly when the ledger and the node's status
    * point it at that peer. */
  lemma CleanUpRemovesIff(c: Cidr, s: State, start: Event, read: bool, key: string, ip: string)
    requires ValidCidr(c) && Inv(c, s) && start.CleanStart?
    requires Registered(s, key, ip) && InPool(c, ip)
    ensures Registered(CleanedUp(s, start, read), key, ip) <==> !PointsAt(s, start, read, key, ip)
    ensures PointsAt(s, start, read, key, ip) ==>
      key !in CleanedUp(s, start, read).live && !HasOurs(CleanedUp(s, start, read).conf, key, ip)
  {
    var t := NextClean(s, start);
    var peers := s.book.peers;
    Ledger.ResolvedIff(peers, start.node, start.vpnIP, start.ip);
    if exists p | p in peers :: p.node == start.node || p.ip == start.vpnIP {
      var i := Ledger.SomeFirst(peers, start.node, start.vpnIP);
      assert PeerOk(s, peers[i]) && ValidKey(peers[i].key);
    }
    LookRemovesIff(c, t, start.node, read, key, ip);
  }

  /** So a node whose status names no address any more still loses its registered peer in its clean-up, when
    * the ledger names the node. */
  lemma CleanUpByName(c: Cidr, s: State, i: nat, ip: string)
    requires ValidCidr(c) && Inv(c, s) && i < |s.book.peers| && InPool(c, ip)
    requires forall j | 0 <= j < |s.book.peers| && j != i :: s.book.peers[j].node != s.book.peers[i].node
    requires Registered(s, s.book.peers[i].key, ip)
    ensures
      var p := s.book.peers[i];
      var t := CleanedUp(s, CleanStart(p.node, "", ""), false);
      p.key !in t.live && !HasOurs(t.conf, p.key, ip)
  {
    var p := s.book.peers[i];
    forall j | 0 <= j < i
      ensures s.book.peers[j].ip != ""
    {
      assert PeerOk(s, s.book.peers[j]);
    }
    assert p in s.book.peers && Ledger.FirstAbout(s.book.peers, p.node, "", i);
    CleanUpRemovesIff(c, s, CleanStart(p.node, "", ""), false, p.key, ip);
  }

  // ── What a clean-up leaves in the ledger ─────────────────────────────────

  /** The last step of a clean-up, whatever has happened since it started: of the ledger's peers those of
    * other nodes with other addresses stay, and of its addresses all but the clean-up's. */
  lemma CleanBookIff(s: State, node: string)
    requires Cleaning(s, node, 3)
    ensures
      var t, ip := NextClean(s, CleanBook(node, true)), s.nodes[node].ip;
      && (forall q :: q in t.book.peers <==> q in s.book.peers && q.node != node && q.ip != ip)
      && (forall a :: a in t.book.used <==> a in s.book.used && (ip == "" || a != ip))
      && t.live == s.live && t.conf == s.conf && node !in t.nodes
  {
    Ledger.ReleaseIff(s.book, node, s.nodes[node].ip);
  }

  /** After a whole clean-up the ledger names neither the node nor the address it went by, and that address
    * can be allocated again as soon as the table does not show it. */
  lemma FinishedCleanUp(c: Cidr, s: State, start: Event, read: bool)
    requires ValidCidr(c) && start.CleanStart?
    ensures
      var t := NextClean(CleanedUp(s, start, read), CleanBook(start.node, true));
      var ip := Ledger.Resolved(s.book.peers, start.node, start.vpnIP, start.ip).1;
      && (forall q :: q in t.book.peers <==> q in s.book.peers && q.node != start.node && q.ip != ip)
      && (ip != "" ==> ip !in t.book.used)
      && (ip != "" && InPool(c, ip) && (forall k | k in t.live :: t.live[k] != ip) ==> Allocatable(c, t, ip, true))
  {
    CleanBookIff(CleanedUp(s, start, read), start.node);
  }

  /** The two rewrites of the conf in a registration, with no other step between them, persist the peer. */
  lemma ClearAndStorePersist(c: Cidr, s: State, node: string)
    requires ValidCidr(c) && At(s, node, InTable)
    ensures
      Next(c, Next(c, s, Clear(node)), Store(node)).conf == Persist(s.conf, s.nodes[node].key, s.nodes[node].ip)
  {
  }

  /** A registration that reads the table is refused exactly when another key has the address; otherwise a set
    * that is applied puts the peer there, and the node goes on exactly when it also hears of it. */
  lemma RegisterOutcome(s: State, e: Event)
    requires e.Register? && At(s, e.node, Chosen)
    ensures
      var t, n := NextRegister(s, e), s.nodes[e.node];
      var refused := e.read && exists k | k in s.live :: k != n.key && s.live[k] == n.ip;
      && (refused || !e.applied ==> t.live == s.live)
      && (!refused && e.applied ==> n.key in t.live && t.live[n.key] == n.ip)
      && (e.node in t.nodes <==> !refused && e.applied && e.answered)
      && t.conf == s.conf && t.book == s.book
  {
  }

  /** A registration repeated at its end leaves the peer in the table, unless another key has the address by then. */
  lemma RepeatOutcome(c: Cidr, s: State, node: string)
    requires ValidCidr(c) && At(s, node, Booked)
    ensures
      var t, n := Next(c, s, Repeat(node)), s.nodes[node];
      if exists k | k in s.live :: k != n.key && s.live[k] == n.ip then t == s.(nodes := s.nodes - {node})
      else n.key in t.live && t.live[n.key] == n.ip && t.conf == Persist(s.conf, n.key, n.ip) && At(t, node, Booked)
  {
  }

  /** A clean-up goes on past failing steps, and where none is applied everything stays as it was. */
  lemma FailedCleanUp(s: State, node: string)
    requires Cleaning(s, node, 1)
    ensures
      var t := NextClean(NextClean(NextClean(s, CleanTable(node, false)), CleanConf(node, false)),
                         CleanBook(node, false));
      t.live == s.live && t.conf == s.conf && t.book == s.book && t.nodes == s.nodes - {node}
  {
  }

  /** A registration given up before it set anything leaves its address to the next attempt. */
  lemma GivenUpAllocatesAgain(c: Cidr, s: State, node: string, key: string, next: string, ip: string, read: bool)
    requires ValidCidr(c) && node !in s.nodes && Allocatable(c, s, ip, read)
    requires FreshKey(s, key) && FreshKey(s, next) && next != key
    ensures
      var t := Next(c, Next(c, s, Allocate(node, key, ip, read)), Fail(node));
      && t == s.(owner := s.owner[key := node])
      && At(Next(c, t, Allocate(node, next, ip, read)), node, Chosen)
  {
    var a := Next(c, s, Allocate(node, key, ip, read));
    assert a == s.(nodes := s.nodes[node := Holds(key, ip, Chosen)], owner := s.owner[key := node]);
    assert s.nodes[node := Holds(key, ip, Chosen)] - {node} == s.nodes;
  }

  lemma PoolNotEmpty(c: Cidr, ip: string)
    requires ValidCidr(c) && InPool(c, ip)
    ensures ip != ""
  {
    PoolText(c, ip);
  }

  // ── A clean-up by a stale address ────────────────────────────────────────

  /** One node on its way through its registration; of the others, some are about to look for a peer. */
  function Alone(rest: map<string, Node>, a: string, key: string, ip: string, stage: Stage, conf: Lines): State {
    State(if stage.Chosen? then map[] else map[key := ip], conf, Ledger.EMPTY,
          rest[a := Holds(key, ip, stage)], map[key := a])
  }

  function Waiting(rest: map<string, Node>): State {
    State(map[], [], Ledger.EMPTY, rest, map[])
  }

  const NOTHING := Waiting(map[])

  function Registration(a: string, key: string, ip: string): (es: seq<Event>) {
    [Allocate(a, key, ip, true), Register(a, true, true, true), Clear(a), Store(a)]
  }

  lemma FirstSteps(c: Cidr, rest: map<string, Node>, a: string, key: string, ip: string)
    requires ValidCidr(c) && ValidKey(key) && InPool(c, ip) && a !in rest
    ensures Next(c, Waiting(rest), Allocate(a, key, ip, true)) == Alone(rest, a, key, ip, Chosen, [])
    ensures Next(c, Alone(rest, a, key, ip, Chosen, []), Register(a, true, true, true))
      == Alone(rest, a, key, ip, InTable, [])
  {
    var t := Next(c, Alone(rest, a, key, ip, Chosen, []), Register(a, true, true, true));
    assert t.live == map[key := ip] && t.nodes == rest[a := Holds(key, ip, InTable)];
  }

  lemma LastSteps(c: Cidr, rest: map<string, Node>, a: string, key: string, ip: string)
    requires ValidCidr(c)
    ensures Next(c, Alone(rest, a, key, ip, InTable, []), Clear(a)) == Alone(rest, a, key, ip, Cleared, [])
    ensures Next(c, Alone(rest, a, key, ip, Cleared, []), Store(a))
      == Alone(rest, a, key, ip, Stored, Append([], key, ip))
  {
    var t := Next(c, Alone(rest, a, key, ip, InTable, []), Clear(a));
    assert t.nodes == rest[a := Holds(key, ip, Cleared)];
    var u := Next(c, Alone(rest, a, key, ip, Cleared, []), Store(a));
    assert u.nodes == rest[a := Holds(key, ip, Stored)];
  }

  lemma Unroll(c: Cidr, s: State, e: Event, es: seq<Event>)
    requires ValidCidr(c)
    ensures Run(c, s, [e] + es) == Run(c, Next(c, s, e), es)
    ensures AllCareful(c, s, [e] + es) <==> Careful(s, e) && AllCareful(c, Next(c, s, e), es)
  {
    assert ([e] + es)[1..] == es;
  }

  /** One careful step, and the rest of a run. */
  lemma StepOn(c: Cidr, s: State, e: Event, t: State, es: seq<Event>, end: State)
    requires ValidCidr(c) && Careful(s, e) && Next(c, s, e) == t
    requires Run(c, t, es) == end && AllCareful(c, t, es)
    ensures Run(c, s, [e] + es) == end && AllCareful(c, s, [e] + es)
  {
    Unroll(c, s, e, es);
  }

  /** The registration runs through, and nothing it does is careless. */
  lemma RegistrationRuns(c: Cidr, rest: map<string, Node>, a: string, key: string, ip: string)
    requires ValidCidr(c) && ValidKey(key) && InPool(c, ip) && a !in rest
    ensures Run(c, Waiting(rest), Registration(a, key, ip)) == Alone(rest, a, key, ip, Stored, Append([], key, ip))
    ensures AllCareful(c, Waiting(rest), Registration(a, key, ip))
  {
    FirstSteps(c, rest, a, key, ip);
    LastSteps(c, rest, a, key, ip);
    var four: seq<Event> := [];
    var three := [Store(a)] + four;
    var two := [Clear(a)] + three;
    var one := [Register(a, true, true, true)] + two;
    assert Registration(a, key, ip) == [Allocate(a, key, ip, true)] + one;
    var chosen, live := Alone(rest, a, key, ip, Chosen, []), Alone(rest, a, key, ip, InTable, []);
    var cleared, end := Alone(rest, a, key, ip, Cleared, []), Alone(rest, a, key, ip, Stored, Append([], key, ip));
    StepOn(c, cleared, Store(a), end, four, end);
    StepOn(c, live, Clear(a), cleared, three, end);
    StepOn(c, chosen, Register(a, true, true, true), live, two, end);
    StepOn(c, Waiting(rest), Allocate(a, key, ip, true), chosen, one, end);
  }

  ghost predicate AboutToLook(rest: map<string, Node>) {
    forall m | m in rest :: rest[m].Leaving? && rest[m].key == ""
  }

  lemma RegisteredAlone(c: Cidr, rest: map<string, Node>, a: string, key: string, ip: string)
    requires ValidCidr(c) && ValidKey(key) && InPool(c, ip) && AboutToLook(rest)
    ensures
      var s := Alone(rest, a, key, ip, Stored, Append([], key, ip));
      Inv(c, s) && Registered(s, key, ip)
  {
    var s := Alone(rest, a, key, ip, Stored, Append([], key, ip));
    AppendRespects(c, [], key, ip);
    assert NodeOk(c, s, a);
  }

  /** What the condition on addresses is for: one node registers, and a clean-up of another node whose
    * status still names the address takes the peer out of the table and the conf. */
  lemma StaleAddressRemovesPeer(c: Cidr, a: string, b: string, key: string, ip: string)
    requires ValidCidr(c) && ValidKey(key) && InPool(c, ip) && a != b
    ensures
      var s := Run(c, NOTHING, Registration(a, key, ip));
      var t := CleanedUp(s, CleanStart(b, ip, ""), true);
      && Registered(s, key, ip) && !Careful(s, CleanStart(b, ip, ""))
      && key !in t.live && !HasOurs(t.conf, key, ip)
  {
    RegistrationRuns(c, map[], a, key, ip);
    RegisteredAlone(c, map[], a, key, ip);
    PoolNotEmpty(c, ip);
    var s := Alone(map[], a, key, ip, Stored, Append([], key, ip));
    assert s.live[key] == ip && s.owner[key] == a;
    CleanUpRemovesIff(c, s, CleanStart(b, ip, ""), true, key, ip);
  }

  lemma LateRun(c: Cidr, rest: map<string, Node>, a: string, b: string, key: string, ip: string)
    requires ValidCidr(c) && ValidKey(key) && InPool(c, ip) && a != b && rest == map[b := Leaving("", ip, 0)]
    ensures
      var es := [CleanStart(b, ip, "")] + Registration(a, key, ip);
      && Run(c, NOTHING, es) == Alone(rest, a, key, ip, Stored, Append([], key, ip))
      && AllCareful(c, NOTHING, es) && ip != ""
  {
    PoolNotEmpty(c, ip);
    assert Next(c, NOTHING, CleanStart(b, ip, "")) == Waiting(rest);
    RegistrationRuns(c, rest, a, key, ip);
    StepOn(c, NOTHING, CleanStart(b, ip, ""), Waiting(rest), Registration(a, key, ip),
           Alone(rest, a, key, ip, Stored, Append([], key, ip)));
  }

  /** And what it is for at the second look-up: a clean-up finds nothing in the ledger, and its address is
    * nobody's; before it looks into the table another node registers with that address, every step of it
    * careful; and the clean-up takes that node's peer out of the table and the conf. */
  lemma LateLookRemovesPeer(c: Cidr, a: string, b: string, key: string, ip: string)
    requires ValidCidr(c) && ValidKey(key) && InPool(c, ip) && a != b
    ensures
      var es := [CleanStart(b, ip, "")] + Registration(a, key, ip);
      var s := Run(c, NOTHING, es);
      var t := CleanedFrom(s, b, true);
      && AllCareful(c, NOTHING, es) && Registered(s, key, ip) && !Careful(s, CleanLook(b, true))
      && key !in t.live && !HasOurs(t.conf, key, ip)
  {
    var rest := map[b := Leaving("", ip, 0)];
    LateRun(c, rest, a, b, key, ip);
    RegisteredAlone(c, rest, a, key, ip);
    var s := Alone(rest, a, key, ip, Stored, Append([], key, ip));
    assert s.live[key] == ip && s.owner[key] == a;
    LookRemovesIff(c, s, b, true, key, ip);
  }

  lemma OwnerStays(c: Cidr, s: State, e: Event, key: string)
    requires ValidCidr(c) && key in s.owner
    ensures key in Next(c, s, e).owner && Next(c, s, e).owner[key] == s.owner[key]
  {
  }

  lemma {:induction false} OwnerKept(c: Cidr, s: State, es: seq<Event>, key: string)
    requires ValidCidr(c) && key in s.owner
    ensures key in Run(c, s, es).owner && Run(c, s, es).owner[key] == s.owner[key]
    decreases |es|
  {
    if es != [] {
      OwnerStays(c, s, es[0], key);
      OwnerKept(c, Next(c, s, es[0]), es[1..], key);
    }
  }

  /** When it cannot happen: an address at which the table shows a key of the node stays the node's,
    * whatever the others do, until the node's own clean-up removes that key. */
  lemma LiveAddressStaysOwned(c: Cidr, s: State, es: seq<Event>, node: string, key: string)
    requires 8 <= c.prefix <= 32 && Inv(c, s) && AllCareful(c, s, es)
    requires key in s.live && s.owner[key] == node && NoOwnClean(c, s, es, key)
    ensures Owns(Run(c, s, es), node, s.live[key])
  {
    RunKeeps(c, s, es);
    LivePeerStays(c, s, es, key);
    OwnerKept(c, s, es, key);
  }
}
