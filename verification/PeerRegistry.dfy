/** Many nodes sharing the VPN server's peer table, its wg0.conf and the address ledger.
  *
  * One step is one command or one API call of one node, so the steps of different nodes mix in any
  * order and any node can fail between two of its steps, leaving behind what it wrote. */
module PeerRegistry {
  import opened Text
  import opened IPv4
  import opened Dotted
  import opened Scan
  import opened AddressPool
  import opened WgConf
  import opened WgPeers
  import Ledger

  /** How far a registration has come: an address chosen, in the peer table, conflicting blocks
    * cleared from the conf, block stored in the conf, recorded in the ledger. */
  datatype Stage = Chosen | InTable | Cleared | Stored | Booked

  datatype Node =
    | Holds(key: string, ip: string, stage: Stage)
    | Leaving(key: string, ip: string, done: nat)    // clean-up: look-up, table, conf, then ledger

  datatype State = State(
    live: map<string, string>,                       // peer table: key to address
    conf: Lines,
    book: Ledger.Book,
    nodes: map<string, Node>,                        // what each node is doing; absent: nothing
    owner: map<string, string>)                      // for which node each key was ever made

  datatype Event =
    | Allocate(node: string, key: string, ip: string, read: bool)
    | Register(node: string, read: bool, applied: bool, answered: bool)
    | Clear(node: string)
    | Store(node: string)
    | Note(node: string)
    | Repeat(node: string)                           // registering again what is registered
    | Fail(node: string)
    | CleanStart(node: string, vpnIP: string, ip: string)
    | CleanLook(node: string, read: bool)
    | CleanTable(node: string, applied: bool)
    | CleanConf(node: string, applied: bool)
    | CleanBook(node: string, applied: bool)

  // ── The peer table ───────────────────────────────────────────────────────

  /** Another key has the address. */
  predicate Taken(live: map<string, string>, key: string, ip: string) {
    exists k | k in live :: k != key && live[k] == ip
  }

  /** `wg set`: an address belongs to one peer, so the kernel takes it away from any other. */
  function Set(live: map<string, string>, key: string, ip: string): (r: map<string, string>) {
    (map k | k in live && live[k] != ip :: live[k])[key := ip]
  }

  ghost predicate Exclusive(live: map<string, string>) {
    forall k, l | k in live && l in live && k != l :: live[k] != live[l]
  }

  /** Setting a peer overwrites or strips another peer exactly when that peer has the address. */
  lemma SetStealsIff(live: map<string, string>, key: string, ip: string)
    ensures (forall k | k in live && k != key :: k in Set(live, key, ip) && Set(live, key, ip)[k] == live[k])
      <==> !Taken(live, key, ip)
  {
    if Taken(live, key, ip) {
      var k :| k in live && k != key && live[k] == ip;
      assert k !in Set(live, key, ip);
    }
  }

  lemma SetExclusive(live: map<string, string>, key: string, ip: string)
    requires Exclusive(live)
    ensures Exclusive(Set(live, key, ip))
  {
  }

  ghost function KeyAt(live: map<string, string>, ip: string): (key: string)
    ensures key == "" || (key in live && live[key] == ip)
  {
    if k :| k in live && live[k] == ip then k else ""
  }

  // ── Steps ────────────────────────────────────────────────────────────────

  predicate At(s: State, node: string, stage: Stage) {
    node in s.nodes && s.nodes[node].Holds? && s.nodes[node].stage == stage
  }

  predicate Cleaning(s: State, node: string, done: nat) {
    node in s.nodes && s.nodes[node].Leaving? && s.nodes[node].done == done
  }

  function Enter(s: State, node: string, stage: Stage): State
    requires node in s.nodes && s.nodes[node].Holds?
  {
    s.(nodes := s.nodes[node := s.nodes[node].(stage := stage)])
  }

  function Leave(s: State, node: string): State {
    s.(nodes := s.nodes - {node})
  }

  /** What AllocateVPNIP promises of the address it answers. */
  ghost predicate Allocatable(c: Cidr, s: State, ip: string, read: bool)
    requires ValidCidr(c)
  {
    && InPool(c, ip)
    && ip !in s.book.used
    && (read ==> forall k | k in s.live :: s.live[k] != ip)
  }

  ghost predicate InPool(c: Cidr, ip: string)
    requires ValidCidr(c)
  {
    exists v: Address :: SharesPrefix(c, v) && ip == Format(v)
  }

  ghost predicate FreshKey(s: State, key: string) {
    ValidKey(key) && key !in s.owner
  }

  /** Whose peer a clean-up removes: the one the ledger showed when it started, else the one the table
    * shows now at the address. */
  ghost function Target(s: State, n: Node, read: bool): (key: string)
    requires n.Leaving?
  {
    if n.key != "" then n.key else if n.ip != "" && read then KeyAt(s.live, n.ip) else ""
  }

  ghost function NextRegister(s: State, e: Event): State
    requires e.Register?
  {
    if !At(s, e.node, Chosen) then s
    else
      var n := s.nodes[e.node];
      if e.read && Taken(s.live, n.key, n.ip) then Leave(s, e.node)
      else
        var t := if e.applied then s.(live := Set(s.live, n.key, n.ip)) else s;
        if e.applied && e.answered then Enter(t, e.node, InTable) else Leave(t, e.node)
  }

  ghost function NextClean(s: State, e: Event): State
    requires e.CleanStart? || e.CleanLook? || e.CleanTable? || e.CleanConf? || e.CleanBook?
  {
    match e
    case CleanStart(node, vpnIP, ip) =>
      var (key, at) := Ledger.Resolved(s.book.peers, node, vpnIP, ip);
      s.(nodes := s.nodes[node := Leaving(key, at, 0)])
    case CleanLook(node, read) =>
      if !Cleaning(s, node, 0) then s
      else
        var n := s.nodes[node];
        s.(nodes := s.nodes[node := n.(key := Target(s, n, read), done := 1)])
    case CleanTable(node, applied) =>
      if !Cleaning(s, node, 1) then s
      else
        var n := s.nodes[node];
        var t := if applied && n.key != "" then s.(live := s.live - {n.key}) else s;
        t.(nodes := s.nodes[node := n.(done := 2)])
    case CleanConf(node, applied) =>
      if !Cleaning(s, node, 2) then s
      else
        var n := s.nodes[node];
        var t := if applied && n.key != "" then s.(conf := Filter(ByKey(n.key), s.conf)) else s;
        t.(nodes := s.nodes[node := n.(done := 3)])
    case CleanBook(node, applied) =>
      if !Cleaning(s, node, 3) then s
      else
        var n := s.nodes[node];
        Leave(if applied then s.(book := Ledger.Release(s.book, node, n.ip)) else s, node)
  }

  ghost function Next(c: Cidr, s: State, e: Event): State
    requires ValidCidr(c)
  {
    match e
    case Allocate(node, key, ip, read) =>
      if node !in s.nodes && FreshKey(s, key) && Allocatable(c, s, ip, read)
      then s.(nodes := s.nodes[node := Holds(key, ip, Chosen)], owner := s.owner[key := node]) else s
    case Register(_, _, _, _) => NextRegister(s, e)
    case Clear(node) =>
      if !At(s, node, InTable) then s
      else
        var n := s.nodes[node];
        Enter(s.(conf := Filter(StaleIp(n.ip, n.key), s.conf)), node, Cleared)
    case Store(node) =>
      if !At(s, node, Cleared) then s
      else
        var n := s.nodes[node];
        Enter(s.(conf := if Greps(s.conf, n.key) then s.conf else Append(s.conf, n.key, n.ip)), node, Stored)
    case Note(node) =>
      if !At(s, node, Stored) then s
      else
        var n := s.nodes[node];
        Enter(s.(book := Ledger.Record(s.book, Ledger.Peer(node, n.key, n.ip))), node, Booked)
    case Repeat(node) =>
      if !At(s, node, Booked) then s
      else
        var n := s.nodes[node];
        if Taken(s.live, n.key, n.ip) then Leave(s, node)
        else s.(live := Set(s.live, n.key, n.ip), conf := Persist(s.conf, n.key, n.ip))
    case Fail(node) => Leave(s, node)
    case _ => NextClean(s, e)
  }

  ghost function Run(c: Cidr, s: State, es: seq<Event>): State
    requires ValidCidr(c)
    decreases |es|
  {
    if es == [] then s else Run(c, Next(c, s, es[0]), es[1..])
  }

  // ── Which runs ───────────────────────────────────────────────────────────

  /** The node still owns an address: the table shows it, if at all, at a key made for the node. */
  ghost predicate Owns(s: State, node: string, ip: string) {
    forall k | k in s.live && s.live[k] == ip :: k in s.owner && s.owner[k] == node
  }

  /** The peer table is read before a peer is set, and each address a clean-up goes by is one its node
    * still owns when it does: the VPN address in the node's status when it looks into the ledger, and
    * the address it has come to when it looks into the table. */
  ghost predicate Careful(s: State, e: Event) {
    && (e.Register? ==> e.read)
    && (e.CleanStart? && e.vpnIP != "" ==> Owns(s, e.node, e.vpnIP))
    && (e.CleanLook? && Cleaning(s, e.node, 0) && s.nodes[e.node].key == "" && s.nodes[e.node].ip != "" ==>
          Owns(s, e.node, s.nodes[e.node].ip))
  }

  ghost predicate AllCareful(c: Cidr, s: State, es: seq<Event>)
    requires ValidCidr(c)
    decreases |es|
  {
    es == [] || (Careful(s, es[0]) && AllCareful(c, Next(c, s, es[0]), es[1..]))
  }

  // ── Invariant ────────────────────────────────────────────────────────────

  /** The peer is in the table and its block is in the conf. */
  ghost predicate Registered(s: State, key: string, ip: string) {
    key in s.live && s.live[key] == ip && HasOurs(s.conf, key, ip)
  }

  /** The node is registering, or has registered, with this key. */
  predicate Uses(s: State, node: string, key: string) {
    node in s.nodes && s.nodes[node].Holds? && s.nodes[node].key == key
  }

  /** A key made once that is in no use and never will be again. */
  ghost predicate Dead(s: State, key: string) {
    key in s.owner && key !in s.live && !Uses(s, s.owner[key], key)
  }

  ghost predicate NodeOk(c: Cidr, s: State, node: string)
    requires ValidCidr(c) && node in s.nodes
  {
    var n := s.nodes[node];
    if n.Leaving? then n.key == "" || (n.key in s.owner && (s.owner[n.key] == node || Dead(s, n.key)))
    else
      && ValidKey(n.key) && InPool(c, n.ip)
      && n.key in s.owner && s.owner[n.key] == node
      && (if n.stage.Chosen? then n.key !in s.live else n.key in s.live && s.live[n.key] == n.ip)
      && (if n.stage.Stored? || n.stage.Booked? then HasOurs(s.conf, n.key, n.ip) else !Greps(s.conf, n.key))
  }

  /** What the ledger says of a peer is true as far as the table shows it: it names the node the key
    * was made for, and the key's address if the key is live. */
  ghost predicate PeerOk(s: State, p: Ledger.Peer) {
    && p.ip != ""
    && p.key in s.owner && s.owner[p.key] == p.node
    && (p.key in s.live ==> s.live[p.key] == p.ip)
    && !(Uses(s, p.node, p.key) && s.nodes[p.node].stage.Chosen?)
  }

  ghost predicate LedgerOk(s: State) {
    forall p | p in s.book.peers :: PeerOk(s, p)
  }

  ghost predicate KeysKnown(s: State) {
    && (forall k | k in s.owner :: ValidKey(k))
    && (forall k | k in s.live :: k in s.owner)
    && (forall k | ValidKey(k) && Greps(s.conf, k) :: k in s.owner)
  }

  ghost predicate NodesOk(c: Cidr, s: State)
    requires ValidCidr(c)
  {
    forall node | node in s.nodes :: NodeOk(c, s, node)
  }

  ghost predicate Inv(c: Cidr, s: State)
    requires ValidCidr(c)
  {
    Clean(s.conf, false) && Exclusive(s.live) && KeysKnown(s) && LedgerOk(s) && NodesOk(c, s)
  }
}
