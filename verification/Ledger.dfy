/** The address ledger in a NodeProvisionNetConfig's status: used addresses and peers. */
module Ledger {
  import opened Text

  datatype Peer = Peer(node: string, key: string, ip: string)

  datatype Book = Book(used: seq<string>, peers: seq<Peer>)

  const EMPTY := Book([], [])

  // ── What a record and a release mean ─────────────────────────────────────

  predicate Clashes(p: Peer, key: string, ip: string) {
    p.key == key || p.ip == ip
  }

  predicate HasPeer(peers: seq<Peer>, key: string, ip: string) {
    exists p | p in peers :: Clashes(p, key, ip)
  }

  function Record(b: Book, p: Peer): (r: Book) {
    Book(
      if p.ip in b.used then b.used else b.used + [p.ip],
      if HasPeer(b.peers, p.key, p.ip) then b.peers else b.peers + [p])
  }

  predicate Leaves(p: Peer, node: string, ip: string) {
    p.node == node || p.ip == ip
  }

  function Staying(peers: seq<Peer>, node: string, ip: string): (r: seq<Peer>) {
    if peers == [] then []
    else
      var init := Staying(peers[..|peers| - 1], node, ip);
      var last := peers[|peers| - 1];
      if Leaves(last, node, ip) then init else init + [last]
  }

  function Without(used: seq<string>, ip: string): (r: seq<string>) {
    if used == [] then []
    else
      var init := Without(used[..|used| - 1], ip);
      if used[|used| - 1] == ip then init else init + [used[|used| - 1]]
  }

  /** `ip` is "" when neither the ledger nor the node names an address. */
  function Release(b: Book, node: string, ip: string): (r: Book) {
    Book(if ip == "" then b.used else Without(b.used, ip), Staying(b.peers, node, ip))
  }

  // ── Consistency ──────────────────────────────────────────────────────────

  ghost predicate Distinct(used: seq<string>) {
    forall i, j | 0 <= i < j < |used| :: used[i] != used[j]
  }

  ghost predicate Apart(peers: seq<Peer>) {
    forall i, j | 0 <= i < j < |peers| :: peers[i].key != peers[j].key && peers[i].ip != peers[j].ip
  }

  /** No address twice, peers pairwise distinct in key and address, every peer's address in use. */
  ghost predicate Consistent(b: Book) {
    && Distinct(b.used)
    && Apart(b.peers)
    && (forall p | p in b.peers :: p.ip in b.used)
  }

  lemma {:induction false} StayingMembers(peers: seq<Peer>, node: string, ip: string)
    ensures forall p :: p in Staying(peers, node, ip) <==> p in peers && !Leaves(p, node, ip)
    ensures |Staying(peers, node, ip)| <= |peers|
    decreases |peers|
  {
    if peers != [] {
      StayingMembers(peers[..|peers| - 1], node, ip);
      assert peers == peers[..|peers| - 1] + [peers[|peers| - 1]];
    }
  }

  lemma {:induction false} WithoutMembers(used: seq<string>, ip: string)
    ensures forall a :: a in Without(used, ip) <==> a in used && a != ip
    decreases |used|
  {
    if used != [] {
      WithoutMembers(used[..|used| - 1], ip);
      assert used == used[..|used| - 1] + [used[|used| - 1]];
    }
  }

  lemma {:induction false} WithoutDistinct(used: seq<string>, ip: string)
    requires Distinct(used)
    ensures Distinct(Without(used, ip))
    decreases |used|
  {
    if used != [] {
      var n := |used| - 1;
      var init := Without(used[..n], ip);
      WithoutDistinct(used[..n], ip);
      WithoutMembers(used[..n], ip);
      forall i | 0 <= i < |init|
        ensures init[i] != used[n]
      {
        assert init[i] in used[..n];
      }
    }
  }

  lemma {:induction false} StayingApart(peers: seq<Peer>, node: string, ip: string)
    requires Apart(peers)
    ensures Apart(Staying(peers, node, ip))
    decreases |peers|
  {
    if peers != [] {
      var n := |peers| - 1;
      var init := Staying(peers[..n], node, ip);
      StayingApart(peers[..n], node, ip);
      StayingMembers(peers[..n], node, ip);
      forall i | 0 <= i < |init|
        ensures init[i].key != peers[n].key && init[i].ip != peers[n].ip
      {
        assert init[i] in init;
      }
    }
  }

  /** What a record leaves: it adds its address and its peer, each at the end, and its peer only when no
    * peer has the key or the address. */
  lemma RecordIff(b: Book, p: Peer)
    ensures
      var r := Record(b, p);
      && b.used <= r.used && b.peers <= r.peers
      && (forall a :: a in r.used <==> a in b.used || a == p.ip)
      && |r.used| == |b.used| + (if p.ip in b.used then 0 else 1)
      && (forall q :: q in r.peers <==>
            q in b.peers || (q == p && forall o | o in b.peers :: o.key != p.key && o.ip != p.ip))
      && |r.peers| == |b.peers| + (if exists o | o in b.peers :: o.key == p.key || o.ip == p.ip then 0 else 1)
  {
    if o :| o in b.peers && (o.key == p.key || o.ip == p.ip) {
      assert Clashes(o, p.key, p.ip);
    }
    assert p in b.peers ==> Clashes(p, p.key, p.ip);
  }

  /** What a release leaves: every peer of another node with another address, as often as before, and every
    * other address; a release without an address leaves all addresses. */
  lemma ReleaseIff(b: Book, node: string, ip: string)
    ensures
      var r := Release(b, node, ip);
      && (forall q :: q in r.peers <==> q in b.peers && q.node != node && q.ip != ip)
      && (forall q: Peer | q.node != node && q.ip != ip :: multiset(r.peers)[q] == multiset(b.peers)[q])
      && (forall a :: a in r.used <==> a in b.used && (ip == "" || a != ip))
      && (forall a | a != ip :: multiset(r.used)[a] == multiset(b.used)[a])
  {
    StayingMembers(b.peers, node, ip);
    WithoutMembers(b.used, ip);
    forall q: Peer | q.node != node && q.ip != ip
      ensures multiset(Staying(b.peers, node, ip))[q] == multiset(b.peers)[q]
    {
      StayingCount(b.peers, node, ip, q);
    }
    forall a | a != ip
      ensures multiset(Without(b.used, ip))[a] == multiset(b.used)[a]
    {
      WithoutCount(b.used, ip, a);
    }
  }

  lemma {:induction false} StayingCount(peers: seq<Peer>, node: string, ip: string, q: Peer)
    requires q.node != node && q.ip != ip
    ensures multiset(Staying(peers, node, ip))[q] == multiset(peers)[q]
    decreases |peers|
  {
    if peers != [] {
      var n := |peers| - 1;
      StayingCount(peers[..n], node, ip, q);
      assert peers == peers[..n] + [peers[n]];
    }
  }

  lemma {:induction false} WithoutCount(used: seq<string>, ip: string, a: string)
    requires a != ip
    ensures multiset(Without(used, ip))[a] == multiset(used)[a]
    decreases |used|
  {
    if used != [] {
      var n := |used| - 1;
      WithoutCount(used[..n], ip, a);
      assert used == used[..n] + [used[n]];
    }
  }

  lemma RecordDistinct(used: seq<string>, ip: string)
    requires Distinct(used)
    ensures ip !in used ==> Distinct(used + [ip])
  {
  }

  lemma RecordApart(peers: seq<Peer>, p: Peer)
    requires Apart(peers)
    ensures !HasPeer(peers, p.key, p.ip) ==> Apart(peers + [p])
  {
    if !HasPeer(peers, p.key, p.ip) {
      forall i | 0 <= i < |peers|
        ensures peers[i].key != p.key && peers[i].ip != p.ip
      {
        assert !Clashes(peers[i], p.key, p.ip);
      }
    }
  }

  lemma RecordConsistent(b: Book, p: Peer)
    requires Consistent(b)
    ensures Consistent(Record(b, p))
  {
    RecordIff(b, p);
    RecordDistinct(b.used, p.ip);
    RecordApart(b.peers, p);
  }

  lemma ReleaseConsistent(b: Book, node: string, ip: string)
    requires Consistent(b)
    ensures Consistent(Release(b, node, ip))
  {
    WithoutMembers(b.used, ip);
    WithoutDistinct(b.used, ip);
    StayingMembers(b.peers, node, ip);
    StayingApart(b.peers, node, ip);
  }

  // ── Sequences of operations ──────────────────────────────────────────────

  datatype Op = Records(peer: Peer) | Releases(node: string, ip: string)

  function Apply(b: Book, op: Op): (r: Book) {
    match op
    case Records(p) => Record(b, p)
    case Releases(node, ip) => Release(b, node, ip)
  }

  function ApplyAll(b: Book, ops: seq<Op>): (r: Book)
    decreases |ops|
  {
    if ops == [] then b else ApplyAll(Apply(b, ops[0]), ops[1..])
  }

  /** Any sequence of records and releases keeps the ledger consistent. */
  lemma {:induction false} LedgerConsistent(b: Book, ops: seq<Op>)
    requires Consistent(b)
    ensures Consistent(ApplyAll(b, ops))
    decreases |ops|
  {
    if ops != [] {
      match ops[0] {
        case Records(p) => RecordConsistent(b, p);
        case Releases(node, ip) => ReleaseConsistent(b, node, ip);
      }
      LedgerConsistent(Apply(b, ops[0]), ops[1..]);
    }
  }

  predicate Names(op: Op, p: Peer) {
    op.Releases? && (p.node == op.node || p.ip == op.ip)
  }

  /** A recorded peer and its address stay exactly until a release names the node or the address. */
  lemma StaysIff(b: Book, p: Peer, op: Op)
    requires Consistent(b) && p in b.peers
    ensures p in Apply(b, op).peers <==> !Names(op, p)
    ensures !Names(op, p) ==> p.ip in Apply(b, op).used
  {
    if op.Releases? {
      StayingMembers(b.peers, op.node, op.ip);
      WithoutMembers(b.used, op.ip);
    }
  }

  lemma {:induction false} PeerStays(b: Book, p: Peer, ops: seq<Op>)
    requires Consistent(b) && p in b.peers
    requires forall op | op in ops :: !Names(op, p)
    ensures p in ApplyAll(b, ops).peers && p.ip in ApplyAll(b, ops).used
    decreases |ops|
  {
    if ops != [] {
      StaysIff(b, p, ops[0]);
      LedgerConsistent(b, [ops[0]]);
      assert ApplyAll(b, [ops[0]]) == Apply(b, ops[0]);
      PeerStays(Apply(b, ops[0]), p, ops[1..]);
    }
  }

  // ── Idempotence and undoing ──────────────────────────────────────────────

  lemma RecordIdempotent(b: Book, p: Peer)
    ensures Record(Record(b, p), p) == Record(b, p)
    ensures p.ip in Record(b, p).used && HasPeer(Record(b, p).peers, p.key, p.ip)
  {
    if !HasPeer(b.peers, p.key, p.ip) {
      assert Clashes(p, p.key, p.ip) && p in Record(b, p).peers;
    }
  }

  lemma {:induction false} NothingLeaves(peers: seq<Peer>, node: string, ip: string)
    ensures Staying(peers, node, ip) == peers <==> forall p | p in peers :: !Leaves(p, node, ip)
    decreases |peers|
  {
    if peers != [] {
      var n := |peers| - 1;
      NothingLeaves(peers[..n], node, ip);
      StayingMembers(peers[..n], node, ip);
      assert peers == peers[..n] + [peers[n]];
    }
  }

  lemma {:induction false} NothingRemoved(used: seq<string>, ip: string)
    requires ip !in used
    ensures Without(used, ip) == used
    decreases |used|
  {
    if used != [] {
      NothingRemoved(used[..|used| - 1], ip);
    }
  }

  /** Recording a peer and releasing it again restores both lists exactly when neither its address
    * nor its node was in the ledger. */
  lemma RecordReleaseIff(b: Book, p: Peer)
    requires p.ip != ""
    ensures Release(Record(b, p), p.node, p.ip) == b <==>
      p.ip !in b.used && forall q | q in b.peers :: q.node != p.node && q.ip != p.ip
  {
    var r := Record(b, p);
    WithoutMembers(r.used, p.ip);
    assert r.used == b.used + [p.ip] || r.used == b.used;
    assert (b.used + [p.ip])[..|b.used|] == b.used;
    if p.ip !in b.used {
      NothingRemoved(b.used, p.ip);
    }
    NothingLeaves(b.peers, p.node, p.ip);
    StayingMembers(r.peers, p.node, p.ip);
    assert (b.peers + [p])[..|b.peers|] == b.peers;
  }

  // ── Merge patches ────────────────────────────────────────────────────────

  /** A merge patch carries every list that changed, whole, and no version. */
  function Patched(server: Book, base: Book, mine: Book): (r: Book) {
    Book(if mine.used != base.used then mine.used else server.used,
         if mine.peers != base.peers then mine.peers else server.peers)
  }

  /** Which of the addresses and peers on the server a record's patch drops: what others added since the
    * read, when the patch carries that list at all. */
  lemma RecordDropsIff(server: Book, base: Book, p: Peer)
    ensures
      var after := Patched(server, base, Record(base, p));
      && (forall a | a in server.used :: a !in after.used <==> p.ip !in base.used && a !in base.used && a != p.ip)
      && (forall q | q in server.peers ::
            q !in after.peers <==> !HasPeer(base.peers, p.key, p.ip) && q !in base.peers && q != p)
  {
    assert p.ip !in base.used ==> (base.used + [p.ip])[|base.used|] == p.ip;
    assert (base.peers + [p])[|base.peers|] == p;
  }

  /** Another record got in between: its address survives exactly when ours changed nothing or is the
    * same address. */
  lemma LostUpdateIff(base: Book, p: Peer, q: Peer)
    requires q.ip !in base.used
    ensures q.ip in Patched(Record(base, q), base, Record(base, p)).used <==> p.ip in base.used || p.ip == q.ip
  {
    RecordDropsIff(Record(base, q), base, p);
    RecordIdempotent(base, q);
  }

  /** A record's patch leaves its address and a peer with its key or address listed exactly when it
    * carries the list, or when the server still lists them. */
  lemma RecordedIff(server: Book, base: Book, p: Peer)
    ensures
      var after := Patched(server, base, Record(base, p));
      && (p.ip in after.used <==> p.ip !in base.used || p.ip in server.used)
      && (HasPeer(after.peers, p.key, p.ip) <==>
            !HasPeer(base.peers, p.key, p.ip) || HasPeer(server.peers, p.key, p.ip))
  {
    RecordIdempotent(base, p);
    assert p.ip !in base.used ==> (base.used + [p.ip])[|base.used|] == p.ip;
    assert (base.peers + [p])[|base.peers|] == p;
  }

  lemma RemovedSomething(used: seq<string>, ip: string)
    ensures Without(used, ip) == used <==> ip !in used
  {
    WithoutMembers(used, ip);
    if ip !in used {
      NothingRemoved(used, ip);
    }
  }

  /** Which of the addresses and peers on the server a release's patch drops: its own, and what others
    * added since the read, when the read list had anything to release. */
  lemma ReleaseDropsIff(server: Book, base: Book, node: string, ip: string)
    ensures
      var after := Patched(server, base, Release(base, node, ip));
      && (forall a | a in server.used ::
            a !in after.used <==> ip != "" && ip in base.used && (a == ip || a !in base.used))
      && (forall q | q in server.peers ::
            q !in after.peers <==>
              (exists r | r in base.peers :: r.node == node || r.ip == ip)
              && (q.node == node || q.ip == ip || q !in base.peers))
  {
    RemovedSomething(base.used, ip);
    WithoutMembers(base.used, ip);
    NothingLeaves(base.peers, node, ip);
    StayingMembers(base.peers, node, ip);
  }

  /** Two consistent ledgers combine to a consistent one when the patch carries both lists or none. */
  lemma PatchConsistent(server: Book, base: Book, mine: Book)
    requires Consistent(server) && Consistent(mine)
    requires mine.used != base.used <==> mine.peers != base.peers
    ensures Consistent(Patched(server, base, mine))
  {
  }

  /** When it carries one list only, the result can contradict itself: a record whose address is listed
    * already, and a release of that address in between. */
  lemma PatchCanContradict(node: string, key: string, ip: string)
    requires ip != ""
    ensures
      var base := Book([ip], []);
      var server := Release(base, node, ip);
      && Consistent(base) && Consistent(server) && Consistent(Record(base, Peer(node, key, ip)))
      && !Consistent(Patched(server, base, Record(base, Peer(node, key, ip))))
  {
    var base := Book([ip], []);
    assert base.used[..0] == [] && base.used[0] == ip;
    assert Without([ip], ip) == [];
    var after := Patched(Release(base, node, ip), base, Record(base, Peer(node, key, ip)));
    assert after.used == [] && after.peers[0] == Peer(node, key, ip);
    assert Peer(node, key, ip) in after.peers;
  }

  // ── The retry loops ──────────────────────────────────────────────────────

  /** A lost answer leaves the patch applied. */
  datatype PatchAnswer = Done | Lost | Clash | Error

  /** What one attempt meets: what others write before its read and between its read and its patch,
    * whether the read succeeds, and what the patch answers. */
  datatype Attempt = Attempt(before: seq<Op>, get: bool, between: seq<Op>, patch: PatchAnswer)

  /** The ledger afterwards; `base`: what the last attempt read; `server`: what was there when its patch
    * arrived; `wrote`: a patch took effect. */
  datatype Outcome = Outcome(book: Book, ok: bool, base: Book, server: Book, wrote: bool)

  /** Up to one attempt each, another one only after a conflict.  A record with nothing to add does not
    * patch. */
  function Attempts(b: Book, op: Op, answers: seq<Attempt>): (r: Outcome)
    decreases |answers|
  {
    if answers == [] then Outcome(b, false, b, b, false)
    else
      var base := ApplyAll(b, answers[0].before);
      var mine := Apply(base, op);
      var server := ApplyAll(base, answers[0].between);
      if !answers[0].get then Outcome(base, false, base, base, false)
      else if op.Records? && mine == base then Outcome(base, true, base, base, false)
      else match answers[0].patch
        case Done => Outcome(Patched(server, base, mine), true, base, server, true)
        case Lost => Outcome(Patched(server, base, mine), false, base, server, true)
        case Error => Outcome(server, false, base, server, false)
        case Clash => Attempts(server, op, answers[1..])
  }

  /** An attempt after which there is no other. */
  predicate Ends(a: Attempt) {
    !a.get || !a.patch.Clash?
  }

  /** Only a conflict is tried again: behind an attempt that ends otherwise, nothing makes a difference. */
  lemma {:induction false} OnlyConflictsRetried(b: Book, op: Op, answers: seq<Attempt>, more: seq<Attempt>)
    requires exists a | a in answers :: Ends(a)
    ensures Attempts(b, op, answers + more) == Attempts(b, op, answers)
    decreases |answers|
  {
    var a := answers[0];
    assert (answers + more)[0] == a && (answers + more)[1..] == answers[1..] + more;
    if !Ends(a) {
      assert answers == [a] + answers[1..];
      OnlyConflictsRetried(ApplyAll(ApplyAll(b, a.before), a.between), op, answers[1..], more);
    }
  }

  /** When every attempt ends in a conflict, a release fails and has written nothing. */
  lemma {:induction false} ConflictsOnly(b: Book, node: string, ip: string, answers: seq<Attempt>)
    requires forall a | a in answers :: a.get && a.patch.Clash?
    ensures !Attempts(b, Releases(node, ip), answers).ok && !Attempts(b, Releases(node, ip), answers).wrote
    decreases |answers|
  {
    if answers != [] {
      assert answers[0] in answers;
      ConflictsOnly(ApplyAll(ApplyAll(b, answers[0].before), answers[0].between), node, ip, answers[1..]);
    }
  }

  /** A read that fails or a patch that is refused otherwise than by a conflict fails at once, and nothing is
    * written; a record that finds everything there succeeds without a patch. */
  lemma FirstAttemptDecides(b: Book, op: Op, answers: seq<Attempt>)
    requires answers != [] && answers[0].before == []
    ensures
      var a, r := answers[0], Attempts(b, op, answers);
      && (!a.get ==> !r.ok && r.book == b)
      && (a.get && op.Records? && Apply(b, op) == b ==> r.ok && r.book == b)
      && (a.get && a.patch.Error? && !(op.Records? && Apply(b, op) == b) ==>
            !r.ok && !r.wrote && r.book == ApplyAll(b, a.between))
  {
    assert ApplyAll(b, []) == b;
  }

  lemma {:induction false} OutcomePatch(b: Book, op: Op, answers: seq<Attempt>)
    ensures
      var r := Attempts(b, op, answers);
      && (r.wrote ==> r.book == Patched(r.server, r.base, Apply(r.base, op)))
      && (!r.wrote ==> r.book == r.server && (r.ok ==> op.Records? && r.base == r.server == Apply(r.base, op)))
    decreases |answers|
  {
    if answers != [] && answers[0].patch.Clash? {
      OutcomePatch(ApplyAll(ApplyAll(b, answers[0].before), answers[0].between), op, answers[1..]);
    }
  }

  /** A record that reports success, with others writing at any point of any attempt: its address and
    * its peer are listed exactly when the last attempt added them or the others left them there, and of
    * what the others had written it drops exactly what they had added since that attempt's read. */
  lemma RecordOutcome(b: Book, p: Peer, answers: seq<Attempt>)
    requires Attempts(b, Records(p), answers).ok
    ensures
      var r := Attempts(b, Records(p), answers);
      && (p.ip in r.book.used <==> p.ip !in r.base.used || p.ip in r.server.used)
      && (HasPeer(r.book.peers, p.key, p.ip) <==>
            !HasPeer(r.base.peers, p.key, p.ip) || HasPeer(r.server.peers, p.key, p.ip))
      && (forall a | a in r.server.used ::
            a !in r.book.used <==> p.ip !in r.base.used && a !in r.base.used && a != p.ip)
      && (forall q | q in r.server.peers ::
            q !in r.book.peers <==> !HasPeer(r.base.peers, p.key, p.ip) && q !in r.base.peers && q != p)
  {
    var r := Attempts(b, Records(p), answers);
    OutcomePatch(b, Records(p), answers);
    RecordDropsIff(r.server, r.base, p);
    RecordedIff(r.server, r.base, p);
    if !r.wrote {
      RecordIdempotent(r.base, p);
    }
  }

  /** A release that reports success drops its address and its peers, as far as it had read them, and
    * what the others had added since it read. */
  lemma ReleaseOutcome(b: Book, node: string, ip: string, answers: seq<Attempt>)
    requires Attempts(b, Releases(node, ip), answers).ok
    ensures
      var r := Attempts(b, Releases(node, ip), answers);
      && (forall a | a in r.server.used ::
            a !in r.book.used <==> ip != "" && ip in r.base.used && (a == ip || a !in r.base.used))
      && (forall q | q in r.server.peers ::
            q !in r.book.peers <==>
              (exists l | l in r.base.peers :: l.node == node || l.ip == ip)
              && (q.node == node || q.ip == ip || q !in r.base.peers))
  {
    var r := Attempts(b, Releases(node, ip), answers);
    OutcomePatch(b, Releases(node, ip), answers);
    ReleaseDropsIff(r.server, r.base, node, ip);
  }

  predicate Undisturbed(answers: seq<Attempt>) {
    forall a | a in answers :: a.before == [] && a.between == []
  }

  /** With nobody else writing, the ledger is as it was or has the whole operation, and has it on
    * success. */
  lemma {:induction false} AloneOutcome(b: Book, op: Op, answers: seq<Attempt>)
    requires Undisturbed(answers)
    ensures
      var r := Attempts(b, op, answers);
      (r.book == b || r.book == Apply(b, op)) && (r.ok ==> r.book == Apply(b, op))
    decreases |answers|
  {
    if answers != [] {
      assert answers[0] in answers && ApplyAll(b, []) == b;
      assert Undisturbed(answers[1..]);
      if answers[0].patch.Clash? {
        AloneOutcome(b, op, answers[1..]);
      }
    }
  }

  class NetConfigStatus {
    var used: seq<string>
    var peers: seq<Peer>

    function Contents(): (b: Book)
      reads this
    {
      Book(used, peers)
    }

    constructor ()
      ensures Contents() == EMPTY
    {
      used, peers := [], [];
    }

    /** Others record and release. */
    method Others(ops: seq<Op>)
      modifies this
      ensures Contents() == ApplyAll(old(Contents()), ops)
    {
      for i := 0 to |ops|
        invariant ApplyAll(old(Contents()), ops) == ApplyAll(Contents(), ops[i..])
      {
        assert ops[i..][1..] == ops[i + 1..];
        var b := Apply(Contents(), ops[i]);
        used, peers := b.used, b.peers;
      }
    }

    /** The patch arrives: lists that differ from the ones read replace what is there. */
    method Patch(base: Book, mine: Book)
      modifies this
      ensures Contents() == Patched(old(Contents()), base, mine)
    {
      if mine.used != base.used {
        used := mine.used;
      }
      if mine.peers != base.peers {
        peers := mine.peers;
      }
    }

    /** The two existence checks and the appends of one attempt. */
    static method Appended(base: Book, vpnIP: string, publicKey: string, nodeName: string)
      returns (mine: Book, complete: bool)
      ensures mine == Record(base, Peer(nodeName, publicKey, vpnIP))
      ensures complete <==> mine == base
    {
      var ipExists := false;
      for i := 0 to |base.used|
        invariant !ipExists && vpnIP !in base.used[..i]
      {
        if base.used[i] == vpnIP {
          ipExists := true;
          break;
        }
      }
      assert base.used[..|base.used|] == base.used;
      var newUsed := if ipExists then base.used else base.used + [vpnIP];
      var peerExists := false;
      for i := 0 to |base.peers|
        invariant !peerExists && !HasPeer(base.peers[..i], publicKey, vpnIP)
      {
        if base.peers[i].key == publicKey || base.peers[i].ip == vpnIP {
          assert Clashes(base.peers[i], publicKey, vpnIP);
          peerExists := true;
          break;
        }
        assert base.peers[..i + 1] == base.peers[..i] + [base.peers[i]];
      }
      assert base.peers[..|base.peers|] == base.peers;
      mine := Book(newUsed, if peerExists then base.peers else base.peers + [Peer(nodeName, publicKey, vpnIP)]);
      complete := ipExists && peerExists;
    }

    /** updateNetConfigStatus, with what its five attempts meet. */
    method UpdateNetConfigStatus(vpnIP: string, publicKey: string, nodeName: string, answers: seq<Attempt>)
      returns (ok: bool)
      requires |answers| == 5
      modifies this
      ensures
        var r := Attempts(old(Contents()), Records(Peer(nodeName, publicKey, vpnIP)), answers);
        Contents() == r.book && ok == r.ok
    {
      ghost var op := Records(Peer(nodeName, publicKey, vpnIP));
      var attempt := 0;
      while attempt < 5
        invariant 0 <= attempt <= 5
        invariant Attempts(old(Contents()), op, answers) == Attempts(Contents(), op, answers[attempt..])
      {
        var answer := answers[attempt];
        assert answers[attempt..][0] == answer && answers[attempt..][1..] == answers[attempt + 1..];
        Others(answer.before);
        if !answer.get {
          return false;
        }
        var base := Book(used, peers);
        var mine, complete := Appended(base, vpnIP, publicKey, nodeName);
        if complete {
          return true;
        }
        Others(answer.between);
        match answer.patch {
          case Done =>
            Patch(base, mine);
            return true;
          case Lost =>
            Patch(base, mine);
            return false;
          case Error =>
            return false;
          case Clash =>
            attempt := attempt + 1;
        }
      }
      return false;
    }

    static method Filtered(base: Book, node: string, vpnIP: string) returns (mine: Book)
      ensures mine == Release(base, node, vpnIP)
    {
      var newPeers: seq<Peer> := [];
      for i := 0 to |base.peers|
        invariant newPeers == Staying(base.peers[..i], node, vpnIP)
      {
        assert base.peers[..i + 1][..i] == base.peers[..i];
        if base.peers[i].node == node || base.peers[i].ip == vpnIP {
          continue;
        }
        newPeers := newPeers + [base.peers[i]];
      }
      var newUsed: seq<string> := [];
      for i := 0 to |base.used|
        invariant newUsed == if vpnIP == "" then base.used[..i] else Without(base.used[..i], vpnIP)
      {
        assert base.used[..i + 1][..i] == base.used[..i];
        if vpnIP != "" && base.used[i] == vpnIP {
          continue;
        }
        newUsed := newUsed + [base.used[i]];
      }
      assert base.peers[..|base.peers|] == base.peers && base.used[..|base.used|] == base.used;
      mine := Book(newUsed, newPeers);
    }

    /** The release at the end of cleanupVPNPeer, with what its five attempts meet. */
    method ReleaseAddress(node: string, vpnIP: string, answers: seq<Attempt>) returns (ok: bool)
      requires |answers| == 5
      modifies this
      ensures
        var r := Attempts(old(Contents()), Releases(node, vpnIP), answers);
        Contents() == r.book && ok == r.ok
    {
      ghost var op := Releases(node, vpnIP);
      var attempt := 0;
      while attempt < 5
        invariant 0 <= attempt <= 5
        invariant Attempts(old(Contents()), op, answers) == Attempts(Contents(), op, answers[attempt..])
      {
        var answer := answers[attempt];
        assert answers[attempt..][0] == answer && answers[attempt..][1..] == answers[attempt + 1..];
        Others(answer.before);
        if !answer.get {
          return false;
        }
        var base := Book(used, peers);
        var mine := Filtered(base, node, vpnIP);
        Others(answer.between);
        match answer.patch {
          case Done =>
            Patch(base, mine);
            return true;
          case Lost =>
            Patch(base, mine);
            return false;
          case Error =>
            return false;
          case Clash =>
            attempt := attempt + 1;
        }
      }
      return false;
    }

    /** Which peer a clean-up removes and which address it releases. */
    method Resolve(name: string, statusVpnIP: string, statusIP: string) returns (key: string, vpnIP: string)
      ensures (key, vpnIP) == Resolved(peers, name, statusVpnIP, statusIP)
      ensures forall i: nat | FirstAbout(peers, name, statusVpnIP, i) && peers[i].ip != "" ::
        key == peers[i].key && vpnIP == peers[i].ip
      ensures (forall p | p in peers :: p.node != name && p.ip != statusVpnIP) ==>
        key == "" && vpnIP == if statusVpnIP != "" then statusVpnIP else statusIP
    {
      ResolvedIff(peers, name, statusVpnIP, statusIP);
      key := "";
      var resolvedVpnIP := "";
      for i := 0 to |peers|
        invariant key == "" && resolvedVpnIP == ""
        invariant Match(peers, name, statusVpnIP) == Match(peers[i..], name, statusVpnIP)
      {
        assert peers[i..][1..] == peers[i + 1..];
        if peers[i].node == name || peers[i].ip == statusVpnIP {
          key, resolvedVpnIP := peers[i].key, peers[i].ip;
          break;
        }
      }
      vpnIP := resolvedVpnIP;
      if vpnIP == "" {
        vpnIP := statusVpnIP;
      }
      if vpnIP == "" {
        vpnIP := statusIP;
      }
    }
  }

  // ── Whose address a clean-up names ───────────────────────────────────────

  /** The first peer with the node's name or the address in the node's status. */
  function Match(peers: seq<Peer>, name: string, ip: string): (r: Option<Peer>) {
    if peers == [] then None
    else if Leaves(peers[0], name, ip) then Some(peers[0])
    else Match(peers[1..], name, ip)
  }

  function Resolved(peers: seq<Peer>, name: string, statusVpnIP: string, statusIP: string): (r: (string, string)) {
    var m := Match(peers, name, statusVpnIP);
    var key := if m.Some? then m.value.key else "";
    var own := if m.Some? then m.value.ip else "";
    (key, if own != "" then own else if statusVpnIP != "" then statusVpnIP else statusIP)
  }

  lemma {:induction false} MatchIn(peers: seq<Peer>, name: string, ip: string)
    ensures Match(peers, name, ip).Some? ==>
      Match(peers, name, ip).value in peers && Leaves(Match(peers, name, ip).value, name, ip)
    ensures Match(peers, name, ip).None? ==> forall p | p in peers :: !Leaves(p, name, ip)
    decreases |peers|
  {
    if peers != [] {
      MatchIn(peers[1..], name, ip);
      assert peers == [peers[0]] + peers[1..];
    }
  }

  /** The peer at i is the first one of the node or at the address. */
  ghost predicate FirstAbout(peers: seq<Peer>, name: string, ip: string, i: nat) {
    && i < |peers| && (peers[i].node == name || peers[i].ip == ip)
    && forall j | 0 <= j < i :: peers[j].node != name && peers[j].ip != ip
  }

  lemma {:induction false} MatchIsFirst(peers: seq<Peer>, name: string, ip: string, i: nat)
    requires FirstAbout(peers, name, ip, i)
    ensures Match(peers, name, ip) == Some(peers[i])
    decreases i
  {
    if i > 0 {
      assert peers[0].node != name && peers[0].ip != ip;
      forall j | 0 <= j < i - 1
        ensures peers[1..][j].node != name && peers[1..][j].ip != ip
      {
        assert peers[1..][j] == peers[j + 1];
      }
      MatchIsFirst(peers[1..], name, ip, i - 1);
    }
  }

  lemma {:induction false} SomeFirst(peers: seq<Peer>, name: string, ip: string) returns (i: nat)
    requires exists p | p in peers :: p.node == name || p.ip == ip
    ensures FirstAbout(peers, name, ip, i)
    decreases |peers|
  {
    if peers[0].node == name || peers[0].ip == ip {
      i := 0;
    } else {
      assert peers == [peers[0]] + peers[1..];
      i := SomeFirst(peers[1..], name, ip);
      i := i + 1;
    }
  }

  /** A clean-up takes key and address of the first ledger peer with the node's name or its VPN address;
    * where that peer has no address, or there is no such peer, the node's VPN address, else its other one. */
  lemma ResolvedIff(peers: seq<Peer>, name: string, statusVpnIP: string, statusIP: string)
    ensures
      var (key, ip) := Resolved(peers, name, statusVpnIP, statusIP);
      var own := if statusVpnIP != "" then statusVpnIP else statusIP;
      && (forall i: nat | FirstAbout(peers, name, statusVpnIP, i) ::
            key == peers[i].key && ip == if peers[i].ip != "" then peers[i].ip else own)
      && ((forall p | p in peers :: p.node != name && p.ip != statusVpnIP) ==> key == "" && ip == own)
  {
    forall i: nat | FirstAbout(peers, name, statusVpnIP, i)
      ensures Match(peers, name, statusVpnIP) == Some(peers[i])
    {
      MatchIsFirst(peers, name, statusVpnIP, i);
    }
    MatchIn(peers, name, statusVpnIP);
  }

  /** A node that was reset while the VPN server could not be reached has no address in its status any
    * more: its clean-up finds its peer by name all the same, and the release takes the peer and its address
    * out of the ledger and nothing else. */
  lemma NameAloneReleases(b: Book, p: Peer)
    requires Consistent(b) && p in b.peers && forall q | q in b.peers :: q.ip != ""
    requires forall q | q in b.peers && q.node == p.node :: q == p
    ensures Resolved(b.peers, p.node, "", "") == (p.key, p.ip)
    ensures
      var r := Release(b, p.node, p.ip);
      && (forall q :: q in r.peers <==> q in b.peers && q != p)
      && (forall a :: a in r.used <==> a in b.used && a != p.ip)
  {
    var i := SomeFirst(b.peers, p.node, "");
    assert b.peers[i] in b.peers;
    ResolvedIff(b.peers, p.node, "", "");
    ReleaseIff(b, p.node, p.ip);
    SoleOwner(b, p);
  }

  lemma SoleOwner(b: Book, p: Peer)
    requires Consistent(b) && p in b.peers
    ensures forall q | q in b.peers && q.ip == p.ip :: q == p
  {
    forall q | q in b.peers && q.ip == p.ip
      ensures q == p
    {
      var i :| 0 <= i < |b.peers| && b.peers[i] == p;
      var j :| 0 <= j < |b.peers| && b.peers[j] == q;
    }
  }

  /** In a consistent ledger, a clean-up of a node that owns its status address, and whose name no
    * other peer carries, resolves to its own key and address and leaves every other peer alone. */
  lemma ResolvesOwn(b: Book, p: Peer, statusIP: string)
    requires Consistent(b) && p in b.peers && p.ip != ""
    requires forall q | q in b.peers && q.node == p.node :: q == p
    ensures Resolved(b.peers, p.node, p.ip, statusIP) == (p.key, p.ip)
    ensures forall q :: q in Release(b, p.node, p.ip).peers <==> q in b.peers && q != p
  {
    MatchIn(b.peers, p.node, p.ip);
    StayingMembers(b.peers, p.node, p.ip);
    SoleOwner(b, p);
  }
}
