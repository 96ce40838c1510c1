/** Choosing a free VPN address. */
module AddressPool {
  import opened Text
  import opened IPv4
  import opened Dotted
  import opened Scan

  // ── Ranges ───────────────────────────────────────────────────────────────

  /** A parsed IPv4 CIDR: the address as written and the prefix length. */
  datatype Cidr = Cidr(ip: Address, prefix: nat)

  predicate ValidCidr(c: Cidr) {
    1 <= c.prefix <= 32
  }

  /** Mask containment, byte by byte. */
  predicate InRange(c: Cidr, ip: seq<Byte>)
    requires |ip| == 4
  {
    MaskEqual(Bytes(c.ip), ip, c.prefix)
  }

  /** The block of 2^(32 - prefix) addresses that holds the written one. */
  function RangeOf(c: Cidr): (r: Range)
    requires ValidCidr(c)
  {
    var size := Pow2(32 - c.prefix);
    Block(c.ip, size)
  }

  function Block(ip: nat, size: nat): Range
    requires size > 0
  {
    Quotient(ip, size, ip / size, ip % size);
    Range(ip / size * size, ip / size * size + size)
  }

  lemma BlockIff(x: nat, y: nat, d: nat)
    requires d > 0
    ensures x / d == y / d <==> Block(x, d).Has(y)
  {
    assert y == y / d * d + y % d;
    if x / d * d <= y < x / d * d + d {
      Quotient(y, d, x / d, y - x / d * d);
    }
  }

  lemma BlockBound(x: nat, d: nat, k: nat)
    requires d > 0 && x < k * d
    ensures Block(x, d).hi <= k * d
  {
    assert x == x / d * d + x % d;
    LessFactor(x / d, k, d);
    var gap := k - x / d - 1;
    assert k * d - x / d * d - d == gap * d;
    if gap >= 1 {
      MulAtLeast(gap, d);
    }
  }

  lemma Pow2ThirtyTwo()
    ensures Pow2(32) == SPACE && Pow2(31) == SPACE / 2
  {
    Pow2Eight();
    Pow2Add(8, 8);
    Pow2Add(16, 16);
  }

  /** A block whose size divides the address space, at most into halves, lies in it. */
  lemma BlockValid(x: Address, d: nat, k: nat)
    requires d > 0 && k * d == SPACE && 2 * d <= SPACE
    ensures Block(x, d).Valid() && Block(x, d).Has(x)
  {
    BlockIff(x, x, d);
    BlockBound(x, d, k);
  }

  lemma RangeHolds(c: Cidr)
    requires ValidCidr(c)
    ensures RangeOf(c).Valid() && RangeOf(c).Has(c.ip)
  {
    var n := 32 - c.prefix;
    Pow2ThirtyTwo();
    Pow2Add(c.prefix, n);
    Pow2Mono(n, 31);
    BlockValid(c.ip, Pow2(n), Pow2(c.prefix));
  }

  /** Containment is an integer interval within the address space. */
  lemma RangeIsInterval(c: Cidr, ip: seq<Byte>)
    requires ValidCidr(c) && |ip| == 4
    ensures InRange(c, ip) <==> RangeOf(c).Has(Value(ip))
    ensures RangeOf(c).Valid() && RangeOf(c).Has(c.ip)
  {
    RangeHolds(c);
    MaskEqualIff(Bytes(c.ip), ip, c.prefix);
    BlockIff(c.ip, Value(ip), Pow2(32 - c.prefix));
  }

  /** The address has the written one's bits up to the prefix. */
  predicate SharesPrefix(c: Cidr, v: nat)
    requires ValidCidr(c)
  {
    SameNetwork(c.ip, v, 32 - c.prefix)
  }

  /** Containment, bit mask and interval alike, is sharing the prefix; and the interval holds one address for
    * each value of the host bits. */
  lemma RangeIsPrefix(c: Cidr, v: Address)
    requires ValidCidr(c)
    ensures RangeOf(c).Has(v) <==> SharesPrefix(c, v)
    ensures InRange(c, Bytes(v)) <==> SharesPrefix(c, v)
    ensures RangeOf(c).hi - RangeOf(c).lo == Pow2(32 - c.prefix)
  {
    RangeIsInterval(c, Bytes(v));
    BlockIff(c.ip, v, Pow2(32 - c.prefix));
  }

  /** In a range with a prefix of at least eight bits no address's text ends with another's. */
  lemma RangeSuffixFree(c: Cidr, v: Address, w: Address)
    requires 8 <= c.prefix <= 32 && SharesPrefix(c, v) && SharesPrefix(c, w)
    ensures EndsWith(Format(v), Format(w)) <==> v == w
  {
    RangeIsPrefix(c, v);
    RangeIsPrefix(c, w);
    FirstByteFixed(Bytes(c.ip), Bytes(v), c.prefix);
    FirstByteFixed(Bytes(c.ip), Bytes(w), c.prefix);
    SuffixFree(v, w);
  }

  // ── The scan ─────────────────────────────────────────────────────────────

  datatype Choice = Found(ip: string) | Exhausted | BadRange | BadStart

  /** The addresses whose text is in a list. */
  ghost function Listed(used: seq<string>): iset<Address> {
    iset a: Address | Format(a) in used
  }

  /** Where a scan begins: the last list element when there is one, else the address written in the
    * range. */
  function Start(c: Cidr, used: seq<string>): (r: Option<Address>) {
    if |used| > 0 && used[|used| - 1] != "" then Parse(used[|used| - 1]) else Some(c.ip)
  }

  method Contains(used: seq<string>, ip: string) returns (found: bool)
    ensures found <==> ip in used
  {
    for i := 0 to |used|
      invariant ip !in used[..i]
    {
      if used[i] == ip {
        return true;
      }
    }
    assert used[..|used|] == used;
    return false;
  }

  method NetContains(c: Cidr, ip: array<Byte>, ghost range: Range) returns (inside: bool)
    requires ValidCidr(c) && ip.Length == 4 && range == RangeOf(c)
    ensures inside <==> range.Has(Value(ip[..]))
  {
    RangeIsInterval(c, ip[..]);
    inside := InRange(c, ip[..]);
  }

  method ToArray(a: Address) returns (ip: array<Byte>)
    ensures fresh(ip) && ip.Length == 4 && Value(ip[..]) == a
  {
    var bytes := Bytes(a);
    ip := new Byte[4](i requires 0 <= i < 4 => bytes[i]);
    assert ip[..] == bytes;
  }

  ghost predicate Writes(text: string, v: nat) {
    v < SPACE && text == Format(v)
  }

  method Lookup(ip: array<Byte>, used: seq<string>, ghost listed: iset<Address>) returns (text: string, found: bool)
    requires ip.Length == 4 && listed == Listed(used)
    ensures Writes(text, Value(ip[..]))
    ensures found <==> Value(ip[..]) in listed
  {
    Value4(ip[..]);
    text := Format(Value(ip[..]));
    found := Contains(used, text);
  }

  /** The scan from this start answers r. */
  ghost predicate Answers(range: Range, listed: iset<Address>, start: Address, r: Choice) {
    match r
    case Found(ip) => exists v: Address :: Finds(range, listed, start, v) && ip == Format(v)
    case Exhausted => RunsOut(range, listed, start)
    case _ => false
  }

  lemma NextAnswers(range: Range, listed: iset<Address>, start: Address, k: nat)
    requires range.Valid() && Skipped(range, listed, start, k)
    ensures
      var v := Plus(start, k + 1);
      && v == Plus(Plus(start, k), 1)
      && (!range.Has(v) ==> Answers(range, listed, start, Exhausted))
      && (range.Has(v) && v !in listed ==> Answers(range, listed, start, Found(Format(v))))
      && (range.Has(v) && v in listed ==> Skipped(range, listed, start, k + 1) && (k > 0 ==> Plus(start, k) < v))
  {
    LookedAt(range, listed, start, k);
  }

  /** One address up, and what the range and the list say of it. */
  method Advance(c: Cidr, ip: array<Byte>, used: seq<string>, ghost range: Range, ghost listed: iset<Address>,
                 ghost start: Address, ghost k: nat)
    returns (inside: bool, text: string, found: bool)
    requires ValidCidr(c) && ip.Length == 4 && range == RangeOf(c) && range.Valid() && listed == Listed(used)
    requires Value(ip[..]) == Plus(start, k) && Skipped(range, listed, start, k)
    modifies ip
    ensures Value(ip[..]) == Plus(start, k + 1)
    ensures !inside ==> Answers(range, listed, start, Exhausted)
    ensures inside && !found ==> Answers(range, listed, start, Found(text))
    ensures inside && found ==>
      Skipped(range, listed, start, k + 1) && (k > 0 ==> Plus(start, k) < Plus(start, k + 1))
  {
    NextAnswers(range, listed, start, k);
    Increment(ip);
    inside := NetContains(c, ip, range);
    text, found := Lookup(ip, used, listed);
  }

  /** From a given start: the loop ends, and answers with the first unused address after it if the
    * whole stretch up to that address is in the range. */
  method ScanFrom(c: Cidr, used: seq<string>, start: Address, ghost range: Range, ghost listed: iset<Address>)
    returns (r: Choice)
    requires ValidCidr(c) && range == RangeOf(c) && range.Valid() && listed == Listed(used)
    ensures Answers(range, listed, start, r)
  {
    var nextIP := ToArray(start);
    ghost var k := 0;
    while true
      invariant fresh(nextIP) && nextIP.Length == 4
      invariant Value(nextIP[..]) == Plus(start, k)
      invariant Skipped(range, listed, start, k)
      decreases if k == 0 then SPACE + 1 else SPACE - Plus(start, k)
    {
      var inside, text, found := Advance(c, nextIP, used, range, listed, start, k);
      if !inside {
        return Exhausted;
      }
      if !found {
        return Found(text);
      }
      k := k + 1;
    }
  }

  /** An address the scan may answer: it shares the prefix and lies above the start, or the start is just
    * below all that do. */
  predicate LooksAt(c: Cidr, start: Address, u: Address)
    requires ValidCidr(c)
  {
    SharesPrefix(c, u) && if SharesPrefix(c, start) then start < u else SharesPrefix(c, (start + 1) % SPACE)
  }

  lemma LooksAtIff(c: Cidr, start: Address, u: Address)
    requires ValidCidr(c)
    ensures LooksAt(c, start, u) <==> Begin(RangeOf(c), start) <= u && RangeOf(c).Has(u)
  {
    RangeHolds(c);
    RangeIsPrefix(c, u);
    RangeIsPrefix(c, start);
    RangeIsPrefix(c, Plus(start, 1));
    if !RangeOf(c).Has(start) && RangeOf(c).Has(Plus(start, 1)) {
      FirstStep(RangeOf(c), start);
    }
  }

  /** What GetNextAvailableIP can answer for a list: the least address it looks at whose text is not listed,
    * or exhaustion when the texts of all are. */
  ghost predicate Chooses(cidr: Option<Cidr>, used: seq<string>, r: Choice)
    requires cidr.Some? ==> ValidCidr(cidr.value)
  {
    if cidr.None? then r == BadRange
    else if Start(cidr.value, used).None? then r == BadStart
    else
      var c, start := cidr.value, Start(cidr.value, used).value;
      match r
      case Found(ip) =>
        exists v: Address | LooksAt(c, start, v) ::
          && ip == Format(v) && ip !in used
          && forall u: Address | LooksAt(c, start, u) && u < v :: Format(u) in used
      case Exhausted => forall u: Address | LooksAt(c, start, u) :: Format(u) in used
      case _ => false
  }

  lemma FoundIsLeastFree(c: Cidr, used: seq<string>, start: Address, v: Address)
    requires ValidCidr(c) && Finds(RangeOf(c), Listed(used), start, v)
    ensures LooksAt(c, start, v) && Format(v) !in used
    ensures forall u: Address | LooksAt(c, start, u) && u < v :: Format(u) in used
  {
    RangeHolds(c);
    FindsLeast(RangeOf(c), Listed(used), start, v);
    LooksAtIff(c, start, v);
    forall u: Address | LooksAt(c, start, u) && u < v
      ensures Format(u) in used
    {
      LooksAtIff(c, start, u);
      assert u in Listed(used);
    }
  }

  lemma ExhaustedIsAllUsed(c: Cidr, used: seq<string>, start: Address)
    requires ValidCidr(c) && RunsOut(RangeOf(c), Listed(used), start)
    ensures forall u: Address | LooksAt(c, start, u) :: Format(u) in used
  {
    RangeHolds(c);
    RunsOutIff(RangeOf(c), Listed(used), start);
    forall u: Address | LooksAt(c, start, u)
      ensures Format(u) in used
    {
      LooksAtIff(c, start, u);
      assert u in Listed(used);
    }
  }

  lemma AnswersAreChoices(c: Cidr, used: seq<string>, start: Address, r: Choice)
    requires ValidCidr(c) && Start(c, used) == Some(start) && Answers(RangeOf(c), Listed(used), start, r)
    ensures Chooses(Some(c), used, r)
  {
    if r.Found? {
      var v: Address :| Finds(RangeOf(c), Listed(used), start, v) && r.ip == Format(v);
      FoundIsLeastFree(c, used, start, v);
    } else {
      ExhaustedIsAllUsed(c, used, start);
    }
  }

  method GetNextAvailableIP(cidr: Option<Cidr>, used: seq<string>) returns (r: Choice)
    requires cidr.Some? ==> ValidCidr(cidr.value)
    ensures r.BadRange? <==> cidr.None?
    ensures r.BadStart? <==> cidr.Some? && Start(cidr.value, used).None?
    ensures Chooses(cidr, used, r)
  {
    var lastUsedIP := "";
    if |used| > 0 {
      lastUsedIP := used[|used| - 1];
    }
    if cidr.None? {
      return BadRange;
    }
    var nextIP := cidr.value.ip;
    if lastUsedIP != "" {
      var parsed := Parse(lastUsedIP);
      if parsed.None? {
        return BadStart;
      }
      nextIP := parsed.value;
    }
    RangeHolds(cidr.value);
    r := ScanFrom(cidr.value, used, nextIP, RangeOf(cidr.value), Listed(used));
    AnswersAreChoices(cidr.value, used, nextIP, r);
  }

  // ── Allocation ───────────────────────────────────────────────────────────

  datatype Allocation = Allocated(ip: string) | Refused(why: Choice) | Conflict(ip: string)

  /** A list of exactly these texts. */
  ghost predicate Lists(all: seq<string>, union: set<string>) {
    forall ip :: ip in all <==> ip in union
  }

  /** The union of both sources, in whatever order the map iteration yields. */
  method UnionOf(crUsed: seq<string>, peers: map<string, string>) returns (all: seq<string>)
    ensures Lists(all, (set ip | ip in crUsed) + peers.Keys)
  {
    var rest: set<string> := (set ip | ip in crUsed) + peers.Keys;
    ghost var union := rest;
    all := [];
    while rest != {}
      invariant rest <= union
      invariant forall ip :: ip in all <==> ip in union && ip !in rest
    {
      var ip :| ip in rest;
      all := all + [ip];
      rest := rest - {ip};
    }
  }

  /** `server`: what reading the live peer table answered, None when the read failed.  In the order
    * `all` that the iteration happened to take, the answer is the scan's; an answer that is an address
    * is in the range and in neither source, and the last check never fails. */
  method AllocateVPNIP(server: Option<map<string, string>>, cidr: Option<Cidr>, crUsed: seq<string>)
    returns (r: Allocation, ghost all: seq<string>)
    requires cidr.Some? ==> ValidCidr(cidr.value)
    ensures Lists(all, (set ip | ip in crUsed) + if server.Some? then server.value.Keys else {})
    ensures r.Allocated? ==>
      && Chooses(cidr, all, Found(r.ip))
      && r.ip !in crUsed
      && (server.Some? ==> r.ip !in server.value)
      && cidr.Some? && exists v: Address :: r.ip == Format(v) && SharesPrefix(cidr.value, v)
    ensures r.Refused? ==> Chooses(cidr, all, r.why) && !r.why.Found?
    ensures !r.Conflict?
  {
    var peers: map<string, string> := if server.Some? then server.value else map[];
    var list := UnionOf(crUsed, peers);
    all := list;
    var chosen := GetNextAvailableIP(cidr, list);
    if !chosen.Found? {
      r := Refused(chosen);
      return;
    }
    var ip := chosen.ip;
    r := if ip in peers then Conflict(ip) else Allocated(ip);
  }

  // ── When every order allocates ───────────────────────────────────────────

  /** In this order the scan finds an address. */
  ghost predicate Yields(c: Cidr, all: seq<string>)
    requires ValidCidr(c)
  {
    Start(c, all).Some? && exists v: Address | LooksAt(c, Start(c, all).value, v) :: Format(v) !in all
  }

  lemma YieldsSucceeds(c: Cidr, all: seq<string>, start: Address)
    requires ValidCidr(c) && Start(c, all) == Some(start)
    ensures Yields(c, all) <==> Succeeds(RangeOf(c), Listed(all), start)
  {
    RangeHolds(c);
    SucceedsIff(RangeOf(c), Listed(all), start);
    forall u: Address
      ensures LooksAt(c, start, u) <==> Begin(RangeOf(c), start) <= u && RangeOf(c).Has(u)
    {
      LooksAtIff(c, start, u);
    }
  }

  /** The highest address of the prefix. */
  predicate Highest(c: Cidr, v: Address)
    requires ValidCidr(c)
  {
    SharesPrefix(c, v) && !SharesPrefix(c, v + 1)
  }

  lemma HighestIff(c: Cidr, v: Address)
    requires ValidCidr(c)
    ensures Highest(c, v) <==> v == RangeOf(c).hi - 1
  {
    RangeHolds(c);
    BlockIff(c.ip, v, Pow2(32 - c.prefix));
    BlockIff(c.ip, v + 1, Pow2(32 - c.prefix));
  }

  /** An element that works as the last of the list: empty, and then the scan starts at the address
    * written in the range, which must not be the highest, or an address in or just below the range. */
  predicate GoodLast(c: Cidr, s: string)
    requires ValidCidr(c)
  {
    if s == "" then !Highest(c, c.ip)
    else Parse(s).Some? && (SharesPrefix(c, Parse(s).value) || SharesPrefix(c, (Parse(s).value + 1) % SPACE))
  }

  lemma NearIff(c: Cidr, a: Address)
    requires ValidCidr(c)
    ensures Near(RangeOf(c), a) <==> SharesPrefix(c, a) || SharesPrefix(c, (a + 1) % SPACE)
  {
    RangeHolds(c);
    RangeIsPrefix(c, a);
    RangeIsPrefix(c, Plus(a, 1));
    if !RangeOf(c).Has(a) && RangeOf(c).Has(Plus(a, 1)) {
      FirstStep(RangeOf(c), a);
    }
  }

  /** Started at an address read from a text other than the highest one's. */
  lemma TextSucceedsIff(r: Range, used: iset<Address>, s: string, top: Address)
    requires r.Valid() && top == r.hi - 1 && top !in used
    requires Parse(s).Some? && s != Format(top)
    ensures Succeeds(r, used, Parse(s).value) <==> Near(r, Parse(s).value)
  {
    FormatParse(s);
    NearSucceedsIff(r, used, Parse(s).value);
  }

  lemma YieldsIff(c: Cidr, all: seq<string>, top: Address)
    requires ValidCidr(c) && top == RangeOf(c).hi - 1
    requires Format(top) !in all
    ensures Yields(c, all) <==> GoodLast(c, if all == [] then "" else all[|all| - 1])
  {
    RangeHolds(c);
    var r, listed := RangeOf(c), Listed(all);
    var last := if all == [] then "" else all[|all| - 1];
    if last == "" {
      YieldsSucceeds(c, all, c.ip);
      HighestIff(c, c.ip);
      NearSucceedsIff(r, listed, c.ip);
    } else if Parse(last).Some? {
      assert last in all;
      YieldsSucceeds(c, all, Parse(last).value);
      NearIff(c, Parse(last).value);
      TextSucceedsIff(r, listed, last, top);
    }
  }

  lemma TopUsedFails(c: Cidr, all: seq<string>, top: Address)
    requires ValidCidr(c) && top == RangeOf(c).hi - 1
    requires all != [] && all[|all| - 1] == Format(top)
    ensures !Yields(c, all)
  {
    RangeHolds(c);
    ParseFormat(top);
    FormatNotEmpty(top);
    SucceedsIff(RangeOf(c), Listed(all), top);
    YieldsSucceeds(c, all, top);
  }

  lemma FormatNotEmpty(a: Address)
    ensures Format(a) != ""
  {
    FormatChars(a);
  }

  lemma {:induction false} ListOf(union: set<string>) returns (all: seq<string>)
    ensures Lists(all, union) && |all| == |union|
    decreases |union|
  {
    if union == {} {
      all := [];
    } else {
      var s :| s in union;
      var rest := ListOf(union - {s});
      all := rest + [s];
    }
  }

  lemma ListEndingIn(union: set<string>, s: string) returns (all: seq<string>)
    requires s in union
    ensures Lists(all, union) && |all| == |union| && all[|all| - 1] == s
  {
    var rest := ListOf(union - {s});
    all := rest + [s];
  }

  ghost predicate EveryOrderYields(c: Cidr, union: set<string>)
    requires ValidCidr(c)
  {
    forall all: seq<string> | Lists(all, union) :: Yields(c, all)
  }

  lemma HasElement(all: seq<string>)
    requires all != []
    ensures exists s :: s in all
  {
    assert all[0] in all;
  }

  lemma NothingUsed(c: Cidr, top: Address)
    requires ValidCidr(c) && top == RangeOf(c).hi - 1
    ensures EveryOrderYields(c, {}) <==> GoodLast(c, "")
  {
    assert Lists([], {});
    YieldsIff(c, [], top);
    forall all: seq<string> | Lists(all, {})
      ensures all == []
    {
      if all != [] {
        HasElement(all);
      }
    }
  }

  lemma LastListed(all: seq<string>, union: set<string>)
    requires Lists(all, union) && union != {}
    ensures all != [] && all[|all| - 1] in union
  {
    var s :| s in union;
    assert s in all;
  }

  lemma SomeUsed(c: Cidr, union: set<string>, top: Address)
    requires ValidCidr(c) && top == RangeOf(c).hi - 1 && union != {} && Format(top) !in union
    ensures EveryOrderYields(c, union) <==> forall s | s in union :: GoodLast(c, s)
  {
    forall all: seq<string> | Lists(all, union)
      ensures all != [] && all[|all| - 1] in union && (Yields(c, all) <==> GoodLast(c, all[|all| - 1]))
    {
      LastListed(all, union);
      YieldsIff(c, all, top);
    }
    if s :| s in union && !GoodLast(c, s) {
      var all := ListEndingIn(union, s);
      assert !Yields(c, all);
    }
  }

  /** What both sources hold together may be anything: addresses inside or outside the range, or no
    * addresses at all.  An allocation succeeds in every order of the iteration exactly when the range's
    * highest address is in neither source and each element would do as the last one; with nothing used,
    * when the address written in the range is not the highest. */
  lemma EveryOrderAllocatesIff(c: Cidr, union: set<string>, top: Address)
    requires ValidCidr(c) && Highest(c, top)
    ensures EveryOrderYields(c, union) <==>
      Format(top) !in union && (union == {} ==> GoodLast(c, "")) && (forall s | s in union :: GoodLast(c, s))
  {
    HighestIff(c, top);
    if Format(top) in union {
      var all := ListEndingIn(union, Format(top));
      TopUsedFails(c, all, top);
    } else if union == {} {
      NothingUsed(c, top);
    } else {
      SomeUsed(c, union, top);
    }
  }
}
