/** The address scan on integers: from a start upwards, with wrap-around, until a free address or
  * the end of the range. */
module Scan {
  import opened IPv4

  /** The addresses from lo up to hi, hi excluded.  A range with a prefix of at least one bit takes
    * up at most half of the address space. */
  datatype Range = Range(lo: nat, hi: nat) {
    predicate Valid() {
      lo < hi <= SPACE && 2 * (hi - lo) <= SPACE
    }

    predicate Has(v: int) {
      lo <= v < hi
    }
  }

  function Plus(start: Address, k: nat): Address {
    (start + k) % SPACE
  }

  lemma PlusOne(start: Address, k: nat)
    ensures Plus(Plus(start, k), 1) == Plus(start, k + 1)
  {
  }

  /** The first k addresses after start are all in the range and used. */
  ghost predicate Skipped(r: Range, used: iset<Address>, start: Address, k: nat) {
    forall j | 1 <= j <= k :: r.Has(Plus(start, j)) && Plus(start, j) in used
  }

  ghost predicate Stops(r: Range, used: iset<Address>, start: Address, k: nat, v: Address) {
    Skipped(r, used, start, k) && v == Plus(start, k + 1)
  }

  /** The scan answers v. */
  ghost predicate Finds(r: Range, used: iset<Address>, start: Address, v: Address) {
    r.Has(v) && v !in used && exists k: nat :: Stops(r, used, start, k, v)
  }

  /** The scan leaves the range first. */
  ghost predicate RunsOut(r: Range, used: iset<Address>, start: Address) {
    exists k: nat, v: Address :: Stops(r, used, start, k, v) && !r.Has(v)
  }

  lemma StepInRange(r: Range, v: Address)
    requires r.Valid() && r.Has(v) && r.Has(Plus(v, 1))
    ensures Plus(v, 1) == v + 1
  {
  }

  /** One more used address skipped: the scan has moved up. */
  lemma SkipOne(r: Range, used: iset<Address>, start: Address, k: nat, v: Address)
    requires r.Valid() && Stops(r, used, start, k, v) && r.Has(v) && v in used
    ensures Skipped(r, used, start, k + 1)
    ensures k > 0 ==> Plus(start, k) < v
  {
    if k > 0 {
      assert r.Has(Plus(start, k));
      StepInRange(r, Plus(start, k));
    }
  }

  /** What the address k + 1 steps up tells, once the first k are skipped. */
  lemma LookedAt(r: Range, used: iset<Address>, start: Address, k: nat)
    requires r.Valid() && Skipped(r, used, start, k)
    ensures
      var v := Plus(start, k + 1);
      && v == Plus(Plus(start, k), 1)
      && (!r.Has(v) ==> RunsOut(r, used, start))
      && (r.Has(v) && v !in used ==> Finds(r, used, start, v))
      && (r.Has(v) && v in used ==> Skipped(r, used, start, k + 1) && (k > 0 ==> Plus(start, k) < v))
  {
    var v := Plus(start, k + 1);
    PlusOne(start, k);
    assert Stops(r, used, start, k, v);
    if r.Has(v) && v in used {
      SkipOne(r, used, start, k, v);
    }
  }

  lemma StopsNoLater(r: Range, used: iset<Address>, start: Address, k: nat, v: Address, l: nat, w: Address)
    requires Stops(r, used, start, k, v) && Stops(r, used, start, l, w)
    requires !(r.Has(v) && v in used)
    ensures l <= k
  {
  }

  lemma StopsOnce(r: Range, used: iset<Address>, start: Address, k: nat, v: Address, l: nat, w: Address)
    requires Stops(r, used, start, k, v) && Stops(r, used, start, l, w)
    requires !(r.Has(v) && v in used) && !(r.Has(w) && w in used)
    ensures v == w
  {
    StopsNoLater(r, used, start, k, v, l, w);
    StopsNoLater(r, used, start, l, w, k, v);
  }

  /** A scan has one outcome. */
  lemma OneOutcome(r: Range, used: iset<Address>, start: Address, v: Address, w: Address)
    requires Finds(r, used, start, v)
    ensures Finds(r, used, start, w) ==> v == w
    ensures !RunsOut(r, used, start)
  {
    var k: nat :| Stops(r, used, start, k, v);
    if Finds(r, used, start, w) {
      var l: nat :| Stops(r, used, start, l, w);
      StopsOnce(r, used, start, k, v, l, w);
    }
    if l: nat, u: Address :| Stops(r, used, start, l, u) && !r.Has(u) {
      StopsOnce(r, used, start, k, v, l, u);
    }
  }

  /** The lowest address a scan looks at that can be an answer: the one above a start inside the range,
    * the lowest of all for the start just below it, and none for any other start. */
  function Begin(r: Range, start: Address): (b: nat) {
    if r.Has(start) then start + 1 else if Plus(start, 1) == r.lo then r.lo else r.hi
  }

  /** Near the range: in it, or just below it. */
  predicate Near(r: Range, start: Address) {
    r.Has(start) || Plus(start, 1) == r.lo
  }

  /** A scan that stays in the range does not wrap. */
  lemma {:induction false} Unwrapped(r: Range, used: iset<Address>, start: Address, k: nat)
    requires r.Valid() && Skipped(r, used, start, k) && r.Has(Plus(start, k + 1))
    ensures Near(r, start) && Plus(start, k + 1) == Begin(r, start) + k
    decreases k
  {
    if k > 0 {
      assert r.Has(Plus(start, k));
      Unwrapped(r, used, start, k - 1);
      PlusOne(start, k);
      StepInRange(r, Plus(start, k));
    } else {
      FirstStep(r, start);
    }
  }

  lemma FirstStep(r: Range, start: Address)
    requires r.Valid() && r.Has(Plus(start, 1))
    ensures Near(r, start) && Plus(start, 1) == Begin(r, start)
  {
  }

  /** Step by step up from the first address looked at. */
  lemma PlusFromBegin(r: Range, start: Address, j: nat)
    requires r.Valid() && Near(r, start) && j >= 1 && Begin(r, start) + j - 1 <= SPACE
    ensures Plus(start, j) == (Begin(r, start) + j - 1) % SPACE
  {
  }

  lemma SkipsUpTo(r: Range, used: iset<Address>, start: Address, v: int)
    requires r.Valid() && Near(r, start) && Begin(r, start) <= v <= r.hi
    requires forall u: Address | Begin(r, start) <= u < v :: u in used
    ensures Skipped(r, used, start, v - Begin(r, start))
  {
    forall j | 1 <= j <= v - Begin(r, start)
      ensures r.Has(Plus(start, j)) && Plus(start, j) in used
    {
      PlusFromBegin(r, start, j);
    }
  }

  lemma FoundIsLeast(r: Range, used: iset<Address>, start: Address, v: Address)
    requires r.Valid() && Finds(r, used, start, v)
    ensures Begin(r, start) <= v && forall u: Address | Begin(r, start) <= u < v :: u in used
  {
    var k: nat :| Stops(r, used, start, k, v);
    Unwrapped(r, used, start, k);
    forall u: Address | Begin(r, start) <= u < v
      ensures u in used
    {
      PlusFromBegin(r, start, u - Begin(r, start) + 1);
    }
  }

  lemma LeastIsFound(r: Range, used: iset<Address>, start: Address, v: Address)
    requires r.Valid() && Begin(r, start) <= v && r.Has(v) && v !in used
    requires forall u: Address | Begin(r, start) <= u < v :: u in used
    ensures Finds(r, used, start, v)
  {
    SkipsUpTo(r, used, start, v);
    PlusFromBegin(r, start, v - Begin(r, start) + 1);
    assert Stops(r, used, start, v - Begin(r, start), v);
  }

  /** From any start the scan answers v exactly when v is the least free address it looks at. */
  lemma FindsLeast(r: Range, used: iset<Address>, start: Address, v: Address)
    requires r.Valid()
    ensures Finds(r, used, start, v) <==>
      && Begin(r, start) <= v && r.Has(v) && v !in used
      && forall u: Address | Begin(r, start) <= u < v :: u in used
  {
    if Finds(r, used, start, v) {
      FoundIsLeast(r, used, start, v);
    } else if Begin(r, start) <= v && r.Has(v) && v !in used
              && forall u: Address | Begin(r, start) <= u < v :: u in used {
      LeastIsFound(r, used, start, v);
    }
  }

  lemma {:induction false} LeastAbove(r: Range, used: iset<Address>, start: Address, v: Address)
    returns (w: Address)
    requires r.Valid() && Begin(r, start) <= v && r.Has(v) && v !in used
    ensures Finds(r, used, start, w) && w <= v
    decreases v
  {
    if u: Address :| Begin(r, start) <= u < v && u !in used {
      w := LeastAbove(r, used, start, u);
    } else {
      FindsLeast(r, used, start, v);
      w := v;
    }
  }

  ghost predicate Succeeds(r: Range, used: iset<Address>, start: Address) {
    exists v: Address :: Finds(r, used, start, v)
  }

  /** An address is found exactly when one the scan looks at is free. */
  lemma SucceedsIff(r: Range, used: iset<Address>, start: Address)
    requires r.Valid()
    ensures Succeeds(r, used, start) <==> exists v: Address :: Begin(r, start) <= v && r.Has(v) && v !in used
  {
    if v: Address :| Finds(r, used, start, v) {
      FindsLeast(r, used, start, v);
    }
    if v: Address :| Begin(r, start) <= v && r.Has(v) && v !in used {
      var w := LeastAbove(r, used, start, v);
    }
  }

  /** With the highest address free, the scan succeeds from everywhere near the range but there. */
  lemma NearSucceedsIff(r: Range, used: iset<Address>, start: Address)
    requires r.Valid() && (r.hi - 1) as Address !in used
    ensures Succeeds(r, used, start) <==> Near(r, start) && start != r.hi - 1
  {
    SucceedsIff(r, used, start);
    if Near(r, start) && start != r.hi - 1 {
      assert Begin(r, start) <= r.hi - 1 && r.Has(r.hi - 1);
    }
  }

  lemma NothingLeft(r: Range, used: iset<Address>, start: Address)
    requires r.Valid() && forall v: Address | Begin(r, start) <= v && r.Has(v) :: v in used
    ensures RunsOut(r, used, start)
  {
    if Near(r, start) {
      SkipsUpTo(r, used, start, r.hi);
      var k := r.hi - Begin(r, start);
      PlusFromBegin(r, start, k + 1);
      assert Stops(r, used, start, k, Plus(start, k + 1));
    } else {
      FirstStepOut(r, start);
      assert Stops(r, used, start, 0, Plus(start, 1));
    }
  }

  lemma FirstStepOut(r: Range, start: Address)
    requires r.Valid() && !Near(r, start)
    ensures !r.Has(Plus(start, 1))
  {
  }

  /** The scan gives up exactly when every address it looks at is used. */
  lemma RunsOutIff(r: Range, used: iset<Address>, start: Address)
    requires r.Valid()
    ensures RunsOut(r, used, start) <==> forall v: Address | Begin(r, start) <= v && r.Has(v) :: v in used
    ensures RunsOut(r, used, start) <==> !Succeeds(r, used, start)
  {
    SucceedsIff(r, used, start);
    if v: Address :| Finds(r, used, start, v) {
      OneOutcome(r, used, start, v, v);
    } else {
      NothingLeft(r, used, start);
    }
  }

  /** Whatever addresses are used, inside the range or not: the scan succeeds from every used address
    * exactly when each of them is in the range or just below it and the highest address is free. */
  lemma EveryStartSucceedsIff(r: Range, used: iset<Address>)
    requires r.Valid()
    ensures (forall s: Address | s in used :: Succeeds(r, used, s)) <==>
      (forall s: Address | s in used :: Near(r, s)) && (r.hi - 1) as Address !in used
  {
    var top: Address := r.hi - 1;
    forall s: Address | s in used && top !in used
      ensures Succeeds(r, used, s) <==> Near(r, s)
    {
      SucceedsIff(r, used, s);
      if Near(r, s) {
        assert Begin(r, s) <= top && r.Has(top);
      }
    }
    if top in used {
      SucceedsIff(r, used, top);
    }
  }

  /** So the scan can run out with an address free: four addresses, the highest one used. */
  lemma ScanIncomplete()
    ensures
      var r, used := Range(0x0A00_0000, 0x0A00_0004), iset{0x0A00_0003 as Address};
      r.Valid() && !Succeeds(r, used, 0x0A00_0003) && r.Has(0x0A00_0001) && 0x0A00_0001 as Address !in used
  {
    SucceedsIff(Range(0x0A00_0000, 0x0A00_0004), iset{0x0A00_0003 as Address}, 0x0A00_0003);
  }

  /** And it runs out from an address of another network with the whole range free. */
  lemma ForeignStartRunsOut()
    ensures
      var r, used := Range(0x0A00_0000, 0x0A00_0004), iset{0xC0A8_0001 as Address};
      r.Valid() && !Succeeds(r, used, 0xC0A8_0001) && forall v: Address | r.Has(v) :: v !in used
  {
    SucceedsIff(Range(0x0A00_0000, 0x0A00_0004), iset{0xC0A8_0001 as Address}, 0xC0A8_0001);
  }
}
