/** IPv4 addresses as four bytes, as integers below 2^32 and as dotted decimal text. */
module IPv4 {
  import opened Text

  type Byte = b: int | 0 <= b < 256

  const SPACE := 0x1_0000_0000

  type Address = a: int | 0 <= a < SPACE

  function Pow2(n: nat): (p: nat)
    ensures p > 0
  {
    if n == 0 then 1 else 2 * Pow2(n - 1)
  }

  // ── Bytes ────────────────────────────────────────────────────────────────

  /** Big-endian value. */
  function Value(bytes: seq<Byte>): (v: nat) {
    if bytes == [] then 0 else 256 * Value(bytes[..|bytes| - 1]) + bytes[|bytes| - 1]
  }

  lemma Value4(bytes: seq<Byte>)
    requires |bytes| == 4
    ensures Value(bytes) == (((bytes[0] as int) * 256 + bytes[1]) * 256 + bytes[2]) * 256 + bytes[3]
    ensures Value(bytes) < SPACE
  {
    assert bytes[..3][..2][..1] == [bytes[0]] && bytes[..3][..2] == [bytes[0], bytes[1]];
    assert Value(bytes[..3]) == 256 * Value(bytes[..2]) + bytes[2] by { assert bytes[..3][..2] == bytes[..2]; }
    assert Value(bytes[..2]) == 256 * Value(bytes[..1]) + bytes[1] by { assert bytes[..2][..1] == bytes[..1]; }
    assert Value(bytes[..1]) == bytes[0] by { assert bytes[..1][..0] == []; }
  }

  function Bytes(a: Address): (bytes: seq<Byte>)
    ensures |bytes| == 4 && Value(bytes) == a
  {
    var b := a / 256;
    var c := b / 256;
    var bytes := [c / 256, c % 256, b % 256, a % 256];
    Value4(bytes);
    bytes
  }

  lemma {:induction false} ValueInjective(x: seq<Byte>, y: seq<Byte>)
    requires |x| == |y|
    ensures Value(x) == Value(y) <==> x == y
    decreases |x|
  {
    if x != [] {
      var n := |x| - 1;
      ValueInjective(x[..n], y[..n]);
      assert x == x[..n] + [x[n]] && y == y[..n] + [y[n]];
    }
  }

  lemma BytesUnique(bytes: seq<Byte>)
    requires |bytes| == 4
    ensures Value(bytes) < SPACE && Bytes(Value(bytes)) == bytes
  {
    Value4(bytes);
    ValueInjective(Bytes(Value(bytes)), bytes);
  }

  /** What a carry out of the bytes behind i does to the value. */
  lemma CarryValue(was: seq<Byte>, now: seq<Byte>, i: int)
    requires |was| == |now| == 4 && -1 <= i < 4
    requires forall j | 0 <= j < i :: now[j] == was[j]
    requires i >= 0 ==> now[i] == was[i] as int + 1
    requires forall j | i < j < 4 :: now[j] == 0 && was[j] == 255
    ensures Value(now) == (Value(was) + 1) % SPACE
  {
    Value4(was);
    Value4(now);
    if i >= 0 {
      assert Value(now) == Value(was) + 1;
    }
  }

  /** The in-place carry over the last byte first: plus one, modulo 2^32. */
  method Increment(ip: array<Byte>)
    requires ip.Length == 4
    modifies ip
    ensures Value(ip[..]) == (Value(old(ip[..])) + 1) % SPACE
  {
    ghost var was := ip[..];
    var i := 3;
    while i >= 0
      invariant -1 <= i <= 3
      invariant forall j | 0 <= j <= i :: ip[j] == was[j]
      invariant forall j | i < j < 4 :: ip[j] == 0 && was[j] == 255
    {
      ip[i] := (ip[i] as int + 1) % 256;
      if ip[i] != 0 {
        break;
      }
      i := i - 1;
    }
    CarryValue(was, ip[..], i);
  }

  // ── Masks ────────────────────────────────────────────────────────────────

  /** Bitwise and of the low `bits` bits. */
  function And(x: nat, y: nat, bits: nat): (r: nat) {
    if bits == 0 then 0
    else 2 * And(x / 2, y / 2, bits - 1) + (if x % 2 == 1 && y % 2 == 1 then 1 else 0)
  }

  lemma {:induction false} AndAllOnes(x: nat, bits: nat)
    requires x < Pow2(bits)
    ensures And(x, Pow2(bits) - 1, bits) == x
    decreases bits
  {
    if bits > 0 {
      AndAllOnes(x / 2, bits - 1);
      assert (Pow2(bits) - 1) / 2 == Pow2(bits - 1) - 1 && (Pow2(bits) - 1) % 2 == 1;
    }
  }

  lemma {:induction false} AndHighOnes(x: nat, bits: nat, low: nat)
    requires low <= bits && x < Pow2(bits)
    ensures Pow2(low) <= Pow2(bits)
    ensures And(x, Pow2(bits) - Pow2(low), bits) == x / Pow2(low) * Pow2(low)
    decreases bits
  {
    if low == 0 {
      AndAllOnes(x, bits);
    } else {
      AndHighOnes(x / 2, bits - 1, low - 1);
      HalfSteps(x, Pow2(low - 1));
      var y := Pow2(bits) - Pow2(low);
      assert y / 2 == Pow2(bits - 1) - Pow2(low - 1) && y % 2 == 0;
    }
  }

  lemma HalfSteps(x: nat, p: nat)
    requires p > 0
    ensures x / (2 * p) == x / 2 / p
    ensures 2 * (x / 2 / p * p) == x / (2 * p) * (2 * p)
  {
    var h, q := x / 2, x / 2 / p;
    assert h == q * p + h % p;
    assert x == q * (2 * p) + (2 * (h % p) + x % 2);
    Quotient(x, 2 * p, q, 2 * (h % p) + x % 2);
  }

  lemma MulAtLeast(k: int, d: int)
    requires k >= 1 && d > 0
    ensures k * d >= d
  {
  }

  lemma SmallMultiple(k: int, d: int)
    requires d > 0 && -d < k * d < d
    ensures k == 0
  {
    if k >= 1 {
      MulAtLeast(k, d);
    } else if k <= -1 {
      MulAtLeast(-k, d);
    }
  }

  lemma MulCancel(a: int, b: int, d: int)
    requires d > 0
    ensures a * d == b * d <==> a == b
  {
    if a * d == b * d {
      assert (a - b) * d == 0;
      SmallMultiple(a - b, d);
    }
  }

  lemma Quotient(x: nat, d: nat, q: nat, r: nat)
    requires d > 0 && r < d && x == q * d + r
    ensures x / d == q
  {
    assert x == x / d * d + x % d;
    assert (x / d - q) * d == r - x % d;
    SmallMultiple(x / d - q, d);
  }

  /** How many of the first `prefix` bits fall into byte `i`. */
  function Ones(prefix: nat, i: nat): (k: nat)
    ensures k <= 8
  {
    if prefix <= 8 * i then 0 else if prefix >= 8 * i + 8 then 8 else prefix - 8 * i
  }

  function MaskByte(prefix: nat, i: nat): (m: nat) {
    Pow2Mono(8 - Ones(prefix, i), 8);
    Pow2(8) - Pow2(8 - Ones(prefix, i))
  }

  lemma {:induction false} Pow2Mono(m: nat, n: nat)
    requires m <= n
    ensures Pow2(m) <= Pow2(n)
    decreases n
  {
    if m < n {
      Pow2Mono(m, n - 1);
    }
  }

  lemma Pow2Eight()
    ensures Pow2(8) == 256
  {
    assert Pow2(4) == 16;
    assert Pow2(6) == 64;
  }

  lemma {:induction false} Pow2Add(m: nat, n: nat)
    ensures Pow2(m + n) == Pow2(m) * Pow2(n)
    decreases m
  {
    if m > 0 {
      Pow2Add(m - 1, n);
    }
  }

  /** The mask comparison of two addresses, byte by byte. */
  predicate MaskEqual(a: seq<Byte>, b: seq<Byte>, prefix: nat)
    requires |a| == |b|
  {
    forall i | 0 <= i < |a| :: And(a[i], MaskByte(prefix, i), 8) == And(b[i], MaskByte(prefix, i), 8)
  }

  lemma MaskByteIff(x: Byte, y: Byte, prefix: nat, i: nat)
    ensures
      var s := Pow2(8 - Ones(prefix, i));
      And(x, MaskByte(prefix, i), 8) == And(y, MaskByte(prefix, i), 8) <==> x / s == y / s
  {
    var low := 8 - Ones(prefix, i);
    Pow2Eight();
    AndHighOnes(x, 8, low);
    AndHighOnes(y, 8, low);
    MulCancel(x / Pow2(low), y / Pow2(low), Pow2(low));
  }

  /** With a prefix of at least eight bits the first byte is compared whole. */
  lemma FirstByteFixed(a: seq<Byte>, b: seq<Byte>, prefix: nat)
    requires |a| == |b| == 4 && 8 <= prefix && MaskEqual(a, b, prefix)
    ensures a[0] == b[0]
  {
    assert And(a[0], MaskByte(prefix, 0), 8) == And(b[0], MaskByte(prefix, 0), 8);
    FullByte(a[0], b[0], prefix, 0);
  }

  lemma SplitQuotient(hi: nat, lo: nat, s: nat, k: nat)
    requires s > 0 && s * k == 256 && lo < 256
    ensures (256 * hi + lo) / s == hi * k + lo / s && lo / s < k
  {
    assert lo == lo / s * s + lo % s;
    assert 256 * hi + lo == (hi * k + lo / s) * s + lo % s;
    Quotient(256 * hi + lo, s, hi * k + lo / s, lo % s);
    assert (lo / s) * s < k * s;
    LessFactor(lo / s, k, s);
  }

  lemma LessFactor(a: int, b: int, d: int)
    requires d > 0 && a * d < b * d
    ensures a < b
  {
    if a >= b {
      MulAtLeast(a - b + 1, d);
    }
  }

  lemma DropLowByte(hi: nat, lo: nat, d: nat)
    requires d > 0 && lo < 256
    ensures (256 * hi + lo) / (256 * d) == hi / d
  {
    assert hi == hi / d * d + hi % d;
    Quotient(256 * hi + lo, 256 * d, hi / d, 256 * (hi % d) + lo);
  }

  lemma MixedRadix(p: nat, q: nat, r: nat, t: nat, k: nat)
    requires q < k && t < k
    ensures p * k + q == r * k + t <==> p == r && q == t
  {
    if p * k + q == r * k + t {
      assert (p - r) * k == t - q;
      SmallMultiple(p - r, k);
    }
  }

  lemma MaskEqualLast(a: seq<Byte>, b: seq<Byte>, prefix: nat)
    requires |a| == |b| > 0
    ensures
      var n := |a| - 1;
      MaskEqual(a, b, prefix) <==>
        MaskEqual(a[..n], b[..n], prefix) && And(a[n], MaskByte(prefix, n), 8) == And(b[n], MaskByte(prefix, n), 8)
  {
    var n := |a| - 1;
    assert forall i | 0 <= i < n :: a[..n][i] == a[i] && b[..n][i] == b[i];
  }

  lemma SharedQuotient(x: nat, y: nat, a: Byte, b: Byte, s: nat, k: nat)
    requires s > 0 && s * k == 256
    ensures (256 * x + a) / s == (256 * y + b) / s <==> x == y && a / s == b / s
  {
    SplitQuotient(x, a, s, k);
    SplitQuotient(y, b, s, k);
    MixedRadix(x, a / s, y, b / s, k);
  }

  lemma PartialByte(x: nat, y: nat, a: Byte, b: Byte, prefix: nat, n: nat)
    requires 8 * n < prefix <= 8 * n + 8
    ensures
      var s := Pow2(8 * n + 8 - prefix);
      (256 * x + a) / s == (256 * y + b) / s <==>
        x == y && And(a, MaskByte(prefix, n), 8) == And(b, MaskByte(prefix, n), 8)
  {
    var u, w := 8 * n + 8 - prefix, prefix - 8 * n;
    assert 8 - Ones(prefix, n) == u && u + w == 8;
    MaskByteIff(a, b, prefix, n);
    Pow2Add(u, w);
    Pow2Eight();
    SharedQuotient(x, y, a, b, Pow2(u), Pow2(w));
  }

  lemma SameHighPart(x: nat, y: nat, a: Byte, b: Byte, d: nat)
    requires d > 0
    ensures (256 * x + a) / (256 * d) == (256 * y + b) / (256 * d) <==> x / d == y / d
  {
    DropLowByte(x, a, d);
    DropLowByte(y, b, d);
  }

  /** A byte behind the prefix is not compared at all. */
  lemma HostByte(a: Byte, b: Byte, prefix: nat, n: nat)
    requires prefix <= 8 * n
    ensures And(a, MaskByte(prefix, n), 8) == And(b, MaskByte(prefix, n), 8)
  {
    assert Ones(prefix, n) == 0;
    MaskByteIff(a, b, prefix, n);
    Pow2Eight();
    assert a as nat / 256 == 0 == b as nat / 256;
  }

  lemma WholeByte(x: nat, y: nat, a: Byte, b: Byte, prefix: nat, n: nat)
    requires prefix <= 8 * n
    ensures
      var s := Pow2(8 * n + 8 - prefix);
      (256 * x + a) / s == (256 * y + b) / s <==>
        x / Pow2(8 * n - prefix) == y / Pow2(8 * n - prefix)
  {
    var q := 8 * n - prefix;
    assert Pow2(8 * n + 8 - prefix) == 256 * Pow2(q) by {
      assert 8 * n + 8 - prefix == 8 + q;
      Pow2Add(8, q);
      Pow2Eight();
    }
    SameHighPart(x, y, a, b, Pow2(q));
  }

  /** Two values agree once their low 8n - prefix bits are dropped. */
  predicate SameNetwork(v: nat, w: nat, hostBits: nat) {
    v / Pow2(hostBits) == w / Pow2(hostBits)
  }

  lemma NetworkStep(x: nat, y: nat, a: Byte, b: Byte, prefix: nat, n: nat)
    requires prefix <= 8 * n + 8
    ensures SameNetwork(256 * x + a, 256 * y + b, 8 * n + 8 - prefix) <==>
      (if prefix <= 8 * n then SameNetwork(x, y, 8 * n - prefix) else x == y) &&
      And(a, MaskByte(prefix, n), 8) == And(b, MaskByte(prefix, n), 8)
  {
    if prefix <= 8 * n {
      WholeByte(x, y, a, b, prefix, n);
      HostByte(a, b, prefix, n);
    } else {
      PartialByte(x, y, a, b, prefix, n);
    }
  }

  /** Comparing under a mask compares the values without their host bits. */
  lemma {:induction false} MaskEqualIff(a: seq<Byte>, b: seq<Byte>, prefix: nat)
    requires |a| == |b| && prefix <= 8 * |a|
    ensures MaskEqual(a, b, prefix) <==> SameNetwork(Value(a), Value(b), 8 * |a| - prefix)
    decreases |a|
  {
    if |a| > 0 {
      var n := |a| - 1;
      var x, y := a[..n], b[..n];
      MaskEqualLast(a, b, prefix);
      NetworkStep(Value(x), Value(y), a[n], b[n], prefix, n);
      if prefix <= 8 * n {
        MaskEqualIff(x, y, prefix);
      } else {
        FullBytes(x, y, prefix);
      }
    }
  }

  lemma FullByte(a: Byte, b: Byte, prefix: nat, n: nat)
    requires 8 * n + 8 <= prefix
    ensures And(a, MaskByte(prefix, n), 8) == And(b, MaskByte(prefix, n), 8) <==> a == b
  {
    assert Ones(prefix, n) == 8 && Pow2(0) == 1;
    MaskByteIff(a, b, prefix, n);
  }

  lemma {:induction false} FullBytes(a: seq<Byte>, b: seq<Byte>, prefix: nat)
    requires |a| == |b| && 8 * |a| < prefix
    ensures MaskEqual(a, b, prefix) <==> Value(a) == Value(b)
    decreases |a|
  {
    if |a| > 0 {
      var n := |a| - 1;
      FullBytes(a[..n], b[..n], prefix);
      FullByte(a[n], b[n], prefix, n);
      MaskEqualLast(a, b, prefix);
      MixedRadix(Value(a[..n]), a[n], Value(b[..n]), b[n], 256);
    }
  }
}
