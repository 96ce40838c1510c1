/** Time-based one-time codes: RFC 6238 on top of the truncation of RFC 4226. */
module Totp {
  import opened IPv4
  import opened Dotted

  /** The HMAC-SHA-1 value; the hash itself stays abstract. */
  type Mac = h: seq<Byte> | |h| == 20 witness seq(20, _ => 0)

  const PERIOD := 30
  const MODULUS := 1_000_000

  // ── The counter ──────────────────────────────────────────────────────────

  /** The last n bytes of a number, most significant first. */
  function BigEndian(v: nat, n: nat): (b: seq<Byte>)
    ensures |b| == n
  {
    if n == 0 then [] else BigEndian(v / 256, n - 1) + [v % 256]
  }

  lemma {:induction false} BigEndianValue(v: nat, n: nat)
    requires v < Pow2(8 * n)
    ensures Value(BigEndian(v, n)) == v
    decreases n
  {
    if n > 0 {
      Pow2Eight();
      Pow2Add(8, 8 * (n - 1));
      assert 8 * n == 8 + 8 * (n - 1);
      BigEndianValue(v / 256, n - 1);
      assert BigEndian(v, n)[..n - 1] == BigEndian(v / 256, n - 1);
    }
  }

  lemma OneByteMore(rest: nat, i: nat, written: seq<Byte>)
    ensures BigEndian(rest, i + 1) + written == BigEndian(rest / 256, i) + ([rest % 256] + written)
  {
    var front := BigEndian(rest / 256, i);
    assert front + [rest % 256] + written == front + ([rest % 256] + written);
  }

  method PutUint64(v: nat) returns (b: array<Byte>)
    requires v < Pow2(64)
    ensures fresh(b) && b[..] == BigEndian(v, 8)
  {
    b := new Byte[8](_ => 0);
    var rest := v;
    for i := 8 downto 0
      invariant b.Length == 8 && fresh(b)
      invariant BigEndian(v, 8) == BigEndian(rest, i) + b[i..]
    {
      ghost var written := b[i + 1..];
      b[i] := rest % 256;
      assert b[i + 1..] == written && b[i..] == [rest % 256] + written;
      OneByteMore(rest, i, written);
      rest := rest / 256;
    }
    assert BigEndian(rest, 0) == [];
  }

  /** The steps of thirty seconds since the epoch. */
  function Counter(unix: nat): (c: nat) {
    unix / PERIOD
  }

  /** The counter bytes, and with them the code, change exactly at the step boundaries. */
  lemma SameStepIff(t: nat, u: nat)
    requires Counter(t) < Pow2(64) && Counter(u) < Pow2(64)
    ensures BigEndian(Counter(t), 8) == BigEndian(Counter(u), 8) <==> Counter(t) == Counter(u)
    ensures Counter(t) == Counter(u) <==> Counter(t) * PERIOD <= u < Counter(t) * PERIOD + PERIOD
  {
    BigEndianValue(Counter(t), 8);
    BigEndianValue(Counter(u), 8);
  }

  // ── Truncation ───────────────────────────────────────────────────────────

  function Offset(h: Mac): (o: nat)
    ensures o + 3 < |h|
  {
    h[19] % 16
  }

  /** Section 5.3 of RFC 4226: four bytes from the offset on as a big-endian number, without its
    * top bit. */
  function Truncated(h: Mac): (v: nat)
    ensures v < 0x8000_0000
  {
    var o := Offset(h);
    Value4(h[o..o + 4]);
    Value(h[o..o + 4]) % 0x8000_0000
  }

  function Code(h: Mac): (c: nat)
    ensures c < MODULUS
  {
    Truncated(h) % MODULUS
  }

  // ── Bit operations on 32-bit words ───────────────────────────────────────

  const WORD := 32

  function Shl(x: nat, k: nat): (r: nat) {
    x * Pow2(k) % SPACE
  }

  function Or(x: nat, y: nat, bits: nat): (r: nat) {
    if bits == 0 then 0
    else 2 * Or(x / 2, y / 2, bits - 1) + (if x % 2 == 1 || y % 2 == 1 then 1 else 0)
  }

  lemma {:induction false} OrZero(x: nat, bits: nat)
    requires x < Pow2(bits)
    ensures Or(x, 0, bits) == x
    decreases bits
  {
    if bits > 0 {
      OrZero(x / 2, bits - 1);
    }
  }

  lemma Halves(x: nat, p: nat)
    requires p > 0
    ensures x * (2 * p) / 2 == x * p && x * (2 * p) % 2 == 0
  {
    assert x * (2 * p) == 2 * (x * p);
  }

  /** Or-ing a number into free low bits adds it. */
  lemma {:induction false} OrAdds(x: nat, y: nat, k: nat, bits: nat)
    requires k <= bits && y < Pow2(k) && x * Pow2(k) < Pow2(bits)
    ensures Or(x * Pow2(k), y, bits) == x * Pow2(k) + y
    decreases bits
  {
    if k == 0 {
      OrZero(x, bits);
    } else {
      Halves(x, Pow2(k - 1));
      OrAdds(x, y / 2, k - 1, bits - 1);
    }
  }

  lemma AndOdd(x: nat, m: nat, bits: nat)
    requires bits > 0
    ensures And(x, 2 * m + 1, bits) == 2 * And(x / 2, m, bits - 1) + x % 2
  {
    assert (2 * m + 1) / 2 == m && (2 * m + 1) % 2 == 1;
  }

  lemma AndLowOnesStep(x: nat, p: nat, bits: nat)
    requires bits > 0 && p > 0 && And(x / 2, p - 1, bits - 1) == x / 2 % p
    ensures And(x, 2 * p - 1, bits) == x % (2 * p)
  {
    AndOdd(x, p - 1, bits);
    ModTwice(x, p);
  }

  lemma {:induction false} AndLowOnes(x: nat, k: nat, bits: nat)
    requires k <= bits
    ensures Pow2(k) - 1 >= 0 && And(x, Pow2(k) - 1, bits) == x % Pow2(k)
    decreases bits
  {
    if bits > 0 {
      if k == 0 {
        AndZero(x, bits);
      } else {
        AndLowOnes(x / 2, k - 1, bits - 1);
        AndLowOnesStep(x, Pow2(k - 1), bits);
      }
    }
  }

  lemma {:induction false} AndZero(x: nat, bits: nat)
    ensures And(x, 0, bits) == 0
    decreases bits
  {
    if bits > 0 {
      AndZero(x / 2, bits - 1);
    }
  }

  lemma ModTwice(x: nat, p: nat)
    requires p > 0
    ensures x % (2 * p) == 2 * (x / 2 % p) + x % 2
  {
    var q := x / 2 / p;
    assert x / 2 == q * p + x / 2 % p;
    assert x == q * (2 * p) + (2 * (x / 2 % p) + x % 2);
    Quotient(x, 2 * p, q, 2 * (x / 2 % p) + x % 2);
    assert x == x / (2 * p) * (2 * p) + x % (2 * p);
  }

  lemma Powers()
    ensures Pow2(4) == 0x10 && Pow2(7) == 0x80 && Pow2(8) == 0x100 && Pow2(16) == 0x1_0000
    ensures Pow2(24) == 0x100_0000 && Pow2(31) == 0x8000_0000 && Pow2(32) == 0x1_0000_0000
  {
    Pow2Eight();
    Pow2Add(8, 8);
    Pow2Add(8, 16);
    Pow2Add(16, 16);
    Pow2Add(7, 24);
    assert Pow2(8) == 2 * Pow2(7);
  }

  lemma AndMasks(x: Byte)
    ensures And(x, 0x0f, 8) == x % 16 && And(x, 0x7f, 8) == x % 128
  {
    Powers();
    AndLowOnes(x, 4, 8);
    AndLowOnes(x, 7, 8);
  }

  /** A shift that loses no bits multiplies. */
  lemma ShlFits(x: nat, k: nat, p: nat)
    requires Pow2(k) == p && x * p < SPACE
    ensures Shl(x, k) == x * p
  {
  }

  lemma OrBelow24(x: nat, y: nat)
    requires x < 0x80 && y < 0x100_0000
    ensures Or(x * 0x100_0000, y, WORD) == x * 0x100_0000 + y
  {
    Powers();
    OrAdds(x, y, 24, WORD);
  }

  lemma OrBelow16(x: nat, y: nat)
    requires x < 0x8000 && y < 0x1_0000
    ensures Or(x * 0x1_0000, y, WORD) == x * 0x1_0000 + y
  {
    Powers();
    OrAdds(x, y, 16, WORD);
  }

  lemma OrBelow8(x: nat, y: nat)
    requires x < 0x80_0000 && y < 0x100
    ensures Or(x * 0x100, y, WORD) == x * 0x100 + y
  {
    Powers();
    OrAdds(x, y, 8, WORD);
  }

  /** The shifts and ors put four bytes side by side. */
  lemma OrOfShifts(a: nat, b: Byte, c: Byte, d: Byte)
    requires a < 128
    ensures Or(Or(Or(Shl(a, 24), Shl(b, 16), WORD), Shl(c, 8), WORD), d, WORD)
         == a * 0x100_0000 + b * 0x1_0000 + c * 0x100 + d
  {
    Powers();
    ShlFits(a, 24, 0x100_0000);
    ShlFits(b, 16, 0x1_0000);
    ShlFits(c, 8, 0x100);
    var ab, abc := a * 0x100 + b, a * 0x1_0000 + b * 0x100 + c;
    OrBelow24(a, b * 0x1_0000);
    assert Or(Shl(a, 24), Shl(b, 16), WORD) == ab * 0x1_0000;
    OrBelow16(ab, c * 0x100);
    assert Or(ab * 0x1_0000, Shl(c, 8), WORD) == abc * 0x100;
    OrBelow8(abc, d);
  }

  lemma DropTopBit(a: Byte, b: Byte, c: Byte, d: Byte)
    ensures Value([a, b, c, d]) % 0x8000_0000 == a % 128 * 0x100_0000 + b * 0x1_0000 + c * 0x100 + d
  {
    Value4([a, b, c, d]);
    var low := a % 128 * 0x100_0000 + b * 0x1_0000 + c * 0x100 + d;
    assert a == a / 128 * 128 + a % 128;
    assert Value([a, b, c, d]) == a / 128 * 0x8000_0000 + low;
    assert 0 <= low < 0x8000_0000;
  }

  /** The low four bits of the last byte say where the four bytes begin; the top bit of the first one does not
    * count. */
  lemma CodeOfBytes(h: Mac, o: nat, a: int, b: int, c: int, d: int)
    requires o == h[19] % 16 && a == h[o] && b == h[o + 1] && c == h[o + 2] && d == h[o + 3]
    ensures Code(h) == (a % 128 * 0x100_0000 + b * 0x1_0000 + c * 0x100 + d) % 1_000_000
  {
    assert h[o..o + 4] == [h[o], h[o + 1], h[o + 2], h[o + 3]];
    DropTopBit(a, b, c, d);
  }

  /** The worked example of section 5.4 of RFC 4226. */
  lemma WorkedExample(h: Mac)
    requires h == [0x1f, 0x86, 0x98, 0x69, 0x0e, 0x02, 0xca, 0x16, 0x61, 0x85,
                   0x50, 0xef, 0x7f, 0x19, 0xda, 0x8e, 0x94, 0x5b, 0x55, 0x5a]
    ensures Code(h) == 872921
  {
    assert h[19] == 0x5a && h[10] == 0x50 && h[11] == 0xef && h[12] == 0x7f && h[13] == 0x19;
    CodeOfBytes(h, 10, 0x50, 0xef, 0x7f, 0x19);
  }

  // ── Text ─────────────────────────────────────────────────────────────────

  function Pow10(n: nat): (p: nat) {
    if n == 0 then 1 else 10 * Pow10(n - 1)
  }

  /** Decimal with leading zeros. */
  function Padded(v: nat, n: nat): (s: string)
    ensures |s| == n && forall c | c in s :: IsDigit(c)
  {
    if n == 0 then "" else Padded(v / 10, n - 1) + [Digit(v % 10)]
  }

  /** Padded text reads back as the number. */
  lemma {:induction false} NumberPadded(v: nat, n: nat)
    requires v < Pow10(n)
    ensures Number(Padded(v, n)) == v
    decreases n
  {
    if n > 0 {
      NumberPadded(v / 10, n - 1);
      var s := Padded(v, n);
      assert s[..n - 1] == Padded(v / 10, n - 1) && s[n - 1] == Digit(v % 10);
    }
  }

  /** The code for a time, given the keyed hash. */
  function TotpText(mac: seq<Byte> -> Mac, unix: nat): (s: string) {
    Padded(Code(mac(BigEndian(Counter(unix), 8))), 6)
  }

  /** Six digits that read back as the truncated value modulo a million. */
  lemma SixDigits(mac: seq<Byte> -> Mac, unix: nat)
    ensures
      var s := TotpText(mac, unix);
      && |s| == 6 && (forall c | c in s :: IsDigit(c))
      && Number(s) == Truncated(mac(BigEndian(Counter(unix), 8))) % MODULUS
  {
    assert Pow10(6) == MODULUS;
    NumberPadded(Code(mac(BigEndian(Counter(unix), 8))), 6);
  }

  /** The code stays the same within a step, and at the next step a different counter is hashed. */
  lemma ConstantWithinStep(mac: seq<Byte> -> Mac, t: nat, u: nat)
    requires Counter(t) < Pow2(64) && Counter(u) < Pow2(64)
    ensures Counter(t) * PERIOD <= u < Counter(t) * PERIOD + PERIOD ==> TotpText(mac, t) == TotpText(mac, u)
    ensures !(Counter(t) * PERIOD <= u < Counter(t) * PERIOD + PERIOD) ==>
      BigEndian(Counter(t), 8) != BigEndian(Counter(u), 8)
  {
    SameStepIff(t, u);
  }

  // ── generateTOTPCode ─────────────────────────────────────────────────────

  method Truncate(h: Mac) returns (code: nat)
    ensures code == Code(h)
  {
    AndMasks(h[19]);
    var offset := And(h[|h| - 1], 0x0f, 8);
    AndMasks(h[offset]);
    OrOfShifts(And(h[offset], 0x7f, 8), h[offset + 1], h[offset + 2], h[offset + 3]);
    DropTopBit(h[offset], h[offset + 1], h[offset + 2], h[offset + 3]);
    assert h[offset..offset + 4] == [h[offset], h[offset + 1], h[offset + 2], h[offset + 3]];
    code := Or(Or(Or(Shl(And(h[offset], 0x7f, 8), 24), Shl(h[offset + 1], 16), WORD),
                  Shl(h[offset + 2], 8), WORD),
               h[offset + 3], WORD) % 1_000_000;
  }

  /** Six digits that read as the number RFC 6238 and RFC 4226 say, for steps of thirty seconds: of the hash of
    * the eight bytes of unix / 30, the four bytes from where its last byte points, without their top bit,
    * modulo a million. */
  ghost predicate IsRfcCode(mac: seq<Byte> -> Mac, unix: nat, text: string) {
    var counter := BigEndian(unix / 30, 8);
    var h := mac(counter);
    var o := h[19] % 16;
    var a: int, b: int, c: int, d: int := h[o], h[o + 1], h[o + 2], h[o + 3];
    && Value(counter) == unix / 30
    && |text| == 6 && (forall x | x in text :: IsDigit(x))
    && Number(text) == (a % 128 * 0x100_0000 + b * 0x1_0000 + c * 0x100 + d) % 1_000_000
  }

  lemma RfcCode(mac: seq<Byte> -> Mac, unix: nat)
    requires Counter(unix) < Pow2(64)
    ensures IsRfcCode(mac, unix, TotpText(mac, unix))
  {
    var h := mac(BigEndian(unix / 30, 8));
    var o := h[19] % 16;
    BigEndianValue(unix / 30, 8);
    CodeOfBytes(h, o, h[o], h[o + 1], h[o + 2], h[o + 3]);
    SixDigits(mac, unix);
  }

  method GenerateTOTPCode(mac: seq<Byte> -> Mac, unix: nat) returns (text: string)
    requires Counter(unix) < Pow2(64)
    ensures text == TotpText(mac, unix)
    ensures IsRfcCode(mac, unix, text)
  {
    RfcCode(mac, unix);
    var counter := PutUint64(Counter(unix));
    var code := Truncate(mac(counter[..]));
    text := Padded(code, 6);
  }
}
