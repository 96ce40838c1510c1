/** Addresses as text, the form every list, map and script of the program holds them in. */
module Dotted {
  import opened Text
  import opened IPv4

  function Digit(d: nat): (c: char)
    requires d < 10
  {
    '0' + d as char
  }

  predicate IsDigit(c: char) {
    '0' <= c <= '9'
  }

  function DigitValue(c: char): (d: nat)
    requires IsDigit(c)
    ensures d < 10 && Digit(d) == c
  {
    (c - '0') as int
  }

  /** One byte without leading zeros. */
  function Dec(b: Byte): (s: string)
    ensures 1 <= |s| <= 3 && forall c | c in s :: IsDigit(c)
  {
    if b < 10 then [Digit(b)]
    else if b < 100 then [Digit(b / 10), Digit(b % 10)]
    else [Digit(b / 100), Digit(b / 10 % 10), Digit(b % 10)]
  }

  /** One field as Go reads it: at most 255 and no leading zero. */
  function ParseByte(f: string): (r: Option<Byte>) {
    if !(1 <= |f| <= 3) || (exists c | c in f :: !IsDigit(c)) then None
    else if |f| > 1 && f[0] == '0' then None
    else
      var v := Number(f);
      if v < 256 then Some(v) else None
  }

  function Number(f: string): (v: nat)
    requires forall c | c in f :: IsDigit(c)
  {
    if f == "" then 0 else 10 * Number(f[..|f| - 1]) + DigitValue(f[|f| - 1])
  }

  lemma NumberSnoc(f: string, c: char)
    requires (forall d | d in f :: IsDigit(d)) && IsDigit(c)
    ensures Number(f + [c]) == 10 * Number(f) + DigitValue(c)
  {
    assert (f + [c])[..|f + [c]| - 1] == f;
  }

  lemma NumberTwo(x: char, y: char)
    requires IsDigit(x) && IsDigit(y)
    ensures Number([x]) == DigitValue(x)
    ensures Number([x, y]) == 10 * DigitValue(x) + DigitValue(y)
  {
    NumberSnoc([], x);
    NumberSnoc([x], y);
    assert [] + [x] == [x] && [x] + [y] == [x, y];
  }

  lemma NumberThree(x: char, y: char, z: char)
    requires IsDigit(x) && IsDigit(y) && IsDigit(z)
    ensures Number([x, y, z]) == 100 * DigitValue(x) + 10 * DigitValue(y) + DigitValue(z)
  {
    NumberTwo(x, y);
    NumberSnoc([x, y], z);
    assert [x, y] + [z] == [x, y, z];
  }

  lemma DigitReads(d: nat)
    requires d < 10
    ensures IsDigit(Digit(d)) && DigitValue(Digit(d)) == d
  {
  }

  lemma NumberDecShort(b: Byte)
    requires b < 100
    ensures Number(Dec(b)) == b
  {
    if b < 10 {
      DigitReads(b);
      NumberTwo(Digit(b), '0');
    } else {
      DigitReads(b / 10);
      DigitReads(b % 10);
      NumberTwo(Digit(b / 10), Digit(b % 10));
    }
  }

  lemma NumberDec(b: Byte)
    ensures Number(Dec(b)) == b
  {
    if b < 100 {
      NumberDecShort(b);
    } else {
      var x, y, z := b / 100, b / 10 % 10, b % 10;
      DigitReads(x);
      DigitReads(y);
      DigitReads(z);
      NumberThree(Digit(x), Digit(y), Digit(z));
      assert b == 100 * x + 10 * y + z;
    }
  }

  lemma ParseByteDec(b: Byte)
    ensures ParseByte(Dec(b)) == Some(b)
  {
    NumberDec(b);
  }

  lemma DecTwo(x: nat, y: nat)
    requires 1 <= x < 10 && y < 10
    ensures Dec(10 * x + y) == [Digit(x), Digit(y)]
  {
  }

  lemma DecThree(x: nat, y: nat, z: nat)
    requires 1 <= x < 10 && y < 10 && z < 10 && 100 * x + 10 * y + z < 256
    ensures Dec(100 * x + 10 * y + z) == [Digit(x), Digit(y), Digit(z)]
  {
    var b := 100 * x + 10 * y + z;
    assert b / 10 == 10 * x + y && b / 100 == x;
  }

  lemma NotZero(c: char)
    requires IsDigit(c) && c != '0'
    ensures DigitValue(c) >= 1
  {
  }

  lemma DecOneRead(f: string)
    requires |f| == 1 && ParseByte(f).Some?
    ensures Dec(ParseByte(f).value) == f
  {
    assert f == [f[0]];
    NumberTwo(f[0], '0');
  }

  lemma DecTwoRead(f: string)
    requires |f| == 2 && ParseByte(f).Some?
    ensures Dec(ParseByte(f).value) == f
  {
    assert f == [f[0], f[1]];
    NumberTwo(f[0], f[1]);
    NotZero(f[0]);
    DecTwo(DigitValue(f[0]), DigitValue(f[1]));
  }

  lemma DecThreeRead(f: string)
    requires |f| == 3 && ParseByte(f).Some?
    ensures Dec(ParseByte(f).value) == f
  {
    assert f == [f[0], f[1], f[2]];
    NumberThree(f[0], f[1], f[2]);
    NotZero(f[0]);
    DecThree(DigitValue(f[0]), DigitValue(f[1]), DigitValue(f[2]));
  }

  lemma DecParseByte(f: string)
    requires ParseByte(f).Some?
    ensures Dec(ParseByte(f).value) == f
  {
    if |f| == 1 {
      DecOneRead(f);
    } else if |f| == 2 {
      DecTwoRead(f);
    } else {
      DecThreeRead(f);
    }
  }

  function Format(a: Address): (s: string) {
    var b := Bytes(a);
    Dec(b[0]) + "." + (Dec(b[1]) + "." + (Dec(b[2]) + "." + Dec(b[3])))
  }

  lemma FormatChars(a: Address)
    ensures '.' in Format(a) && forall c | c in Format(a) :: c == '.' || IsDigit(c)
  {
    var b := Bytes(a);
    assert Format(a)[|Dec(b[0])|] == '.';
  }

  /** net.ParseIP on dotted decimal. */
  function Parse(s: string): (r: Option<Address>) {
    var f := Split(s, '.');
    if |f| != 4 || exists i | 0 <= i < 4 :: ParseByte(f[i]).None? then None
    else
      var bytes := [ParseByte(f[0]).value, ParseByte(f[1]).value, ParseByte(f[2]).value, ParseByte(f[3]).value];
      Value4(bytes);
      Some(Value(bytes))
  }

  lemma SplitFormat(a: Address)
    ensures
      var b := Bytes(a);
      Split(Format(a), '.') == [Dec(b[0]), Dec(b[1]), Dec(b[2]), Dec(b[3])]
  {
    var b := Bytes(a);
    var d0, d1, d2, d3 := Dec(b[0]), Dec(b[1]), Dec(b[2]), Dec(b[3]);
    SplitFirst(d0, d1 + "." + (d2 + "." + d3), '.');
    SplitFirst(d1, d2 + "." + d3, '.');
    SplitFirst(d2, d3, '.');
    SplitPlain(d3, '.');
  }

  /** Reading what was written gives the address back. */
  lemma ParseFormat(a: Address)
    ensures Parse(Format(a)) == Some(a)
  {
    var b := Bytes(a);
    SplitFormat(a);
    ParseByteDec(b[0]);
    ParseByteDec(b[1]);
    ParseByteDec(b[2]);
    ParseByteDec(b[3]);
    assert [b[0], b[1], b[2], b[3]] == b;
  }

  lemma JoinFour(a: string, b: string, c: string, d: string)
    ensures Join([a, b, c, d], '.') == a + "." + (b + "." + (c + "." + d))
  {
    assert Join([d], '.') == d;
    assert [c, d][1..] == [d] && Join([c, d], '.') == c + "." + d;
    assert [b, c, d][1..] == [c, d] && Join([b, c, d], '.') == b + "." + Join([c, d], '.');
    assert [a, b, c, d][1..] == [b, c, d];
  }

  /** Every text that reads as an address is the one its address is written as. */
  lemma FormatParse(s: string)
    requires Parse(s).Some?
    ensures Format(Parse(s).value) == s
  {
    var f := Split(s, '.');
    JoinSplit(s, '.');
    DecParseByte(f[0]);
    DecParseByte(f[1]);
    DecParseByte(f[2]);
    DecParseByte(f[3]);
    BytesUnique([ParseByte(f[0]).value, ParseByte(f[1]).value, ParseByte(f[2]).value, ParseByte(f[3]).value]);
    JoinFour(f[0], f[1], f[2], f[3]);
    assert f == [f[0], f[1], f[2], f[3]];
  }

  lemma FormatInjective(a: Address, b: Address)
    ensures Format(a) == Format(b) <==> a == b
  {
    ParseFormat(a);
    ParseFormat(b);
  }

  lemma {:induction false} SplitPrepend(p: string, s: string, sep: char)
    ensures
      var fields := Split(s, sep);
      sep !in p ==> Split(p + s, sep) == [p + fields[0]] + fields[1..]
    ensures sep in p ==> |Split(p + s, sep)| > |Split(s, sep)|
    decreases |p|
  {
    if p == "" {
      assert p + s == s && p + Split(s, sep)[0] == Split(s, sep)[0];
    } else {
      assert (p + s)[0] == p[0] && (p + s)[1..] == p[1..] + s;
      assert p == [p[0]] + p[1..];
      SplitPrepend(p[1..], s, sep);
      if p[0] != sep && sep !in p {
        assert [p[0]] + (p[1..] + Split(s, sep)[0]) == p + Split(s, sep)[0];
      }
    }
  }

  lemma FirstField(a: Address)
    ensures |Split(Format(a), '.')| == 4 && Split(Format(a), '.')[0] == Dec(Bytes(a)[0])
  {
    SplitFormat(a);
  }

  lemma EndsWithIff(s: string, t: string)
    ensures EndsWith(s, t) <==> |t| <= |s| && s == s[..|s| - |t|] + t
  {
  }

  lemma NothingBefore(p: string, a: Address, b: Address)
    requires Bytes(a)[0] == Bytes(b)[0] && Format(a) == p + Format(b)
    ensures p == ""
  {
    FirstField(a);
    FirstField(b);
    SplitPrepend(p, Format(b), '.');
    assert |p + Dec(Bytes(b)[0])| == |p| + |Dec(Bytes(b)[0])|;
  }

  /** Of two addresses with the same first byte, neither text ends with the other. */
  lemma SuffixFree(a: Address, b: Address)
    requires Bytes(a)[0] == Bytes(b)[0]
    ensures EndsWith(Format(a), Format(b)) <==> a == b
  {
    EndsWithIff(Format(a), Format(b));
    FormatInjective(a, b);
    if EndsWith(Format(a), Format(b)) {
      NothingBefore(Format(a)[..|Format(a)| - |Format(b)|], a, b);
    }
  }

  /** With different first bytes one can end with the other. */
  lemma SuffixWitness()
    ensures EndsWith(Format(0x6E00_0001), Format(0x0A00_0001))
  {
    WrittenAs(0x6E00_0001, 110, "110");
    WrittenAs(0x0A00_0001, 10, "10");
    assert "110.0.0.1"[1..] == "10.0.0.1";
  }

  lemma WrittenAs(a: Address, b: Byte, d: string)
    requires a == b * 0x100_0000 + 1 && Dec(b) == d
    ensures Format(a) == d + ".0.0.1"
  {
    Value4([b, 0, 0, 1]);
    BytesUnique([b, 0, 0, 1]);
    assert Dec(0) == "0" && Dec(1) == "1";
    assert d + "." + ("0" + "." + ("0" + "." + "1")) == d + ".0.0.1";
  }
}
