/** The UTF-8 encoding of text, the form in which canonical JSON is signed and hashed. */
module Utf8 {
  import opened Prelude

  type Byte = n: nat | n < 256

  function EncodeChar(c: char): (bytes: seq<Byte>)
    ensures bytes != []
  {
    var n := c as int;
    var n1, n2, n3 := n / 0x40, n / 0x40 / 0x40, n / 0x40 / 0x40 / 0x40;
    if n < 0x80 then [n]
    else if n < 0x800 then [0xC0 + n1, 0x80 + n % 0x40]
    else if n < 0x1_0000 then [0xE0 + n2, 0x80 + n1 % 0x40, 0x80 + n % 0x40]
    else [0xF0 + n3, 0x80 + n2 % 0x40, 0x80 + n1 % 0x40, 0x80 + n % 0x40]
  }

  function Encode(s: string): seq<Byte> {
    if s == "" then [] else EncodeChar(s[0]) + Encode(s[1..])
  }

  lemma EncodeCharInjective(c: char, d: char, x: seq<Byte>, y: seq<Byte>)
    requires EncodeChar(c) + x == EncodeChar(d) + y
    ensures c == d && x == y
  {
    var p, q := EncodeChar(c), EncodeChar(d);
    assert p[0] == (p + x)[0] == (q + y)[0] == q[0];
    assert |p| == |q|;
    assert p == (p + x)[..|p|] == (q + y)[..|q|] == q;
    assert x == (p + x)[|p|..] == (q + y)[|q|..] == y;
    SameCode(c as int, d as int);
    SameCode(c as int / 0x40, d as int / 0x40);
    SameCode(c as int / 0x40 / 0x40, d as int / 0x40 / 0x40);
  }

  lemma SameCode(m: nat, n: nat)
    ensures m / 0x40 == n / 0x40 && m % 0x40 == n % 0x40 ==> m == n
  {
  }

  lemma {:induction false} EncodeInjective(s: string, t: string)
    requires Encode(s) == Encode(t)
    ensures s == t
  {
    if s == "" || t == "" {
      assert s == t;
    } else {
      EncodeCharInjective(s[0], t[0], Encode(s[1..]), Encode(t[1..]));
      EncodeInjective(s[1..], t[1..]);
      assert s == [s[0]] + s[1..] && t == [t[0]] + t[1..];
    }
  }

  // ---- Decoding after section 3 of RFC 3629 ----

  predicate IsTail(b: Byte) {
    0x80 <= b < 0xC0
  }

  function Tail(b: Byte): nat
    requires IsTail(b)
  {
    b - 0x80
  }

  /**
   The number that the octets of one character spell, read from the table of the standard; a number
   that fits fewer octets may not be spelled with more.
   */
  function DecodeChar(bytes: seq<Byte>): (r: Option<(nat, nat)>)
    ensures r.Some? ==> 0 < r.value.1 <= |bytes|
  {
    var n := |bytes|;
    var lead: nat := if n > 0 then bytes[0] else 0;
    if n >= 1 && lead < 0x80 then Some((lead, 1))
    else if n >= 2 && 0xC0 <= lead < 0xE0 && IsTail(bytes[1]) then
      AtLeast(0x80, (lead - 0xC0) * 0x40 + Tail(bytes[1]), 2)
    else if n >= 3 && 0xE0 <= lead < 0xF0 && IsTail(bytes[1]) && IsTail(bytes[2]) then
      AtLeast(0x800, (lead - 0xE0) * 0x1000 + Tail(bytes[1]) * 0x40 + Tail(bytes[2]), 3)
    else if n >= 4 && 0xF0 <= lead < 0xF8 && IsTail(bytes[1]) && IsTail(bytes[2]) && IsTail(bytes[3]) then
      AtLeast(0x1_0000,
        (lead - 0xF0) * 0x4_0000 + Tail(bytes[1]) * 0x1000 + Tail(bytes[2]) * 0x40 + Tail(bytes[3]), 4)
    else None
  }

  function AtLeast(least: nat, n: nat, used: nat): Option<(nat, nat)> {
    if n >= least then Some((n, used)) else None
  }

  predicate IsScalar(n: nat) {
    n < 0xD800 || 0xE000 <= n < 0x11_0000
  }

  function Decode(bytes: seq<Byte>): Option<string>
    decreases |bytes|
  {
    if bytes == [] then Some("")
    else
      match DecodeChar(bytes)
      case None => None
      case Some((n, used)) =>
        var more := Decode(bytes[used..]);
        if IsScalar(n) && more.Some? then Some([n as char] + more.value) else None
  }

  /** Base 64 digits of a code point. */
  lemma Digits(n: nat)
    requires n < 0x20_0000
    ensures var a, b, c, d := n / 0x40 / 0x40 / 0x40, n / 0x40 / 0x40 % 0x40, n / 0x40 % 0x40, n % 0x40;
      n == a * 0x4_0000 + b * 0x1000 + c * 0x40 + d && a < 8
  {
  }

  lemma CharDecodes(c: char, x: seq<Byte>)
    ensures DecodeChar(EncodeChar(c) + x) == Some((c as int, |EncodeChar(c)|))
  {
    Digits(c as int);
    var bytes := EncodeChar(c) + x;
    assert forall i | 0 <= i < |EncodeChar(c)| :: bytes[i] == EncodeChar(c)[i];
  }

  /** Encoded text is decoded back. */
  lemma {:induction false} EncodeDecodes(s: string)
    ensures Decode(Encode(s)) == Some(s)
  {
    hide EncodeChar, DecodeChar;
    if s == "" {
    } else {
      var p := EncodeChar(s[0]);
      CharDecodes(s[0], Encode(s[1..]));
      EncodeDecodes(s[1..]);
      assert (p + Encode(s[1..]))[|p|..] == Encode(s[1..]);
      assert [s[0]] + s[1..] == s;
    }
  }

  // ---- The order of texts is the order of their bytes ----

  /** The order of `str` in Rust: the first byte that differs decides, and a proper prefix comes first. */
  ghost predicate Before(a: seq<Byte>, b: seq<Byte>) {
    exists n: nat :: DecidesAt(a, b, n)
  }

  predicate DecidesAt(a: seq<Byte>, b: seq<Byte>, n: nat) {
    n <= |a| && n < |b| && a[..n] == b[..n] && (n == |a| || a[n] < b[n])
  }

  lemma DecidedOnce(a: seq<Byte>, b: seq<Byte>, n: nat, m: nat)
    requires DecidesAt(a, b, n)
    ensures !DecidesAt(b, a, m)
  {
    if m < n {
      assert a[..n][m] == a[m] && b[..n][m] == b[m];
    } else if n < m <= |a| && m <= |b| {
      assert a[..m][n] == a[n] && b[..m][n] == b[n];
    }
  }

  lemma BeforeExcludes(a: seq<Byte>, b: seq<Byte>)
    requires Before(a, b)
    ensures a != b && !Before(b, a)
  {
    var n: nat :| DecidesAt(a, b, n);
    forall m: nat
      ensures !DecidesAt(b, a, m)
    {
      DecidedOnce(a, b, n, m);
    }
  }

  /** The higher digits decide an order of numbers, and otherwise the last one does. */
  lemma HighDigits(m: nat, n: nat)
    requires m < n
    ensures m / 0x40 < n / 0x40 || (m / 0x40 == n / 0x40 && m % 0x40 < n % 0x40)
  {
  }

  /** One encoding stops where it is smaller than the other. */
  predicate SmallerAt(p: seq<Byte>, q: seq<Byte>, k: nat) {
    k < |p| && k < |q| && p[..k] == q[..k] && p[k] < q[k]
  }

  lemma DigitsOrder(m: nat, n: nat)
    requires m < n
    ensures var m1, n1, m2, n2 := m / 0x40, n / 0x40, m / 0x40 / 0x40, n / 0x40 / 0x40;
      && m1 <= n1 && m2 <= n2 && m2 / 0x40 <= n2 / 0x40
      && (m1 == n1 ==> m % 0x40 < n % 0x40)
      && (m2 == n2 && m1 != n1 ==> m1 % 0x40 < n1 % 0x40)
      && (m2 / 0x40 == n2 / 0x40 && m2 != n2 ==> m2 % 0x40 < n2 % 0x40)
  {
    HighDigits(m, n);
    if m / 0x40 < n / 0x40 {
      HighDigits(m / 0x40, n / 0x40);
      if m / 0x40 / 0x40 < n / 0x40 / 0x40 {
        HighDigits(m / 0x40 / 0x40, n / 0x40 / 0x40);
      }
    }
  }

  /** How many bytes a character takes grows with the character, and so does the first byte. */
  lemma LongerStartsHigher(c: char, d: char)
    requires c < d && |EncodeChar(c)| != |EncodeChar(d)|
    ensures SmallerAt(EncodeChar(c), EncodeChar(d), 0)
  {
    assert EncodeChar(c)[..0] == EncodeChar(d)[..0];
  }

  /** Characters are ordered as their encodings, which are never a prefix of one another. */
  lemma CharOrder(c: char, d: char) returns (k: nat)
    requires c < d
    ensures SmallerAt(EncodeChar(c), EncodeChar(d), k)
  {
    var p, q := EncodeChar(c), EncodeChar(d);
    var m, n := c as int, d as int;
    if |p| != |q| {
      LongerStartsHigher(c, d);
      k := 0;
    } else {
      DigitsOrder(m, n);
      k := if |p| == 1 || p[0] != q[0] then 0 else if |p| == 2 || p[1] != q[1] then 1
           else if |p| == 3 || p[2] != q[2] then 2 else 3;
    }
  }

  lemma CharsDecide(c: char, d: char, x: seq<Byte>, y: seq<Byte>)
    requires c < d
    ensures Before(EncodeChar(c) + x, EncodeChar(d) + y)
  {
    hide EncodeChar;
    var k := CharOrder(c, d);
    var p, q := EncodeChar(c), EncodeChar(d);
    assert (p + x)[..k] == p[..k] && (q + y)[..k] == q[..k];
    assert DecidesAt(p + x, q + y, k);
  }

  lemma BehindPrefix(p: seq<Byte>, a: seq<Byte>, b: seq<Byte>)
    requires Before(a, b)
    ensures Before(p + a, p + b)
  {
    var n: nat :| DecidesAt(a, b, n);
    assert (p + a)[..|p| + n] == p + a[..n] && (p + b)[..|p| + n] == p + b[..n];
    assert DecidesAt(p + a, p + b, |p| + n);
  }
}
