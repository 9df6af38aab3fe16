/** Decoding a token secret from base 32 (section 6 of RFC 4648, without padding). */
module Base32 {
  import opened Streams

  const WORD := 0x1_0000_0000

  // ---------------------------------------------------------------- the alphabet

  predicate InAlphabet(ch: char) {
    'A' <= ch <= 'Z' || '2' <= ch <= '7'
  }

  /** The value of a character of the alphabet. */
  function ValueOf(ch: char): (v: nat)
    requires InAlphabet(ch)
    ensures v < 32
  {
    if 'A' <= ch <= 'Z' then ch as int - 'A' as int else ch as int - '2' as int + 26
  }

  function Symbol(v: nat): (ch: char)
    requires v < 32
    ensures InAlphabet(ch) && ValueOf(ch) == v
  {
    if v < 26 then ('A' as int + v) as char else ('2' as int + v - 26) as char
  }

  predicate AllInAlphabet(s: string) {
    forall i :: 0 <= i < |s| ==> InAlphabet(s[i])
  }

  // ---------------------------------------------------------------- numbers

  /** The characters as one number, five bits each, first one highest. */
  function Number32(s: string): nat
    requires AllInAlphabet(s)
  {
    if s == [] then 0 else 32 * Number32(s[..|s| - 1]) + ValueOf(s[|s| - 1])
  }

  /** The bytes as one number, eight bits each, first one highest. */
  function Number256(b: seq<byte>): nat {
    if b == [] then 0 else 256 * Number256(b[..|b| - 1]) + b[|b| - 1]
  }

  function Pow2(k: nat): (p: nat)
    ensures p > 0
  {
    if k == 0 then 1 else 2 * Pow2(k - 1)
  }

  lemma {:induction false} PowSum(a: nat, b: nat)
    ensures Pow2(a + b) == Pow2(a) * Pow2(b)
    decreases a
  {
    if a > 0 {
      PowSum(a - 1, b);
      assert Pow2(a + b) == 2 * Pow2(a - 1 + b);
      Regroup(2, Pow2(a - 1), Pow2(b));
    }
  }

  lemma Regroup(x: nat, y: nat, z: nat)
    ensures x * y * z == x * (y * z)
  {
  }

  lemma Small()
    ensures Pow2(3) == 8 && Pow2(5) == 32 && Pow2(8) == 256
  {
    assert Pow2(1) == 2 && Pow2(2) == 4 && Pow2(4) == 16 && Pow2(6) == 64 && Pow2(7) == 128;
  }

  /** Dividing by a product is dividing twice. */
  lemma DivideTwice(n: nat, a: nat, b: nat)
    requires a > 0 && b > 0
    ensures a * b > 0 && n / (a * b) == n / a / b
  {
    var q, r := n / a, n % a;
    var p, s := q / b, q % b;
    assert n == a * (b * p + s) + r;
    NestedRemainder(a, b, p, s, r);
    Quotient(n, a * b, p, a * s + r);
  }

  lemma NestedRemainder(a: nat, b: nat, p: nat, s: nat, r: nat)
    requires s < b && r < a
    ensures a * (b * p + s) + r == a * b * p + (a * s + r) && a * s + r < a * b
  {
    Monotone(s + 1, b, a);
    Expand(a, b, p, s);
  }

  lemma Monotone(x: nat, y: nat, k: nat)
    requires x <= y
    ensures k * x <= k * y
  {
  }

  lemma Expand(a: nat, b: nat, p: nat, s: nat)
    ensures a * (b * p + s) == a * b * p + a * s
    ensures a * (s + 1) == a * s + a
  {
  }

  lemma Quotient(n: nat, d: nat, q: nat, r: nat)
    requires d > 0 && n == d * q + r && r < d
    ensures n / d == q
  {
    var e := n / d;
    assert n == d * e + n % d;
    assert d * (e + 1) == d * e + d && d * (q + 1) == d * q + d;
    if e < q {
      Monotone(e + 1, q, d);
    } else if q < e {
      Monotone(q + 1, e, d);
    }
  }

  // ---------------------------------------------------------------- one character more

  /** Appending five bits and dropping them again. */
  lemma DropFive(n: nat, v: nat, left: nat)
    requires v < 32
    ensures (32 * n + v) / Pow2(left + 5) == n / Pow2(left)
  {
    Small();
    PowSum(5, left);
    DivideTwice(32 * n + v, 32, Pow2(left));
    Quotient(32 * n + v, 32, n, v);
  }

  /** The eight bits above the lowest left bits, when the ones above are known. */
  lemma NextByte(n: nat, left: nat, key: nat)
    requires n / Pow2(left + 8) == key
    ensures n / Pow2(left) == 256 * key + n / Pow2(left) % 256
  {
    Small();
    PowSum(left, 8);
    DivideTwice(n, Pow2(left), 256);
  }

  /** The byte only depends on the low 32 bits. */
  lemma LowWord(n: nat, left: nat)
    requires left < 8
    ensures n % WORD / Pow2(left) % 256 == n / Pow2(left) % 256
  {
    var p, rest := Pow2(left), Pow2(24 - left);
    assert Pow2(32) == WORD by { PowerOfWord(); }
    PowSum(left, 32 - left);
    PowSum(8, 24 - left);
    Small();
    var q := n / WORD;
    assert n == WORD * q + n % WORD;
    // n / p == (256 * rest * q) + n % WORD / p
    assert WORD == p * (256 * rest);
    SplitQuotient(n, p, 256 * rest, q, n % WORD);
    Whole(256, rest, q, n % WORD / p);
  }

  lemma PowerOfWord()
    ensures Pow2(32) == WORD
  {
    Small();
    PowSum(8, 8);
    PowSum(16, 16);
  }

  lemma SplitQuotient(n: nat, p: nat, m: nat, q: nat, r: nat)
    requires p > 0 && n == p * m * q + r
    ensures n / p == m * q + r / p
  {
    Regroup(p, m, q);
    var e := r / p;
    assert r == p * e + r % p;
    assert p * (m * q + e) == p * (m * q) + p * e;
    Quotient(n, p, m * q + e, r % p);
  }

  lemma Whole(d: nat, rest: nat, q: nat, r: nat)
    requires d > 0
    ensures (d * rest * q + r) % d == r % d
  {
    Regroup(d, rest, q);
    var k, e := rest * q, r / d;
    assert r == d * e + r % d;
    assert d * (k + e) == d * k + d * e;
    Quotient(d * k + r, d, k + e, r % d);
  }

  // ---------------------------------------------------------------- the decoder

  /** The key holds the leading bits of the characters read; fewer than eight are pending. */
  ghost predicate Decoded(s: string, key: seq<byte>, left: nat)
    requires AllInAlphabet(s)
  {
    left == 5 * |s| % 8 && |key| == 5 * |s| / 8 && Number256(key) == Number32(s) / Pow2(left)
  }

  method DecodeSecret(secret: string) returns (key: seq<byte>)
    ensures AllInAlphabet(secret) ==>
      |key| == 5 * |secret| / 8 && Number256(key) == Number32(secret) / Pow2(5 * |secret| % 8)
    ensures !AllInAlphabet(secret) ==> key == []
  {
    hide Number32, Number256, Pow2, Decoded, ValueOf;
    key := [];
    var buffer: nat, left: nat := 0, 0;
    NothingRead();
    var n := 0;
    while n < |secret|
      invariant 0 <= n <= |secret| && AllInAlphabet(secret[..n]) && left < 8
      invariant buffer == Number32(secret[..n]) % WORD && Decoded(secret[..n], key, left)
    {
      var ch := secret[n];
      assert secret[..n + 1] == secret[..n] + [ch];
      if !('A' <= ch <= 'Z') && !('2' <= ch <= '7') {
        assert !InAlphabet(secret[n]);
        return [];
      }
      OneMore(secret[..n], ch, key, left);
      CodeIsValue(ch);
      buffer := buffer * 32 % WORD + if 'A' <= ch <= 'Z' then ch as int % 32 - 1 else ch as int - 24;
      left := left + 5;
      if left >= 8 {
        left := left - 8;
        key := key + [buffer / Pow2(left) % 256];
      }
      n := n + 1;
    }
    assert secret[..n] == secret;
    DecodedIs(secret, key, left);
  }

  lemma DecodedIs(s: string, key: seq<byte>, left: nat)
    requires AllInAlphabet(s) && Decoded(s, key, left)
    ensures |key| == 5 * |s| / 8 && Number256(key) == Number32(s) / Pow2(5 * |s| % 8)
  {
  }

  lemma CodeIsValue(ch: char)
    requires InAlphabet(ch)
    ensures (if 'A' <= ch <= 'Z' then ch as int % 32 - 1 else ch as int - 24) == ValueOf(ch)
  {
  }

  lemma NothingRead()
    ensures Number32([]) == 0 && Decoded([], [], 0)
  {
  }

  lemma OneMore(s: string, ch: char, key: seq<byte>, left: nat)
    requires AllInAlphabet(s) && InAlphabet(ch) && left < 8 && Decoded(s, key, left)
    ensures AllInAlphabet(s + [ch])
    ensures var buffer := Number32(s) % WORD * 32 % WORD + ValueOf(ch);
      && buffer == Number32(s + [ch]) % WORD
      && (left + 5 < 8 ==> Decoded(s + [ch], key, left + 5))
      && (left + 5 >= 8 ==> Decoded(s + [ch], key + [buffer / Pow2(left - 3) % 256], left - 3))
  {
    hide Pow2, Number256, Number32, ValueOf, Decoded;
    var n, v := Number32(s), ValueOf(ch);
    NumberMore(s, ch);
    BufferMore(n, v);
    PendingMore(|s|);
    DecodedParts(s, key, left);
    var buffer := n % WORD * 32 % WORD + v;
    DropFive(n, v, left);
    if left + 5 < 8 {
      MakeDecoded(s + [ch], key, left + 5);
    } else {
      var b := buffer / Pow2(left - 3) % 256;
      ByteMore(32 * n + v, left - 3, Number256(key));
      KeyMore(key, b);
      MakeDecoded(s + [ch], key + [b], left - 3);
    }
  }

  lemma ByteMore(n: nat, left: nat, key: nat)
    requires left < 8 && n / Pow2(left + 8) == key
    ensures 256 * key + n % WORD / Pow2(left) % 256 == n / Pow2(left)
  {
    hide Pow2;
    NextByte(n, left, key);
    LowWord(n, left);
  }

  lemma DecodedParts(s: string, key: seq<byte>, left: nat)
    requires AllInAlphabet(s) && Decoded(s, key, left)
    ensures left == 5 * |s| % 8 && |key| == 5 * |s| / 8 && Number256(key) == Number32(s) / Pow2(left)
  {
  }

  lemma MakeDecoded(s: string, key: seq<byte>, left: nat)
    requires AllInAlphabet(s) && left == 5 * |s| % 8 && |key| == 5 * |s| / 8
    requires Number256(key) == Number32(s) / Pow2(left)
    ensures Decoded(s, key, left)
  {
  }

  lemma PendingMore(m: nat)
    ensures var left := 5 * m % 8;
      && (left + 5 < 8 ==> 5 * (m + 1) % 8 == left + 5 && 5 * (m + 1) / 8 == 5 * m / 8)
      && (left + 5 >= 8 ==> 5 * (m + 1) % 8 == left - 3 && 5 * (m + 1) / 8 == 5 * m / 8 + 1)
  {
  }

  lemma NumberMore(s: string, ch: char)
    requires AllInAlphabet(s) && InAlphabet(ch)
    ensures AllInAlphabet(s + [ch]) && Number32(s + [ch]) == 32 * Number32(s) + ValueOf(ch)
  {
    assert (s + [ch])[..|s|] == s;
  }

  /** Shifting the wrapping buffer left by five leaves room for exactly one more group. */
  lemma BufferMore(n: nat, v: nat)
    requires v < 32
    ensures n % WORD * 32 % WORD + v == (32 * n + v) % WORD
  {
    var q, r := n / WORD, n % WORD;
    var e, f := r * 32 / WORD, r * 32 % WORD;
    assert f == 32 * (r - WORD / 32 * e);
    assert 32 * n + v == WORD * (32 * q + e) + (f + v);
    Remainder(32 * n + v, 32 * q + e, f + v);
  }

  lemma Remainder(x: nat, q: nat, r: nat)
    requires x == WORD * q + r && r < WORD
    ensures x % WORD == r
  {
  }

  lemma KeyMore(key: seq<byte>, b: byte)
    ensures Number256(key + [b]) == 256 * Number256(key) + b
  {
    assert (key + [b])[..|key|] == key;
  }

  // ---------------------------------------------------------------- the encoder

  /** The n lowest five-bit groups of a number, highest first. */
  function Digits(x: nat, n: nat): (s: string)
    ensures |s| == n && AllInAlphabet(s)
    decreases n
  {
    if n == 0 then [] else Digits(x / 32, n - 1) + [Symbol(x % 32)]
  }

  /** How many five-bit groups the bytes need, and how many zero bits fill the last one. */
  function Groups(m: nat): nat {
    (8 * m + 4) / 5
  }

  function Padding(m: nat): nat {
    5 * Groups(m) - 8 * m
  }

  /** The bits of the bytes, filled up with zeros, five at a time. */
  function Encode(b: seq<byte>): (s: string)
    ensures AllInAlphabet(s)
  {
    Digits(Number256(b) * Pow2(Padding(|b|)), Groups(|b|))
  }

  lemma {:induction false} DigitsBack(x: nat, n: nat)
    requires x < Pow2(5 * n)
    ensures Number32(Digits(x, n)) == x
    decreases n
  {
    if n > 0 {
      Small();
      PowSum(5, 5 * (n - 1));
      Smaller(x, Pow2(5 * (n - 1)));
      DigitsBack(x / 32, n - 1);
      var s := Digits(x, n);
      assert s[..|s| - 1] == Digits(x / 32, n - 1);
    }
  }

  lemma Smaller(x: nat, p: nat)
    requires x < 32 * p
    ensures x / 32 < p
  {
  }

  lemma {:induction false} NumberBound(b: seq<byte>)
    ensures Number256(b) < Pow2(8 * |b|)
    decreases |b|
  {
    if b != [] {
      Small();
      NumberBound(b[..|b| - 1]);
      PowSum(8, 8 * (|b| - 1));
    }
  }

  /** A number of bytes of a given length determines them. */
  lemma {:induction false} SameBytes(a: seq<byte>, b: seq<byte>)
    requires |a| == |b| && Number256(a) == Number256(b)
    ensures a == b
    decreases |a|
  {
    if a != [] {
      var n := |a| - 1;
      SameBytes(a[..n], b[..n]);
      assert a == a[..n] + [a[n]] && b == b[..n] + [b[n]];
    }
  }

  lemma PaddedBack(x: nat, p: nat)
    requires p > 0
    ensures x * p / p == x
  {
    Quotient(x * p, p, x, 0);
  }

  lemma PaddedBound(x: nat, a: nat, k: nat)
    requires x < Pow2(a)
    ensures x * Pow2(k) < Pow2(a + k)
  {
    PowSum(a, k);
    Monotone(x + 1, Pow2(a), Pow2(k));
    assert Pow2(k) * (x + 1) == Pow2(k) * x + Pow2(k);
  }

  /** The encoding of m bytes is one from which m bytes are decoded, with only the padding left. */
  lemma EncodedLength(m: nat)
    ensures 5 * Groups(m) / 8 == m && 5 * Groups(m) % 8 == Padding(m) < 5
  {
  }

  /** Whatever has the decoder's result for the encoding of some bytes is those bytes. */
  lemma DecodeInvertsEncode(b: seq<byte>, key: seq<byte>)
    requires var s := Encode(b); |key| == 5 * |s| / 8 && Number256(key) == Number32(s) / Pow2(5 * |s| % 8)
    ensures key == b
  {
    hide Number256, Number32, Pow2, Groups, Padding, Digits;
    var x, k, n := Number256(b), Padding(|b|), Groups(|b|);
    NumberBound(b);
    PaddedBound(x, 8 * |b|, k);
    EncodedLength(|b|);
    GroupsAndPadding(|b|);
    DigitsBack(x * Pow2(k), n);
    PaddedBack(x, Pow2(k));
    SameBytes(key, b);
  }

  lemma GroupsAndPadding(m: nat)
    ensures 8 * m + Padding(m) == 5 * Groups(m)
  {
  }

  /** Decoding inverts encoding for every byte string. */
  method EncodeThenDecode(b: seq<byte>) returns (key: seq<byte>)
    ensures key == b
  {
    var s := Encode(b);
    key := DecodeSecret(s);
    DecodeInvertsEncode(b, key);
  }
}
