/** Store path digests as text: base 32 of the number the bytes are, least significant byte first. */
module Nix32 {
  import opened Bytes

  /** 0-9 and a-z without e, o, u and t. */
  function Digit(v: nat): char
    requires v < 32
  {
    if v < 10 then '0' + v as char
    else if v < 14 then 'a' + (v - 10) as char
    else if v < 23 then 'f' + (v - 14) as char
    else if v < 27 then 'p' + (v - 23) as char
    else 'v' + (v - 27) as char
  }

  /** The value of a digit, 32 for another character. */
  function Value(c: char): nat {
    if '0' <= c <= '9' then (c - '0') as nat
    else if 'a' <= c <= 'd' then (c - 'a') as nat + 10
    else if 'f' <= c <= 'n' then (c - 'f') as nat + 14
    else if 'p' <= c <= 's' then (c - 'p') as nat + 23
    else if 'v' <= c <= 'z' then (c - 'v') as nat + 27
    else 32
  }

  lemma ValueOfDigit(v: nat)
    requires v < 32
    ensures Value(Digit(v)) == v
  {
  }

  /** How many digits n bytes take. */
  function Length(n: nat): nat
    requires n > 0
  {
    (n * 8 - 1) / 5 + 1
  }

  /** Five bits, taken out of the two bytes they are in. */
  function Window(b: seq<byte>, bit: nat): (v: nat)
    ensures v < 32
  {
    Quotient(ByteAt(b, bit / 8) + 256 * ByteAt(b, bit / 8 + 1), Power2(bit % 8)) % 32
  }

  /** n digits for the bits from `bit` on, the most significant first. */
  function Spelled(b: seq<byte>, bit: nat, n: nat): string
    decreases n
  {
    if n == 0 then "" else Spelled(b, bit + 5, n - 1) + [Digit(Window(b, bit))]
  }

  method Encode(b: seq<byte>) returns (out: string)
    requires b != []
    ensures out == Spelled(b, 0, Length(|b|))
  {
    hide Digit, Power2, Length, ByteAt, Quotient;
    var length := Length(|b|);
    out := "";
    for idx := 0 to length
      invariant out == Spelled(b, (length - idx) * 5, idx)
    {
      var bit := (length - 1 - idx) * 5;
      var pair := ByteAt(b, bit / 8) + 256 * ByteAt(b, bit / 8 + 1);
      assert bit + 5 == (length - idx) * 5;
      out := out + [Digit(Quotient(pair, Power2(bit % 8)) % 32)];
    }
  }

  // ---------------------------------------------------------------- what the digits denote

  /** The number a text of digits is, the most significant first. */
  function Denotes(s: string): nat {
    if s == "" then 0 else Denotes(s[..|s| - 1]) * 32 + Value(s[|s| - 1])
  }

  function Drop(b: seq<byte>, n: nat): seq<byte> { if n <= |b| then b[n..] else [] }

  /** The number without its lowest bits. */
  function Shifted(b: seq<byte>, bit: nat): nat { Quotient(Number(Drop(b, bit / 8)), Power2(bit % 8)) }

  lemma NumberStep(b: seq<byte>, q: nat)
    ensures Number(Drop(b, q)) == ByteAt(b, q) + 256 * Number(Drop(b, q + 1))
  {
    if q < |b| {
      assert Drop(b, q)[1..] == Drop(b, q + 1);
    }
  }

  lemma DivMore(n: nat, p: nat)
    requires p > 0
    ensures n / (2 * p) == n / p / 2
  {
    var q, h := n / p, n / p / 2;
    assert n == q * p + n % p;
    assert q == 2 * h + q % 2;
    assert n == h * (2 * p) + (q % 2 * p + n % p);
    DivIs(n, 2 * p, h, q % 2 * p + n % p);
  }

  lemma DivIs(n: nat, d: nat, q: nat, r: nat)
    requires d > 0 && n == q * d + r && r < d
    ensures n / d == q
  {
    var m := n / d;
    assert n == m * d + n % d;
    Times(m + 1, q, d);
    Times(q + 1, m, d);
  }

  lemma Times(m: nat, n: nat, d: nat)
    ensures m <= n ==> m * d <= n * d
  {
  }

  lemma ShiftedHalf(b: seq<byte>, bit: nat)
    ensures Shifted(b, bit + 1) == Shifted(b, bit) / 2
  {
    var q, r := bit / 8, bit % 8;
    var n := Number(Drop(b, q));
    if r < 7 {
      assert (bit + 1) / 8 == q && (bit + 1) % 8 == r + 1;
      DivMore(n, Power2(r));
    } else {
      assert (bit + 1) / 8 == q + 1 && (bit + 1) % 8 == 0;
      Powers();
      NumberStep(b, q);
      hide Power2, Number;
      assert n / 128 / 2 == n / 256;
    }
  }

  lemma Powers()
    ensures Power2(0) == 1 && Power2(7) == 128 && Power2(11) == 2048
  {
    assert Power2(4) == 16;
    assert Power2(7) == 8 * Power2(4);
    assert Power2(11) == 16 * Power2(7);
  }

  lemma ShiftedFive(b: seq<byte>, bit: nat)
    ensures Shifted(b, bit + 5) == Shifted(b, bit) / 32
  {
    hide Shifted;
    ShiftedHalf(b, bit);
    ShiftedHalf(b, bit + 1);
    ShiftedHalf(b, bit + 2);
    ShiftedHalf(b, bit + 3);
    ShiftedHalf(b, bit + 4);
  }

  lemma {:induction false} PowerSum(m: nat, n: nat)
    ensures Power2(m + n) == Power2(m) * Power2(n)
    decreases m
  {
    if m > 0 {
      PowerSum(m - 1, n);
      assert 2 * (Power2(m - 1) * Power2(n)) == (2 * Power2(m - 1)) * Power2(n);
    }
  }

  lemma DivPlus(a: nat, p: nat, z: nat)
    requires p > 0
    ensures (a + p * z) / p == a / p + z
  {
    assert a == (a / p) * p + a % p;
    assert a + p * z == (a / p + z) * p + a % p;
    DivIs(a + p * z, p, a / p + z, a % p);
  }

  lemma LowBits(a: nat, m: nat, p: nat, k: nat)
    requires p > 0 && p * k == 2048
    ensures (a + 65536 * m) / p % 32 == a / p % 32
  {
    var z := 32 * (k * m);
    assert 65536 * m == p * z by {
      assert p * z == (p * k) * (32 * m);
    }
    DivPlus(a, p, z);
    ModPlus(a / p, k * m);
  }

  /** Two bytes are enough to see five bits. */
  lemma WindowIsLow(b: seq<byte>, bit: nat)
    ensures Shifted(b, bit) % 32 == Window(b, bit)
  {
    var q, r := bit / 8, bit % 8;
    NumberStep(b, q);
    NumberStep(b, q + 1);
    Powers();
    PowerSum(r, 11 - r);
    hide Power2, Number;
    LowBits(ByteAt(b, q) + 256 * ByteAt(b, q + 1), Number(Drop(b, q + 2)), Power2(r), Power2(11 - r));
  }

  lemma ModPlus(a: nat, z: nat)
    ensures (a + 32 * z) % 32 == a % 32
  {
  }

  lemma {:induction false} SpelledDenotes(b: seq<byte>, bit: nat, n: nat)
    requires Shifted(b, bit + 5 * n) == 0
    ensures Denotes(Spelled(b, bit, n)) == Shifted(b, bit)
    decreases n
  {
    hide Shifted, Window, Digit, Value;
    if n > 0 {
      var front := Spelled(b, bit + 5, n - 1);
      assert bit + 5 + 5 * (n - 1) == bit + 5 * n;
      SpelledDenotes(b, bit + 5, n - 1);
      assert Spelled(b, bit, n)[..|front|] == front;
      ValueOfDigit(Window(b, bit));
      ShiftedFive(b, bit);
      WindowIsLow(b, bit);
    }
  }

  lemma LengthCovers(n: nat)
    requires n > 0
    ensures 5 * Length(n) >= 8 * n
  {
  }

  lemma ShiftedBeyond(b: seq<byte>, bit: nat)
    requires bit >= 8 * |b|
    ensures Shifted(b, bit) == 0
  {
    hide Power2;
    assert Drop(b, bit / 8) == [];
    DivIs(0, Power2(bit % 8), 0, 0);
  }

  lemma NotShifted(b: seq<byte>)
    ensures Shifted(b, 0) == Number(b)
  {
    assert Drop(b, 0) == b;
  }

  /** The digits denote the number that the bytes are, read little-endian, for every input that is not empty. */
  lemma EncodedDenotes(b: seq<byte>)
    requires b != []
    ensures Denotes(Spelled(b, 0, Length(|b|))) == Number(b)
  {
    hide Shifted, Length, Spelled;
    LengthCovers(|b|);
    ShiftedBeyond(b, 5 * Length(|b|));
    NotShifted(b);
    SpelledDenotes(b, 0, Length(|b|));
  }
}
