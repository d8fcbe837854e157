/** Base 64 as in section 4 of RFC 4648, by an accumulator that never holds more than a few bits. */
module Base64 {
  import opened Bytes

  /** A-Z, a-z, 0-9, + and /. */
  function Letter(v: nat): char
    requires v < 64
  {
    if v < 26 then 'A' + v as char
    else if v < 52 then 'a' + (v - 26) as char
    else if v < 62 then '0' + (v - 52) as char
    else if v == 62 then '+' else '/'
  }

  /** The value of a letter, 64 for a character outside the alphabet. */
  function Sextet(c: char): (v: nat)
    ensures v <= 64
  {
    if 'A' <= c <= 'Z' then (c - 'A') as nat
    else if 'a' <= c <= 'z' then (c - 'a') as nat + 26
    else if '0' <= c <= '9' then (c - '0') as nat + 52
    else if c == '+' then 62 else if c == '/' then 63 else 64
  }

  lemma SextetOfLetter(v: nat)
    requires v < 64
    ensures Sextet(Letter(v)) == v
  {
  }

  lemma Powers()
    ensures Power2(0) == 1 && Power2(2) == 4 && Power2(4) == 16 && Power2(6) == 64
  {
    assert Power2(2) == 4 * Power2(0);
    assert Power2(4) == 4 * Power2(2);
    assert Power2(6) == 4 * Power2(4);
  }

  // ---------------------------------------------------------------- bytes to groups of six bits

  /** The k-th group of six bits of the standard, zeros behind the end. */
  function SixAt(b: seq<byte>, k: nat): (v: nat)
    ensures v < 64
  {
    var g := k / 4 * 3;
    if k % 4 == 0 then ByteAt(b, g) / 4
    else if k % 4 == 1 then ByteAt(b, g) % 4 * 16 + ByteAt(b, g + 1) / 16
    else if k % 4 == 2 then ByteAt(b, g + 1) % 16 * 4 + ByteAt(b, g + 2) / 64
    else ByteAt(b, g + 2) % 64
  }

  /** How many of them hold a bit of n bytes. */
  function Sixes(n: nat): nat { (n * 8 + 5) / 6 }

  predicate SixBits(s: seq<nat>) { forall k :: 0 <= k < |s| ==> s[k] < 64 }

  function Groups(b: seq<byte>, n: nat): (s: seq<nat>)
    ensures |s| == n && SixBits(s)
  {
    seq(n, k requires k >= 0 => SixAt(b, k))
  }

  function Letters(s: seq<nat>): string
    requires SixBits(s)
  {
    seq(|s|, k requires 0 <= k < |s| => Letter(s[k]))
  }

  function Pad(n: nat): string { seq((4 - n % 4) % 4, _ => '=') }

  function Encoded(b: seq<byte>): string { Letters(Groups(b, Sixes(|b|))) + Pad(Sixes(|b|)) }

  /** The inner loop: whole groups leave the accumulator from the top. */
  method Flush(acc: nat, bits: nat) returns (out: seq<nat>, rest: nat, left: nat)
    requires bits == 8 || bits == 10 || bits == 12
    ensures left == bits % 6 && rest == acc % Power2(left)
    ensures out == if bits == 8 then [acc / 4 % 64]
                   else if bits == 10 then [acc / 16 % 64] else [acc / 64 % 64, acc % 64]
  {
    Powers();
    hide Power2;
    out, left := [], bits;
    while left >= 6
      invariant left == bits || left == bits - 6 || (left == bits - 12 && bits == 12)
      invariant left == bits ==> out == []
      invariant left == bits - 6 ==> out == [acc / (if bits == 8 then 4 else if bits == 10 then 16 else 64) % 64]
      invariant left == bits - 12 ==> out == [acc / 64 % 64, acc % 64]
    {
      left := left - 6;
      out := out + [acc / Power2(left) % 64];
    }
    rest := acc % Power2(left);
  }

  /** What the accumulator holds after i bytes. */
  function Pending(b: seq<byte>, i: nat): nat
    requires i <= |b|
  {
    if i % 3 == 0 then 0 else if i % 3 == 1 then b[i - 1] % 4 else b[i - 1] % 16
  }

  lemma Split16(p: nat, y: nat)
    requires y < 256 && p < 4
    ensures (p * 256 + y) / 16 % 64 == p * 16 + y / 16 && (p * 256 + y) % 16 == y % 16
  {
    var n := p * 16 + y / 16;
    assert p * 256 + y == 16 * n + y % 16 && n < 64;
  }

  lemma Split64(p: nat, y: nat)
    requires y < 256 && p < 16
    ensures (p * 256 + y) / 64 % 64 == p * 4 + y / 64 && (p * 256 + y) % 64 == y % 64
  {
    var n := p * 4 + y / 64;
    assert p * 256 + y == 64 * n + y % 64 && n < 64;
  }

  lemma PendingIs(b: seq<byte>, q: nat, r: nat)
    requires r < 3 && 3 * q + r <= |b|
    ensures Pending(b, 3 * q + r) == if r == 0 then 0 else if r == 1 then b[3 * q] % 4 else b[3 * q + 1] % 16
  {
    assert (3 * q + r) % 3 == r;
  }

  lemma ByteIndices(q: nat, r: nat)
    requires r < 3
    ensures var i := 3 * q + r;
            && i % 3 == r && i * 8 / 6 == 4 * q + r && (i + 1) * 8 / 6 == (if r == 2 then 4 * q + 4 else 4 * q + r + 1)
            && (i + 1) % 3 == (r + 1) % 3
  {
  }

  /** The first, second and third byte of a group of three. */
  lemma OneByteMore(b: seq<byte>, q: nat, r: nat)
    requires r < 3 && 3 * q + r < |b|
    ensures var acc := Pending(b, 3 * q + r) * 256 + b[3 * q + r];
            && (r == 0 ==> acc / 4 % 64 == SixAt(b, 4 * q) && acc % 4 == Pending(b, 3 * q + 1))
            && (r == 1 ==> acc / 16 % 64 == SixAt(b, 4 * q + 1) && acc % 16 == Pending(b, 3 * q + 2))
            && (r == 2 ==> acc / 64 % 64 == SixAt(b, 4 * q + 2) && acc % 64 == SixAt(b, 4 * q + 3)
                           && Pending(b, 3 * (q + 1)) == 0)
  {
    hide Pending, SixAt;
    var i := 3 * q + r;
    PendingIs(b, q, r);
    SixIs(b, q);
    if r == 0 {
      PendingIs(b, q, 1);
    } else if r == 1 {
      PendingIs(b, q, 2);
      Split16(b[3 * q] % 4, b[i]);
    } else {
      PendingIs(b, q + 1, 0);
      Split64(b[3 * q + 1] % 16, b[i]);
    }
  }

  lemma LastGroup(b: seq<byte>)
    requires |b| % 3 != 0
    ensures var n := |b| * 8 / 6;
            && Sixes(|b|) == n + 1
            && SixAt(b, n) == Pending(b, |b|) * (if |b| % 3 == 1 then 16 else 4)
  {
    var q := |b| / 3;
    var n := |b| * 8 / 6;
    if |b| % 3 == 1 {
      assert |b| == 3 * q + 1 && n == 4 * q + 1;
    } else {
      assert |b| == 3 * q + 2 && n == 4 * q + 2;
    }
  }

  lemma GroupsMore(b: seq<byte>, n: nat)
    ensures Groups(b, n + 1) == Groups(b, n) + [SixAt(b, n)]
    ensures Letters(Groups(b, n + 1)) == Letters(Groups(b, n)) + [Letter(SixAt(b, n))]
  {
    hide SixAt, Letter;
  }

  predicate Encoding(b: seq<byte>, i: nat, out: string, acc: nat, bits: nat)
    requires i <= |b|
  {
    bits == i % 3 * 2 && acc == Pending(b, i) && out == Letters(Groups(b, i * 8 / 6))
  }

  method AddByte(b: seq<byte>, i: nat, was: string, acc: nat, bits: nat) returns (out: string, rest: nat, left: nat)
    requires i < |b| && Encoding(b, i, was, acc, bits)
    ensures Encoding(b, i + 1, out, rest, left)
  {
    hide SixAt, Power2, Letter, Groups, Letters, Pending;
    ByteIndices(i / 3, i % 3);
    OneByteMore(b, i / 3, i % 3);
    ghost var n := i * 8 / 6;
    GroupsMore(b, n);
    GroupsMore(b, n + 1);
    Powers();
    var letters;
    letters, rest, left := Flush(acc * 256 + b[i], bits + 8);
    out := was + [Letter(letters[0])];
    if |letters| > 1 {
      out := out + [Letter(letters[1])];
    }
    Modulo1(acc * 256 + b[i]);
  }

  /** What is left in the accumulator fills a last letter. */
  lemma LastLetter(b: seq<byte>)
    requires |b| % 3 != 0
    ensures var n, bits := |b| * 8 / 6, |b| % 3 * 2;
            Sixes(|b|) == n + 1 && Pending(b, |b|) * Power2(6 - bits) % 64 == SixAt(b, n)
  {
    hide Power2, SixAt, Pending;
    Powers();
    LastGroup(b);
    PendingSmall(b);
  }

  lemma NoLastLetter(b: seq<byte>)
    requires |b| % 3 == 0
    ensures Sixes(|b|) == |b| * 8 / 6
  {
    var q := |b| / 3;
    assert |b| == 3 * q;
  }

  method Encode(b: seq<byte>) returns (out: string)
    ensures out == Encoded(b)
  {
    hide SixAt, Power2, Letter, Groups, Letters, Pending, Sixes, Pad;
    out := "";
    var acc: nat, bits: nat := 0, 0;
    Nothing(b);
    for i := 0 to |b|
      invariant Encoding(b, i, out, acc, bits)
    {
      out, acc, bits := AddByte(b, i, out, acc, bits);
    }
    if bits > 0 {
      LastLetter(b);
      GroupsMore(b, |b| * 8 / 6);
      out := out + [Letter(acc * Power2(6 - bits) % 64)];
    } else {
      NoLastLetter(b);
    }
    LettersSize(b, Sixes(|b|));
    out := PadTo4(out);
  }

  lemma PadSteps(n: nat, k: nat)
    requires k <= (4 - n % 4) % 4
    ensures (n + k) % 4 == 0 <==> k == (4 - n % 4) % 4
  {
    var q, r := n / 4, n % 4;
    assert n + k == 4 * q + (r + k);
  }

  method PadTo4(s: string) returns (out: string)
    ensures out == s + Pad(|s|)
  {
    out := s;
    ghost var k: nat := 0;
    ghost var p := (4 - |s| % 4) % 4;
    PadSteps(|s|, 0);
    while |out| % 4 != 0
      invariant k <= p && |out| == |s| + k && out == s + seq(k, _ => '=')
      invariant |out| % 4 == 0 <==> k == p
      decreases p - k
    {
      PadSteps(|s|, k + 1);
      out := out + "=";
      assert seq(k + 1, _ => '=') == seq(k, _ => '=') + "=";
      k := k + 1;
    }
  }

  lemma Nothing(b: seq<byte>)
    ensures Letters(Groups(b, 0)) == "" && Pending(b, 0) == 0
  {
  }

  lemma Modulo1(n: nat)
    ensures n % 1 == 0
  {
  }

  lemma LettersSize(b: seq<byte>, n: nat)
    ensures |Letters(Groups(b, n))| == n
  {
  }

  lemma PendingSmall(b: seq<byte>)
    ensures |b| % 3 == 1 ==> Pending(b, |b|) < 4
    ensures |b| % 3 == 2 ==> Pending(b, |b|) < 16
  {
  }

  // ---------------------------------------------------------------- and back

  /** The values of the letters in a text; other characters are passed over. */
  function Values(text: string): (s: seq<nat>)
    ensures SixBits(s)
  {
    if text == "" then [] else
      var n := |text| - 1;
      Values(text[..n]) + (if Sextet(text[n]) < 64 then [Sextet(text[n])] else [])
  }

  function SixOf(s: seq<nat>, k: nat): nat { if k < |s| then s[k] else 0 }

  /** The j-th byte of groups of six bits. */
  function EightAt(s: seq<nat>, j: nat): nat {
    var g := j / 3 * 4;
    if j % 3 == 0 then SixOf(s, g) * 4 + SixOf(s, g + 1) / 16
    else if j % 3 == 1 then SixOf(s, g + 1) % 16 * 16 + SixOf(s, g + 2) / 4
    else SixOf(s, g + 2) % 4 * 64 + SixOf(s, g + 3)
  }

  lemma EightFits(s: seq<nat>, j: nat)
    requires SixBits(s)
    ensures EightAt(s, j) < 256
  {
    var g := j / 3 * 4;
    assert SixOf(s, g) < 64 && SixOf(s, g + 1) < 64 && SixOf(s, g + 2) < 64 && SixOf(s, g + 3) < 64;
  }

  function Octets(s: seq<nat>, n: nat): (b: seq<byte>)
    requires SixBits(s)
    ensures |b| == n
  {
    seq(n, j requires j >= 0 => EightFits(s, j); EightAt(s, j))
  }

  function Decoded(text: string): seq<byte> { Octets(Values(text), |Values(text)| * 6 / 8) }

  /** What the accumulator holds after k groups. */
  function Held(s: seq<nat>, k: nat): nat
    requires k <= |s|
  {
    if k % 4 == 0 then 0 else if k % 4 == 1 then s[k - 1] else if k % 4 == 2 then s[k - 1] % 16 else s[k - 1] % 4
  }

  lemma Join16(h: nat, y: nat)
    requires h < 64 && y < 64
    ensures (h * 64 + y) / 16 % 256 == h * 4 + y / 16 && (h * 64 + y) % 16 == y % 16
  {
    var n := h * 4 + y / 16;
    assert h * 64 + y == 16 * n + y % 16 && n < 256;
  }

  lemma Join4(h: nat, y: nat)
    requires h < 16 && y < 64
    ensures (h * 64 + y) / 4 % 256 == h * 16 + y / 4 && (h * 64 + y) % 4 == y % 4
  {
    var n := h * 16 + y / 4;
    assert h * 64 + y == 4 * n + y % 4 && n < 256;
  }

  lemma Indices(q: nat, r: nat)
    requires r < 4
    ensures var k, n := 4 * q + r, if r == 0 then 3 * q else 3 * q + r - 1;
            && k % 4 == r && k / 4 == q && k * 6 / 8 == n && k * 6 % 8 == (if r == 0 then 0 else 8 - 2 * r)
            && (k + 1) * 6 / 8 == (if r == 0 then n else n + 1) && (k + 1) * 6 % 8 == (if r == 3 then 0 else 6 - 2 * r)
            && n / 3 == q && n % 3 == (if r == 0 then 0 else r - 1) && (k + 1) % 4 == (r + 1) % 4
  {
  }

  lemma EightIs(s: seq<nat>, q: nat)
    ensures EightAt(s, 3 * q) == SixOf(s, 4 * q) * 4 + SixOf(s, 4 * q + 1) / 16
    ensures EightAt(s, 3 * q + 1) == SixOf(s, 4 * q + 1) % 16 * 16 + SixOf(s, 4 * q + 2) / 4
    ensures EightAt(s, 3 * q + 2) == SixOf(s, 4 * q + 2) % 4 * 64 + SixOf(s, 4 * q + 3)
  {
    assert (3 * q) / 3 == q && (3 * q) % 3 == 0;
    assert (3 * q + 1) / 3 == q && (3 * q + 1) % 3 == 1;
    assert (3 * q + 2) / 3 == q && (3 * q + 2) % 3 == 2;
  }

  lemma HeldIs(s: seq<nat>, q: nat, r: nat)
    requires r < 4 && 4 * q + r <= |s|
    ensures Held(s, 4 * q + r)
            == if r == 0 then 0 else if r == 1 then s[4 * q] else if r == 2 then s[4 * q + 1] % 16 else s[4 * q + 2] % 4
  {
    assert (4 * q + r) % 4 == r;
  }

  /** The accumulator with one group more, and how many bits it has then. */
  function Wide(s: seq<nat>, k: nat): nat
    requires k < |s|
  {
    Held(s, k) * 64 + s[k]
  }

  lemma OneGroupMore(s: seq<nat>, q: nat, r: nat)
    requires SixBits(s) && r < 4 && 4 * q + r < |s|
    ensures var acc := Wide(s, 4 * q + r);
            && (r == 0 ==> acc % Power2(6) == Held(s, 4 * q + 1))
            && (r == 1 ==> acc / Power2(4) % 256 == EightAt(s, 3 * q) && acc % Power2(4) == Held(s, 4 * q + 2))
            && (r == 2 ==> acc / Power2(2) % 256 == EightAt(s, 3 * q + 1) && acc % Power2(2) == Held(s, 4 * q + 3))
            && (r == 3 ==> acc / Power2(0) % 256 == EightAt(s, 3 * q + 2) && acc % Power2(0) == Held(s, 4 * (q + 1)))
  {
    Powers();
    hide Power2, Held, EightAt;
    var k := 4 * q + r;
    EightIs(s, q);
    HeldIs(s, q, r);
    if r == 0 {
      HeldIs(s, q, 1);
    } else if r == 1 {
      HeldIs(s, q, 2);
      Join16(s[4 * q], s[k]);
    } else if r == 2 {
      HeldIs(s, q, 3);
      Join4(s[4 * q + 1] % 16, s[k]);
    } else {
      HeldIs(s, q + 1, 0);
      Modulo1(Wide(s, k));
      assert s[4 * q + 2] % 4 * 64 + s[k] < 256;
    }
  }

  predicate Decoding(s: seq<nat>, k: nat, out: seq<byte>, acc: nat, bits: nat)
    requires k <= |s| && SixBits(s)
  {
    bits == k * 6 % 8 && acc == Held(s, k) && out == Octets(s, k * 6 / 8)
  }

  lemma OctetsMore(s: seq<nat>, n: nat)
    requires SixBits(s)
    ensures EightAt(s, n) < 256 && Octets(s, n + 1) == Octets(s, n) + [EightAt(s, n)]
  {
    EightFits(s, n);
  }

  lemma DecodingMore(s: seq<nat>, k: nat, out: seq<byte>, acc: nat, bits: nat)
    requires SixBits(s) && k < |s| && Decoding(s, k, out, acc, bits)
    ensures var wide, left := acc * 64 + s[k], bits + 6;
            if left >= 8 then
              Decoding(s, k + 1, out + [wide / Power2(left - 8) % 256], wide % Power2(left - 8), left - 8)
            else Decoding(s, k + 1, out, wide % Power2(left), left)
  {
    hide EightAt, Power2, Octets, Held;
    var q, r := k / 4, k % 4;
    Indices(q, r);
    OneGroupMore(s, q, r);
    OctetsMore(s, k * 6 / 8);
  }

  method Decode(text: string) returns (out: seq<byte>)
    ensures out == Decoded(text)
  {
    hide Power2, Octets, Held, Sextet;
    out := [];
    ghost var all := Values(text);
    var acc: nat, bits: nat := 0, 0;
    ghost var k: nat := 0;
    NothingYet(all);
    for i := 0 to |text|
      invariant k <= |all| && Values(text[..i]) == all[..k] && Decoding(all, k, out, acc, bits)
    {
      ValuesOn(text, i);
      var six := Sextet(text[i]);
      if six < 64 {
        assert all[k] == six by { assert Values(text[..i + 1])[k] == six; }
        DecodingMore(all, k, out, acc, bits);
        acc := acc * 64 + six;
        bits := bits + 6;
        if bits >= 8 {
          bits := bits - 8;
          out := out + [acc / Power2(bits) % 256];
        }
        acc := acc % Power2(bits);
        k := k + 1;
      }
    }
    assert text[..|text|] == text;
  }

  lemma NothingYet(s: seq<nat>)
    requires SixBits(s)
    ensures Decoding(s, 0, [], 0, 0)
  {
  }

  /** The values of a longer beginning begin with those of a shorter. */
  lemma {:induction false} ValuesPrefix(text: string, i: nat)
    requires i <= |text|
    ensures var v := Values(text[..i]); |v| <= |Values(text)| && Values(text)[..|v|] == v
    decreases |text|
  {
    if i == |text| {
      assert text[..i] == text;
    } else {
      var n := |text| - 1;
      ValuesPrefix(text[..n], i);
      assert text[..n][..i] == text[..i];
    }
  }

  lemma ValuesOn(text: string, i: nat)
    requires i < |text|
    ensures Values(text[..i + 1]) == Values(text[..i]) + (if Sextet(text[i]) < 64 then [Sextet(text[i])] else [])
    ensures var v := Values(text[..i + 1]); |v| <= |Values(text)| && Values(text)[..|v|] == v
  {
    assert text[..i + 1][..i] == text[..i];
    ValuesPrefix(text, i + 1);
  }

  // ---------------------------------------------------------------- round trip

  lemma {:induction false} ValuesOfLetters(s: seq<nat>, n: nat)
    requires SixBits(s)
    ensures Values(Letters(s) + Pad(n)) == s
  {
    LettersBack(s);
    PadIsPassed(Letters(s), |Pad(n)|);
    assert seq(|Pad(n)|, _ => '=') == Pad(n);
  }

  lemma {:induction false} LettersBack(s: seq<nat>)
    requires SixBits(s)
    ensures Values(Letters(s)) == s
    decreases |s|
  {
    if s != [] {
      var n := |s| - 1;
      LettersBack(s[..n]);
      assert Letters(s)[..n] == Letters(s[..n]);
      SextetOfLetter(s[n]);
      assert s == s[..n] + [s[n]];
    }
  }

  lemma {:induction false} PadIsPassed(text: string, n: nat)
    ensures Values(text + seq(n, _ => '=')) == Values(text)
    decreases n
  {
    var all := text + seq(n, _ => '=');
    if n == 0 {
      assert all == text;
    } else {
      PadIsPassed(text, n - 1);
      assert all[..|all| - 1] == text + seq(n - 1, _ => '=');
      assert all[|all| - 1] == '=';
    }
  }

  lemma ThreeBack(x: nat, y: nat, z: nat)
    requires x < 256 && y < 256 && z < 256
    ensures x / 4 * 4 + (x % 4 * 16 + y / 16) / 16 == x
    ensures (x % 4 * 16 + y / 16) % 16 * 16 + (y % 16 * 4 + z / 64) / 4 == y
    ensures (y % 16 * 4 + z / 64) % 4 * 64 + z % 64 == z
  {
  }

  lemma SixIs(b: seq<byte>, q: nat)
    ensures var x, y, z := ByteAt(b, 3 * q), ByteAt(b, 3 * q + 1), ByteAt(b, 3 * q + 2);
            && SixAt(b, 4 * q) == x / 4 && SixAt(b, 4 * q + 1) == x % 4 * 16 + y / 16
            && SixAt(b, 4 * q + 2) == y % 16 * 4 + z / 64 && SixAt(b, 4 * q + 3) == z % 64
  {
    assert (4 * q) / 4 == q && (4 * q) % 4 == 0 && (4 * q + 1) / 4 == q && (4 * q + 1) % 4 == 1;
    assert (4 * q + 2) / 4 == q && (4 * q + 2) % 4 == 2 && (4 * q + 3) / 4 == q && (4 * q + 3) % 4 == 3;
  }

  /** A group beyond the last one counted has no bit set. */
  lemma GroupIs(b: seq<byte>, k: nat)
    ensures SixOf(Groups(b, Sixes(|b|)), k) == SixAt(b, k)
  {
    if k >= Sixes(|b|) {
      assert k * 6 >= |b| * 8;
      var q, r := k / 4, k % 4;
      assert k == 4 * q + r;
    }
  }

  lemma EightBack(b: seq<byte>, j: nat)
    requires j < |b|
    ensures EightAt(Groups(b, Sixes(|b|)), j) == b[j]
  {
    hide SixAt, EightAt, SixOf, Groups;
    var s, q := Groups(b, Sixes(|b|)), j / 3;
    EightIs(s, q);
    SixIs(b, q);
    GroupIs(b, 4 * q);
    GroupIs(b, 4 * q + 1);
    GroupIs(b, 4 * q + 2);
    GroupIs(b, 4 * q + 3);
    ThreeBack(ByteAt(b, 3 * q), ByteAt(b, 3 * q + 1), ByteAt(b, 3 * q + 2));
    assert j == 3 * q || j == 3 * q + 1 || j == 3 * q + 2;
  }

  /** Decoding what was encoded gives the bytes back, whatever they are. */
  lemma RoundTrip(b: seq<byte>)
    ensures Decoded(Encoded(b)) == b
  {
    hide EightAt, Values, Groups, SixAt;
    var s := Groups(b, Sixes(|b|));
    ValuesOfLetters(s, Sixes(|b|));
    assert Sixes(|b|) * 6 / 8 == |b|;
    forall j | 0 <= j < |b|
      ensures Octets(s, |b|)[j] == b[j]
    {
      EightBack(b, j);
    }
  }
}
