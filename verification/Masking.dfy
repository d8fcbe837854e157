/** Store paths inside text, with their hashes masked. The store directory is /nix/store. */
module Masking {
  import opened Text

  const PREFIX: string := "/nix/store/"
  const HASH_LENGTH: nat := 32

  predicate HashChar(c: char) { c in "0123456789abcdfghijklmnpqrsvwxyz" }

  predicate IsStoreHash(h: string) { |h| == HASH_LENGTH && forall i :: 0 <= i < |h| ==> HashChar(h[i]) }

  /** A hash and its '-' stand at i. */
  predicate Named(t: string, i: nat) {
    i + HASH_LENGTH < |t| && t[i + HASH_LENGTH] == '-' && IsStoreHash(t[i..i + HASH_LENGTH])
  }

  /** The store path that begins at i has an unmasked hash. */
  predicate Occurs(t: string, i: nat) { At(t, PREFIX, i) && Named(t, i + |PREFIX|) }

  /** The masked text, read off from left to right. */
  function Masked(t: string): string
    decreases |t|
  {
    if t == [] then []
    else if !Starts(t, PREFIX) then [t[0]] + Masked(t[1..])
    else if Named(t, 11) then PREFIX + "*" + Masked(t[43..])
    else if |t| == 11 then t
    else t[..12] + Masked(t[12..])
  }

  // ---------------------------------------------------------------- the prefix overlaps itself in one character only

  lemma HashCharIsPlain(c: char)
    requires HashChar(c)
    ensures c != '/' && c != '*' && c != '-' && c != 'e'
  {
  }

  lemma PrefixSlashes(t: string, i: nat, d: nat)
    requires At(t, PREFIX, i) && d < |PREFIX| && t[i + d] == '/'
    ensures d == 0 || d == 4 || d == 10
    ensures d == 4 ==> t[i + d + 1] == 's'
  {
    AtIndex(t, PREFIX, i, d);
    if d == 4 { AtIndex(t, PREFIX, i, 5); }
  }

  lemma PrefixChars(t: string, i: nat)
    requires At(t, PREFIX, i)
    ensures t[i] == '/' && t[i + 1] == 'n' && t[i + 4] == '/' && t[i + 10] == '/'
    ensures forall j :: i <= j < i + 11 ==> t[j] != '*' && t[j] != '-'
  {
    forall j | i <= j < i + 11
      ensures t[j] == PREFIX[j - i]
    {
      AtIndex(t, PREFIX, i, j - i);
    }
  }

  lemma PrefixApart(t: string, i: nat, j: nat)
    requires At(t, PREFIX, i) && At(t, PREFIX, j) && i < j
    ensures j >= i + 10
  {
    if j < i + 10 {
      PrefixChars(t, j);
      PrefixSlashes(t, i, j - i);
    }
  }

  lemma NamedChars(t: string, i: nat)
    requires Named(t, i)
    ensures forall j :: i <= j < i + HASH_LENGTH ==> HashChar(t[j]) && t[j] != '/' && t[j] != '*' && t[j] != '-'
  {
    forall j | i <= j < i + HASH_LENGTH
      ensures HashChar(t[j]) && t[j] != '/' && t[j] != '*' && t[j] != '-'
    {
      assert t[i..i + HASH_LENGTH][j - i] == t[j];
      HashCharIsPlain(t[j]);
    }
  }

  lemma NamedSame(t: string, u: string, i: nat)
    requires i + HASH_LENGTH < |t| && i + HASH_LENGTH < |u|
    requires forall j :: i <= j <= i + HASH_LENGTH ==> t[j] == u[j]
    ensures Named(t, i) == Named(u, i)
  {
    assert t[i..i + HASH_LENGTH] == u[i..i + HASH_LENGTH];
  }

  lemma NamedShift(t: string, k: nat, i: nat)
    requires k <= |t|
    ensures Named(t[k..], i) == Named(t, k + i)
  {
    if k + i + HASH_LENGTH < |t| {
      assert t[k..][i..i + HASH_LENGTH] == t[k + i..k + i + HASH_LENGTH];
    }
  }

  lemma OccursSame(t: string, u: string, i: nat)
    requires i + 44 <= |t| && i + 44 <= |u|
    requires forall j :: i <= j < i + 44 ==> t[j] == u[j]
    ensures Occurs(t, i) == Occurs(u, i)
  {
    AtSame(t, u, PREFIX, i);
    NamedSame(t, u, i + 11);
  }

  lemma OccursShift(t: string, k: nat, i: nat)
    requires k <= |t|
    ensures Occurs(t[k..], i) == Occurs(t, k + i)
  {
    AtShift(t, PREFIX, k, i);
    NamedShift(t, k, i + 11);
  }

  lemma OccursChars(t: string, i: nat)
    requires Occurs(t, i)
    ensures i + 44 <= |t|
    ensures forall j :: i <= j < i + 44 ==> t[j] != '*'
    ensures forall j :: i <= j < i + 44 && t[j] == '/' ==> j == i || j == i + 4 || j == i + 10
    ensures t[i + 5] == 's' && t[i + 43] == '-'
  {
    PrefixChars(t, i);
    NamedChars(t, i + 11);
    AtIndex(t, PREFIX, i, 5);
    forall j | i <= j < i + 44 && t[j] == '/'
      ensures j == i || j == i + 4 || j == i + 10
    {
      if j < i + 11 { PrefixSlashes(t, i, j - i); }
    }
  }

  /** No other store path begins inside a prefix and its hash. */
  lemma OccursApart(t: string, i: nat, j: nat)
    requires Occurs(t, i) && i < j && At(t, PREFIX, j)
    ensures j >= i + 44
  {
    OccursChars(t, i);
    PrefixChars(t, j);
  }

  // ---------------------------------------------------------------- text without a prefix is copied

  lemma MaskedStep(t: string)
    requires t != [] && !At(t, PREFIX, 0)
    ensures Masked(t) == [t[0]] + Masked(t[1..])
  {
  }

  lemma {:induction false} MaskedCopies(t: string, k: nat)
    requires k <= |t| && Free(t, PREFIX, k)
    ensures Masked(t) == t[..k] + Masked(t[k..])
    decreases k
  {
    hide At, Named, Masked;
    if k == 0 {
      assert t[0..] == t;
    } else {
      assert !At(t, PREFIX, 0);
      forall i: nat | i < k - 1
        ensures !At(t[1..], PREFIX, i)
      {
        AtShift(t, PREFIX, 1, i);
      }
      MaskedStep(t);
      MaskedCopies(t[1..], k - 1);
      assert t[1..][k - 1..] == t[k..];
      assert t[..k] == [t[0]] + t[1..][..k - 1];
    }
  }

  /** A star-free beginning of the masked text is a beginning of the text. */
  lemma {:induction false} Agrees(t: string, k: nat)
    requires k <= |Masked(t)| && '*' !in Masked(t)[..k]
    ensures k <= |t| && forall j :: 0 <= j < k ==> t[j] == Masked(t)[j]
    decreases |t|
  {
    var m := Masked(t);
    assert forall j :: 0 <= j < k ==> m[j] == m[..k][j];
    if t != [] && k > 0 {
      if !Starts(t, PREFIX) {
        var rest := Masked(t[1..]);
        assert rest[..k - 1] == m[..k][1..];
        Agrees(t[1..], k - 1);
      } else if Named(t, 11) {
        assert m[11] == '*';
        assert t[0..11] == PREFIX;
        assert forall j :: 0 <= j < 11 ==> t[j] == t[0..11][j];
      } else if k > 12 {
        var rest := Masked(t[12..]);
        assert rest[..k - 12] == m[..k][12..];
        Agrees(t[12..], k - 12);
      }
    }
  }

  lemma NoStar(m: string, k: nat)
    requires k <= |m| && forall j :: 0 <= j < k ==> m[j] != '*'
    ensures '*' !in m[..k]
  {
  }

  /** Masking neither creates nor destroys a prefix or a hash at the front of a star-free text. */
  lemma FrontKept(t: string)
    ensures Starts(Masked(t), PREFIX) <==> Starts(t, PREFIX)
    ensures Occurs(Masked(t), 0) ==> Occurs(t, 0)
  {
    var m := Masked(t);
    if Starts(m, PREFIX) {
      PrefixChars(m, 0);
      NoStar(m, 11);
      Agrees(t, 11);
      AtSame(m, t, PREFIX, 0);
    }
    if Starts(t, PREFIX) && !Named(t, 11) && |t| > 11 {
      assert forall j :: 0 <= j < 11 ==> m[j] == t[j];
      AtSame(m, t, PREFIX, 0);
    }
    if Starts(t, PREFIX) && Named(t, 11) {
      StartsConcat(PREFIX, "*" + Masked(t[43..]));
      assert PREFIX + "*" + Masked(t[43..]) == PREFIX + ("*" + Masked(t[43..]));
    }
    if Occurs(m, 0) {
      OccursChars(m, 0);
      NoStar(m, 44);
      Agrees(t, 44);
      OccursSame(m, t, 0);
    }
  }

  /** Masking twice is masking once. */
  lemma {:induction false} MaskedIdempotent(t: string)
    ensures Masked(Masked(t)) == Masked(t)
    decreases |t|
  {
    var m := Masked(t);
    if t != [] {
      FrontKept(t);
      if !Starts(t, PREFIX) {
        MaskedIdempotent(t[1..]);
        assert m[1..] == Masked(t[1..]);
      } else if Named(t, 11) {
        assert m[11] == '*';
        if Named(m, 11) { NamedChars(m, 11); }
        MaskedIdempotent(t[43..]);
        assert m[..12] == PREFIX + "*" && m[12..] == Masked(t[43..]);
      } else if |t| > 11 {
        MaskedIdempotent(t[12..]);
        assert m[..12] == t[..12] && m[12..] == Masked(t[12..]);
      }
    }
  }

  // ---------------------------------------------------------------- what masking misses

  /** The scan stops at a prefix unless it has just stopped 10 or 11 characters before: it resumes
      one character past the prefix. */
  predicate Stop(t: string, i: nat) {
    At(t, PREFIX, i) && !(i >= 10 && Stop(t, i - 10)) && !(i >= 11 && Stop(t, i - 11))
  }

  lemma {:induction false} StopShift(t: string, k: nat, i: nat)
    requires k <= |t| && forall j: nat :: k - 11 <= j < k ==> !Stop(t, j)
    ensures Stop(t[k..], i) == Stop(t, k + i)
    decreases i
  {
    hide At;
    AtShift(t, PREFIX, k, i);
    if i >= 10 { StopShift(t, k, i - 10); }
    if i >= 11 { StopShift(t, k, i - 11); }
  }

  /** Every store path of t is one the scan stops at. */
  ghost predicate Spaced(t: string) { forall i: nat :: Occurs(t, i) ==> Stop(t, i) }

  ghost predicate Clean(t: string) { forall i: nat :: !Occurs(t, i) }

  lemma CleanShift(t: string, k: nat)
    requires k <= |t| && forall i: nat :: i < k ==> !Occurs(t, i)
    ensures Clean(t) <==> Clean(t[k..])
  {
    forall i: nat ensures Occurs(t[k..], i) == Occurs(t, k + i) { OccursShift(t, k, i); }
    forall i: nat | k <= i ensures Occurs(t, i) == Occurs(t[k..], i - k) { OccursShift(t, k, i - k); }
  }

  lemma SpacedShift(t: string, k: nat)
    requires k <= |t| && (forall i: nat :: k - 11 <= i < k ==> !Stop(t, i))
    requires forall i: nat :: i < k && Occurs(t, i) ==> Stop(t, i)
    ensures Spaced(t) <==> Spaced(t[k..])
  {
    forall i: nat
      ensures Occurs(t[k..], i) == Occurs(t, k + i) && Stop(t[k..], i) == Stop(t, k + i)
    {
      OccursShift(t, k, i);
      StopShift(t, k, i);
    }
    forall i: nat | k <= i
      ensures Occurs(t, i) == Occurs(t[k..], i - k) && Stop(t, i) == Stop(t[k..], i - k)
    {
      OccursShift(t, k, i - k);
      StopShift(t, k, i - k);
    }
  }

  lemma HiddenStays(t: string, m: string, i: nat)
    requires 0 < i < 12 <= |t| && 12 <= |m| && m[..12] == t[..12] && m[12..] == Masked(t[12..]) && Occurs(t, i)
    ensures Occurs(m, i)
  {
    hide Masked;
    OccursChars(t, i);
    var k := i + 44 - 12;
    forall j: nat | j < k
      ensures !At(t[12..], PREFIX, j)
    {
      AtShift(t, PREFIX, 12, j);
      if At(t, PREFIX, 12 + j) { OccursApart(t, i, 12 + j); }
    }
    MaskedCopies(t[12..], k);
    hide Occurs, At;
    SameFront(t, m, k);
    OccursSame(m, t, i);
  }

  lemma SameFront(t: string, m: string, k: nat)
    requires 12 + k <= |t| && 12 <= |m| && m[..12] == t[..12]
    requires k <= |m[12..]| && forall j :: 0 <= j < k ==> m[12..][j] == t[12..][j]
    ensures 12 + k <= |m| && forall j :: 0 <= j < 12 + k ==> m[j] == t[j]
  {
    forall j | 0 <= j < 12 + k
      ensures m[j] == t[j]
    {
      if j < 12 {
        assert m[j] == m[..12][j] && t[j] == t[..12][j];
      } else {
        assert m[j] == m[12..][j - 12] && t[j] == t[12..][j - 12];
      }
    }
  }

  lemma HiddenWas(t: string, m: string, i: nat)
    requires 0 < i < 12 <= |t| && 12 <= |m| && m[..12] == t[..12] && m[12..] == Masked(t[12..]) && Occurs(m, i)
    ensures Occurs(t, i)
  {
    hide Masked;
    OccursChars(m, i);
    hide Occurs;
    var k := i + 44 - 12;
    assert forall j :: 0 <= j < k ==> m[12..][j] == m[12 + j];
    NoStar(m[12..], k);
    Agrees(t[12..], k);
    SameFront(t, m, k);
    OccursSame(m, t, i);
  }

  /** A store path the scan steps over is kept as it is. */
  lemma HiddenKept(t: string, i: nat)
    requires Starts(t, PREFIX) && !Named(t, 11) && |t| > 11 && 0 < i < 12
    ensures Occurs(Masked(t), i) == Occurs(t, i)
  {
    var m := Masked(t);
    assert m[..12] == t[..12] && m[12..] == Masked(t[12..]);
    hide Masked, Occurs;
    if Occurs(t, i) { HiddenStays(t, m, i); }
    if Occurs(m, i) { HiddenWas(t, m, i); }
  }

  lemma MissedAtPlain(t: string)
    requires t != [] && !Starts(t, PREFIX) && (Clean(Masked(t[1..])) <==> Spaced(t[1..]))
    ensures Clean(Masked(t)) <==> Spaced(t)
  {
    FrontKept(t);
    SpacedShift(t, 1);
    CleanShift(Masked(t), 1);
    assert Masked(t)[1..] == Masked(t[1..]);
  }

  lemma MissedAtHash(t: string)
    requires Occurs(t, 0) && (Clean(Masked(t[43..])) <==> Spaced(t[43..]))
    ensures Clean(Masked(t)) <==> Spaced(t)
  {
    var m := Masked(t);
    assert m[12..] == Masked(t[43..]) && m[11] == '*';
    forall i: nat | i < 12
      ensures !Occurs(m, i)
    {
      if Occurs(m, i) { OccursChars(m, i); }
    }
    CleanShift(m, 12);
    forall i: nat | 0 < i < 43
      ensures !At(t, PREFIX, i)
    {
      if At(t, PREFIX, i) { OccursApart(t, 0, i); }
    }
    assert Stop(t, 0);
    SpacedShift(t, 43);
  }

  lemma MissedAtName(t: string)
    requires Starts(t, PREFIX) && !Named(t, 11) && |t| > 11 && (Clean(Masked(t[12..])) <==> Spaced(t[12..]))
    ensures Clean(Masked(t)) <==> Spaced(t)
  {
    var m := Masked(t);
    assert m[12..] == Masked(t[12..]);
    FrontKept(t);
    forall i: nat | 0 < i < 12
      ensures Occurs(m, i) == Occurs(t, i) && !Stop(t, i)
    {
      HiddenKept(t, i);
      if At(t, PREFIX, i) {
        PrefixApart(t, 0, i);
        assert Stop(t, 0);
        assert i == 10 || i == 11;
      }
    }
    if i: nat :| 0 < i < 12 && Occurs(t, i) {
      assert Occurs(m, i) && !Stop(t, i);
    } else {
      CleanShift(m, 12);
      SpacedShift(t, 12);
    }
  }

  /** A store path keeps its hash exactly when the scan steps over it; it leaves none when no store
      path follows a prefix it stopped at by 10 or 11 characters. */
  lemma {:induction false} MaskedIsCleanIff(t: string)
    ensures Clean(Masked(t)) <==> Spaced(t)
    decreases |t|
  {
    if t != [] {
      if !Starts(t, PREFIX) {
        MaskedIsCleanIff(t[1..]);
        MissedAtPlain(t);
      } else if Named(t, 11) {
        MaskedIsCleanIff(t[43..]);
        MissedAtHash(t);
      } else if |t| > 11 {
        MaskedIsCleanIff(t[12..]);
        MissedAtName(t);
      }
    }
  }

  /** A text in which the second prefix begins with the last '/' of the first. */
  const ABUTTING: string := "/nix/store" + PREFIX + "00000000000000000000000000000000" + "-z"

  /** Not every occurrence is masked. */
  lemma MaskedMisses()
    ensures Occurs(ABUTTING, 10) && !Clean(Masked(ABUTTING))
  {
    hide Masked;
    var t := ABUTTING;
    assert t[0..11] == PREFIX && t[10..21] == PREFIX && t[53] == '-';
    assert t[21..53] == "00000000000000000000000000000000";
    assert Occurs(t, 10) && Stop(t, 0) && !Stop(t, 10);
    MaskedIsCleanIff(t);
  }

  // ---------------------------------------------------------------- the scan in place

  lemma CopiesTo(t: string, pos: nat, k: nat)
    requires pos <= k <= |t| && forall i: nat :: pos <= i < k ==> !At(t, PREFIX, i)
    ensures t[..pos] + Masked(t[pos..]) == t[..k] + Masked(t[k..])
  {
    hide Masked;
    forall i: nat | i < k - pos
      ensures !At(t[pos..], PREFIX, i)
    {
      AtShift(t, PREFIX, pos, i);
    }
    MaskedCopies(t[pos..], k - pos);
    var mid, end := t[pos..][..k - pos], Masked(t[k..]);
    assert t[pos..][k - pos..] == t[k..];
    assert t[..k] == t[..pos] + mid;
    assert t[..pos] + (mid + end) == (t[..pos] + mid) + end;
  }

  lemma ScanHash(t: string, i: nat)
    requires Occurs(t, i)
    ensures var u := t[..i + 11] + "*" + t[i + 43..];
            t[..i] + Masked(t[i..]) == u[..i + 12] + Masked(u[i + 12..])
  {
    AtShift(t, PREFIX, i, 0);
    NamedShift(t, i, 11);
    var u := t[..i + 11] + "*" + t[i + 43..];
    assert u[i + 12..] == t[i..][43..];
    assert u[..i + 12] == t[..i] + (PREFIX + "*");
  }

  lemma ScanName(t: string, i: nat)
    requires At(t, PREFIX, i) && !Named(t, i + 11)
    ensures if i + 12 <= |t| then t[..i] + Masked(t[i..]) == t[..i + 12] + Masked(t[i + 12..])
            else t[..i] + Masked(t[i..]) == t
  {
    AtShift(t, PREFIX, i, 0);
    NamedShift(t, i, 11);
    if i + 12 <= |t| {
      assert t[i..][12..] == t[i + 12..];
      assert t[..i + 12] == t[..i] + t[i..][..12];
    }
  }

  lemma MaskedAtHash(t: string)
    requires Occurs(t, 0)
    ensures |t| >= 44 && t[43] == '-' && Masked(t) == PREFIX + "*" + Masked(t[43..])
  {
  }

  lemma MaskedEmpty()
    ensures Masked([]) == []
  {
  }

  method MaskHashes(text: string) returns (t: string)
    ensures t == Masked(text)
  {
    hide Masked, Starts;
    t := text;
    var pos: nat := 0;
    assert t[..0] + Masked(t[0..]) == Masked(text) by { assert t[0..] == t; }
    var at := Find(t, PREFIX, pos);
    while at.Some?
      invariant pos <= |t| + 1
      invariant Masked(text) == if pos <= |t| then t[..pos] + Masked(t[pos..]) else t
      invariant at.Some? ==> pos <= at.value && At(t, PREFIX, at.value)
                             && forall i: nat :: pos <= i < at.value ==> !At(t, PREFIX, i)
      invariant at.None? ==> forall i: nat :: pos <= i ==> !At(t, PREFIX, i)
      decreases |t| + 1 - pos
    {
      var i := at.value;
      CopiesTo(t, pos, i);
      if Named(t, i + |PREFIX|) {
        ScanHash(t, i);
        t := t[..i + |PREFIX|] + "*" + t[i + |PREFIX| + HASH_LENGTH..];
      } else {
        ScanName(t, i);
      }
      pos := i + |PREFIX| + 1;
      at := Find(t, PREFIX, pos);
    }
    if pos <= |t| {
      CopiesTo(t, pos, |t|);
      assert t[|t|..] == [];
      MaskedEmpty();
    }
  }

  // ---------------------------------------------------------------- from masked names back to this build's paths

  lemma {:induction false} CleanIsKept(t: string)
    requires Clean(t)
    ensures Masked(t) == t
    decreases |t|
  {
    if t != [] {
      assert !Occurs(t, 0);
      if !Starts(t, PREFIX) {
        CleanShift(t, 1);
        CleanIsKept(t[1..]);
      } else if |t| > 11 {
        CleanFrom(t, 12);
        CleanIsKept(t[12..]);
      }
    }
  }

  lemma CleanFrom(t: string, k: nat)
    requires k <= |t| && forall i: nat :: k <= i ==> !Occurs(t, i)
    ensures Clean(t[k..])
  {
    forall i: nat ensures !Occurs(t[k..], i) { OccursShift(t, k, i); }
  }
}
