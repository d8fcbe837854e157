/** The own output's store hash swapped for a placeholder of the same width, and back. */
module OutHash {
  import opened Text
  import opened Masking

  function Placeholder(): (r: string)
    ensures |r| == HASH_LENGTH && forall i :: 0 <= i < |r| ==> r[i] == 'e'
  {
    seq(HASH_LENGTH, _ => 'e')
  }

  function Marker(h: string): string { PREFIX + h + "-" }

  /** Real store hashes and the placeholder. */
  predicate Plain(h: string) { |h| == HASH_LENGTH && '/' !in h }

  /** Paths below hash a turned into paths below hash b. */
  function Swap(t: string, a: string, b: string): string { Replaced(t, Marker(a), Marker(b)) }

  lemma HashIsPlain(h: string)
    requires IsStoreHash(h)
    ensures Plain(h) && h != Placeholder()
  {
    forall i | 0 <= i < |h|
      ensures h[i] != '/' && h[i] != 'e'
    {
      HashCharIsPlain(h[i]);
    }
    assert h[0] != Placeholder()[0];
  }

  // ---------------------------------------------------------------- markers do not overlap

  lemma MarkerChars(t: string, h: string, i: nat)
    requires Plain(h) && At(t, Marker(h), i)
    ensures i + 44 <= |t| && At(t, PREFIX, i) && t[i + 11..i + 43] == h
    ensures forall j :: i < j < i + 44 && t[j] == '/' ==> j == i + 4 || j == i + 10
    ensures t[i] == '/' && t[i + 1] == 'n' && t[i + 4] == '/' && t[i + 5] == 's'
  {
    var m := t[i..i + 44];
    assert m == PREFIX + h + "-";
    assert t[i..i + 11] == m[..11] == PREFIX;
    assert t[i + 11..i + 43] == m[11..43] == h;
    PrefixChars(t, i);
    AtIndex(t, PREFIX, i, 5);
    forall j | i < j < i + 44 && t[j] == '/'
      ensures j == i + 4 || j == i + 10
    {
      assert t[j] == m[j - i];
      if j < i + 11 { PrefixSlashes(t, i, j - i); }
    }
  }

  lemma MarkersApart(t: string, a: string, b: string, i: nat, j: nat)
    requires Plain(a) && Plain(b) && At(t, Marker(a), i) && At(t, Marker(b), j) && i <= j
    ensures if i == j then a == b else j >= i + 44
  {
    MarkerChars(t, a, i);
    MarkerChars(t, b, j);
  }

  // ---------------------------------------------------------------- the shape of the swapped text

  lemma {:induction false} LengthKept(t: string, from: string, into: string)
    requires |from| == |into| > 0
    ensures |Replaced(t, from, into)| == |t|
    decreases |t|
  {
    if t != [] {
      if Starts(t, from) { LengthKept(t[|from|..], from, into); } else { LengthKept(t[1..], from, into); }
    }
  }

  lemma {:induction false} FirstOf(t: string, p: string, k: nat) returns (i: nat)
    requires !Free(t, p, k)
    ensures i < k && At(t, p, i) && Free(t, p, i)
    decreases k
  {
    i :| i < k && At(t, p, i);
    if !Free(t, p, i) {
      i := FirstOf(t, p, i);
    }
  }

  /** What the swapped text begins with. */
  lemma FrontMarker(t: string, a: string, b: string, c: string)
    requires Plain(a) && Plain(b) && Plain(c)
    ensures Starts(Swap(t, a, b), Marker(c)) <==> if Starts(t, Marker(a)) then c == b else Starts(t, Marker(c))
  {
    var s := Swap(t, a, b);
    var m := Marker(a);
    LengthKept(t, m, Marker(b));
    if Starts(t, m) {
      StartsConcat(Marker(b), Swap(t[44..], a, b));
      if Starts(s, Marker(c)) { MarkersApart(s, b, c, 0, 0); }
    } else if |t| >= 44 {
      if Starts(t, Marker(c)) { AloneInText(t, a, c); }
      if Starts(s, Marker(c)) { AloneInSwapped(t, a, b, c); }
      if Free(t, m, 44) {
        ReplacedCopies(t, m, Marker(b), 44);
        AtSame(t, s, Marker(c), 0);
      }
    }
  }

  lemma AloneInText(t: string, a: string, c: string)
    requires Plain(a) && Plain(c) && Starts(t, Marker(c)) && !Starts(t, Marker(a))
    ensures Free(t, Marker(a), 44)
  {
    forall i: nat | i < 44
      ensures !At(t, Marker(a), i)
    {
      if At(t, Marker(a), i) { MarkersApart(t, c, a, 0, i); }
    }
  }

  lemma AloneInSwapped(t: string, a: string, b: string, c: string)
    requires Plain(a) && Plain(b) && Plain(c) && Starts(Swap(t, a, b), Marker(c)) && !Starts(t, Marker(a))
    ensures Free(t, Marker(a), 44)
  {
    var m, s := Marker(a), Swap(t, a, b);
    if !Free(t, m, 44) {
      var d := FirstOf(t, m, 44);
      ReplacedFirst(t, m, Marker(b), d);
      assert s[d..d + 44] == Marker(b);
      MarkersApart(s, c, b, 0, d);
    }
  }

  lemma AbsentShift(t: string, p: string, k: nat)
    requires k <= |t| && Free(t, p, k)
    ensures Absent(t, p) <==> Absent(t[k..], p)
  {
    forall i: nat ensures At(t[k..], p, i) == At(t, p, k + i) { AtShift(t, p, k, i); }
    forall i: nat | k <= i ensures At(t, p, i) == At(t[k..], p, i - k) { AtShift(t, p, k, i - k); }
  }

  // ---------------------------------------------------------------- the laws

  /** No real output path is left. */
  lemma {:induction false} NoneLeft(t: string, a: string, b: string)
    requires Plain(a) && Plain(b) && a != b
    ensures Absent(Swap(t, a, b), Marker(a))
    decreases |t|
  {
    var s := Swap(t, a, b);
    FrontMarker(t, a, b, a);
    if t != [] {
      if Starts(t, Marker(a)) {
        NoneLeft(t[44..], a, b);
        assert s[44..] == Swap(t[44..], a, b);
        StartsConcat(Marker(b), s[44..]);
        forall i: nat | i < 44
          ensures !At(s, Marker(a), i)
        {
          if At(s, Marker(a), i) { MarkersApart(s, b, a, 0, i); }
        }
        AbsentShift(s, Marker(a), 44);
      } else {
        NoneLeft(t[1..], a, b);
        assert s[1..] == Swap(t[1..], a, b);
        AbsentShift(s, Marker(a), 1);
      }
    }
  }

  /** Swapping back restores the text exactly when the text did not hold the placeholder itself. */
  lemma {:induction false} RoundTripIff(t: string, a: string, b: string)
    requires Plain(a) && Plain(b) && a != b
    ensures Swap(Swap(t, a, b), b, a) == t <==> Absent(t, Marker(b))
    decreases |t|
  {
    var s := Swap(t, a, b);
    if t != [] {
      FrontMarker(t, a, b, b);
      if Starts(t, Marker(a)) {
        RoundTripIff(t[44..], a, b);
        assert s[44..] == Swap(t[44..], a, b);
        assert t[..44] == Marker(a);
        forall i: nat | i < 44
          ensures !At(t, Marker(b), i)
        {
          if At(t, Marker(b), i) { MarkersApart(t, a, b, 0, i); }
        }
        AbsentShift(t, Marker(b), 44);
        assert Swap(s, b, a) == Marker(a) + Swap(s[44..], b, a);
        assert t == Marker(a) + t[44..];
        assert Swap(s, b, a)[44..] == Swap(s[44..], b, a);
      } else if Starts(t, Marker(b)) {
        assert Swap(s, b, a) == Marker(a) + Swap(s[44..], b, a);
        assert Swap(s, b, a)[0..44] == Marker(a);
      } else {
        RoundTripIff(t[1..], a, b);
        assert s[1..] == Swap(t[1..], a, b);
        AbsentShift(t, Marker(b), 1);
        assert Swap(s, b, a) == [t[0]] + Swap(s[1..], b, a);
        assert t == [t[0]] + t[1..];
        assert Swap(s, b, a)[1..] == Swap(s[1..], b, a);
      }
    }
  }

  /** Pieces of text with the output's marker between them. */
  function Joined(xs: seq<string>, m: string): string
    decreases |xs|
  {
    if xs == [] then "" else if |xs| == 1 then xs[0] else xs[0] + m + Joined(xs[1..], m)
  }

  /** Whatever surrounds them, exactly the output's own paths are swapped: none arises across a joint. */
  lemma {:induction false} SwappedJoint(xs: seq<string>, a: string, b: string)
    requires Plain(a) && Plain(b) && forall x :: x in xs ==> Absent(x, Marker(a))
    ensures Swap(Joined(xs, Marker(a)), a, b) == Joined(xs, Marker(b))
    decreases |xs|
  {
    var m := Marker(a);
    assert xs != [] ==> xs[0] in xs;
    if |xs| == 1 {
      ReplacedCopies(xs[0], m, Marker(b), |xs[0]|);
      assert xs[0][|xs[0]|..] == [] && xs[0][..|xs[0]|] == xs[0];
    } else if |xs| > 1 {
      var n := |xs[0]|;
      var rest := Joined(xs[1..], m);
      var t := xs[0] + m + rest;
      assert t[n..n + 44] == m;
      forall i: nat | i < n
        ensures !At(t, m, i)
      {
        if At(t, m, i) {
          MarkersApart(t, a, a, i, n);
          AtSame(t, xs[0], m, i);
        }
      }
      ReplacedFirst(t, m, Marker(b), n);
      assert t[..n] == xs[0] && t[n + 44..] == rest;
      SwappedJoint(xs[1..], a, b);
    }
  }

  /** Two builds whose texts differ only in the output's hash store the same text. */
  lemma BuildsAgree(xs: seq<string>, a: string, b: string)
    requires IsStoreHash(a) && IsStoreHash(b)
    requires forall x :: x in xs ==> Absent(x, Marker(a)) && Absent(x, Marker(b))
    ensures Swap(Joined(xs, Marker(a)), a, Placeholder()) == Swap(Joined(xs, Marker(b)), b, Placeholder())
  {
    HashIsPlain(a);
    HashIsPlain(b);
    SwappedJoint(xs, a, Placeholder());
    SwappedJoint(xs, b, Placeholder());
  }

  // ---------------------------------------------------------------- in place

  lemma Replaces(t: string, from: string, into: string, i: nat)
    requires |from| == |into| > 0 && At(t, from, i)
    ensures var u := t[..i] + into + t[i + |from|..];
            t[..i] + Replaced(t[i..], from, into) == u[..i + |from|] + Replaced(u[i + |from|..], from, into)
  {
    hide Replaced;
    ReplacedHere(t, from, into, i);
    var u := t[..i] + into + t[i + |from|..];
    var end := Replaced(t[i + |from|..], from, into);
    assert u[i + |from|..] == t[i + |from|..];
    assert u[..i + |from|] == t[..i] + into;
    assert t[..i] + (into + end) == (t[..i] + into) + end;
  }

  /** Outside a build there is no output hash and the bytes stay as they are. */
  function OutSwapped(bytes: string, outHash: string, back: bool): string {
    if outHash == "" then bytes
    else if back then Swap(bytes, Placeholder(), outHash)
    else Swap(bytes, outHash, Placeholder())
  }

  method SwapOutHash(bytes: string, outHash: string, back: bool) returns (t: string)
    requires outHash == "" || IsStoreHash(outHash)
    ensures t == OutSwapped(bytes, outHash, back)
  {
    t := bytes;
    if outHash == "" {
      return;
    }
    var from := if back then Marker(Placeholder()) else Marker(outHash);
    var into := if back then Marker(outHash) else Marker(Placeholder());
    var pos := 0;
    assert t[0..] == t;
    var at := Find(t, from, pos);
    while at.Some?
      invariant 0 <= pos <= |t| == |bytes|
      invariant t[..pos] + Replaced(t[pos..], from, into) == Replaced(bytes, from, into)
      invariant at.Some? ==> pos <= at.value && At(t, from, at.value)
      invariant at.Some? ==> forall i: nat :: pos <= i < at.value ==> !At(t, from, i)
      invariant at.None? ==> forall i: nat :: pos <= i ==> !At(t, from, i)
      decreases |t| - pos
    {
      var i := at.value;
      ReplacedBetween(t, from, into, pos, i);
      Replaces(t, from, into, i);
      t := t[..i] + into + t[i + |from|..];
      pos := i + |from|;
      at := Find(t, from, pos);
    }
    ReplacedBetween(t, from, into, pos, |t|);
    assert t[|t|..] == [];
  }

  /** MaskOut then UnmaskOut, as the source promises it. */
  lemma OutRoundTrip(bytes: string, outHash: string)
    requires outHash == "" || IsStoreHash(outHash)
    ensures var masked := OutSwapped(bytes, outHash, false);
            && |masked| == |bytes|
            && (outHash != "" ==> Absent(masked, Marker(outHash)))
            && (OutSwapped(masked, outHash, true) == bytes <==> outHash == "" || Absent(bytes, Marker(Placeholder())))
  {
    if outHash != "" {
      HashIsPlain(outHash);
      LengthKept(bytes, Marker(outHash), Marker(Placeholder()));
      NoneLeft(bytes, outHash, Placeholder());
      RoundTripIff(bytes, outHash, Placeholder());
    }
  }
}
