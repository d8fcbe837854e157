/** The files of a cached crate in one blob, with the crate's own stem left open. */
module PackedFiles {
  import opened Bytes
  import opened Text
  import opened Decimal

  datatype File = File(name: string, mode: nat, data: string)

  /** ReplaceAll: an empty pattern replaces nothing. */
  function ReplaceAll(t: string, from: string, into: string): string {
    if from == "" then t else Replaced(t, from, into)
  }

  method Replace(text: string, from: string, into: string) returns (t: string)
    ensures t == ReplaceAll(text, from, into)
  {
    hide Replaced;
    t := text;
    if from == "" {
      return;
    }
    var pos: nat := 0;
    assert t[0..] == t;
    var at := Find(t, from, pos);
    while at.Some?
      invariant pos <= |t|
      invariant t[..pos] + Replaced(t[pos..], from, into) == Replaced(text, from, into)
      invariant at.Some? ==> pos <= at.value && At(t, from, at.value)
      invariant at.Some? ==> forall i: nat :: pos <= i < at.value ==> !At(t, from, i)
      invariant at.None? ==> forall i: nat :: pos <= i ==> !At(t, from, i)
      decreases |t| - pos
    {
      var i := at.value;
      ReplacedBetween(t, from, into, pos, i);
      ReplacedNext(t, from, into, i);
      t := t[..i] + into + t[i + |from|..];
      pos := i + |into|;
      at := Find(t, from, pos);
    }
    ReplacedBetween(t, from, into, pos, |t|);
    assert t[|t|..] == [];
    ReplacedNothing(from, into);
  }

  lemma ReplacedNothing(from: string, into: string)
    requires from != []
    ensures Replaced([], from, into) == []
  {
  }

  lemma ReplacedNext(t: string, from: string, into: string, i: nat)
    requires from != [] && At(t, from, i)
    ensures var u := t[..i] + into + t[i + |from|..];
            t[..i] + Replaced(t[i..], from, into) == u[..i + |into|] + Replaced(u[i + |into|..], from, into)
  {
    hide Replaced;
    ReplacedHere(t, from, into, i);
    var u := t[..i] + into + t[i + |from|..];
    var end := Replaced(t[i + |from|..], from, into);
    assert u[i + |into|..] == t[i + |from|..];
    assert u[..i + |into|] == t[..i] + into;
    assert t[..i] + (into + end) == (t[..i] + into) + end;
  }

  // ---------------------------------------------------------------- the blob

  function Head(f: File, stem: string): string {
    ReplaceAll(f.name, stem, "@") + " " + Digits(f.mode, true) + " " + Digits(|f.data|)
  }

  function Packed(files: seq<File>, stem: string): string {
    if files == [] then ""
    else Packed(files[..|files| - 1], stem) + (Head(files[|files| - 1], stem) + "\n" + files[|files| - 1].data)
  }

  method PackFiles(files: seq<File>, stem: string) returns (blob: string)
    ensures blob == Packed(files, stem)
  {
    blob := "";
    for i := 0 to |files|
      invariant blob == Packed(files[..i], stem)
    {
      var f := files[i];
      assert files[..i + 1][..i] == files[..i];
      var name := Replace(f.name, stem, "@");
      var head := name + " " + Digits(f.mode, true) + " " + Digits(|f.data|);
      blob := blob + (head + "\n" + f.data);
    }
    assert files[..|files|] == files;
  }

  /** The words of a line; of several spaces in a row only one counts. */
  function Words(line: string): seq<string>
    decreases |line|
  {
    var end := IndexOf(line, ' ', 0);
    (if end > 0 then [line[..end]] else []) + (if end < |line| then Words(line[end + 1..]) else [])
  }

  /** The first file of a blob and how long its part is. */
  function First(blob: string, stem: string): Option<(File, nat)> {
    var newline := IndexOf(blob, '\n', 0);
    if newline == |blob| then None else
      var head := Words(blob[..newline]);
      if |head| != 3 then None else
        var mode, size := ParseUint(head[1], true), ParseUint(head[2]);
        if mode.None? || size.None? || size.value > |blob| - (newline + 1) then None
        else Some((File(ReplaceAll(head[0], "@", stem), mode.value, blob[newline + 1..newline + 1 + size.value]),
                   newline + 1 + size.value))
  }

  /** All files of a blob, or none if it is malformed somewhere. */
  function Unpacked(blob: string, stem: string): Option<seq<File>>
    decreases |blob|
  {
    if blob == "" then Some([]) else
      match First(blob, stem)
      case None => None
      case Some((f, n)) =>
        match Unpacked(blob[n..], stem)
        case None => None
        case Some(rest) => Some([f] + rest)
  }

  /** What has been written by the time it returns; false for a malformed blob. */
  method UnpackFiles(all: string, stem: string) returns (written: seq<File>, ok: bool)
    ensures ok == Unpacked(all, stem).Some?
    ensures ok ==> written == Unpacked(all, stem).value
  {
    hide First;
    written, ok := [], true;
    var blob := all;
    assert Unpacked(all, stem).Some? ==> [] + Unpacked(all, stem).value == Unpacked(all, stem).value;
    while blob != ""
      invariant Unpacked(all, stem)
                == (match Unpacked(blob, stem) case None => None case Some(rest) => Some(written + rest))
      decreases |blob|
    {
      var first := First(blob, stem);
      if first.None? {
        return written, false;
      }
      var (f, n) := first.value;
      FirstAdvances(blob, stem);
      ghost var rest := Unpacked(blob[n..], stem);
      if rest.Some? {
        assert written + ([f] + rest.value) == written + [f] + rest.value;
      }
      written := written + [f];
      blob := blob[n..];
    }
    assert written + [] == written;
  }

  lemma FirstAdvances(blob: string, stem: string)
    requires First(blob, stem).Some?
    ensures 0 < First(blob, stem).value.1 <= |blob|
  {
  }

  // ---------------------------------------------------------------- round trip

  function Part(f: File, stem: string): string { Head(f, stem) + "\n" + f.data }

  lemma {:induction false} PackedFirst(f: File, files: seq<File>, stem: string)
    ensures Packed([f] + files, stem) == Part(f, stem) + Packed(files, stem)
    decreases |files|
  {
    hide Head;
    var all := [f] + files;
    if files == [] {
      assert all == [f] && Packed([f], stem) == Packed([], stem) + Part(f, stem);
    } else {
      var n := |files| - 1;
      PackedFirst(f, files[..n], stem);
      assert all[..|all| - 1] == [f] + files[..n] && all[|all| - 1] == files[n];
      var last := Part(files[n], stem);
      assert Part(f, stem) + (Packed(files[..n], stem) + last) == Part(f, stem) + Packed(files[..n], stem) + last;
    }
  }

  /** The stem goes out and another comes in. */
  lemma {:induction false} Restemmed(t: string, stem: string, other: string)
    requires '@' !in t && stem != ""
    ensures Replaced(Replaced(t, stem, "@"), "@", other) == Replaced(t, stem, other)
    decreases |t|
  {
    if t != [] {
      if Starts(t, stem) {
        var rest := Replaced(t[|stem|..], stem, "@");
        Restemmed(t[|stem|..], stem, other);
        StartsConcat("@", rest);
      } else {
        var rest := Replaced(t[1..], stem, "@");
        Restemmed(t[1..], stem, other);
        var u := [t[0]] + rest;
        assert u[0] != '@' && u[1..] == rest;
        assert u[0..1] == [t[0]];
      }
    }
  }

  lemma {:induction false} NothingRestemmed(t: string, other: string)
    requires '@' !in t
    ensures Replaced(t, "@", other) == t
    decreases |t|
  {
    if t != [] {
      NothingRestemmed(t[1..], other);
      if Starts(t, "@") { AtIndex(t, "@", 0, 0); }
    }
  }

  lemma NameRestemmed(t: string, stem: string, other: string)
    requires '@' !in t
    ensures ReplaceAll(ReplaceAll(t, stem, "@"), "@", other) == ReplaceAll(t, stem, other)
  {
    if stem == "" { NothingRestemmed(t, other); } else { Restemmed(t, stem, other); }
  }

  lemma {:induction false} ReplacedChars(t: string, from: string, into: string, c: char)
    requires from != "" && c !in t && c !in into
    ensures c !in Replaced(t, from, into) && (t != "" && into != "" ==> Replaced(t, from, into) != "")
    decreases |t|
  {
    if t != [] {
      if Starts(t, from) { ReplacedChars(t[|from|..], from, into, c); } else { ReplacedChars(t[1..], from, into, c); }
    }
  }

  /** A name that can stand in the blob, and numbers that fit. */
  predicate Packable(f: File) {
    f.name != "" && ' ' !in f.name && '\n' !in f.name && '@' !in f.name && f.mode < U64 && |f.data| < U64
  }

  lemma NameIsWord(f: File, stem: string)
    requires Packable(f)
    ensures var n := ReplaceAll(f.name, stem, "@"); n != "" && ' ' !in n && '\n' !in n
  {
    if stem != "" {
      ReplacedChars(f.name, stem, "@", ' ');
      ReplacedChars(f.name, stem, "@", '\n');
    }
  }

  lemma FirstWord(a: string, rest: string)
    requires a != "" && ' ' !in a
    ensures Words(a + " " + rest) == [a] + Words(rest)
  {
    var line := a + " " + rest;
    assert line[|a|] == ' ' && forall j :: 0 <= j < |a| ==> line[j] == a[j];
    IndexIs(line, ' ', |a|);
    assert line[..|a|] == a && line[|a| + 1..] == rest;
  }

  lemma OneWord(a: string)
    requires a != "" && ' ' !in a
    ensures Words(a) == [a]
  {
    assert IndexOf(a, ' ', 0) == |a|;
    assert a[..|a|] == a;
  }

  lemma HeadWords(a: string, b: string, c: string)
    requires a != "" && b != "" && c != "" && ' ' !in a && ' ' !in b && ' ' !in c
    ensures Words(a + " " + b + " " + c) == [a, b, c]
  {
    assert a + " " + b + " " + c == a + " " + (b + " " + c);
    hide Words;
    FirstWord(a, b + " " + c);
    FirstWord(b, c);
    OneWord(c);
  }

  lemma DigitsAreWord(n: nat, octal: bool)
    ensures Digits(n, octal) != "" && ' ' !in Digits(n, octal) && '\n' !in Digits(n, octal)
  {
  }

  lemma HeadEnds(head: string, data: string, rest: string)
    requires '\n' !in head
    ensures var blob := head + ("\n" + (data + rest)); IndexOf(blob, '\n', 0) == |head|
  {
    hide IndexOf;
    var blob := head + ("\n" + (data + rest));
    assert blob[|head|] == '\n' && forall j :: 0 <= j < |head| ==> blob[j] == head[j];
    IndexIs(blob, '\n', |head|);
  }

  lemma DataFollows(head: string, data: string, rest: string)
    ensures var blob, n := head + ("\n" + (data + rest)), |head| + 1;
            blob[..|head|] == head && n + |data| <= |blob| && blob[n..n + |data|] == data
  {
  }

  lemma FirstOf(head: string, name: string, mode: string, size: string, data: string, rest: string, stem: string)
    requires '\n' !in head && Words(head) == [name, mode, size]
    requires ParseUint(mode, true).Some? && ParseUint(size) == Some(|data|)
    ensures First(head + ("\n" + (data + rest)), stem)
            == Some((File(ReplaceAll(name, "@", stem), ParseUint(mode, true).value, data), |head| + 1 + |data|))
  {
    hide ReplaceAll, ParseUint, Words, IndexOf, First;
    HeadEnds(head, data, rest);
    DataFollows(head, data, rest);
    FirstIs(head + ("\n" + (data + rest)), |head|, name, mode, size, data, stem);
  }

  lemma FirstIs(blob: string, n: nat, name: string, mode: string, size: string, data: string, stem: string)
    requires n + 1 + |data| <= |blob| && IndexOf(blob, '\n', 0) == n && Words(blob[..n]) == [name, mode, size]
    requires blob[n + 1..n + 1 + |data|] == data && ParseUint(mode, true).Some? && ParseUint(size) == Some(|data|)
    ensures First(blob, stem)
            == Some((File(ReplaceAll(name, "@", stem), ParseUint(mode, true).value, data), n + 1 + |data|))
  {
    hide ReplaceAll, ParseUint, Words, IndexOf;
  }

  lemma HeadIsOk(f: File, stem: string)
    requires Packable(f)
    ensures Words(Head(f, stem)) == [ReplaceAll(f.name, stem, "@"), Digits(f.mode, true), Digits(|f.data|)]
    ensures '\n' !in Head(f, stem)
  {
    NameIsWord(f, stem);
    DigitsAreWord(f.mode, true);
    DigitsAreWord(|f.data|, false);
    hide ReplaceAll, Digits, Words;
    HeadWords(ReplaceAll(f.name, stem, "@"), Digits(f.mode, true), Digits(|f.data|));
  }

  lemma FirstOfPart(f: File, stem: string, other: string, rest: string)
    requires Packable(f)
    ensures First(Part(f, stem) + rest, other) == Some((f.(name := ReplaceAll(f.name, stem, other)), |Part(f, stem)|))
  {
    hide ReplaceAll, Digits, Words, First, ParseUint, Head;
    var name, mode, size, head := ReplaceAll(f.name, stem, "@"), Digits(f.mode, true), Digits(|f.data|), Head(f, stem);
    HeadIsOk(f, stem);
    ParseDigits(f.mode, true);
    ParseDigits(|f.data|, false);
    NameRestemmed(f.name, stem, other);
    FirstOf(head, name, mode, size, f.data, rest, other);
    assert Part(f, stem) + rest == head + ("\n" + (f.data + rest));
  }

  function Restem(files: seq<File>, stem: string, other: string): seq<File> {
    seq(|files|, i requires 0 <= i < |files| => files[i].(name := ReplaceAll(files[i].name, stem, other)))
  }

  /** Unpacked under another stem, the files have their bytes and modes, and names with the one stem for the other. */
  lemma {:induction false} RoundTrip(files: seq<File>, stem: string, other: string)
    requires forall i :: 0 <= i < |files| ==> Packable(files[i])
    ensures Unpacked(Packed(files, stem), other) == Some(Restem(files, stem, other))
    decreases |files|
  {
    hide ReplaceAll, First, Packable, Head;
    if files == [] {
      assert Restem(files, stem, other) == [];
    } else {
      var f, rest := files[0], files[1..];
      assert files == [f] + rest;
      PackedFirst(f, rest, stem);
      FirstOfPart(f, stem, other, Packed(rest, stem));
      RoundTrip(rest, stem, other);
      var blob := Part(f, stem) + Packed(rest, stem);
      assert blob[|Part(f, stem)|..] == Packed(rest, stem);
      assert blob != "";
      assert Restem(files, stem, other) == [f.(name := ReplaceAll(f.name, stem, other))] + Restem(rest, stem, other);
    }
  }
}
