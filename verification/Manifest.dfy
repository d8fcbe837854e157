/** The manifest: every other input of a compile with its identity, and every path looked up in vain. */
module Manifest {
  import opened Bytes
  import opened Text
  import opened Masking
  import opened Roots
  import opened RequestKey

  /** The files there are. */
  type World = map<string, string>

  /** One build: how it identifies files, the store roots it has, and the hash function. */
  datatype Site = Site(id: Identity, table: map<string, string>, hash: string -> string)

  predicate Hex(c: char) { '0' <= c <= '9' || 'a' <= c <= 'f' }

  /** BLAKE3 taken as free of collisions; digests are lower-case hexadecimal. */
  ghost predicate GoodHash(hash: string -> string) {
    && (forall a, b :: hash(a) == hash(b) ==> a == b)
    && (forall a, i :: 0 <= i < |hash(a)| ==> Hex(hash(a)[i]))
  }

  predicate IsStorePath(path: string) { Starts(path, PREFIX) }

  /** The identity of a file: a store file's path, or what is in it. */
  function InputId(site: Site, w: World, path: string): Option<string> {
    if IsStorePath(path) && !site.id.byContent then Some("S:" + path)
    else if path !in w then None
    else Some("C:" + site.hash(if IsStorePath(path) then w[path] else MaskOut(site.id, w[path])))
  }

  function PathOf(site: Site, key: string): string {
    match Resolve(key, site.table) case Some(p) => p case None => ""
  }

  /** The paths a manifest can name: normal, without tab or newline, and found again under the masked name. */
  predicate Recordable(site: Site, p: string) {
    p != "" && p[0] != '!' && '\t' !in p && '\n' !in p && Resolve(KeyText(site.id, p), site.table) == Some(p)
  }

  // ---------------------------------------------------------------- lines

  function InputLine(site: Site, path: string, identity: string): string { KeyText(site.id, path) + "\t" + identity }

  function AbsentLine(site: Site, path: string): string { "!" + KeyText(site.id, path) }

  function InputLines(site: Site, w: World, inputs: seq<string>, primary: string): seq<string> {
    if inputs == [] then [] else
      var n := |inputs| - 1;
      var lines := InputLines(site, w, inputs[..n], primary);
      if inputs[n] == primary || InputId(site, w, inputs[n]).None? then lines
      else lines + [InputLine(site, inputs[n], InputId(site, w, inputs[n]).value)]
  }

  /** Store paths stay absent; what exists after the compile the compiler wrote itself. */
  predicate Missed(w: World, path: string) { path != "" && !IsStorePath(path) && path !in w }

  function AbsentLines(site: Site, w: World, absent: seq<string>): seq<string> {
    if absent == [] then [] else
      var n := |absent| - 1;
      var lines := AbsentLines(site, w, absent[..n]);
      if !Missed(w, absent[n]) || AbsentLine(site, absent[n]) in lines then lines
      else lines + [AbsentLine(site, absent[n])]
  }

  function ManifestLines(site: Site, w: World, inputs: seq<string>, primary: string, absent: seq<string>): seq<string> {
    InputLines(site, w, inputs, primary) + AbsentLines(site, w, absent)
  }

  function TextOf(lines: seq<string>): string {
    if lines == [] then "" else TextOf(lines[..|lines| - 1]) + (lines[|lines| - 1] + "\n")
  }

  function ResultKey(site: Site, k1: string, lines: seq<string>): string { site.hash(Fields([k1] + lines)) }

  // ---------------------------------------------------------------- reading them

  /** Split at newlines, empty lines dropped. */
  function Lines(text: string): seq<string>
    decreases |text|
  {
    var end := IndexOf(text, '\n', 0);
    (if end > 0 then [text[..end]] else []) + (if end < |text| then Lines(text[end + 1..]) else [])
  }

  predicate IsEntry(line: string) { line != "" && (line[0] == '!' || '\t' in line) }

  function Entries(lines: seq<string>): seq<string> {
    if lines == [] then [] else
      var n := |lines| - 1;
      Entries(lines[..n]) + (if IsEntry(lines[n]) then [lines[n]] else [])
  }

  predicate ValidLine(site: Site, w: World, line: string)
    requires IsEntry(line)
  {
    if line[0] == '!' then PathOf(site, line[1..]) !in w
    else
      var tab := IndexOf(line, '\t', 0);
      tab < |line| && InputId(site, w, PathOf(site, line[..tab])) == Some(line[tab + 1..])
  }

  predicate AllValid(site: Site, w: World, lines: seq<string>) {
    forall i :: 0 <= i < |lines| ==> IsEntry(lines[i]) && ValidLine(site, w, lines[i])
  }

  /** k2 as validation recomputes it, if every entry still holds. */
  function Validated(site: Site, w: World, k1: string, text: string): Option<string> {
    var lines := Entries(Lines(text));
    if AllValid(site, w, lines) then Some(ResultKey(site, k1, lines)) else None
  }

  // ---------------------------------------------------------------- what is written is what is read

  lemma {:induction false} MaskedChars(t: string, c: char)
    requires c in Masked(t) && c != '*' && c !in PREFIX
    ensures c in t
    decreases |t|
  {
    if t != [] {
      if !Starts(t, PREFIX) {
        if c in Masked(t[1..]) { MaskedChars(t[1..], c); }
      } else if Named(t, 11) {
        if c in Masked(t[43..]) { MaskedChars(t[43..], c); }
      } else if |t| > 11 {
        if c in Masked(t[12..]) { MaskedChars(t[12..], c); }
      }
    }
  }

  lemma MaskedFirst(t: string)
    requires t != []
    ensures Masked(t) != [] && Masked(t)[0] == t[0]
  {
    if Starts(t, PREFIX) { AtIndex(t, PREFIX, 0, 0); }
  }

  lemma KeyChars(site: Site, p: string)
    requires Recordable(site, p)
    ensures var k := KeyText(site.id, p); k != "" && k[0] == p[0] && '\t' !in k && '\n' !in k
  {
    MaskedFirst(p);
    if '\t' in Masked(p) { MaskedChars(p, '\t'); }
    if '\n' in Masked(p) { MaskedChars(p, '\n'); }
  }

  /** Lines of their own: newline-free and not empty. */
  predicate Clear(lines: seq<string>) { forall i :: 0 <= i < |lines| ==> lines[i] != "" && '\n' !in lines[i] }

  lemma LinesStep(text: string)
    ensures var end := IndexOf(text, '\n', 0);
            Lines(text)
            == (if end > 0 then [text[..end]] else []) + (if end < |text| then Lines(text[end + 1..]) else [])
  {
  }

  /** The first line and the rest. */
  lemma LinesFirst(first: string, rest: string)
    requires '\n' !in first
    ensures Lines(first + ("\n" + rest)) == (if first == "" then [] else [first]) + Lines(rest)
  {
    hide Lines;
    var all := first + ("\n" + rest);
    LinesStep(all);
    hide IndexOf;
    assert all[|first|] == '\n' && forall j :: 0 <= j < |first| ==> all[j] == first[j];
    IndexIs(all, '\n', |first|);
    assert all[..|first|] == first && all[|first| + 1..] == rest;
  }

  lemma LinesEmpty()
    ensures Lines("") == []
  {
  }

  /** A text that ends in a newline, cut after its first line. */
  lemma FirstLine(text: string) returns (first: string, rest: string)
    requires text != "" && text[|text| - 1] == '\n'
    ensures '\n' !in first && text == first + ("\n" + rest) && |rest| < |text|
    ensures rest == "" || rest[|rest| - 1] == '\n'
  {
    var end := IndexOf(text, '\n', 0);
    first, rest := text[..end], text[end + 1..];
  }

  lemma {:induction false} LinesMore(text: string, line: string)
    requires (text == "" || text[|text| - 1] == '\n') && line != "" && '\n' !in line
    ensures Lines(text + (line + "\n")) == Lines(text) + [line]
    decreases |text|
  {
    hide Lines;
    var more := line + "\n";
    LinesEmpty();
    if text == "" {
      assert text + more == line + ("\n" + "");
      LinesFirst(line, "");
    } else {
      var first, rest := FirstLine(text);
      LinesFirst(first, rest);
      LinesMore(rest, line);
      LinesFirst(first, rest + more);
      assert text + more == first + ("\n" + (rest + more));
      var front := if first == "" then [] else [first];
      assert front + (Lines(rest) + [line]) == front + Lines(rest) + [line];
    }
  }

  lemma {:induction false} LinesOfText(lines: seq<string>)
    requires Clear(lines)
    ensures Lines(TextOf(lines)) == lines
    ensures TextOf(lines) == "" || TextOf(lines)[|TextOf(lines)| - 1] == '\n'
    decreases |lines|
  {
    hide Lines;
    LinesEmpty();
    if lines != [] {
      var n := |lines| - 1;
      LinesOfText(lines[..n]);
      LinesMore(TextOf(lines[..n]), lines[n]);
      assert lines == lines[..n] + [lines[n]];
    }
  }

  lemma {:induction false} EntriesAll(lines: seq<string>)
    requires forall i :: 0 <= i < |lines| ==> IsEntry(lines[i])
    ensures Entries(lines) == lines
    decreases |lines|
  {
    if lines != [] {
      EntriesAll(lines[..|lines| - 1]);
      assert lines == lines[..|lines| - 1] + [lines[|lines| - 1]];
    }
  }

  // ---------------------------------------------------------------- what a valid line says

  lemma IdentityChars(site: Site, w: World, p: string)
    requires GoodHash(site.hash) && Recordable(site, p) && InputId(site, w, p).Some?
    ensures '\n' !in InputId(site, w, p).value
  {
    var id := InputId(site, w, p).value;
    forall i | 0 <= i < |id|
      ensures id[i] != '\n'
    {
      if IsStorePath(p) && !site.id.byContent {
        assert id == "S:" + p;
        assert i >= 2 ==> id[i] == p[i - 2];
      } else {
        var digest := site.hash(if IsStorePath(p) then w[p] else MaskOut(site.id, w[p]));
        assert id == "C:" + digest;
        assert i >= 2 ==> id[i] == digest[i - 2] && Hex(digest[i - 2]);
      }
    }
  }

  /** An input line holds exactly where the file has that identity. */
  lemma InputLineSays(site: Site, w: World, p: string, id: string)
    requires Recordable(site, p)
    ensures IsEntry(InputLine(site, p, id))
    ensures ValidLine(site, w, InputLine(site, p, id)) <==> InputId(site, w, p) == Some(id)
  {
    KeyChars(site, p);
    var k := KeyText(site.id, p);
    var line := InputLine(site, p, id);
    assert line[0] == k[0] && line[|k|] == '\t';
    assert forall j :: 0 <= j < |k| ==> line[j] == k[j];
    assert IndexOf(line, '\t', 0) == |k|;
    assert line[..|k|] == k && line[|k| + 1..] == id;
  }

  lemma AbsentLineSays(site: Site, w: World, p: string)
    requires Recordable(site, p)
    ensures IsEntry(AbsentLine(site, p))
    ensures ValidLine(site, w, AbsentLine(site, p)) <==> p !in w
  {
    assert AbsentLine(site, p)[1..] == KeyText(site.id, p);
  }

  /** Every line a manifest gets holds in the world it was made in, and is read as it was written. */
  lemma {:induction false} InputLinesHold(site: Site, w: World, inputs: seq<string>, primary: string)
    requires GoodHash(site.hash) && forall p :: p in inputs ==> Recordable(site, p)
    ensures var lines := InputLines(site, w, inputs, primary); Clear(lines) && AllValid(site, w, lines)
    decreases |inputs|
  {
    hide Recordable, InputId, KeyText;
    if inputs != [] {
      var n := |inputs| - 1;
      InputLinesHold(site, w, inputs[..n], primary);
      assert inputs[n] in inputs;
      var p := inputs[n];
      if InputId(site, w, p).Some? {
        var id := InputId(site, w, p).value;
        InputLineSays(site, w, p, id);
        IdentityChars(site, w, p);
        KeyChars(site, p);
        assert '\n' !in InputLine(site, p, id);
      }
    }
  }

  lemma {:induction false} AbsentLinesHold(site: Site, w: World, absent: seq<string>)
    requires forall p :: p in absent && p != "" ==> Recordable(site, p)
    ensures var lines := AbsentLines(site, w, absent); Clear(lines) && AllValid(site, w, lines)
    decreases |absent|
  {
    hide Recordable, KeyText;
    if absent != [] {
      var n := |absent| - 1;
      AbsentLinesHold(site, w, absent[..n]);
      assert absent[n] in absent;
      var p := absent[n];
      if Missed(w, p) {
        AbsentLineSays(site, w, p);
        KeyChars(site, p);
        assert '\n' !in AbsentLine(site, p);
      }
    }
  }

  lemma {:induction false} InputHasLine(site: Site, w: World, inputs: seq<string>, primary: string, p: string)
    requires p in inputs && p != primary && InputId(site, w, p).Some?
    ensures InputLine(site, p, InputId(site, w, p).value) in InputLines(site, w, inputs, primary)
    decreases |inputs|
  {
    var n := |inputs| - 1;
    if p != inputs[n] {
      assert inputs == inputs[..n] + [inputs[n]];
      InputHasLine(site, w, inputs[..n], primary, p);
    }
  }

  lemma {:induction false} AbsentHasLine(site: Site, w: World, absent: seq<string>, p: string)
    requires p in absent && Missed(w, p)
    ensures AbsentLine(site, p) in AbsentLines(site, w, absent)
    decreases |absent|
  {
    var n := |absent| - 1;
    if p != absent[n] {
      assert absent == absent[..n] + [absent[n]];
      AbsentHasLine(site, w, absent[..n], p);
    }
  }

  /** The k2 that validation recomputes is the one the build stored under. */
  lemma OwnManifestValidates(site: Site, w: World, k1: string, inputs: seq<string>, primary: string,
                             absent: seq<string>)
    requires GoodHash(site.hash)
    requires forall p :: p in inputs ==> Recordable(site, p)
    requires forall p :: p in absent && p != "" ==> Recordable(site, p)
    ensures var lines := ManifestLines(site, w, inputs, primary, absent);
            Validated(site, w, k1, TextOf(lines)) == Some(ResultKey(site, k1, lines))
  {
    hide InputLines, AbsentLines, Recordable, GoodHash, ValidLine;
    InputLinesHold(site, w, inputs, primary);
    AbsentLinesHold(site, w, absent);
    var lines := ManifestLines(site, w, inputs, primary, absent);
    LinesOfText(lines);
    EntriesAll(lines);
  }

  // ---------------------------------------------------------------- the loops

  /** One turn of the loop. */
  function Piece(text: string, start: nat, end: nat): seq<string>
    requires start <= end <= |text|
  {
    if end > start then [text[start..end]] else []
  }

  function From(text: string, start: nat): seq<string> { if start <= |text| then Lines(text[start..]) else [] }

  lemma LinesAt(text: string, start: nat)
    requires start <= |text|
    ensures var end := IndexOf(text, '\n', start); From(text, start) == Piece(text, start, end) + From(text, end + 1)
  {
    hide Lines;
    var end := IndexOf(text, '\n', start);
    var first := text[start..end];
    if end < |text| {
      assert text[start..] == first + ("\n" + text[end + 1..]);
      LinesFirst(first, text[end + 1..]);
    } else {
      assert text[start..] == first;
      OneLine(first);
    }
  }

  lemma OneLine(line: string)
    requires '\n' !in line
    ensures Lines(line) == if line == "" then [] else [line]
  {
    assert IndexOf(line, '\n', 0) == |line|;
    assert line[..|line|] == line;
  }

  method SplitLines(text: string) returns (out: seq<string>)
    ensures out == Lines(text)
  {
    hide Lines, IndexOf;
    out := [];
    var start: nat := 0;
    hide From;
    assert From(text, 0) == Lines(text) by { FromStart(text); }
    while start <= |text|
      invariant start <= |text| + 1
      invariant Lines(text) == out + From(text, start)
    {
      var end := IndexOf(text, '\n', start);
      LinesAt(text, start);
      assert out + (Piece(text, start, end) + From(text, end + 1))
             == out + Piece(text, start, end) + From(text, end + 1);
      if end > start {
        out := out + [text[start..end]];
      }
      start := end + 1;
    }
    assert From(text, start) == [] by { FromEnd(text, start); }
  }

  lemma FromStart(text: string)
    ensures From(text, 0) == Lines(text)
  {
    assert text[0..] == text;
  }

  lemma FromEnd(text: string, start: nat)
    requires start > |text|
    ensures From(text, start) == []
  {
  }

  class Writer {
    var text: string
    var hasher: Hasher
    ghost var lines: seq<string>

    ghost predicate Valid(k1: string)
      reads this, hasher
    {
      text == TextOf(lines) && hasher.list == [k1] + lines && hasher.fed == Fields(hasher.list)
    }

    constructor (k1: string)
      ensures Valid(k1) && fresh(hasher) && lines == []
    {
      text, lines := "", [];
      var h := new Hasher();
      h.Field(k1);
      hasher := h;
    }

    method Add(ghost k1: string, line: string)
      requires Valid(k1)
      modifies this`text, this`lines, hasher
      ensures Valid(k1) && lines == old(lines) + [line]
    {
      text := text + (line + "\n");
      hasher.Field(line);
      lines := lines + [line];
      assert lines[..|lines| - 1] == old(lines);
      assert [k1] + lines == [k1] + old(lines) + [line];
    }
  }

  method BuildManifest(site: Site, k1: string, w: World, inputs: seq<string>, primary: string, absent: seq<string>)
    returns (text: string, key: string)
    ensures var lines := ManifestLines(site, w, inputs, primary, absent);
            text == TextOf(lines) && key == ResultKey(site, k1, lines)
  {
    hide Fields, TextOf, Recordable;
    var out := new Writer(k1);
    for i := 0 to |inputs|
      invariant fresh(out) && fresh(out.hasher) && out.Valid(k1)
      invariant out.lines == InputLines(site, w, inputs[..i], primary)
    {
      var path := inputs[i];
      assert inputs[..i + 1][..i] == inputs[..i];
      if path != primary {
        var identity := InputId(site, w, path);
        if identity.Some? {
          out.Add(k1, InputLine(site, path, identity.value));
        }
      }
    }
    assert inputs[..|inputs|] == inputs;
    var seen: set<string> := {};
    ghost var before := out.lines;
    for i := 0 to |absent|
      invariant fresh(out) && fresh(out.hasher) && out.Valid(k1)
      invariant out.lines == before + AbsentLines(site, w, absent[..i])
      invariant forall s :: s in seen <==> s in AbsentLines(site, w, absent[..i])
    {
      var path := absent[i];
      assert absent[..i + 1][..i] == absent[..i];
      if path != "" && !IsStorePath(path) && path !in w {
        var line := AbsentLine(site, path);
        if line !in seen {
          seen := seen + {line};
          out.Add(k1, line);
        }
      }
    }
    assert absent[..|absent|] == absent;
    text := out.text;
    key := site.hash(out.hasher.fed);
  }

  method ValidateManifest(site: Site, k1: string, w: World, text: string) returns (key: Option<string>)
    ensures key == Validated(site, w, k1, text)
  {
    hide Fields, Lines, InputId;
    var lines := SplitLines(text);
    var hasher := new Hasher();
    hasher.Field(k1);
    for i := 0 to |lines|
      invariant fresh(hasher) && hasher.fed == Fields(hasher.list) && hasher.list == [k1] + Entries(lines[..i])
      invariant AllValid(site, w, Entries(lines[..i]))
    {
      var line := lines[i];
      assert lines[..i + 1][..i] == lines[..i];
      if IsEntry(line) {
        if !ValidLine(site, w, line) {
          InvalidStays(site, w, lines, i);
          return None;
        }
        hasher.Field(line);
      }
    }
    assert lines[..|lines|] == lines;
    key := Some(site.hash(hasher.fed));
  }

  lemma {:induction false} InvalidStays(site: Site, w: World, lines: seq<string>, i: nat)
    requires i < |lines| && IsEntry(lines[i]) && !ValidLine(site, w, lines[i])
    ensures !AllValid(site, w, Entries(lines))
    decreases |lines|
  {
    var n := |lines| - 1;
    var all, rest := Entries(lines), Entries(lines[..n]);
    if i < n {
      InvalidStays(site, w, lines[..n], i);
      var j :| 0 <= j < |rest| && !(IsEntry(rest[j]) && ValidLine(site, w, rest[j]));
      assert all[j] == rest[j];
    } else {
      assert all[|rest|] == lines[n];
    }
  }
}
