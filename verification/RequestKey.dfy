/** What a compile is known by: its request key, k1. */
module RequestKey {
  import opened Text
  import opened Decimal
  import opened Masking
  import opened OutHash

  // ---------------------------------------------------------------- length-prefixed fields

  function Framed(data: string): string { Digits(|data|) + ":" + data }

  function Fields(list: seq<string>): string
    decreases |list|
  {
    if list == [] then "" else Framed(list[0]) + Fields(list[1..])
  }

  /** Two numbers followed by ':' end at the same place. */
  lemma SameNumber(a: string, b: string, x: string, y: string)
    requires forall i :: 0 <= i < |a| ==> IsDigit(a[i])
    requires forall i :: 0 <= i < |b| ==> IsDigit(b[i])
    requires a + ":" + x == b + ":" + y
    ensures a == b && x == y
  {
    var s := a + ":" + x;
    assert s[|a|] == ':' && s[|b|] == ':';
    assert forall i :: 0 <= i < |a| ==> s[i] == a[i];
    assert forall i :: 0 <= i < |b| ==> s[i] == b[i];
    assert |a| == |b|;
    assert s[..|a|] == a && s[..|b|] == b;
    assert s[|a| + 1..] == x && s[|b| + 1..] == y;
  }

  /** A field can be read off the front of any text. */
  lemma FieldFront(a: string, b: string, x: string, y: string)
    requires Framed(a) + x == Framed(b) + y
    ensures a == b && x == y
  {
    var m, n := Digits(|a|), Digits(|b|);
    assert Framed(a) + x == m + ":" + (a + x);
    assert Framed(b) + y == n + ":" + (b + y);
    SameNumber(m, n, a + x, b + y);
    DigitsInjective(|a|, |b|);
    assert (a + x)[..|a|] == a && (b + y)[..|a|] == b;
    assert (a + x)[|a|..] == x && (b + y)[|a|..] == y;
  }

  /** No text inside a field can fake a boundary: the list can be told from the encoding. */
  lemma {:induction false} FieldsInjective(a: seq<string>, b: seq<string>)
    requires Fields(a) == Fields(b)
    ensures a == b
    decreases |a|
  {
    if a == [] || b == [] {
      FieldsNotEmpty(a);
      FieldsNotEmpty(b);
    } else {
      FieldFront(a[0], b[0], Fields(a[1..]), Fields(b[1..]));
      FieldsInjective(a[1..], b[1..]);
      assert a == [a[0]] + a[1..] && b == [b[0]] + b[1..];
    }
  }

  lemma FieldsNotEmpty(a: seq<string>)
    ensures Fields(a) == "" <==> a == []
  {
  }

  // ---------------------------------------------------------------- requests

  datatype Mode = Compile | LinkOne | Link

  /** The call as the key sees it: store hashes and the own output masked. A link has no one source,
      only links read LIBRARY_PATH. */
  datatype Call = Call(cc: string, cwd: string, mode: Mode, src: string, libraryPath: string, args: seq<string>)

  predicate Proper(c: Call) {
    (c.mode.Link? ==> c.src == "") && (c.mode.Compile? ==> c.libraryPath == "")
  }

  function ModeText(m: Mode): string {
    match m
    case Compile => "mode=compile"
    case LinkOne => "mode=link-one"
    case Link => "mode=link"
  }

  function Head(c: Call): seq<string> {
    ["cc=" + c.cc, "cwd=" + c.cwd]
    + (if c.mode.Link? then [] else ["src=" + c.src])
    + [ModeText(c.mode)]
    + (if c.mode.Compile? then [] else ["LIBRARY_PATH=" + c.libraryPath])
  }

  function KeyFields(c: Call, primary: string): seq<string> { Head(c) + c.args + [primary] }

  lemma TagInjective(tag: string, a: string, b: string)
    requires tag + a == tag + b
    ensures a == b
  {
    assert (tag + a)[|tag|..] == a && (tag + b)[|tag|..] == b;
  }

  lemma ModeTextInjective(m: Mode, n: Mode)
    requires ModeText(m) == ModeText(n)
    ensures m == n
  {
    assert ModeText(m)[|ModeText(m)| - 1] == ModeText(n)[|ModeText(n)| - 1];
    assert |ModeText(m)| == |ModeText(n)|;
  }

  lemma SrcIsNotMode(src: string)
    ensures "src=" + src != ModeText(Link)
  {
    assert ("src=" + src)[0] == 's' && ModeText(Link)[0] == 'm';
  }

  lemma SameMode(c: Call, d: Call, p: string, q: string)
    requires KeyFields(c, p) == KeyFields(d, q)
    ensures c.mode == d.mode
  {
    var k := KeyFields(c, p);
    assert k[2] == if c.mode.Link? then ModeText(Link) else "src=" + c.src;
    assert k[2] == if d.mode.Link? then ModeText(Link) else "src=" + d.src;
    SrcIsNotMode(c.src);
    SrcIsNotMode(d.src);
    if !c.mode.Link? && !d.mode.Link? {
      assert k[3] == ModeText(c.mode) && k[3] == ModeText(d.mode);
      ModeTextInjective(c.mode, d.mode);
    }
  }

  /** Equal preimages mean the same tool, directory, mode, source, arguments and primary identity,
      though some fields are there only in some modes. */
  lemma PreimageInjective(c: Call, d: Call, p: string, q: string)
    requires Proper(c) && Proper(d) && Fields(KeyFields(c, p)) == Fields(KeyFields(d, q))
    ensures c == d && p == q
  {
    hide Fields;
    FieldsInjective(KeyFields(c, p), KeyFields(d, q));
    SameMode(c, d, p, q);
    var k, n := KeyFields(c, p), |Head(c)|;
    assert |Head(d)| == n;
    assert k[0] == "cc=" + c.cc == "cc=" + d.cc && k[1] == "cwd=" + c.cwd == "cwd=" + d.cwd;
    TagInjective("cc=", c.cc, d.cc);
    TagInjective("cwd=", c.cwd, d.cwd);
    if !c.mode.Link? {
      assert k[2] == "src=" + c.src == "src=" + d.src;
      TagInjective("src=", c.src, d.src);
    }
    if !c.mode.Compile? {
      assert k[n - 1] == "LIBRARY_PATH=" + c.libraryPath == "LIBRARY_PATH=" + d.libraryPath;
      TagInjective("LIBRARY_PATH=", c.libraryPath, d.libraryPath);
    }
    assert k[n..|k| - 1] == c.args && k[n..|k| - 1] == d.args;
    assert k[|k| - 1] == p == q;
  }

  // ---------------------------------------------------------------- computing the key

  /** JIG_STORE_IDENTITY=content or not, and the hash of $out, "" outside a build. */
  datatype Identity = Identity(byContent: bool, outHash: string)

  predicate ValidIdentity(id: Identity) { id.outHash == "" || (id.byContent && IsStoreHash(id.outHash)) }

  function KeyText(id: Identity, s: string): string { if id.byContent then Masked(s) else s }

  function MaskOut(id: Identity, s: string): string { OutSwapped(s, id.outHash, false) }

  function UnmaskOut(id: Identity, s: string): string { OutSwapped(s, id.outHash, true) }

  predicate Contains(s: string, p: string) { exists i: nat :: i <= |s| && At(s, p, i) }

  /** A link embeds these paths as they are. */
  predicate Embedded(mode: Mode, arg: string) {
    !mode.Compile? && (Contains(arg, "dynamic-linker") || Contains(arg, "rpath"))
  }

  function ArgText(id: Identity, mode: Mode, arg: string): string {
    if Embedded(mode, arg) then MaskOut(id, arg) else KeyText(id, MaskOut(id, arg))
  }

  function ArgTexts(id: Identity, mode: Mode, args: seq<string>): seq<string> {
    seq(|args|, i requires 0 <= i < |args| => ArgText(id, mode, args[i]))
  }

  /** What the build system asked for. */
  datatype Invocation = Invocation(cc: string, cwd: string, mode: Mode, source: string, libraryPath: string,
                                   args: seq<string>)

  function CallOf(id: Identity, inv: Invocation): Call {
    Call(KeyText(id, inv.cc), KeyText(id, inv.cwd), inv.mode,
         if inv.mode.Link? then "" else KeyText(id, MaskOut(id, inv.source)),
         if inv.mode.Compile? then "" else KeyText(id, inv.libraryPath),
         ArgTexts(id, inv.mode, inv.args))
  }

  lemma {:induction false} FieldsMore(a: seq<string>, b: seq<string>)
    ensures Fields(a + b) == Fields(a) + Fields(b)
    decreases |a|
  {
    if a == [] {
      assert a + b == b;
    } else {
      FieldsMore(a[1..], b);
      assert (a + b)[1..] == a[1..] + b;
      assert Framed(a[0]) + (Fields(a[1..]) + Fields(b)) == Framed(a[0]) + Fields(a[1..]) + Fields(b);
    }
  }

  /** What the hash function is fed. */
  class Hasher {
    var fed: string
    ghost var list: seq<string>

    constructor ()
      ensures fed == "" && list == [] && fed == Fields(list)
    {
      fed, list := "", [];
    }

    method Field(data: string)
      requires fed == Fields(list)
      modifies this
      ensures list == old(list) + [data] && fed == Fields(list) == old(fed) + Framed(data)
    {
      FieldsMore(list, [data]);
      assert Fields([data]) == Framed(data) + Fields([]);
      var prefix := Digits(|data|) + ":";
      assert fed + (prefix + data) == (fed + prefix) + data;
      fed := fed + prefix;
      fed := fed + data;
      list := list + [data];
    }
  }

  method HasText(s: string, p: string) returns (found: bool)
    ensures found == Contains(s, p)
  {
    var at := Find(s, p, 0);
    found := at.Some?;
    assert found ==> at.value <= |s|;
  }

  method MaskText(id: Identity, s: string) returns (t: string)
    ensures t == KeyText(id, s)
  {
    t := s;
    if id.byContent {
      t := MaskHashes(s);
    }
  }

  /** The bytes that ComputeRequestKey hashes. */
  method RequestPreimage(id: Identity, inv: Invocation, primary: string) returns (preimage: string)
    requires ValidIdentity(id)
    ensures preimage == Fields(KeyFields(CallOf(id, inv), MaskOut(id, primary)))
  {
    hide Masked, OutSwapped, Fields;
    var links := !inv.mode.Compile?;
    ghost var call := CallOf(id, inv);
    var hasher := Start(id, inv);
    for i := 0 to |inv.args|
      invariant fresh(hasher)
      invariant hasher.list == Head(call) + call.args[..i] && hasher.fed == Fields(hasher.list)
    {
      var arg := inv.args[i];
      var linker := HasText(arg, "dynamic-linker");
      var rpath := HasText(arg, "rpath");
      var text := SwapOutHash(arg, id.outHash, false);
      if !(links && (linker || rpath)) {
        text := MaskText(id, text);
      }
      assert text == call.args[i];
      assert call.args[..i + 1] == call.args[..i] + [text];
      hasher.Field(text);
    }
    var last := SwapOutHash(primary, id.outHash, false);
    hasher.Field(last);
    assert call.args[..|inv.args|] == call.args;
    preimage := hasher.fed;
  }

  method Start(id: Identity, inv: Invocation) returns (hasher: Hasher)
    requires ValidIdentity(id)
    ensures fresh(hasher) && hasher.list == Head(CallOf(id, inv)) && hasher.fed == Fields(hasher.list)
  {
    hide Masked, OutSwapped, Fields, Framed, ArgTexts, ModeText;
    hasher := new Hasher();
    FieldsNotEmpty([]);
    var cc := MaskText(id, inv.cc);
    hasher.Field("cc=" + cc);
    var cwd := MaskText(id, inv.cwd);
    hasher.Field("cwd=" + cwd);
    if !inv.mode.Link? {
      var src := SwapOutHash(inv.source, id.outHash, false);
      src := MaskText(id, src);
      hasher.Field("src=" + src);
    }
    hasher.Field(ModeText(inv.mode));
    if !inv.mode.Compile? {
      var path := MaskText(id, inv.libraryPath);
      hasher.Field("LIBRARY_PATH=" + path);
    }
  }
}
