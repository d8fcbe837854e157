/** The two file formats of the blob store: packs (append-only records) and hints (the records'
    headers and offsets). Both are read the way the daemon reads them, so a torn or truncated file
    is simply one whose last record does not complete. */
module PackFile {
  import opened Bytes

  const HEADER := 8
  const HINT_HEADER := 16

  type Key = seq<byte>
  type File = seq<byte>

  /** One record as found in a pack: where it starts and how long its value is. */
  datatype Entry = Entry(key: Key, at: nat, len: nat) {
    function Value(): nat { at + HEADER + |key| }
    function End(): nat { at + HEADER + |key| + len }
    predicate Fits() { |key| < U32 && len < U32 && at < U64 }
  }

  function Record(key: Key, value: seq<byte>): (r: File)
    ensures |r| == HEADER + |key| + |value|
  {
    LittleEndian(|key|, 4) + LittleEndian(|value|, 4) + key + value
  }

  /** The complete record at `off`, if the file has one there. */
  function Next(file: File, off: nat): (e: Option<Entry>)
    ensures e.Some? ==> e.value.at == off && off + HEADER <= e.value.End() <= |file|
    ensures e.Some? ==> e.value.Value() <= |file| && file[off + HEADER..e.value.Value()] == e.value.key
    ensures e.Some? && off < U64 ==> e.value.Fits()
  {
    if off + HEADER > |file| then None else
      Widths();
      LittleEndianOfNumber(file[off..off + 4]);
      LittleEndianOfNumber(file[off + 4..off + 8]);
      var keyLen := Number(file[off..off + 4]);
      var valueLen := Number(file[off + 4..off + 8]);
      if off + HEADER + keyLen + valueLen > |file| then None
      else Some(Entry(file[off + HEADER..off + HEADER + keyLen], off, valueLen))
  }

  function Scan(file: File, off: nat): (es: seq<Entry>)
    decreases |file| - off
  {
    match Next(file, off)
    case None => []
    case Some(e) => [e] + Scan(file, e.End())
  }

  /** Where the scan stops: the length a torn file is truncated to. */
  function ScanEnd(file: File, off: nat): (end: nat)
    requires off <= |file|
    ensures off <= end <= |file|
    decreases |file| - off
  {
    match Next(file, off)
    case None => off
    case Some(e) => ScanEnd(file, e.End())
  }

  predicate Complete(file: File) { ScanEnd(file, 0) == |file| }

  /** Last write wins. */
  function Latest(es: seq<Entry>): map<Key, Entry> {
    if es == [] then map[]
    else Latest(es[..|es| - 1])[es[|es| - 1].key := es[|es| - 1]]
  }

  /** What a pack says about each key. */
  function Contents(file: File): map<Key, Entry> { Latest(Scan(file, 0)) }

  // ---------------------------------------------------------------- scanning grown and torn files

  lemma NextInGrown(file: File, more: File, off: nat)
    requires Next(file, off).Some?
    ensures Next(file + more, off) == Next(file, off)
  {
    var g := file + more;
    assert g[off..off + 4] == file[off..off + 4];
    assert g[off + 4..off + 8] == file[off + 4..off + 8];
    var e := Next(file, off).value;
    assert g[off + HEADER..off + HEADER + |e.key|] == file[off + HEADER..off + HEADER + |e.key|];
  }

  /** What a scan found stays found when bytes are appended, and the scan resumes where it ended. */
  lemma {:induction false} ScanGrown(file: File, more: File, off: nat)
    requires off <= |file|
    ensures Scan(file + more, off) == Scan(file, off) + Scan(file + more, ScanEnd(file, off))
    ensures ScanEnd(file + more, off) == ScanEnd(file + more, ScanEnd(file, off))
    decreases |file| - off
  {
    if Next(file, off).Some? {
      NextInGrown(file, more, off);
      ScanGrown(file, more, Next(file, off).value.End());
    }
  }

  lemma NextRecord(file: File, key: Key, value: seq<byte>)
    requires |key| < U32 && |value| < U32
    ensures Next(file + Record(key, value), |file|) == Some(Entry(key, |file|, |value|))
  {
    var g := file + Record(key, value);
    var n := |file|;
    assert g[n..n + 4] == LittleEndian(|key|, 4);
    assert g[n + 4..n + 8] == LittleEndian(|value|, 4);
    Word32(|key|);
    Word32(|value|);
    assert g[n + HEADER..n + HEADER + |key|] == key;
  }

  lemma NextTorn(file: File, key: Key, value: seq<byte>, cut: nat)
    requires |key| < U32 && |value| < U32
    requires cut < |Record(key, value)|
    ensures Next(file + Record(key, value)[..cut], |file|) == None
  {
    var r := Record(key, value);
    var g := file + r[..cut];
    var n := |file|;
    if cut >= HEADER {
      assert r[..4] == LittleEndian(|key|, 4) && r[4..8] == LittleEndian(|value|, 4);
      assert g[n..n + 4] == r[..4];
      assert g[n + 4..n + 8] == r[4..8];
      Word32(|key|);
      Word32(|value|);
    }
  }

  lemma NothingAtEnd(file: File)
    ensures Scan(file, |file|) == [] && ScanEnd(file, |file|) == |file|
  {
  }

  lemma ScanOneMore(file: File, key: Key, value: seq<byte>)
    requires |key| < U32 && |value| < U32
    ensures Scan(file + Record(key, value), |file|) == [Entry(key, |file|, |value|)]
    ensures ScanEnd(file + Record(key, value), |file|) == |file + Record(key, value)|
  {
    NextRecord(file, key, value);
    NothingAtEnd(file + Record(key, value));
  }

  lemma LatestAppended(es: seq<Entry>, e: Entry)
    ensures Latest(es + [e]) == Latest(es)[e.key := e]
  {
    assert (es + [e])[..|es|] == es;
  }

  /** Appending a record to a complete pack adds exactly that record. */
  lemma ScanAppended(file: File, key: Key, value: seq<byte>)
    requires Complete(file)
    requires |key| < U32 && |value| < U32
    ensures Scan(file + Record(key, value), 0) == Scan(file, 0) + [Entry(key, |file|, |value|)]
    ensures Complete(file + Record(key, value))
    ensures Contents(file + Record(key, value)) == Contents(file)[key := Entry(key, |file|, |value|)]
  {
    ScanGrown(file, Record(key, value), 0);
    ScanOneMore(file, key, value);
    LatestAppended(Scan(file, 0), Entry(key, |file|, |value|));
  }

  /** A record of which only some bytes arrived is no record: the scan sees the pack before it and
      would truncate to it. */
  lemma ScanTorn(file: File, key: Key, value: seq<byte>, cut: nat)
    requires Complete(file)
    requires |key| < U32 && |value| < U32
    requires cut < |Record(key, value)|
    ensures Scan(file + Record(key, value)[..cut], 0) == Scan(file, 0)
    ensures ScanEnd(file + Record(key, value)[..cut], 0) == |file|
  {
    ScanGrown(file, Record(key, value)[..cut], 0);
    NextTorn(file, key, value, cut);
  }

  /** Truncating a file to where its scan ended keeps what the scan found. */
  lemma {:induction false} ScanTruncated(file: File, off: nat)
    requires off <= |file|
    ensures var cut := file[..ScanEnd(file, off)];
            Scan(cut, off) == Scan(file, off) && ScanEnd(cut, off) == |cut|
    decreases |file| - off
  {
    var cut := file[..ScanEnd(file, off)];
    if Next(file, off).Some? {
      var e := Next(file, off).value;
      ScanTruncated(file, e.End());
      assert cut[off..off + 4] == file[off..off + 4];
      assert cut[off + 4..off + 8] == file[off + 4..off + 8];
      assert cut[off + HEADER..e.Value()] == file[off + HEADER..e.Value()];
      assert Next(cut, off) == Some(e);
    }
  }

  lemma {:induction false} ScanInside(file: File, off: nat)
    ensures forall e :: e in Scan(file, off) ==>
              off <= e.at && e.End() <= |file| && file[e.at + HEADER..e.Value()] == e.key
              && Next(file, e.at) == Some(e)
    decreases |file| - off
  {
    if Next(file, off).Some? {
      ScanInside(file, Next(file, off).value.End());
    }
  }

  lemma {:induction false} LatestFrom(es: seq<Entry>)
    ensures forall k :: k in Latest(es) ==> Latest(es)[k] in es && Latest(es)[k].key == k
    ensures forall e :: e in es ==> e.key in Latest(es)
  {
    if es != [] {
      var init := es[..|es| - 1];
      LatestFrom(init);
      assert es == init + [es[|es| - 1]];
    }
  }

  /** Every entry of a pack's contents lies inside the pack, under its own key. */
  lemma ContentsInside(file: File)
    ensures forall k :: k in Contents(file) ==>
              Contents(file)[k].key == k && Contents(file)[k].End() <= |file|
              && Next(file, Contents(file)[k].at) == Some(Contents(file)[k])
  {
    ScanInside(file, 0);
    LatestFrom(Scan(file, 0));
  }

  // ---------------------------------------------------------------- hints

  function HintRecord(e: Entry): (r: File)
    ensures |r| == HINT_HEADER + |e.key|
  {
    LittleEndian(|e.key|, 4) + LittleEndian(e.len, 4) + LittleEndian(e.at, 8) + e.key
  }

  function HintNext(hint: File, off: nat): (e: Option<Entry>)
    ensures e.Some? ==> off + HINT_HEADER + |e.value.key| <= |hint| && e.value.Fits()
  {
    if off + HINT_HEADER > |hint| then None else
      Widths();
      LittleEndianOfNumber(hint[off..off + 4]);
      LittleEndianOfNumber(hint[off + 4..off + 8]);
      LittleEndianOfNumber(hint[off + 8..off + 16]);
      var keyLen := Number(hint[off..off + 4]);
      if off + HINT_HEADER + keyLen > |hint| then None
      else Some(Entry(hint[off + HINT_HEADER..off + HINT_HEADER + keyLen],
                      Number(hint[off + 8..off + 16]), Number(hint[off + 4..off + 8])))
  }

  function HintScan(hint: File, off: nat): (es: seq<Entry>)
    decreases |hint| - off
  {
    match HintNext(hint, off)
    case None => []
    case Some(e) => [e] + HintScan(hint, off + HINT_HEADER + |e.key|)
  }

  function HintFile(es: seq<Entry>): File {
    if es == [] then [] else HintFile(es[..|es| - 1]) + HintRecord(es[|es| - 1])
  }

  lemma HintNextInGrown(hint: File, more: File, off: nat)
    requires HintNext(hint, off).Some?
    ensures HintNext(hint + more, off) == HintNext(hint, off)
  {
    var g := hint + more;
    assert g[off..off + 4] == hint[off..off + 4];
    assert g[off + 4..off + 8] == hint[off + 4..off + 8];
    assert g[off + 8..off + 16] == hint[off + 8..off + 16];
    var e := HintNext(hint, off).value;
    assert g[off + HINT_HEADER..off + HINT_HEADER + |e.key|] == hint[off + HINT_HEADER..off + HINT_HEADER + |e.key|];
  }

  function HintEnd(hint: File, off: nat): (end: nat)
    requires off <= |hint|
    ensures off <= end <= |hint|
    decreases |hint| - off
  {
    match HintNext(hint, off)
    case None => off
    case Some(e) => HintEnd(hint, off + HINT_HEADER + |e.key|)
  }

  lemma {:induction false} HintScanGrown(hint: File, more: File, off: nat)
    requires off <= |hint|
    ensures HintScan(hint + more, off) == HintScan(hint, off) + HintScan(hint + more, HintEnd(hint, off))
    ensures HintEnd(hint + more, off) == HintEnd(hint + more, HintEnd(hint, off))
    decreases |hint| - off
  {
    if HintNext(hint, off).Some? {
      HintNextInGrown(hint, more, off);
      hide HintNext;
      var e := HintNext(hint, off).value;
      var next := off + HINT_HEADER + |e.key|;
      HintScanGrown(hint, more, next);
      assert HintScan(hint + more, off) == [e] + HintScan(hint + more, next);
      assert HintScan(hint, off) == [e] + HintScan(hint, next);
    }
  }

  lemma HintNextRecord(hint: File, e: Entry)
    requires e.Fits()
    ensures HintNext(hint + HintRecord(e), |hint|) == Some(e)
  {
    var g := hint + HintRecord(e);
    var n := |hint|;
    assert g[n..n + 4] == LittleEndian(|e.key|, 4);
    assert g[n + 4..n + 8] == LittleEndian(e.len, 4);
    assert g[n + 8..n + 16] == LittleEndian(e.at, 8);
    Word32(|e.key|);
    Word32(e.len);
    Word64(e.at);
    assert g[n + HINT_HEADER..n + HINT_HEADER + |e.key|] == e.key;
  }

  /** Reading a hint back yields the entries it was written from. */
  lemma {:induction false} HintRoundTrip(es: seq<Entry>)
    requires forall e :: e in es ==> e.Fits()
    ensures HintScan(HintFile(es), 0) == es
    ensures HintEnd(HintFile(es), 0) == |HintFile(es)|
  {
    if es != [] {
      var init, last := es[..|es| - 1], es[|es| - 1];
      HintRoundTrip(init);
      HintScanGrown(HintFile(init), HintRecord(last), 0);
      HintNextRecord(HintFile(init), last);
      var g := HintFile(es);
      assert HintNext(g, |g|) == None;
      assert HintScan(g, |g|) == [];
      assert HintScan(g, |HintFile(init)|) == [last];
      assert es == init + [last];
    }
  }

  /** A hint for a pack lists exactly the last-write-wins projection of the pack. */
  predicate HintOf(hint: File, file: File) {
    && (forall e :: e in HintScan(hint, 0) ==> e.key in Contents(file) && Contents(file)[e.key] == e)
    && (forall k :: k in Contents(file) ==> Contents(file)[k] in HintScan(hint, 0))
  }

  /** ... so loading the hint or scanning the pack comes to the same. */
  lemma HintAgrees(hint: File, file: File)
    requires HintOf(hint, file)
    ensures Latest(HintScan(hint, 0)) == Contents(file)
  {
    LatestFrom(HintScan(hint, 0));
    LatestFrom(Scan(file, 0));
    var h, c := Latest(HintScan(hint, 0)), Contents(file);
    forall k | k in c
      ensures k in h
    {
      assert c[k].key == k && c[k] in HintScan(hint, 0);
    }
  }

  /** The hint can outlive pack writes that were lost with the machine: entries past the end of the
      file are passed over. */
  function Readable(es: seq<Entry>, size: nat): seq<Entry> {
    if es == [] then []
    else Readable(es[..|es| - 1], size) + (if es[|es| - 1].End() <= size then [es[|es| - 1]] else [])
  }

  lemma ReadableAppended(es: seq<Entry>, e: Entry, size: nat)
    ensures Readable(es + [e], size) == Readable(es, size) + (if e.End() <= size then [e] else [])
  {
    assert (es + [e])[..|es|] == es;
  }

  lemma {:induction false} ReadableIs(es: seq<Entry>, size: nat)
    ensures forall e :: e in Readable(es, size) <==> e in es && e.End() <= size
  {
    if es != [] {
      ReadableIs(es[..|es| - 1], size);
      assert es == es[..|es| - 1] + [es[|es| - 1]];
    }
  }

  lemma {:induction false} AllReadable(es: seq<Entry>, size: nat)
    requires forall e :: e in es ==> e.End() <= size
    ensures Readable(es, size) == es
  {
    if es != [] {
      AllReadable(es[..|es| - 1], size);
      assert es == es[..|es| - 1] + [es[|es| - 1]];
    }
  }

  /** A sealed pack cut short at any byte: what loads is exactly what is whole. */
  lemma HintAfterLoss(hint: File, file: File, size: nat)
    requires HintOf(hint, file)
    ensures var kept := Latest(Readable(HintScan(hint, 0), size));
            && (forall k :: k in kept <==> k in Contents(file) && Contents(file)[k].End() <= size)
            && (forall k :: k in kept ==> kept[k] == Contents(file)[k])
  {
    var es, c := HintScan(hint, 0), Contents(file);
    ReadableIs(es, size);
    LatestFrom(Readable(es, size));
    LatestFrom(Scan(file, 0));
    var kept := Latest(Readable(es, size));
    forall k | k in c && c[k].End() <= size
      ensures k in kept
    {
      assert c[k] in Readable(es, size) && c[k].key == k;
    }
    forall k | k in kept
      ensures k in c && kept[k] == c[k] && c[k].End() <= size
    {
      assert kept[k] in Readable(es, size);
    }
  }
}
