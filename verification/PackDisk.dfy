/** The directories the blob store lives in, the atomic operations it performs on them, and what a
    crash can leave behind. A crash is the death of the process between or inside operations: an
    append may then have written any number of its bytes, everything else happened or did not
    (hints and cross-device copies are written beside their final name and renamed). */
module PackDisk {
  import opened Bytes
  import opened PackFile

  /** Everything about one pack id: the files that ever were its .pack (an unlinked one stays, a
      reader may have it open), which of them each tier's directory links, and each tier's .hint. */
  datatype PackDir = PackDir(files: seq<File>, copies: map<nat, nat>, hints: map<nat, File>)

  type Disk = map<nat, PackDir>

  const NO_PACK := PackDir([], map[], map[])

  /** One record over the size limit still has a pack of its own: key of 4096 bytes, value of 2 GiB. */
  const MAX_PACK := HEADER + 4096 + 0x8000_0000

  datatype Act =
    | Append(key: Key, value: seq<byte>)    // always in the first tier
    | Truncate(size: nat)                   // likewise
    | PutHint(hint: File)                   // likewise
    | Create                                // likewise
    | CopyPack(tier: nat, linked: bool)     // to the next tier
    | CopyHint(tier: nat)                   // to the next tier
    | RemovePack(tier: nat)
    | RemoveHint(tier: nat)

  datatype Op = Op(id: nat, act: Act)

  predicate Linked(p: PackDir, tier: nat) { tier in p.copies && p.copies[tier] < |p.files| }

  function Grow(p: PackDir, bytes: File): PackDir {
    if Linked(p, 0) then p.(files := p.files[p.copies[0] := p.files[p.copies[0]] + bytes]) else p
  }

  function Effect(p: PackDir, act: Act): PackDir {
    match act
    case Append(key, value) => Grow(p, Record(key, value))
    case Truncate(size) =>
      if Linked(p, 0) && size <= |p.files[p.copies[0]]|
      then p.(files := p.files[p.copies[0] := p.files[p.copies[0]][..size]]) else p
    case PutHint(hint) => p.(hints := p.hints[0 := hint])
    case Create => p.(files := p.files + [[]], copies := p.copies[0 := |p.files|])
    case CopyPack(tier, linked) =>
      if !Linked(p, tier) || tier + 1 in p.copies then p
      else if linked then p.(copies := p.copies[tier + 1 := p.copies[tier]])
      else p.(files := p.files + [p.files[p.copies[tier]]], copies := p.copies[tier + 1 := |p.files|])
    case CopyHint(tier) =>
      if tier !in p.hints || tier + 1 in p.hints then p else p.(hints := p.hints[tier + 1 := p.hints[tier]])
    case RemovePack(tier) => p.(copies := p.copies - {tier})
    case RemoveHint(tier) => p.(hints := p.hints - {tier})
  }

  function Dir(d: Disk, id: nat): PackDir { if id in d then d[id] else NO_PACK }

  function Perform(d: Disk, op: Op): Disk { d[op.id := Effect(Dir(d, op.id), op.act)] }

  /** The disks a process killed during `op` may leave. */
  ghost predicate Torn(d: Disk, op: Op, d': Disk) {
    || d' == d
    || d' == Perform(d, op)
    || (op.act.Append? && exists n: nat ::
          n <= |Record(op.act.key, op.act.value)|
          && d' == d[op.id := Grow(Dir(d, op.id), Record(op.act.key, op.act.value)[..n])])
  }

  // ---------------------------------------------------------------- what stays true of the disk

  predicate Present(p: PackDir) { p.copies != map[] }

  ghost function Content(p: PackDir): File {
    if t :| Linked(p, t) then p.files[p.copies[t]] else []
  }

  /** The copy OpenStore takes: the one in the fastest tier. */
  ghost predicate First(p: PackDir, tier: nat) {
    tier in p.copies && forall t :: t in p.copies ==> tier <= t
  }

  /** All links work, all copies are the same, a hint is true to its pack, and only the newest pack
      may lack one. */
  ghost predicate PackOk(p: PackDir, newest: bool) {
    && (forall t :: t in p.copies ==> Linked(p, t))
    && (Present(p) ==>
          && (forall t :: t in p.copies ==> p.files[p.copies[t]] == Content(p))
          && (forall t :: t in p.hints ==> Complete(Content(p)) && HintOf(p.hints[t], Content(p)))
          && |Content(p)| <= MAX_PACK)
    && (if newest then p.copies.Keys == {0} && p.hints.Keys <= {0} else forall t :: First(p, t) ==> t in p.hints)
  }

  /** `top` is the newest pack, the one that takes the writes. */
  ghost predicate DiskOk(d: Disk, top: nat) {
    && (forall id :: id in d ==> 1 <= id <= top && PackOk(d[id], id == top))
    && (top > 0 ==> top in d)
  }

  /** The disk as a set of packs, whatever tier they are in. */
  ghost function Packs(d: Disk): map<nat, File> {
    map id | id in d && Present(d[id]) :: Content(d[id])
  }

  // ---------------------------------------------------------------- safe operations

  predicate Putable(key: Key, value: seq<byte>) {
    0 < |key| <= 4096 && |value| <= 0x8000_0000
  }

  /** What the store makes sure of before each operation on pack p. */
  ghost predicate SafeAct(p: PackDir, newest: bool, act: Act) {
    match act
    case Append(key, value) =>
      && newest && 0 !in p.hints && Complete(Content(p)) && Putable(key, value)
      && |Content(p)| + |Record(key, value)| <= MAX_PACK
    case Truncate(size) => newest && 0 !in p.hints && size == ScanEnd(Content(p), 0)
    case PutHint(hint) => newest && Complete(Content(p)) && HintOf(hint, Content(p))
    case Create => false
    case CopyPack(tier, _) => !newest && First(p, tier)
    case CopyHint(tier) => !newest && First(p, tier)
    case RemovePack(tier) => !newest && (First(p, tier) ==> forall t :: t in p.copies && t != tier ==> t in p.hints)
    case RemoveHint(tier) => tier !in p.copies
  }

  ghost predicate Safe(d: Disk, top: nat, op: Op) {
    if op.act.Create? then op.id == top + 1 && (top > 0 ==> 0 in Dir(d, top).hints)
    else op.id in d && SafeAct(Dir(d, op.id), op.id == top, op.act)
  }

  function NewTop(top: nat, op: Op): nat { if op.act.Create? then op.id else top }

  // ---------------------------------------------------------------- each operation, whole or torn

  lemma GrowOk(p: PackDir, key: Key, value: seq<byte>, n: nat)
    requires PackOk(p, true) && SafeAct(p, true, Append(key, value)) && n <= |Record(key, value)|
    ensures PackOk(Grow(p, Record(key, value)[..n]), true)
    ensures Content(Grow(p, Record(key, value)[..n])) == Content(p) + Record(key, value)[..n]
  {
  }

  lemma TruncateOk(p: PackDir, size: nat)
    requires PackOk(p, true) && SafeAct(p, true, Truncate(size))
    ensures PackOk(Effect(p, Truncate(size)), true)
    ensures Content(Effect(p, Truncate(size))) == Content(p)[..size]
  {
  }

  lemma PutHintOk(p: PackDir, hint: File)
    requires PackOk(p, true) && SafeAct(p, true, PutHint(hint))
    ensures PackOk(Effect(p, PutHint(hint)), true)
    ensures Content(Effect(p, PutHint(hint))) == Content(p)
  {
  }

  lemma CopyPackOk(p: PackDir, tier: nat, linked: bool)
    requires PackOk(p, false) && SafeAct(p, false, CopyPack(tier, linked))
    ensures PackOk(Effect(p, CopyPack(tier, linked)), false)
    ensures Present(p) && Content(Effect(p, CopyPack(tier, linked))) == Content(p)
  {
    var q := Effect(p, CopyPack(tier, linked));
    assert Linked(p, tier);
    assert tier in q.copies && q.files[q.copies[tier]] == Content(p);
    assert forall t :: t in q.copies && t != tier + 1 ==> t in p.copies;
    assert forall t :: First(q, t) ==> First(p, t);
  }

  lemma CopyHintOk(p: PackDir, tier: nat)
    requires PackOk(p, false) && SafeAct(p, false, CopyHint(tier))
    ensures PackOk(Effect(p, CopyHint(tier)), false)
    ensures Present(p) && Content(Effect(p, CopyHint(tier))) == Content(p)
  {
    assert First(p, tier);
    assert forall t :: First(Effect(p, CopyHint(tier)), t) ==> First(p, t);
  }

  lemma RemoveHintOk(p: PackDir, newest: bool, tier: nat)
    requires PackOk(p, newest) && SafeAct(p, newest, RemoveHint(tier))
    ensures PackOk(Effect(p, RemoveHint(tier)), newest)
    ensures Present(p) ==> Content(Effect(p, RemoveHint(tier))) == Content(p)
  {
    assert forall t :: First(Effect(p, RemoveHint(tier)), t) ==> First(p, t);
  }

  lemma RemovePackOk(p: PackDir, tier: nat)
    requires PackOk(p, false) && SafeAct(p, false, RemovePack(tier))
    ensures PackOk(Effect(p, RemovePack(tier)), false)
    ensures Present(Effect(p, RemovePack(tier))) <==> exists t :: t in p.copies && t != tier
    ensures Present(Effect(p, RemovePack(tier))) ==> Content(Effect(p, RemovePack(tier))) == Content(p)
  {
    var q := Effect(p, RemovePack(tier));
    assert forall t :: t in q.copies <==> t in p.copies && t != tier;
    assert forall t :: t in p.copies ==> Linked(p, t);
    forall t | First(q, t)
      ensures t in q.hints
    {
      if !First(p, tier) {
        assert First(p, t);
      }
    }
  }
}
