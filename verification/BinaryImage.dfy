/** A bounds-checked view of a binary held in memory. */
module BinaryImage {
  import opened Bytes

  function Chars(b: seq<byte>): string { seq(|b|, i requires 0 <= i < |b| => b[i] as char) }

  /** Text of single bytes. */
  predicate Narrow(s: string) { forall i :: 0 <= i < |s| ==> s[i] < 256 as char }

  function Octets(s: string): seq<byte>
    requires Narrow(s)
  {
    seq(|s|, i requires 0 <= i < |s| => s[i] as int as byte)
  }

  function Zeros(n: nat): seq<byte> { seq(n, _ => 0) }

  /** The first NUL at or after i, or the end. */
  function Nul(b: seq<byte>, i: nat): (r: nat)
    requires i <= |b|
    ensures i <= r <= |b| && (r < |b| ==> b[r] == 0) && forall j :: i <= j < r ==> b[j] != 0
    decreases |b| - i
  {
    if i == |b| || b[i] == 0 then i else Nul(b, i + 1)
  }

  /** The NUL-terminated string at an offset, "" out of range. */
  function CStringAt(b: seq<byte>, offset: nat): string {
    if offset >= |b| then "" else Chars(b[offset..Nul(b, offset)])
  }

  predicate Room(b: seq<byte>, offset: nat, size: nat) { offset <= |b| && |b| - offset >= size }

  /** The bytes with those from offset on replaced. */
  function Patched(b: seq<byte>, offset: nat, new_: seq<byte>): (r: seq<byte>)
    requires Room(b, offset, |new_|)
    ensures |r| == |b| && r[offset..offset + |new_|] == new_
    ensures forall i :: 0 <= i < |b| && !(offset <= i < offset + |new_|) ==> r[i] == b[i]
  {
    b[..offset] + new_ + b[offset + |new_|..]
  }

  predicate Apart(a: nat, m: nat, b: nat, n: nat) { a + m <= b || b + n <= a }

  /** A patch is not seen where it was not made. */
  lemma SliceKept(b: seq<byte>, offset: nat, new_: seq<byte>, at: nat, size: nat)
    requires Room(b, offset, |new_|) && Room(b, at, size) && Apart(offset, |new_|, at, size)
    ensures Patched(b, offset, new_)[at..at + size] == b[at..at + size]
  {
  }

  /** A text followed by a NUL is the string at its offset. */
  lemma CStringIs(b: seq<byte>, offset: nat, text: string)
    requires Narrow(text) && '\0' !in text && offset + |text| < |b|
    requires b[offset..offset + |text|] == Octets(text) && b[offset + |text|] == 0
    ensures CStringAt(b, offset) == text
  {
    var o, slot := Octets(text), b[offset..offset + |text|];
    forall j | offset <= j < offset + |text|
      ensures b[j] != 0
    {
      assert text[j - offset] in text;
      assert b[j] == slot[j - offset] == o[j - offset] == text[j - offset] as int;
    }
    assert Nul(b, offset) == offset + |text|;
    assert Chars(o) == text;
  }

  lemma CStringHasNoNul(b: seq<byte>, offset: nat)
    ensures '\0' !in CStringAt(b, offset) && Narrow(CStringAt(b, offset))
  {
    if offset < |b| {
      var s, n := CStringAt(b, offset), Nul(b, offset);
      assert forall j :: 0 <= j < |s| ==> s[j] == b[offset + j] as char && b[offset + j] != 0;
    }
  }

  class Image {
    var bytes: seq<byte>

    constructor (b: seq<byte>)
      ensures bytes == b
    {
      bytes := b;
    }

    function CString(offset: nat): string
      reads this
    {
      CStringAt(bytes, offset)
    }

    /** A little-endian word of that many bytes. */
    function Read(offset: nat, width: nat): (r: Option<nat>)
      reads this
      ensures r.Some? <==> Room(bytes, offset, width)
    {
      if Room(bytes, offset, width) then Some(Number(bytes[offset..offset + width])) else None
    }

    method Overwrite(offset: nat, data: seq<byte>) returns (ok: bool)
      modifies this
      ensures ok == Room(old(bytes), offset, |data|)
      ensures bytes == if ok then Patched(old(bytes), offset, data) else old(bytes)
    {
      ok := Room(bytes, offset, |data|);
      if ok {
        bytes := bytes[..offset] + data + bytes[offset + |data|..];
      }
    }

    method Write(offset: nat, width: nat, value: nat) returns (ok: bool)
      modifies this
      ensures ok == Room(old(bytes), offset, width)
      ensures bytes == if ok then Patched(old(bytes), offset, LittleEndian(value, width)) else old(bytes)
    {
      ok := Overwrite(offset, LittleEndian(value, width));
    }

    /** Text and NULs over a slot of `capacity` bytes; at least one NUL must fit. */
    method WritePadded(offset: nat, capacity: nat, text: string) returns (ok: bool)
      requires Narrow(text)
      modifies this
      ensures ok == (|text| + 1 <= capacity && Room(old(bytes), offset, capacity))
      ensures bytes == if ok then Patched(old(bytes), offset, Octets(text) + Zeros(capacity - |text|)) else old(bytes)
    {
      if |text| + 1 > capacity {
        return false;
      }
      ok := Overwrite(offset, Octets(text) + Zeros(capacity - |text|));
    }
  }
}
