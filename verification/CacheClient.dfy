/** The client's end of the cache protocol: answers cut out of a stream that arrives in pieces of any size. */
module CacheClient {
  import opened Bytes
  import opened Text
  import opened Decimal

  const MAX_OBJECT: nat := 0x8000_0000

  function Flat(chunks: seq<string>): string {
    if chunks == [] then "" else chunks[0] + Flat(chunks[1..])
  }

  /** What the daemon answers to one GET: a value, a line that is not OK, or one with a length that cannot be right. */
  datatype Reply = Found(wire: string) | Other(line: string) | Bad(line: string)

  /** The length an OK line announces, None for one that cannot be right. */
  function Length(line: string): Option<nat>
    requires Starts(line, "OK ")
  {
    match ParseUint(line[3..])
    case None => None
    case Some(n) => if n > MAX_OBJECT then None else Some(n)
  }

  predicate Sendable(r: Reply) {
    match r
    case Found(wire) => |wire| <= MAX_OBJECT
    case Other(line) => '\n' !in line && !Starts(line, "OK ")
    case Bad(line) => '\n' !in line && Starts(line, "OK ") && Length(line).None?
  }

  function Wire(r: Reply): string {
    match r
    case Found(wire) => "OK " + Digits(|wire|) + "\n" + wire
    case Other(line) => line + "\n"
    case Bad(line) => line + "\n"
  }

  function Sent(rs: seq<Reply>): string {
    if rs == [] then "" else Wire(rs[0]) + Sent(rs[1..])
  }

  /** Decompression of a value as it is on the wire. */
  type Inflate = string -> Option<string>

  function Meaning(r: Reply, inflate: Inflate): Option<string> {
    if r.Found? then inflate(r.wire) else None
  }

  // ---------------------------------------------------------------- one answer

  /** What has been read and not used, and what further reads will return before the end of the stream. */
  datatype Conn = Conn(pending: string, incoming: seq<string>)

  function Stream(c: Conn): string { c.pending + Flat(c.incoming) }

  /** After n characters of the stream were used. */
  function Drop(c: Conn, n: nat): Conn
    decreases |c.incoming|
  {
    if n <= |c.pending| then Conn(c.pending[n..], c.incoming)
    else if c.incoming == [] then Conn("", [])
    else Drop(Conn(c.incoming[0], c.incoming[1..]), n - |c.pending|)
  }

  /** After a line was looked for and the stream ended: the last piece is still there. */
  function Ended(c: Conn): Conn {
    Conn(if c.incoming == [] then c.pending else c.incoming[|c.incoming| - 1], [])
  }

  /** The value read and what is left. A length that cannot be right closes the connection: what was already read
      stays. */
  function Answered(c: Conn, inflate: Inflate): (Option<string>, Conn) {
    var s := Stream(c);
    var n := IndexOf(s, '\n', 0);
    if n == |s| then (None, Ended(c))
    else if !Starts(s[..n], "OK ") then (None, Drop(c, n + 1))
    else match Length(s[..n])
      case None => (None, Conn(Drop(c, n + 1).pending, []))
      case Some(len) =>
        if n + 1 + len <= |s| then (inflate(s[n + 1..n + 1 + len]), Drop(c, n + 1 + len)) else (None, Conn("", []))
  }

  function Values(c: Conn, count: nat, inflate: Inflate): (r: seq<Option<string>>)
    ensures |r| == count
    decreases count
  {
    if count == 0 then [] else
      var (value, next) := Answered(c, inflate);
      [value] + Values(next, count - 1, inflate)
  }

  lemma {:induction false} DropIs(c: Conn, n: nat)
    requires n <= |Stream(c)|
    ensures Stream(Drop(c, n)) == Stream(c)[n..]
    decreases |c.incoming|
  {
    if n > |c.pending| {
      var d := Conn(c.incoming[0], c.incoming[1..]);
      assert Stream(c) == c.pending + Stream(d);
      DropIs(d, n - |c.pending|);
      assert Stream(c)[n..] == Stream(d)[n - |c.pending|..];
    } else {
      assert Stream(c)[n..] == c.pending[n..] + Flat(c.incoming);
    }
  }

  lemma {:induction false} DropTwice(c: Conn, m: nat, n: nat)
    requires m <= |Stream(c)|
    ensures Drop(Drop(c, m), n) == Drop(c, m + n)
    decreases |c.incoming|
  {
    if m > |c.pending| {
      var d := Conn(c.incoming[0], c.incoming[1..]);
      assert Stream(c) == c.pending + Stream(d);
      DropTwice(d, m - |c.pending|, n);
    } else {
      var d := Conn(c.pending[m..], c.incoming);
      assert Drop(c, m) == d;
      if m + n <= |c.pending| {
        assert c.pending[m..][n..] == c.pending[m + n..];
      }
    }
  }

  /** Using `used` characters of c and then some is using those of d. */
  ghost predicate Follows(c: Conn, d: Conn, used: nat) { forall j: nat :: used < j ==> Drop(c, j) == Drop(d, j - used) }

  lemma FollowsAt(c: Conn, d: Conn, used: nat, n: nat)
    requires Follows(c, d, used) && n > 0
    ensures Drop(c, used + n) == Drop(d, n)
  {
    hide Drop;
    assert used < used + n;
  }

  lemma FollowsMore(c: Conn, d: Conn, e: Conn, m: nat, n: nat)
    requires Follows(c, d, m) && Follows(d, e, n)
    ensures Follows(c, e, m + n)
  {
    hide Drop;
  }

  lemma FollowsDrop(c: Conn, n: nat)
    requires n <= |Stream(c)|
    ensures Follows(c, Drop(c, n), n)
  {
    hide Drop, Stream;
    forall j: nat | n < j
      ensures Drop(c, j) == Drop(Drop(c, n), j - n)
    {
      DropTwice(c, n, j - n);
    }
  }

  lemma NextChunk(c: Conn)
    requires c.incoming != []
    ensures var d := Conn(c.incoming[0], c.incoming[1..]);
            Stream(c) == c.pending + Stream(d) && Follows(c, d, |c.pending|) && Ended(c) == Ended(d)
  {
  }

  lemma DropNothing(c: Conn)
    ensures Drop(c, 0) == c && Follows(c, c, 0)
  {
  }

  lemma NothingLeft(c: Conn)
    requires c.pending == "" && c.incoming == []
    ensures Stream(c) == ""
  {
  }

  lemma LineEnds(line: string, c: Conn, n: nat)
    requires n < |c.pending| && c.pending[n] == '\n' && '\n' !in line && '\n' !in c.pending[..n]
    ensures var s := line + Stream(c);
            IndexOf(s, '\n', 0) == |line| + n < |s| && s[..|line| + n] == line + c.pending[..n]
    ensures Drop(c, n + 1) == Conn(c.pending[n + 1..], c.incoming)
  {
    var s := line + Stream(c);
    hide Flat;
    assert forall i :: 0 <= i < |line| ==> s[i] == line[i];
    assert forall i :: |line| <= i < |line| + n ==> s[i] == c.pending[..n][i - |line|];
    IndexIs(s, '\n', |line| + n);
  }

  lemma NoLine(line: string, c: Conn)
    requires '\n' !in line && '\n' !in c.pending && c.incoming == []
    ensures IndexOf(line + Stream(c), '\n', 0) == |line + Stream(c)| && Ended(c) == c
  {
    var s := line + Stream(c);
    assert Stream(c) == c.pending;
    assert '\n' !in s;
  }

  class Client {
    var pending: string
    var incoming: seq<string>

    constructor (chunks: seq<string>)
      ensures pending == "" && incoming == chunks
    {
      pending, incoming := "", chunks;
    }

    function State(): Conn
      reads this
    {
      Conn(pending, incoming)
    }

    /** One read. What was pending is gone. */
    method Fill() returns (ok: bool)
      modifies this
      ensures ok == (old(incoming) != [])
      ensures ok ==> State() == Conn(old(incoming)[0], old(incoming)[1..])
      ensures !ok ==> State() == old(State())
    {
      ok := incoming != [];
      if ok {
        pending, incoming := incoming[0], incoming[1..];
      }
    }

    method RecvLine() returns (r: Option<string>)
      modifies this
      ensures var s := Stream(old(State()));
              var n := IndexOf(s, '\n', 0);
              if n == |s| then r == None && State() == Ended(old(State()))
              else r == Some(s[..n]) && State() == Drop(old(State()), n + 1)
    {
      hide Flat, Drop, Stream, Ended, Follows;
      ghost var c := State();
      var line := "";
      DropNothing(c);
      assert "" + Stream(c) == Stream(c);
      while true
        invariant '\n' !in line && Stream(c) == line + Stream(State())
        invariant Follows(c, State(), |line|)
        invariant Ended(c) == Ended(State())
        decreases |incoming|
      {
        var n := IndexOf(pending, '\n', 0);
        ghost var here := State();
        if n < |pending| {
          LineEnds(line, here, n);
          FollowsAt(c, here, |line|, n + 1);
          line := line + pending[..n];
          pending := pending[n + 1..];
          return Some(line);
        }
        ghost var before := line;
        line := line + pending;
        var ok := Fill();
        if !ok {
          NoLine(before, here);
          return None;
        }
        NextChunk(here);
        FollowsMore(c, here, State(), |before|, |here.pending|);
        assert before + (here.pending + Stream(State())) == line + Stream(State());
      }
    }

    /** As much of what is pending as is wanted. */
    method Take(want: nat) returns (piece: string)
      modifies this`pending
      ensures |piece| <= want && (old(pending) != "" && want > 0 ==> piece != "")
      ensures Stream(old(State())) == piece + Stream(State()) && State() == Drop(old(State()), |piece|)
    {
      hide Flat;
      var take := if |pending| < want then |pending| else want;
      piece := pending[..take];
      assert pending == piece + pending[take..];
      pending := pending[take..];
    }

    method RecvExactly(count: nat) returns (r: Option<string>)
      modifies this
      ensures var s := Stream(old(State()));
              if count <= |s| then r == Some(s[..count]) && State() == Drop(old(State()), count)
              else r == None && State() == Conn("", [])
    {
      hide Flat, Stream, Drop;
      ghost var c := State();
      var out := "";
      DropNothing(c);
      while |out| < count
        invariant |out| <= count && Stream(c) == out + Stream(State()) && Follows(c, State(), |out|)
        invariant |out| == count ==> State() == Drop(c, count)
        decreases |incoming|, count - |out|
      {
        ghost var here := State();
        if pending == "" {
          var ok := Fill();
          if !ok {
            NothingLeft(here);
            return None;
          }
          NextChunk(here);
          FollowsMore(c, here, State(), |out|, 0);
        }
        ghost var there := State();
        assert Stream(c) == out + Stream(there);
        var piece := Take(count - |out|);
        FollowsDrop(there, |piece|);
        FollowsMore(c, there, State(), |out|, |piece|);
        Regroup(out, piece, Stream(State()));
        assert |out| + |piece| == count ==> Drop(c, count) == Drop(there, |piece|);
        out := out + piece;
      }
      CutAt(out, Stream(State()));
      return Some(out);
    }

    /** One answer. */
    method RecvValue(inflate: Inflate) returns (r: Option<string>)
      modifies this
      ensures (r, State()) == Answered(old(State()), inflate)
    {
      hide Flat, Digits, ParseUint, Starts, Stream, Drop;
      ghost var c := State();
      var line := RecvLine();
      if line.None? || !Starts(line.value, "OK ") {
        return None;
      }
      LongEnough(line.value);
      var len := ParseUint(line.value[3..]);
      if len.None? || len.value > MAX_OBJECT {
        incoming := [];
        return None;
      }
      ghost var n := |line.value|;
      DropIs(c, n + 1);
      DropTwice(c, n + 1, len.value);
      assert n + 1 + len.value <= |Stream(c)| ==>
               Stream(c)[n + 1..][..len.value] == Stream(c)[n + 1..n + 1 + len.value];
      var wire := RecvExactly(len.value);
      return if wire.Some? then inflate(wire.value) else None;
    }
  }

  lemma LongEnough(line: string)
    requires Starts(line, "OK ")
    ensures |line| >= 3
  {
  }

  lemma Regroup(a: string, b: string, c: string)
    ensures a + (b + c) == a + b + c
  {
  }

  lemma CutAt(a: string, b: string)
    ensures (a + b)[..|a|] == a && (a + b)[|a|..] == b
  {
  }

  // ---------------------------------------------------------------- what the daemon sent

  function Line(r: Reply): string {
    match r case Found(wire) => "OK " + Digits(|wire|) case Other(line) => line case Bad(line) => line
  }

  function Body(r: Reply): string { if r.Found? then r.wire else "" }

  lemma WireIs(r: Reply)
    requires Sendable(r)
    ensures Wire(r) == Line(r) + ("\n" + Body(r)) && '\n' !in Line(r)
    ensures Starts(Line(r), "OK ") <==> !r.Other?
    ensures r.Found? ==> Length(Line(r)) == Some(|r.wire|)
    ensures r.Bad? ==> Length(Line(r)) == None
  {
    if r.Found? {
      ParseDigits(|r.wire|, false);
      StartsConcat("OK ", Digits(|r.wire|));
    }
  }

  /** The line and the body are found again at the beginning of any stream that has the reply there. */
  lemma FirstReply(s: string, line: string, body: string)
    requires '\n' !in line && line + ("\n" + body) <= s
    ensures IndexOf(s, '\n', 0) == |line| < |s| && s[..|line|] == line
    ensures |line| + 1 + |body| <= |s| && s[|line| + 1..|line| + 1 + |body|] == body
  {
    var w := line + ("\n" + body);
    assert s[..|w|] == w;
    assert forall i :: 0 <= i < |w| ==> s[i] == w[i];
    IndexIs(s, '\n', |line|);
  }

  /** A whole reply: its meaning, and the connection stands behind it. */
  lemma AnsweredReply(c: Conn, r: Reply, inflate: Inflate)
    requires Sendable(r) && Wire(r) <= Stream(c)
    ensures var next := Drop(c, |Wire(r)|);
            Answered(c, inflate) == (Meaning(r, inflate), if r.Bad? then Conn(next.pending, []) else next)
  {
    hide Stream, Drop, Starts, Length, Digits;
    WireIs(r);
    FirstReply(Stream(c), Line(r), Body(r));
  }

  /** Only the beginning of a reply: nothing, now or later. */
  lemma AnsweredPart(c: Conn, r: Reply, inflate: Inflate)
    requires Sendable(r) && Stream(c) < Wire(r)
    ensures Answered(c, inflate).0 == None && '\n' !in Stream(Answered(c, inflate).1)
  {
    WireIs(r);
    var s, w, n := Stream(c), Wire(r), IndexOf(Stream(c), '\n', 0);
    assert w[..|s|] == s && forall i :: 0 <= i < |s| ==> s[i] == w[i];
    if n == |s| {
      EndedHasNoLine(c);
    } else {
      hide Stream, Drop, Starts, Length, Digits;
      assert w[n] == '\n' && w[|Line(r)|] == '\n';
      assert forall i :: 0 <= i < |Line(r)| ==> w[i] == Line(r)[i];
      assert s[..n] == Line(r);
      NothingLeft(Conn("", []));
    }
  }

  lemma EndedHasNoLine(c: Conn)
    requires '\n' !in Stream(c)
    ensures '\n' !in Stream(Ended(c))
  {
    if c.incoming != [] { LastIsIn(c.incoming, '\n'); }
  }

  lemma {:induction false} LastIsIn(chunks: seq<string>, x: char)
    requires chunks != [] && x !in Flat(chunks)
    ensures x !in chunks[|chunks| - 1]
    decreases |chunks|
  {
    assert x !in chunks[0] && x !in Flat(chunks[1..]);
    if |chunks| > 1 { LastIsIn(chunks[1..], x); }
  }

  // ---------------------------------------------------------------- many answers

  /** Two texts of which one is the beginning of the other. */
  predicate Agree(a: string, b: string) { a <= b || b <= a }

  /** Only the last reply may have a length that cannot be right. */
  ghost predicate GoodFirst(rs: seq<Reply>) {
    forall i :: 0 <= i < |rs| ==> Sendable(rs[i]) && (rs[i].Bad? ==> i == |rs| - 1)
  }

  /** The answer to the i-th key, None for one that the stream ends before. */
  ghost function Answer(rs: seq<Reply>, i: nat, got: nat, inflate: Inflate): Option<string>
    requires i < |rs|
  {
    if |Sent(rs[..i + 1])| <= got then Meaning(rs[i], inflate) else None
  }

  lemma AnswerStep(rs: seq<Reply>, i: nat, got: nat, inflate: Inflate)
    requires 0 < i < |rs| && |Wire(rs[0])| <= got
    ensures Answer(rs, i, got, inflate) == Answer(rs[1..], i - 1, got - |Wire(rs[0])|, inflate)
  {
    hide Wire, Meaning;
    assert rs[..i + 1][1..] == rs[1..][..i];
  }

  lemma AnswerFirst(rs: seq<Reply>, got: nat, inflate: Inflate)
    requires rs != []
    ensures Answer(rs, 0, got, inflate) == if |Wire(rs[0])| <= got then Meaning(rs[0], inflate) else None
  {
    hide Wire, Meaning;
    assert rs[..1] == [rs[0]] && [rs[0]][1..] == [];
    assert Sent(rs[..1]) == Wire(rs[0]) + Sent([]);
  }

  lemma AnswerNone(rs: seq<Reply>, i: nat, got: nat, inflate: Inflate)
    requires i < |rs| && got < |Wire(rs[0])|
    ensures Answer(rs, i, got, inflate) == None
  {
    hide Wire, Meaning;
    assert rs[..i + 1][0] == rs[0];
  }

  lemma {:induction false} NoLineNoValues(c: Conn, count: nat, inflate: Inflate)
    requires '\n' !in Stream(c)
    ensures forall i :: 0 <= i < count ==> Values(c, count, inflate)[i] == None
    decreases count
  {
    if count > 0 {
      EndedHasNoLine(c);
      hide Stream, Drop, Starts, Length;
      assert Answered(c, inflate) == (None, Ended(c));
      NoLineNoValues(Ended(c), count - 1, inflate);
    }
  }

  /** The stream behind a first reply agrees with the other replies. */
  lemma AgreeMore(s: string, w: string, rest: string)
    requires Agree(s, w + rest) && |w| <= |s|
    ensures w <= s && Agree(s[|w|..], rest)
  {
    var all := w + rest;
    if s <= all {
      assert all[..|s|] == s;
      assert s[..|w|] == all[..|w|] == w;
      assert rest[..|s| - |w|] == all[|w|..|s|] == s[|w|..];
    } else {
      assert s[..|all|] == all;
      assert s[..|w|] == all[..|w|] == w;
      assert s[|w|..][..|rest|] == s[|w|..|all|] == rest;
    }
  }

  /** Whatever pieces the replies arrive in, and wherever the stream may break off: up to the first length that cannot
      be right, the i-th value is the answer to the i-th key. */
  lemma {:induction false} ValuesAreAnswers(rs: seq<Reply>, c: Conn, inflate: Inflate)
    requires GoodFirst(rs) && Agree(Stream(c), Sent(rs))
    ensures forall i :: 0 <= i < |rs| ==> Values(c, |rs|, inflate)[i] == Answer(rs, i, |Stream(c)|, inflate)
    decreases |rs|
  {
    hide Sendable, Wire, Stream, Drop, Meaning, Answered, Answer;
    if rs != [] {
      var s, w, rest := Stream(c), Wire(rs[0]), rs[1..];
      var values := Values(c, |rs|, inflate);
      AnswerFirst(rs, |s|, inflate);
      if |w| <= |s| {
        AgreeMore(s, w, Sent(rest));
        AnsweredReply(c, rs[0], inflate);
        DropIs(c, |w|);
        if rest != [] {
          ValuesAreAnswers(rest, Drop(c, |w|), inflate);
          forall i | 0 < i < |rs|
            ensures values[i] == Answer(rs, i, |s|, inflate)
          {
            AnswerStep(rs, i, |s|, inflate);
            assert values[i] == Values(Drop(c, |w|), |rest|, inflate)[i - 1];
          }
        }
      } else {
        assert s < w by { ShortIsPart(s, w, Sent(rest)); }
        AnsweredPart(c, rs[0], inflate);
        NoLineNoValues(Answered(c, inflate).1, |rest|, inflate);
        forall i | 0 <= i < |rs|
          ensures values[i] == Answer(rs, i, |s|, inflate)
        {
          AnswerNone(rs, i, |s|, inflate);
          assert i > 0 ==> values[i] == Values(Answered(c, inflate).1, |rest|, inflate)[i - 1];
        }
      }
    }
  }

  lemma ShortIsPart(s: string, w: string, rest: string)
    requires Agree(s, w + rest) && |s| < |w|
    ensures s < w
  {
    var all := w + rest;
    assert all[..|s|] == s && all[..|s|] == w[..|s|];
  }

  // ---------------------------------------------------------------- after a length that cannot be right

  /** A whole answer stands first in the text, and its value is good. */
  predicate Complete(t: string, inflate: Inflate) {
    var n := IndexOf(t, '\n', 0);
    && n < |t| && Starts(t[..n], "OK ")
    && match Length(t[..n])
       case None => false
       case Some(len) => n + 1 + len <= |t| && inflate(t[n + 1..n + 1 + len]).Some?
  }

  /** What is left behind the first answer of a text after which nothing comes. */
  function Behind(t: string): string {
    var n := IndexOf(t, '\n', 0);
    if n == |t| then t
    else if !Starts(t[..n], "OK ") then t[n + 1..]
    else match Length(t[..n])
      case None => t[n + 1..]
      case Some(len) => if n + 1 + len <= |t| then t[n + 1 + len..] else ""
  }

  /** One of the next m answers in the text is complete. */
  predicate AnswerAmong(t: string, m: nat, inflate: Inflate)
    decreases m
  {
    m > 0 && (Complete(t, inflate) || AnswerAmong(Behind(t), m - 1, inflate))
  }

  lemma AnsweredClosed(t: string, inflate: Inflate)
    ensures var (value, next) := Answered(Conn(t, []), inflate);
            (value.Some? <==> Complete(t, inflate)) && next == Conn(Behind(t), [])
  {
    assert Stream(Conn(t, [])) == t;
    hide Length, Starts;
  }

  ghost predicate AllNone(values: seq<Option<string>>) { forall j :: 0 <= j < |values| ==> values[j].None? }

  lemma AllNoneStep(first: Option<string>, rest: seq<Option<string>>)
    ensures AllNone([first] + rest) <==> first.None? && AllNone(rest)
  {
    var all := [first] + rest;
    assert all[0] == first;
    assert forall j :: 0 <= j < |rest| ==> all[j + 1] == rest[j];
    assert AllNone(all) ==> forall j :: 0 <= j < |rest| ==> rest[j].None?;
  }

  lemma {:induction false} NoneIffNoneAmong(t: string, m: nat, inflate: Inflate)
    ensures AllNone(Values(Conn(t, []), m, inflate)) <==> !AnswerAmong(t, m, inflate)
    decreases m
  {
    hide Answered, Complete, Behind, AllNone;
    if m > 0 {
      AnsweredClosed(t, inflate);
      NoneIffNoneAmong(Behind(t), m - 1, inflate);
      AllNoneStep(Answered(Conn(t, []), inflate).0, Values(Conn(Behind(t), []), m - 1, inflate));
    } else {
      NoValues();
    }
  }

  lemma NoValues()
    ensures AllNone([])
  {
  }

  /** After the replies of rs, the last of which has a length that cannot be right, come the answers to be found in the
      rest of the piece in which its line ended, and no others. */
  lemma {:induction false} ValuesAfterBad(rs: seq<Reply>, c: Conn, count: nat, inflate: Inflate)
    requires rs != [] && GoodFirst(rs) && rs[|rs| - 1].Bad? && Sent(rs) <= Stream(c) && |rs| <= count
    ensures Values(c, count, inflate)[|rs|..]
            == Values(Conn(Drop(c, |Sent(rs)|).pending, []), count - |rs|, inflate)
    decreases |rs|
  {
    hide Sendable, Wire, Stream, Drop, Meaning, Answered;
    var s, w, rest := Stream(c), Wire(rs[0]), rs[1..];
    AgreeMore(s, w, Sent(rest));
    AnsweredReply(c, rs[0], inflate);
    DropIs(c, |w|);
    if rest == [] {
      assert w + Sent([]) == w;
    } else {
      var d := Drop(c, |w|);
      assert Sent(rest) <= Stream(d) by {
        assert s[..|Sent(rs)|] == w + Sent(rest);
        assert s[|w|..][..|Sent(rest)|] == Sent(rest);
      }
      ValuesAfterBad(rest, d, count - 1, inflate);
      DropTwice(c, |w|, |Sent(rest)|);
      assert Values(c, count, inflate)[|rs|..] == Values(d, count - 1, inflate)[|rest|..];
    }
  }

  /** So the later values are None exactly if the rest of that piece holds no complete answer. */
  lemma LaterAreNoneIff(rs: seq<Reply>, c: Conn, count: nat, inflate: Inflate)
    requires rs != [] && GoodFirst(rs) && rs[|rs| - 1].Bad? && Sent(rs) <= Stream(c) && |rs| <= count
    ensures AllNone(Values(c, count, inflate)[|rs|..])
            <==> !AnswerAmong(Drop(c, |Sent(rs)|).pending, count - |rs|, inflate)
  {
    hide GoodFirst, Sent, Stream, Drop, Values, AllNone, AnswerAmong;
    ValuesAfterBad(rs, c, count, inflate);
    NoneIffNoneAmong(Drop(c, |Sent(rs)|).pending, count - |rs|, inflate);
  }

  function Plain(wire: string): Option<string> { Some(wire) }

  /** A length no object has, and behind it what looks like an answer. */
  function Confused(): string { "OK " + Digits(99_999_999_999) + "\n" }

  lemma ConfusedIsBad()
    ensures Sendable(Bad("OK " + Digits(99_999_999_999))) && Sent([Bad("OK " + Digits(99_999_999_999))]) == Confused()
    ensures Confused() != ""
  {
    hide Digits, ParseUint;
    var n, bad := 99_999_999_999, Bad("OK " + Digits(99_999_999_999));
    ParseDigits(n, false);
    StartsConcat("OK ", Digits(n));
    DigitsAreDigits(n);
    assert [bad][1..] == [] && Wire(bad) == Confused() && Sent([]) == "";
    assert Confused() + "" == Confused();
  }

  lemma DigitsAreDigits(n: nat)
    ensures '\n' !in Digits(n)
  {
  }

  lemma SmallAnswer()
    ensures Values(Conn("OK 1\nx", []), 1, Plain) == [Some("x")] && Values(Conn("", []), 1, Plain) == [None]
  {
    var c, r := Conn("OK 1\nx", []), Found("x");
    assert Digits(1) == "1";
    assert Stream(c) == "OK 1\nx" == Wire(r);
    AnsweredReply(c, r, Plain);
    NoLineNoValues(Conn("", []), 1, Plain);
    hide Answered;
    assert Values(c, 1, Plain) == [Answered(c, Plain).0] + [];
  }

  lemma OnePiece(a: string, b: string)
    requires a != ""
    ensures Stream(Conn("", [a + b])) == a + b && Drop(Conn("", [a + b]), |a|).pending == b
  {
    hide Drop, Flat, Stream;
    var chunks := [a + b];
    FirstPiece(chunks, |a|);
    assert chunks[1..] == [] && a + b + "" == a + b && (a + b)[|a|..] == b;
    FlatNothing();
  }

  lemma TwoPieces(chunks: seq<string>)
    requires |chunks| == 2 && chunks[0] != ""
    ensures Stream(Conn("", chunks)) == chunks[0] + chunks[1] && Drop(Conn("", chunks), |chunks[0]|).pending == ""
  {
    hide Drop, Flat, Stream;
    FirstPiece(chunks, |chunks[0]|);
    var rest := chunks[1..];
    FirstPiece(rest, 0);
    FlatNothing();
    assert rest[1..] == [];
    assert chunks[1] + "" == chunks[1];
  }

  lemma FlatNothing()
    ensures Flat([]) == ""
  {
  }

  lemma FirstPiece(chunks: seq<string>, n: nat)
    requires chunks != [] && n <= |chunks[0]|
    ensures n > 0 ==> Drop(Conn("", chunks), n) == Conn(chunks[0][n..], chunks[1..])
    ensures Stream(Conn("", chunks)) == Flat(chunks) == chunks[0] + Flat(chunks[1..])
  {
    if n > 0 { assert Drop(Conn(chunks[0], chunks[1..]), n) == Conn(chunks[0][n..], chunks[1..]); }
    assert "" + Flat(chunks) == Flat(chunks);
  }

  lemma FirstOfTwo(c: Conn)
    requires Confused() <= Stream(c)
    ensures Values(c, 2, Plain)[0] == None
  {
    ConfusedIsBad();
    hide Digits, Stream, Drop, Sent;
    var bad := Bad("OK " + Digits(99_999_999_999));
    AnsweredReply(c, bad, Plain);
  }

  /** In one piece with the bad length it becomes the second key's value; in a piece of its own it does not. */
  lemma LeftoverIsTaken()
    ensures Values(Conn("", [Confused() + "OK 1\nx"]), 2, Plain) == [None, Some("x")]
    ensures Values(Conn("", [Confused(), "OK 1\nx"]), 2, Plain) == [None, None]
  {
    hide Confused, Digits, Drop, Stream, Values, Sent, Sendable;
    var bad, w, tail := [Bad("OK " + Digits(99_999_999_999))], Confused(), "OK 1\nx";
    ConfusedIsBad();
    OnePiece(w, tail);
    TwoPieces([w, tail]);
    SmallAnswer();
    var one, two := Conn("", [w + tail]), Conn("", [w, tail]);
    FirstOfTwo(one);
    FirstOfTwo(two);
    ValuesAfterBad(bad, one, 2, Plain);
    ValuesAfterBad(bad, two, 2, Plain);
    assert Values(one, 2, Plain) == [None] + Values(one, 2, Plain)[1..];
    assert Values(two, 2, Plain) == [None] + Values(two, 2, Plain)[1..];
  }

  /** One pipelined exchange. */
  method GetMany(client: Client, keys: seq<string>, inflate: Inflate) returns (values: seq<Option<string>>)
    modifies client
    ensures values == Values(old(client.State()), |keys|, inflate)
  {
    hide Answered;
    values := [];
    ghost var c := client.State();
    for i := 0 to |keys|
      invariant |values| == i && Values(c, |keys|, inflate) == values + Values(client.State(), |keys| - i, inflate)
    {
      ghost var here := client.State();
      var value := client.RecvValue(inflate);
      assert values + ([value] + Values(client.State(), |keys| - i - 1, inflate))
             == values + [value] + Values(client.State(), |keys| - i - 1, inflate);
      values := values + [value];
    }
  }
}
