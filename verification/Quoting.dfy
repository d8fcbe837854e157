/** Arguments on a Windows command line, and how CommandLineToArgvW takes them apart again. */
module Quoting {

  function Slashes(n: nat): (r: string)
    ensures |r| == n && forall i :: 0 <= i < n ==> r[i] == '\\'
  {
    seq(n, _ => '\\')
  }

  // ---------------------------------------------------------------- putting together

  /** An argument and the closing quote, after so many backslashes that are not written yet. */
  function Body(arg: string, slashes: nat): string
    decreases |arg|
  {
    if arg == "" then Slashes(slashes * 2) + "\""
    else if arg[0] == '\\' then Body(arg[1..], slashes + 1)
    else Slashes(if arg[0] == '"' then slashes * 2 + 1 else slashes) + [arg[0]] + Body(arg[1..], 0)
  }

  function Quoted(arg: string): string { " \"" + Body(arg, 0) }

  method AppendArg(start: string, arg: string) returns (line: string)
    ensures line == start + Quoted(arg)
  {
    hide Slashes;
    line := start + " \"";
    ghost var before := line;
    var slashes := 0;
    assert arg[0..] == arg;
    for i := 0 to |arg|
      invariant slashes >= 0
      invariant line + Body(arg[i..], slashes) == before + Body(arg, 0)
    {
      var c := arg[i];
      assert arg[i..][1..] == arg[i + 1..];
      if c == '\\' {
        slashes := slashes + 1;
      } else {
        var run := Slashes(if c == '"' then slashes * 2 + 1 else slashes);
        ghost var rest := Body(arg[i + 1..], 0);
        assert line + (run + [c] + rest) == line + run + [c] + rest;
        line := line + run;
        line := line + [c];
        slashes := 0;
      }
    }
    assert arg[|arg|..] == "";
    assert line + (Slashes(slashes * 2) + "\"") == line + Slashes(slashes * 2) + "\"";
    line := line + Slashes(slashes * 2);
    line := line + "\"";
    assert before + Body(arg, 0) == start + (" \"" + Body(arg, 0));
  }

  /** A whole tail of arguments. */
  function Tail(args: seq<string>): string {
    if args == [] then "" else Quoted(args[0]) + Tail(args[1..])
  }

  // ---------------------------------------------------------------- taking apart

  predicate Blank(c: char) { c == ' ' || c == '\t' }

  /** How many backslashes a text begins with. */
  function Run(t: string): (n: nat)
    ensures n <= |t| && (forall i :: 0 <= i < n ==> t[i] == '\\') && (n < |t| ==> t[n] != '\\')
  {
    if t == "" || t[0] != '\\' then 0 else 1 + Run(t[1..])
  }

  /** One argument, which goes on from acc, and what follows it: 2n backslashes before a quote are n and the quote
      opens or closes, 2n + 1 are n and a quote of the argument, others are themselves; blanks end an argument
      outside quotes. */
  function Argument(t: string, quoted: bool, acc: string): (string, string)
    decreases |t|
  {
    var n := Run(t);
    if t == "" then (acc, "")
    else if n > 0 then
      if n < |t| && t[n] == '"' then
        if n % 2 == 0 then Argument(t[n + 1..], !quoted, acc + Slashes(n / 2))
        else Argument(t[n + 1..], quoted, acc + Slashes(n / 2) + "\"")
      else Argument(t[n..], quoted, acc + Slashes(n))
    else if t[0] == '"' then Argument(t[1..], !quoted, acc)
    else if !quoted && Blank(t[0]) then (acc, t)
    else Argument(t[1..], quoted, acc + [t[0]])
  }

  lemma {:induction false} ArgumentShrinks(t: string, quoted: bool, acc: string)
    ensures |Argument(t, quoted, acc).1| <= |t|
    ensures t != "" && !Blank(t[0]) ==> |Argument(t, quoted, acc).1| < |t|
    decreases |t|
  {
    hide Slashes;
    var n := Run(t);
    if t == "" {
    } else if n > 0 {
      if n < |t| && t[n] == '"' {
        if n % 2 == 0 {
          ArgumentShrinks(t[n + 1..], !quoted, acc + Slashes(n / 2));
        } else {
          ArgumentShrinks(t[n + 1..], quoted, acc + Slashes(n / 2) + "\"");
        }
      } else {
        ArgumentShrinks(t[n..], quoted, acc + Slashes(n));
      }
    } else if t[0] == '"' {
      ArgumentShrinks(t[1..], !quoted, acc);
    } else if quoted || !Blank(t[0]) {
      ArgumentShrinks(t[1..], quoted, acc + [t[0]]);
    }
  }

  function Arguments(t: string): seq<string>
    decreases |t|
  {
    if t == "" then []
    else if Blank(t[0]) then Arguments(t[1..])
    else
      ArgumentShrinks(t, false, "");
      var (arg, rest) := Argument(t, false, "");
      [arg] + Arguments(rest)
  }

  // ---------------------------------------------------------------- the one undoes the other

  lemma {:induction false} RunOf(n: nat, rest: string)
    requires rest == "" || rest[0] != '\\'
    ensures Run(Slashes(n) + rest) == n
    decreases n
  {
    hide Run;
    var t := Slashes(n) + rest;
    assert forall i :: 0 <= i < n ==> t[i] == '\\';
    assert n < |t| ==> t[n] == rest[0];
  }

  predicate Ended(rest: string) { rest == "" || Blank(rest[0]) }

  lemma AfterQuote(rest: string, acc: string)
    requires Ended(rest)
    ensures Argument(rest, false, acc) == (acc, rest)
  {
    if rest != "" { assert Run(rest) == 0; }
  }

  /** Backslashes and a quote. */
  lemma AtQuote(n: nat, rest: string, quoted: bool, acc: string)
    ensures Argument(Slashes(n) + ("\"" + rest), quoted, acc)
            == if n % 2 == 0 then Argument(rest, !quoted, acc + Slashes(n / 2))
               else Argument(rest, quoted, acc + Slashes(n / 2) + "\"")
  {
    var t := Slashes(n) + ("\"" + rest);
    RunOf(n, "\"" + rest);
    hide Run;
    assert t[n] == '"' && t[n + 1..] == rest;
    if n == 0 {
      assert t == "\"" + rest;
      assert acc + Slashes(0) == acc;
    }
  }

  /** Backslashes and another character, inside quotes. */
  lemma AtOther(n: nat, c: char, rest: string, acc: string)
    requires c != '"' && c != '\\'
    ensures Argument(Slashes(n) + ([c] + rest), true, acc) == Argument(rest, true, acc + Slashes(n) + [c])
  {
    var u := [c] + rest;
    var t := Slashes(n) + u;
    RunOf(n, u);
    RunOf(0, u);
    assert Slashes(0) + u == u && u[1..] == rest;
    hide Run;
    if n == 0 {
      assert t == u && acc + Slashes(0) == acc;
    } else {
      assert t[n..] == u;
    }
  }

  lemma {:induction false} BodyUndone(arg: string, s: nat, rest: string, acc: string)
    requires Ended(rest)
    ensures Argument(Body(arg, s) + rest, true, acc) == (acc + Slashes(s) + arg, rest)
    decreases |arg|
  {
    hide Argument, Run;
    if arg == "" {
      assert Body(arg, s) + rest == Slashes(s * 2) + ("\"" + rest);
      AtQuote(s * 2, rest, true, acc);
      AfterQuote(rest, acc + Slashes(s));
      assert acc + Slashes(s) + "" == acc + Slashes(s);
    } else if arg[0] == '\\' {
      BodyUndone(arg[1..], s + 1, rest, acc);
      assert acc + Slashes(s + 1) + arg[1..] == acc + Slashes(s) + arg;
    } else if arg[0] == '"' {
      var more := Body(arg[1..], 0) + rest;
      var next := acc + Slashes(s) + "\"";
      assert Body(arg, s) + rest == Slashes(s * 2 + 1) + ("\"" + more);
      AtQuote(s * 2 + 1, more, true, acc);
      BodyUndone(arg[1..], 0, rest, next);
      assert next + Slashes(0) + arg[1..] == acc + Slashes(s) + arg;
    } else {
      var more := Body(arg[1..], 0) + rest;
      var next := acc + Slashes(s) + [arg[0]];
      assert Body(arg, s) + rest == Slashes(s) + ([arg[0]] + more);
      AtOther(s, arg[0], more, acc);
      BodyUndone(arg[1..], 0, rest, next);
      assert next + Slashes(0) + arg[1..] == acc + Slashes(s) + arg;
    }
  }

  lemma TailEnds(args: seq<string>)
    ensures Ended(Tail(args))
  {
  }

  /** Every list of arguments comes back as it was: empty ones, blanks, quotes and backslashes included. */
  lemma {:induction false} RoundTrip(args: seq<string>)
    ensures Arguments(Tail(args)) == args
    decreases |args|
  {
    if args != [] {
      var arg, rest := args[0], Tail(args[1..]);
      hide Argument, Run, Body;
      var t := "\"" + (Body(arg, 0) + rest);
      assert Tail(args) == " " + t;
      assert Arguments(" " + t) == Arguments(t) by { assert (" " + t)[1..] == t; }
      TailEnds(args[1..]);
      assert Slashes(0) + t == t;
      AtQuote(0, Body(arg, 0) + rest, false, "");
      assert "" + Slashes(0) == "";
      BodyUndone(arg, 0, rest, "");
      assert "" + Slashes(0) + arg == arg;
      RoundTrip(args[1..]);
      assert args == [arg] + args[1..];
    }
  }
}
