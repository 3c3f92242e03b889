/**
  Quoting an argument for display with double quotes, and the backslash rules of
  CommandLineToArgvW that read the arguments after the program name back.
*/
module WindowsQuote {
  /** The Unicode White_Space property. */
  predicate IsWhitespace(c: char) {
    || 0x9 <= c as int <= 0xD || 0x2000 <= c as int <= 0x200A
    || c as int in {0x20, 0x85, 0xA0, 0x1680, 0x2028, 0x2029, 0x202F, 0x205F, 0x3000}
  }

  predicate Special(c: char) {
    IsWhitespace(c) || c in {'"', '^', '&', '|', '<', '>', '%'}
  }

  predicate NeedsQuote(arg: string) {
    arg == [] || exists i | 0 <= i < |arg| :: Special(arg[i])
  }

  function Slashes(n: nat): (r: string)
    ensures |r| == n
  {
    if n == 0 then [] else Slashes(n - 1) + ['\\']
  }

  /** By code point: blanks of any script, the double quote, and what the command interpreter acts on. */
  predicate ForcesQuotes(c: char) {
    var n := c as int;
    || n in {0x09, 0x0a, 0x0b, 0x0c, 0x0d, 0x20, 0x85, 0xa0, 0x1680, 0x2028, 0x2029, 0x202f, 0x205f, 0x3000}
    || 0x2000 <= n <= 0x200a
    || n in {0x22, 0x25, 0x26, 0x3c, 0x3e, 0x5e, 0x7c}
  }

  /** An argument is shown as it stands exactly if it is not empty and has no such character. */
  lemma BareIff(arg: string)
    ensures Quoted(arg) == arg <==> arg != [] && forall i :: 0 <= i < |arg| ==> !ForcesQuotes(arg[i])
  {
    forall c: char
      ensures Special(c) <==> ForcesQuotes(c)
    {
    }
    if NeedsQuote(arg) {
      InsideLonger(arg, 0);
    }
  }

  lemma {:induction false} InsideLonger(rest: string, pending: nat)
    ensures |Inside(rest, pending)| > |rest| + pending
    decreases |rest|
  {
    if rest != [] {
      InsideLonger(rest[1..], if rest[0] == '\\' then pending + 1 else 0);
    }
  }

  /** What is still to be written when `rest` remains and `pending` backslashes are held back. */
  function Inside(rest: string, pending: nat): string {
    if rest == [] then Slashes(2 * pending) + ['"']
    else if rest[0] == '\\' then Inside(rest[1..], pending + 1)
    else if rest[0] == '"' then Slashes(2 * pending + 1) + ['"'] + Inside(rest[1..], 0)
    else Slashes(pending) + [rest[0]] + Inside(rest[1..], 0)
  }

  function Quoted(arg: string): string {
    if NeedsQuote(arg) then ['"'] + Inside(arg, 0) else arg
  }

  method PushSlashes(out: string, n: nat) returns (r: string)
    ensures r == out + Slashes(n)
  {
    r := out;
    for i := 0 to n
      invariant r == out + Slashes(i)
    {
      r := r + ['\\'];
    }
  }

  method QuoteArg(arg: string) returns (out: string)
    ensures out == Quoted(arg)
  {
    var needsQuote := arg == [];
    var i := 0;
    while !needsQuote && i < |arg|
      invariant 0 <= i <= |arg|
      invariant needsQuote ==> NeedsQuote(arg)
      invariant !needsQuote ==> arg != [] && forall j | 0 <= j < i :: !Special(arg[j])
    {
      needsQuote := Special(arg[i]);
      i := i + 1;
    }
    if !needsQuote {
      return arg;
    }
    out := ['"'];
    var backslashes := 0;
    for i := 0 to |arg|
      invariant out + Inside(arg[i..], backslashes) == ['"'] + Inside(arg, 0)
    {
      var ch := arg[i];
      InsideStep(out, arg, i, backslashes);
      if ch == '\\' {
        backslashes := backslashes + 1;
      } else if ch == '"' {
        out := PushSlashes(out, backslashes * 2 + 1);
        out := out + ['"'];
        backslashes := 0;
      } else {
        out := PushSlashes(out, backslashes);
        out := out + [ch];
        backslashes := 0;
      }
    }
    ghost var before := out;
    out := PushSlashes(out, backslashes * 2);
    out := out + ['"'];
    assert out == before + Inside([], backslashes);
  }

  lemma InsideStep(out: string, arg: string, i: nat, pending: nat)
    requires i < |arg|
    ensures var rest := Inside(arg[i..], pending);
      && (arg[i] == '\\' ==> rest == Inside(arg[i + 1..], pending + 1))
      && (arg[i] == '"' ==> out + Slashes(2 * pending + 1) + ['"'] + Inside(arg[i + 1..], 0) == out + rest)
      && (arg[i] != '\\' && arg[i] != '"' ==> out + Slashes(pending) + [arg[i]] + Inside(arg[i + 1..], 0) == out + rest)
  {
  }

  // The reader.

  /** `closed`: the character before closed a quoted part. */
  datatype Scan = Scan(args: seq<string>, text: string, inArg: bool, quoted: bool, pending: nat, closed: bool)

  const START := Scan([], [], false, false, 0, false)

  function EndArg(s: Scan): Scan {
    if s.inArg then s.(args := s.args + [s.text], text := [], inArg := false) else s
  }

  /** A run of backslashes that no quote follows stands for itself. */
  function Flush(s: Scan): Scan {
    s.(text := s.text + Slashes(s.pending), pending := 0, closed := false)
  }

  /**
    2k backslashes before a quote are k backslashes and a toggle; one more makes the quote
    literal. A quote right after a closing one is literal too, and the quoted part goes on.
  */
  function Quote(s: Scan): Scan {
    var half := s.(text := s.text + Slashes(s.pending / 2), pending := 0, inArg := true, closed := false);
    if s.pending % 2 == 1 then half.(text := half.text + ['"'])
    else if s.closed then half.(text := half.text + ['"'], quoted := true)
    else half.(quoted := !s.quoted, closed := s.quoted)
  }

  function Step(s: Scan, c: char): Scan {
    if c == '\\' then s.(pending := s.pending + 1, inArg := true, closed := false)
    else if c == '"' then Quote(s)
    else if (c == ' ' || c == '\t') && !s.quoted then EndArg(Flush(s))
    else
      var f := Flush(s);
      f.(text := f.text + [c], inArg := true)
  }

  function Run(s: Scan, input: string): Scan
    decreases |input|
  {
    if input == [] then s else Run(Step(s, input[0]), input[1..])
  }

  function Parse(line: string): seq<string> {
    EndArg(Flush(Run(START, line))).args
  }

  lemma {:induction false} RunAppend(s: Scan, a: string, b: string)
    ensures Run(s, a + b) == Run(Run(s, a), b)
    decreases |a|
  {
    if a == [] {
      assert a + b == b;
    } else {
      assert (a + b)[1..] == a[1..] + b;
      RunAppend(Step(s, a[0]), a[1..], b);
    }
  }

  lemma RunOne(s: Scan, c: char)
    ensures Run(s, [c]) == Step(s, c)
  {
  }

  lemma {:induction false} RunSlashes(s: Scan, n: nat)
    ensures Run(s, Slashes(n)) == s.(pending := s.pending + n, inArg := s.inArg || n > 0, closed := s.closed && n == 0)
  {
    if n > 0 {
      RunAppend(s, Slashes(n - 1), ['\\']);
      RunSlashes(s, n - 1);
      RunOne(Run(s, Slashes(n - 1)), '\\');
    }
  }

  /** A run of backslashes, then one more character. */
  lemma RunPiece(s: Scan, n: nat, c: char, rest: string)
    ensures Run(s, Slashes(n) + [c] + rest) == Run(Step(Run(s, Slashes(n)), c), rest)
  {
    RunAppend(s, Slashes(n) + [c], rest);
    RunAppend(s, Slashes(n), [c]);
    RunOne(Run(s, Slashes(n)), c);
  }

  /** Twice k backslashes and the closing quote. */
  lemma RunClosing(s: Scan, k: nat)
    requires s.quoted && s.inArg && s.pending == 0 && !s.closed
    ensures Run(s, Slashes(2 * k) + ['"']) == s.(text := s.text + Slashes(k), quoted := false, closed := true)
  {
    RunPiece(s, 2 * k, '"', []);
    RunSlashes(s, 2 * k);
    assert Slashes(2 * k) + ['"'] + [] == Slashes(2 * k) + ['"'];
  }

  /** An escaped quote, with k backslashes before it. */
  lemma RunEscaped(s: Scan, k: nat, rest: string)
    requires s.quoted && s.inArg && s.pending == 0 && !s.closed
    ensures Run(s, Slashes(2 * k + 1) + ['"'] + rest) == Run(s.(text := s.text + Slashes(k) + ['"']), rest)
  {
    RunPiece(s, 2 * k + 1, '"', rest);
    RunSlashes(s, 2 * k + 1);
  }

  /** Any other character, with k backslashes before it. */
  lemma RunPlain(s: Scan, k: nat, c: char, rest: string)
    requires s.quoted && s.inArg && s.pending == 0 && !s.closed && c != '\\' && c != '"'
    ensures Run(s, Slashes(k) + [c] + rest) == Run(s.(text := s.text + Slashes(k) + [c]), rest)
  {
    RunPiece(s, k, c, rest);
    RunSlashes(s, k);
  }

  /** Reading the inside of a quoted argument gives back the held backslashes and the rest. */
  lemma {:induction false} RunInside(s: Scan, rest: string, pending: nat)
    requires s.quoted && s.inArg && s.pending == 0 && !s.closed
    ensures Run(s, Inside(rest, pending)) == s.(text := s.text + Slashes(pending) + rest, quoted := false, closed := true)
    decreases |rest|
  {
    var held := s.text + Slashes(pending);
    if rest == [] {
      RunClosing(s, pending);
      assert held + rest == held;
    } else {
      var c, tail := rest[0], rest[1..];
      var next := s.(text := held + [c]);
      assert held + [c] + tail == held + rest;
      if c == '\\' {
        RunInside(s, tail, pending + 1);
        assert s.text + Slashes(pending + 1) == held + [c];
      } else {
        if c == '"' {
          RunEscaped(s, pending, Inside(tail, 0));
        } else {
          RunPlain(s, pending, c, Inside(tail, 0));
        }
        RunInside(next, tail, 0);
        assert next.text + Slashes(0) == next.text;
      }
    }
  }

  /** Between arguments: `arg` has been read and a separator or the end will complete it. */
  predicate Holding(s: Scan, args: seq<string>, arg: string) {
    s.args == args && s.inArg && !s.quoted && s.text + Slashes(s.pending) == arg
  }

  lemma {:induction false} RunBare(s: Scan, done: string, rest: string)
    requires !s.quoted && s.text + Slashes(s.pending) == done
    requires forall i | 0 <= i < |rest| :: !Special(rest[i])
    ensures var r := Run(s, rest);
      && r.args == s.args && !r.quoted && r.text + Slashes(r.pending) == done + rest
      && (s.inArg || rest != [] ==> r.inArg)
    decreases |rest|
  {
    if rest == [] {
      assert done + rest == done;
    } else {
      assert done + [rest[0]] + rest[1..] == done + rest;
      assert s.text + Slashes(s.pending + 1) == done + ['\\'];
      assert (done + [rest[0]]) + Slashes(0) == done + [rest[0]];
      RunBare(Step(s, rest[0]), done + [rest[0]], rest[1..]);
    }
  }

  lemma RunQuoted(args: seq<string>, arg: string)
    ensures Holding(Run(Scan(args, [], false, false, 0, false), Quoted(arg)), args, arg)
  {
    var s := Scan(args, [], false, false, 0, false);
    if NeedsQuote(arg) {
      RunAppend(s, ['"'], Inside(arg, 0));
      RunOne(s, '"');
      RunInside(Step(s, '"'), arg, 0);
    } else {
      RunBare(s, [], arg);
    }
  }
}
