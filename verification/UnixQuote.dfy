/**
  Quoting an argument for display with single quotes, and the shell rules that read it back:
  sections 2.2.1 (backslash) and 2.2.2 (single quotes) of the POSIX Shell Command Language,
  IEEE Std 1003.1.
*/
module UnixQuote {
  predicate Alphanumeric(c: char) {
    '0' <= c <= '9' || 'A' <= c <= 'Z' || 'a' <= c <= 'z'
  }

  predicate Safe(c: char) {
    Alphanumeric(c) || c in {'@', '%', '_', '+', '=', ':', ',', '.', '/', '-'}
  }

  predicate Bare(arg: string) {
    arg != [] && forall i | 0 <= i < |arg| :: Safe(arg[i])
  }

  /** What is still to be written when `rest` of a quoted argument remains. */
  function Inside(rest: string): string {
    if rest == [] then ['\'']
    else if rest[0] == '\'' then ['\'', '\\', '\'', '\''] + Inside(rest[1..])
    else [rest[0]] + Inside(rest[1..])
  }

  function Quoted(arg: string): string {
    if Bare(arg) then arg else ['\''] + Inside(arg)
  }

  /** By code point: what is printed as it stands. */
  predicate PrintedBare(c: char) {
    || 0x30 <= c as int <= 0x39 || 0x41 <= c as int <= 0x5a || 0x61 <= c as int <= 0x7a
    || c as int in {0x25, 0x2b, 0x2c, 0x2d, 0x2e, 0x2f, 0x3a, 0x3d, 0x40, 0x5f}
  }

  /** An argument is shown as it stands exactly if it is not empty and has only such characters. */
  lemma BareIff(arg: string)
    ensures Quoted(arg) == arg <==> arg != [] && forall i :: 0 <= i < |arg| ==> PrintedBare(arg[i])
  {
    forall c: char
      ensures Safe(c) <==> PrintedBare(c)
    {
    }
    if !Bare(arg) {
      InsideLonger(arg);
    }
  }

  lemma {:induction false} InsideLonger(rest: string)
    ensures |Inside(rest)| > |rest|
  {
    if rest != [] {
      InsideLonger(rest[1..]);
    }
  }

  method QuoteArg(arg: string) returns (out: string)
    ensures out == Quoted(arg)
  {
    var safe := arg != [];
    var i := 0;
    while safe && i < |arg|
      invariant 0 <= i <= |arg|
      invariant safe ==> arg != [] && forall j | 0 <= j < i :: Safe(arg[j])
      invariant !safe ==> !Bare(arg)
    {
      safe := Safe(arg[i]);
      i := i + 1;
    }
    if safe {
      return arg;
    }
    out := ['\''];
    for i := 0 to |arg|
      invariant out + Inside(arg[i..]) == ['\''] + Inside(arg)
    {
      var ch := arg[i];
      InsideStep(out, arg, i);
      if ch == '\'' {
        out := out + ['\'', '\\', '\'', '\''];
      } else {
        out := out + [ch];
      }
    }
    out := out + ['\''];
  }

  lemma InsideStep(out: string, arg: string, i: nat)
    requires i < |arg|
    ensures var piece := if arg[i] == '\'' then ['\'', '\\', '\'', '\''] else [arg[i]];
      (out + piece) + Inside(arg[i + 1..]) == out + Inside(arg[i..])
  {
  }

  // The reader.

  /** One word as read. `marked`: it began with a bracket that was not quoted. */
  datatype Word = Word(text: string, marked: bool)

  /**
    Characters that the shell does not leave literal outside quotes: operators, expansions,
    double quotes, patterns, comments, reserved words and the end of the line (sections 2.2,
    2.3, 2.4 and 2.13 of the same chapter). Backslash, apostrophe, blanks and brackets have their
    own rules below.
  */
  predicate Active(c: char) {
    c in {'|', '&', ';', '<', '>', '(', ')', '$', '`', '"', '*', '?', '#', '~', '{', '}', '!', '\n'}
  }

  datatype Mode = Plain | Single | Escape | Stuck

  datatype Scan = Scan(words: seq<Word>, text: string, inWord: bool, marked: bool, mode: Mode)

  const START := Scan([], [], false, false, Plain)

  function Put(s: Scan, c: char): Scan {
    s.(text := s.text + [c], inWord := true, mode := if s.mode.Single? then Single else Plain)
  }

  function EndWord(s: Scan): Scan {
    if s.inWord then Scan(s.words + [Word(s.text, s.marked)], [], false, false, Plain) else s
  }

  /** Whatever else the shell would act on stops the reader. */
  function StepPlain(s: Scan, c: char): Scan {
    if c == '\'' then s.(inWord := true, mode := Single)
    else if c == '\\' then s.(mode := Escape)
    else if c == ' ' || c == '\t' then EndWord(s)
    else if c == '[' then Put(s.(marked := s.marked || !s.inWord), c)
    else if Active(c) then s.(mode := Stuck)
    else Put(s, c)
  }

  function Step(s: Scan, c: char): Scan {
    match s.mode
    case Plain => StepPlain(s, c)
    case Single => if c == '\'' then s.(mode := Plain) else Put(s, c)
    case Escape => if c == '\n' then s.(mode := Plain) else Put(s, c)
    case Stuck => s
  }

  function Run(s: Scan, input: string): Scan
    decreases |input|
  {
    if input == [] then s else Run(Step(s, input[0]), input[1..])
  }

  /** The words of a line, if it stays within the two sections and closes its quotes. */
  function Words(line: string): (seq<Word>, bool) {
    var s := EndWord(Run(START, line));
    (s.words, s.mode.Plain?)
  }

  lemma {:induction false} RunAppend(s: Scan, a: string, b: string)
    ensures Run(s, a + b) == Run(Run(s, a), b)
    decreases |a|
  {
    if a == [] {
      assert a + b == b;
    } else {
      assert (a + b)[1..] == a[1..] + b;
      RunAppend(Step(s, a[0]), a[1..], b);
    }
  }

  /** What reading a whole quoted argument does to the word being read. */
  function Grown(s: Scan, arg: string): Scan {
    s.(text := s.text + arg, inWord := true)
  }

  lemma {:induction false} RunBare(s: Scan, arg: string)
    requires s.mode.Plain? && forall i | 0 <= i < |arg| :: Safe(arg[i])
    ensures Run(s, arg) == if arg == [] then s else Grown(s, arg)
    decreases |arg|
  {
    if arg != [] {
      RunBare(Step(s, arg[0]), arg[1..]);
      assert s.text + [arg[0]] + arg[1..] == s.text + arg;
    }
  }

  lemma {:induction false} RunInside(s: Scan, rest: string)
    requires s.mode.Single? && s.inWord
    ensures Run(s, Inside(rest)) == Grown(s, rest).(mode := Plain)
    decreases |rest|
  {
    if rest == [] {
      assert Run(s, ['\'']) == Run(Step(s, '\''), []);
    } else {
      var tail := Inside(rest[1..]);
      assert s.text + [rest[0]] + rest[1..] == s.text + rest;
      if rest[0] == '\'' {
        var piece := ['\'', '\\', '\'', '\''];
        RunAppend(s, piece, tail);
        RunApostrophe(s);
      } else {
        RunAppend(s, [rest[0]], tail);
        assert Run(s, [rest[0]]) == Run(Step(s, rest[0]), []);
      }
      RunInside(Put(s, rest[0]), rest[1..]);
    }
  }

  lemma RunApostrophe(s: Scan)
    requires s.mode.Single? && s.inWord
    ensures Run(s, ['\'', '\\', '\'', '\'']) == Put(s, '\'')
  {
  }

  /** Reading a quoted argument appends exactly that argument, wherever in a word it stands. */
  lemma RunQuoted(s: Scan, arg: string)
    requires s.mode.Plain?
    ensures Run(s, Quoted(arg)) == Grown(s, arg)
  {
    if Bare(arg) {
      RunBare(s, arg);
    } else {
      RunAppend(s, ['\''], Inside(arg));
      assert Run(s, ['\'']) == Run(Step(s, '\''), []);
      RunInside(Step(s, '\''), arg);
    }
  }
}
