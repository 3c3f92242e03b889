/**
  The one-line rendering of a command, and what can be read back from it: on Unix the program,
  the optional argv[0] and the arguments; on Windows the arguments.
*/
module CommandLine {
  import opened Wrappers
  import opened Environment
  import U = UnixQuote
  import W = WindowsQuote

  /** The command's own names, as decoded text. */
  datatype Parts = Parts(program: string, arg0: Option<string>, args: seq<string>)

  function Quoted(p: Platform, arg: string): string {
    if p.Unix? then U.Quoted(arg) else W.Quoted(arg)
  }

  function Tail(p: Platform, args: seq<string>): string {
    if args == [] then [] else Tail(p, args[..|args| - 1]) + ([' '] + Quoted(p, args[|args| - 1]))
  }

  const OPENING: string := "argv0="

  function Marker(p: Platform, arg0: Option<string>): string {
    if arg0.Some? then [' '] + (['['] + OPENING + Quoted(p, arg0.value) + [']']) else []
  }

  function Rendered(p: Platform, c: Parts): string {
    Quoted(p, c.program) + Marker(p, c.arg0) + Tail(p, c.args)
  }

  method QuoteArg(p: Platform, arg: string) returns (out: string)
    ensures out == Quoted(p, arg)
  {
    if p.Unix? {
      out := U.QuoteArg(arg);
    } else {
      out := W.QuoteArg(arg);
    }
  }

  method CommandLine(p: Platform, c: Parts) returns (line: string)
    ensures line == Rendered(p, c)
  {
    line := QuoteArg(p, c.program);
    if c.arg0.Some? {
      var shown := QuoteArg(p, c.arg0.value);
      line := line + ([' '] + (['['] + OPENING + shown + [']']));
    }
    ghost var head := line;
    for i := 0 to |c.args|
      invariant line == head + Tail(p, c.args[..i])
    {
      var shown := QuoteArg(p, c.args[i]);
      LineStep(p, head, c.args, i);
      line := line + ([' '] + shown);
    }
    assert c.args[..|c.args|] == c.args;
  }

  lemma LineStep(p: Platform, head: string, args: seq<string>, i: nat)
    requires i < |args|
    ensures (head + Tail(p, args[..i])) + ([' '] + Quoted(p, args[i])) == head + Tail(p, args[..i + 1])
  {
    assert args[..i + 1][..i] == args[..i];
    Associate(head, Tail(p, args[..i]), [' '] + Quoted(p, args[i]));
  }

  lemma Associate(a: string, b: string, c: string)
    ensures (a + b) + c == a + (b + c)
  {
  }

  // Windows: the arguments.

  /** Ending here, or at a space, gives exactly `args`. */
  predicate Ended(s: W.Scan, args: seq<string>) {
    !s.quoted && W.EndArg(W.Flush(s)) == W.Scan(args, [], false, false, 0, false)
  }

  lemma RunWindowsArg(s: W.Scan, args: seq<string>, arg: string)
    requires Ended(s, args)
    ensures Ended(W.Run(s, [' '] + W.Quoted(arg)), args + [arg])
  {
    W.RunAppend(s, [' '], W.Quoted(arg));
    W.RunOne(s, ' ');
    W.RunQuoted(args, arg);
  }

  lemma {:induction false} RunWindowsTail(args: seq<string>)
    ensures Ended(W.Run(W.START, Tail(Windows, args)), args)
  {
    if args != [] {
      var init, last := args[..|args| - 1], args[|args| - 1];
      RunWindowsTail(init);
      W.RunAppend(W.START, Tail(Windows, init), [' '] + W.Quoted(last));
      RunWindowsArg(W.Run(W.START, Tail(Windows, init)), init, last);
      assert init + [last] == args;
    }
  }

  /** Any arguments, empty ones and trailing backslashes included, are read back exactly. */
  lemma WindowsRoundTrip(args: seq<string>)
    ensures W.Parse(Tail(Windows, args)) == args
  {
    RunWindowsTail(args);
  }

  // Unix: the whole line.

  function Texts(words: seq<U.Word>): Option<seq<string>> {
    if words == [] then Some([])
    else
      var init := Texts(words[..|words| - 1]);
      if init.None? || words[|words| - 1].marked then None
      else Some(init.value + [words[|words| - 1].text])
  }

  /** Reads a rendered line: only its second word may be the bracketed argv[0]. */
  function Decode(line: string): Option<Parts> {
    var (words, closed) := U.Words(line);
    if !closed || words == [] || words[0].marked then None
    else if |words| > 1 && words[1].marked then
      var text := words[1].text;
      if |text| < |OPENING| + 2 then None
      else
        var args := Texts(words[2..]);
        if args.None? then None
        else Some(Parts(words[0].text, Some(text[1 + |OPENING|..|text| - 1]), args.value))
    else
      var args := Texts(words[1..]);
      if args.None? then None else Some(Parts(words[0].text, None, args.value))
  }

  function ArgWords(args: seq<string>): (r: seq<U.Word>)
    ensures |r| == |args|
  {
    if args == [] then [] else ArgWords(args[..|args| - 1]) + [U.Word(args[|args| - 1], false)]
  }

  function ArgvWords(arg0: Option<string>): seq<U.Word> {
    if arg0.Some? then [U.Word(['['] + OPENING + arg0.value + [']'], true)] else []
  }

  lemma {:induction false} TextsOf(args: seq<string>)
    ensures Texts(ArgWords(args)) == Some(args)
  {
    if args != [] {
      var init := args[..|args| - 1];
      TextsOf(init);
      assert ArgWords(args)[..|args| - 1] == ArgWords(init);
      assert init + [args[|args| - 1]] == args;
    }
  }

  /** A word has just been read whole: the next separator, or the end, yields exactly `words`. */
  ghost predicate Ends(s: U.Scan, words: seq<U.Word>) {
    s.mode.Plain? && s.inWord && s.words + [U.Word(s.text, s.marked)] == words
  }

  lemma RunSeparator(s: U.Scan, words: seq<U.Word>, rest: string)
    requires Ends(s, words)
    ensures U.Run(s, [' '] + rest) == U.Run(U.Scan(words, [], false, false, U.Plain), rest)
  {
  }

  lemma RunUnixWord(s: U.Scan, words: seq<U.Word>, arg: string)
    requires Ends(s, words)
    ensures Ends(U.Run(s, [' '] + U.Quoted(arg)), words + [U.Word(arg, false)])
  {
    RunSeparator(s, words, U.Quoted(arg));
    U.RunQuoted(U.Scan(words, [], false, false, U.Plain), arg);
    assert [] + arg == arg;
  }

  /** Reading an opening bracket, the name of the marker, one quoted argument and a closing bracket. */
  lemma RunBracketed(words: seq<U.Word>, arg0: string)
    ensures var s := U.Scan(words, [], false, false, U.Plain);
      U.Run(s, ['['] + (OPENING + (U.Quoted(arg0) + [']'])))
        == U.Scan(words, ['['] + OPENING + arg0 + [']'], true, true, U.Plain)
  {
    var blank := U.Scan(words, [], false, false, U.Plain);
    var rest := U.Quoted(arg0) + [']'];
    assert (['['] + (OPENING + rest))[1..] == OPENING + rest;
    var open := U.Step(blank, '[');
    assert open == U.Scan(words, ['['], true, true, U.Plain) by { assert [] + ['['] == ['[']; }
    U.RunAppend(open, OPENING, rest);
    U.RunBare(open, OPENING);
    var named := U.Grown(open, OPENING);
    U.RunAppend(named, U.Quoted(arg0), [']']);
    U.RunQuoted(named, arg0);
    RunClosing(U.Grown(named, arg0));
  }

  lemma RunClosing(s: U.Scan)
    requires s.mode.Plain? && s.inWord
    ensures U.Run(s, [']']) == s.(text := s.text + [']'])
  {
  }

  lemma RunMarker(s: U.Scan, words: seq<U.Word>, arg0: Option<string>)
    requires Ends(s, words)
    ensures Ends(U.Run(s, Marker(Unix, arg0)), words + ArgvWords(arg0))
  {
    if arg0.Some? {
      var name := U.Quoted(arg0.value);
      RunSeparator(s, words, ['['] + OPENING + name + [']']);
      assert ['['] + OPENING + name + [']'] == ['['] + (OPENING + (name + [']']));
      RunBracketed(words, arg0.value);
    } else {
      assert words + [] == words;
    }
  }

  lemma {:induction false} RunUnixTail(s: U.Scan, words: seq<U.Word>, args: seq<string>)
    requires Ends(s, words)
    ensures Ends(U.Run(s, Tail(Unix, args)), words + ArgWords(args))
  {
    if args == [] {
      assert words + [] == words;
    } else {
      var init, last := args[..|args| - 1], args[|args| - 1];
      RunUnixTail(s, words, init);
      U.RunAppend(s, Tail(Unix, init), [' '] + U.Quoted(last));
      RunUnixWord(U.Run(s, Tail(Unix, init)), words + ArgWords(init), last);
      assert words + ArgWords(init) + [U.Word(last, false)] == words + ArgWords(args);
    }
  }

  lemma UnixWords(c: Parts)
    ensures U.Words(Rendered(Unix, c)) == ([U.Word(c.program, false)] + ArgvWords(c.arg0) + ArgWords(c.args), true)
  {
    var head, marker, tail := U.Quoted(c.program), Marker(Unix, c.arg0), Tail(Unix, c.args);
    U.RunQuoted(U.START, c.program);
    assert [] + c.program == c.program;
    var words := [U.Word(c.program, false)];
    var s := U.Run(U.START, head);
    assert Ends(s, words);
    RunMarker(s, words, c.arg0);
    RunUnixTail(U.Run(s, marker), words + ArgvWords(c.arg0), c.args);
    U.RunAppend(U.START, head + marker, tail);
    U.RunAppend(U.START, head, marker);
  }

  /** The shell's quoting rules read every rendered command back. */
  lemma UnixRoundTrip(c: Parts)
    ensures Decode(Rendered(Unix, c)) == Some(c)
  {
    UnixWords(c);
    TextsOf(c.args);
    var (words, closed) := U.Words(Rendered(Unix, c));
    var rest := ArgWords(c.args);
    match c.arg0
    case Some(name) =>
      assert words[2..] == rest;
      var text := words[1].text;
      assert text[1 + |OPENING|..|text| - 1] == name;
    case None =>
      assert words[1..] == rest;
      assert |rest| > 0 ==> !rest[0].marked by { ArgWordsUnmarked(c.args); }
  }

  lemma {:induction false} ArgWordsUnmarked(args: seq<string>)
    ensures forall i | 0 <= i < |args| :: !ArgWords(args)[i].marked
  {
    if args != [] {
      ArgWordsUnmarked(args[..|args| - 1]);
    }
  }

  /** A rendering names one command: on Unix entirely, on Windows up to the program's own name. */
  lemma RenderingIsUnambiguous(a: Parts, b: Parts)
    ensures Rendered(Unix, a) == Rendered(Unix, b) <==> a == b
    ensures Tail(Windows, a.args) == Tail(Windows, b.args) <==> a.args == b.args
  {
    UnixRoundTrip(a);
    UnixRoundTrip(b);
    WindowsRoundTrip(a.args);
    WindowsRoundTrip(b.args);
  }

  // ---------------------------------------------------------------------------------------
  // The layout, in the examples the program documents

  lemma QuotedBlank(p: Platform, arg: string)
    requires exists i :: 0 <= i < |arg| && arg[i] == ' '
    requires forall i :: 0 <= i < |arg| ==> arg[i] != '\'' && arg[i] != '"' && arg[i] != '\\'
    ensures Quoted(p, arg) == if p.Unix? then ['\''] + arg + ['\''] else ['"'] + arg + ['"']
  {
    if p.Unix? {
      InsidePlain(arg);
      assert ['\''] + (arg + ['\'']) == ['\''] + arg + ['\''];
    } else {
      WindowsInsidePlain(arg);
      assert ['"'] + (arg + ['"']) == ['"'] + arg + ['"'];
    }
  }

  lemma {:induction false} InsidePlain(rest: string)
    requires forall i :: 0 <= i < |rest| ==> rest[i] != '\''
    ensures U.Inside(rest) == rest + ['\'']
  {
    if rest != [] {
      InsidePlain(rest[1..]);
      assert [rest[0]] + (rest[1..] + ['\'']) == rest + ['\''];
    }
  }

  lemma {:induction false} WindowsInsidePlain(rest: string)
    requires forall i :: 0 <= i < |rest| ==> rest[i] != '"' && rest[i] != '\\'
    ensures W.Inside(rest, 0) == rest + ['"']
  {
    assert W.Slashes(0) == [];
    if rest != [] {
      WindowsInsidePlain(rest[1..]);
      assert [rest[0]] + (rest[1..] + ['"']) == rest + ['"'];
    }
  }

  predicate Plain(p: Platform, word: string) {
    if p.Unix? then U.Bare(word) else !W.NeedsQuote(word)
  }

  /** As in `tool [argv0='login shell'] work`; on Windows with double quotes. */
  lemma RenderedLayout(p: Platform, program: string, name: string, arg: string)
    requires Plain(p, program) && Plain(p, arg)
    requires exists i :: 0 <= i < |name| && name[i] == ' '
    requires forall i :: 0 <= i < |name| ==> name[i] != '\'' && name[i] != '"' && name[i] != '\\'
    ensures var quote := if p.Unix? then ['\''] else ['"'];
      Rendered(p, Parts(program, Some(name), [arg]))
      == program + (" [argv0=" + (quote + name + quote) + "]") + (" " + arg)
  {
    QuotedBlank(p, name);
    MarkerLayout(p, name);
    assert [arg][..0] == [] && Tail(p, [arg]) == Tail(p, []) + ([' '] + arg);
    assert Tail(p, []) + ([' '] + arg) == [' '] + arg;
  }

  lemma MarkerLayout(p: Platform, name: string)
    ensures Marker(p, Some(name)) == " [argv0=" + Quoted(p, name) + "]"
  {
    assert [' '] + (['['] + OPENING) == " [argv0=";
    assert [' '] + (['['] + OPENING + Quoted(p, name) + [']']) == ([' '] + (['['] + OPENING)) + Quoted(p, name) + [']'];
  }
}
