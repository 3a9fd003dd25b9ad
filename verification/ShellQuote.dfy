/**
  Command rendering of scripts/export_preliminary_contest_case_scripts.py: the
  words a POSIX shell reads from space-joined `sh_quote` output.
*/
module ShellQuote {
  import opened Common

  // --- the renderer ---

  function Quoted(c: char): string {
    if c == '\'' then "'\"'\"'" else [c]
  }

  /** `value.replace("'", ...)` */
  function Escaped(value: string): string {
    if value == [] then [] else Quoted(value[0]) + Escaped(value[1..])
  }

  function ShQuote(value: string): string {
    "'" + Escaped(value) + "'"
  }

  /** `" ".join(sh_quote(arg) for arg in args)` */
  function Render(args: seq<string>): string {
    if args == [] then []
    else if |args| == 1 then ShQuote(args[0])
    else Render(args[..|args| - 1]) + " " + ShQuote(args[|args| - 1])
  }

  /** `ltp_static_command_args`: a bare program name is run from the current directory. */
  function StaticArgs(argv: seq<string>): seq<string>
    requires argv != []
  {
    [if '/' in argv[0] then argv[0] else "./" + argv[0]] + argv[1..]
  }

  // --- the shell's reader: sections 2.2 and 2.3 of the POSIX Shell Command Language ---

  datatype Mode = Blank | Plain | Escape | Single | Double | DoubleEscape

  /** Reading stops at anything other than plain words: an operator, an expansion, a comment, a NUL. */
  datatype Reader = Reader(mode: Mode, word: string, words: seq<string>) | Stopped

  predicate Special(c: char) {
    c in {'|', '&', ';', '<', '>', '(', ')', '$', '`', '*', '?', '[', '#', '~', '%', '\n'}
  }

  function ReadPlain(word: string, words: seq<string>, c: char): Reader {
    if c == '\'' then Reader(Single, word, words)
    else if c == '"' then Reader(Double, word, words)
    else if c == '\\' then Reader(Escape, word, words)
    else if Special(c) then Stopped
    else Reader(Plain, word + [c], words)
  }

  function Step(r: Reader, c: char): Reader {
    if r.Stopped? || c == '\0' then Stopped
    else
      match r.mode
      case Blank => if c == ' ' || c == '\t' then r else ReadPlain([], r.words, c)
      case Plain => if c == ' ' || c == '\t' then Reader(Blank, [], r.words + [r.word]) else ReadPlain(r.word, r.words, c)
      case Escape => if c == '\n' then r.(mode := Plain) else Reader(Plain, r.word + [c], r.words)
      case Single => if c == '\'' then r.(mode := Plain) else r.(word := r.word + [c])
      case Double =>
        if c == '"' then r.(mode := Plain)
        else if c == '\\' then r.(mode := DoubleEscape)
        else if c == '$' || c == '`' then Stopped
        else r.(word := r.word + [c])
      case DoubleEscape =>
        if c == '\n' then r.(mode := Double)
        else if c in {'$', '`', '"', '\\'} then Reader(Double, r.word + [c], r.words)
        else Reader(Double, r.word + ['\\', c], r.words)
  }

  function Run(r: Reader, s: string): Reader
    decreases |s|
  {
    if s == [] then r else Run(Step(r, s[0]), s[1..])
  }

  /** The words of a simple command, or nothing when the text is not made of plain complete words. */
  function Words(s: string): Option<seq<string>> {
    match Run(Reader(Blank, [], []), s)
    case Reader(Blank, _, words) => Some(words)
    case Reader(Plain, word, words) => Some(words + [word])
    case _ => None
  }

  // --- round trip ---

  lemma {:induction false} RunJoin(r: Reader, a: string, b: string)
    ensures Run(r, a + b) == Run(Run(r, a), b)
    decreases |a|
  {
    hide Step;
    if a == [] {
      assert a + b == b;
    } else {
      assert (a + b)[1..] == a[1..] + b;
      RunJoin(Step(r, a[0]), a[1..], b);
    }
  }

  lemma RunOne(r: Reader, c: char)
    ensures Run(r, [c]) == Step(r, c)
  {
    hide Step;
    assert [c][1..] == [];
  }

  predicate NulFree(s: string) { '\0' !in s }

  /** Inside single quotes an escaped character reads as itself. */
  lemma QuotedReads(word: string, words: seq<string>, c: char)
    requires c != '\0'
    ensures Run(Reader(Single, word, words), Quoted(c)) == Reader(Single, word + [c], words)
  {
    var r := Reader(Single, word, words);
    if c == '\'' {
      var closed, open, inside := r.(mode := Plain), r.(mode := Double), Reader(Double, word + [c], words);
      RunOne(r, '\'');
      RunOne(closed, '"');
      RunOne(open, '\'');
      RunOne(inside, '"');
      RunOne(inside.(mode := Plain), '\'');
      RunJoin(r, "'", "\"");
      RunJoin(r, "'\"", "'");
      RunJoin(r, "'\"'", "\"");
      RunJoin(r, "'\"'\"", "'");
      assert Quoted(c) == "'\"'\"" + "'";
    } else {
      RunOne(r, c);
    }
  }

  lemma {:induction false} EscapedReads(word: string, words: seq<string>, value: string)
    requires NulFree(value)
    ensures Run(Reader(Single, word, words), Escaped(value)) == Reader(Single, word + value, words)
    decreases |value|
  {
    hide Step, Quoted;
    if value == [] {
      assert word + value == word;
    } else {
      QuotedReads(word, words, value[0]);
      EscapedReads(word + [value[0]], words, value[1..]);
      RunJoin(Reader(Single, word, words), Quoted(value[0]), Escaped(value[1..]));
      assert word + [value[0]] + value[1..] == word + value;
    }
  }

  lemma QuoteReads(words: seq<string>, value: string)
    requires NulFree(value)
    ensures Run(Reader(Blank, [], words), ShQuote(value)) == Reader(Plain, value, words)
  {
    hide Escaped;
    var start := Reader(Blank, [], words);
    RunOne(start, '\'');
    EscapedReads([], words, value);
    RunJoin(start, "'", Escaped(value));
    RunJoin(start, "'" + Escaped(value), "'");
    assert [] + value == value;
    RunOne(Reader(Single, value, words), '\'');
  }

  lemma {:induction false} RenderReads(args: seq<string>)
    requires args != [] && forall a | a in args :: NulFree(a)
    ensures Run(Reader(Blank, [], []), Render(args)) == Reader(Plain, args[|args| - 1], args[..|args| - 1])
    decreases |args|
  {
    hide Step, ShQuote;
    var start := Reader(Blank, [], []);
    var front, last := args[..|args| - 1], args[|args| - 1];
    QuoteReads(front, last);
    if |args| == 1 {
      assert front == [];
    } else {
      RenderReads(front);
      RunJoin(start, Render(front), " ");
      SpaceEndsWord(front[|front| - 1], front[..|front| - 1]);
      assert front[..|front| - 1] + [front[|front| - 1]] == front;
      RunJoin(start, Render(front) + " ", ShQuote(last));
    }
  }

  lemma SpaceEndsWord(word: string, words: seq<string>)
    ensures Run(Reader(Plain, word, words), " ") == Reader(Blank, [], words + [word])
  {
    RunOne(Reader(Plain, word, words), ' ');
  }

  lemma {:induction false} StoppedStays(s: string)
    ensures Run(Stopped, s) == Stopped
    decreases |s|
  {
    if s != [] { StoppedStays(s[1..]); }
  }

  lemma {:induction false} NulStops(r: Reader, s: string)
    requires !NulFree(s)
    ensures Run(r, s) == Stopped
    decreases |s|
  {
    if s[0] == '\0' {
      StoppedStays(s[1..]);
    } else {
      assert '\0' in s[1..];
      NulStops(Step(r, s[0]), s[1..]);
    }
  }

  lemma {:induction false} EscapedKeepsNul(value: string)
    requires !NulFree(value)
    ensures !NulFree(ShQuote(value)) && '\0' in Escaped(value)
    decreases |value|
  {
    if value[0] != '\0' {
      assert '\0' in value[1..];
      EscapedKeepsNul(value[1..]);
    } else {
      assert Quoted(value[0])[0] == '\0';
    }
  }

  lemma {:induction false} RenderKeepsNul(args: seq<string>, i: nat)
    requires i < |args| && !NulFree(args[i])
    ensures !NulFree(Render(args))
    decreases |args|
  {
    hide ShQuote;
    EscapedKeepsNul(args[i]);
    if |args| > 1 && i < |args| - 1 { RenderKeepsNul(args[..|args| - 1], i); }
  }

  /** A shell reads back exactly the rendered list, if and only if no argument holds a NUL. */
  lemma RoundTrip(args: seq<string>)
    ensures Words(Render(args)) == Some(args) <==> forall a | a in args :: NulFree(a)
  {
    hide Render, NulFree;
    if forall a | a in args :: NulFree(a) {
      if args == [] {
        NothingRendered();
      } else {
        RenderReads(args);
        assert args[..|args| - 1] + [args[|args| - 1]] == args;
      }
    } else {
      var i :| 0 <= i < |args| && !NulFree(args[i]);
      RenderKeepsNul(args, i);
      NulStops(Reader(Blank, [], []), Render(args));
    }
  }

  lemma NothingRendered()
    ensures Words(Render([])) == Some([])
  {
  }

  /** The LTP command line runs the case's argument vector, the bare program name anchored to `./`. */
  lemma StaticCommandReads(argv: seq<string>)
    requires argv != [] && forall a | a in argv :: NulFree(a)
    ensures var line := Words(Render(StaticArgs(argv)));
      && line.Some? && |line.value| == |argv| && line.value[1..] == argv[1..]
      && ('/' in argv[0] ==> line.value[0] == argv[0]) && ('/' !in argv[0] ==> line.value[0] == "./" + argv[0])
  {
    hide Render, Words;
    var args := StaticArgs(argv);
    assert "./"[1] == '/';
    assert ("./" + argv[0])[1] == '/';
    forall a | a in args ensures NulFree(a) {
      if a != args[0] { assert a in argv[1..]; }
      assert argv[0] in argv;
    }
    RoundTrip(args);
  }
}
