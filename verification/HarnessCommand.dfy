/** Telling our commands from others', and the program each one names. */
module HarnessCommand {
  import opened Options
  import Text

  const PROGRAM_NAME := "crystalline"
  const SESSION_WORDS := " prompt system"

  /** `char::is_whitespace`, the Unicode White_Space property. */
  predicate IsWhitespace(c: char) {
    || '\t' <= c <= '\r' || c == ' ' || c == '\U{0085}' || c == '\U{00A0}' || c == '\U{1680}'
    || '\U{2000}' <= c <= '\U{200A}' || c == '\U{2028}' || c == '\U{2029}'
    || c == '\U{202F}' || c == '\U{205F}' || c == '\U{3000}'
  }

  predicate HasWhitespace(s: string) {
    exists i | 0 <= i < |s| :: IsWhitespace(s[i])
  }

  function StripPrefix(s: string, prefix: string): Option<string> {
    if prefix <= s then Some(s[|prefix|..]) else None
  }

  function SplitProgram(command: string): Option<(string, string)> {
    match StripPrefix(command, "\"")
    case Some(quoted) =>
      var close := Text.IndexOf(quoted, '"');
      if close < 0 then None
      else
        var program, rest := quoted[..close], quoted[close + 1..];
        if program != "" && (rest == "" || rest[0] == ' ') then Some((program, rest)) else None
    case None =>
      var space := Text.IndexOf(command, ' ');
      var split := if space < 0 then |command| else space;
      if split == 0 then None else Some((command[..split], command[split..]))
  }

  function CommandLine(program: string, rest: string): string {
    if HasWhitespace(program) then "\"" + program + "\"" + rest else program + rest
  }

  /** The segments a path is read as: empty and `.` segments are skipped. */
  function Components(path: string): seq<string> {
    Named(Text.Split(path, '/'))
  }

  function Named(segments: seq<string>): seq<string> {
    if segments == [] then []
    else (if segments[0] == "" || segments[0] == "." then [] else [segments[0]]) + Named(segments[1..])
  }

  /** The word runs our program: by its bare name, or by a path from the root that ends in it. */
  predicate IsCrystallineProgram(word: string) {
    || word == PROGRAM_NAME
    || ("/" <= word
        && var parts := Components(word);
           parts != [] && parts[|parts| - 1] == PROGRAM_NAME)
  }

  predicate ExtendsCommand(command: string, base: string) {
    match StripPrefix(command, base)
    case Some(rest) => rest == "" || rest[0] == ' '
    case None => false
  }

  /** The line runs our program, and what follows it starts with the session words, whole. */
  predicate ProfileCommandKind(command: string) {
    match SplitProgram(command)
    case Some((program, rest)) =>
      IsCrystallineProgram(program) && ExtendsCommand(PROGRAM_NAME + rest, PROGRAM_NAME + SESSION_WORDS)
    case None => false
  }

  datatype Harness = ClaudeCode | Codex | Copilot | Cursor | Kiro | Gemini | Qwen
  {
    function Id(): string {
      match this
      case ClaudeCode => "claude-code"
      case Codex => "codex"
      case Copilot => "copilot"
      case Cursor => "cursor"
      case Kiro => "kiro"
      case Gemini => "gemini"
      case Qwen => "qwen"
    }

    /** The value of `--format` in the session command. */
    function Format(): Option<string> {
      match this
      case Copilot => Some("copilot")
      case Cursor => Some("cursor")
      case Gemini => Some("hook-specific")
      case Qwen => Some("hook-specific")
      case _ => None
    }
  }

  predicate KnownId(id: string) {
    id in {"claude-code", "codex", "copilot", "cursor", "kiro", "gemini", "qwen"}
  }

  /** What follows the words of a spelling install wrote: an optional format, an optional harness, nothing else. */
  predicate OwnTail(rest: string) {
    var rest' :=
      match StripPrefix(rest, " --format cursor")
      case Some(r) => r
      case None =>
        match StripPrefix(rest, " --format hook-specific")
        case Some(r) => r
        case None => rest;
    match StripPrefix(rest', " --harness ")
    case Some(id) => KnownId(id)
    case None => rest' == ""
  }

  predicate IsOwnProfileSpelling(command: string) {
    match SplitProgram(command)
    case Some((program, rest)) =>
      IsCrystallineProgram(program)
      && (match StripPrefix(rest, SESSION_WORDS) case Some(tail) => OwnTail(tail) case None => false)
    case None => false
  }

  function SessionTail(harness: Harness): string {
    (if harness.Format().Some? then " --format " + harness.Format().value else "")
    + " --harness " + harness.Id()
  }

  function SessionCommand(harness: Harness, program: string): string {
    CommandLine(program, SESSION_WORDS + SessionTail(harness))
  }

  /** The programs a command line spells so that they read back. */
  predicate Spellable(program: string) {
    && program != ""
    && if HasWhitespace(program) then '"' !in program else program[0] != '"'
  }

  /** A program and its rest read back from the command line exactly when the program is spellable. */
  lemma SplitPrint(program: string, rest: string)
    requires rest == "" || rest[0] == ' '
    ensures SplitProgram(CommandLine(program, rest)) == Some((program, rest)) <==> Spellable(program)
  {
    var command := CommandLine(program, rest);
    if HasWhitespace(program) {
      var quoted := program + "\"" + rest;
      assert command == "\"" + quoted && command[1..] == quoted;
      if '"' !in program {
        Text.IndexOfIs(quoted, '"', |program|);
        assert quoted[..|program|] == program && quoted[|program| + 1..] == rest;
      }
    } else if program != "" && program[0] != '"' {
      SpaceAfter(program, rest);
      assert command[..|program|] == program && command[|program|..] == rest;
    } else if program != "" {
      assert command[0] == '"';
    } else {
      assert command == rest;
      if rest != "" { Text.IndexOfIs(rest, ' ', 0); }
    }
  }

  lemma SpaceAfter(program: string, rest: string)
    requires !HasWhitespace(program) && (rest == "" || rest[0] == ' ')
    ensures var space := Text.IndexOf(program + rest, ' ');
            (if space < 0 then |program + rest| else space) == |program|
  {
    var command := program + rest;
    assert ' ' !in program by { assert forall i | 0 <= i < |program| :: !IsWhitespace(program[i]); }
    if rest == "" {
      assert command == program;
      Text.IndexOfNone(command, ' ');
    } else {
      assert command[..|program|] == program;
      Text.IndexOfIs(command, ' ', |program|);
    }
  }

  /** Only commands that are ours are ever rewritten. */
  lemma OwnSpellingIsOurs(command: string)
    ensures IsOwnProfileSpelling(command) ==> ProfileCommandKind(command)
  {
    hide OwnTail, SplitProgram, IsCrystallineProgram, ExtendsCommand;
    if IsOwnProfileSpelling(command) {
      var rest := SplitProgram(command).value.1;
      var tail := rest[|SESSION_WORDS|..];
      TailStartsBlank(tail);
      var base := PROGRAM_NAME + SESSION_WORDS;
      assert PROGRAM_NAME + rest == base + tail;
      Extends(base, tail);
    }
  }

  lemma Extends(base: string, tail: string)
    requires tail == "" || tail[0] == ' '
    ensures ExtendsCommand(base + tail, base)
  {
    assert (base + tail)[|base|..] == tail;
  }

  lemma TailStartsBlank(tail: string)
    requires OwnTail(tail)
    ensures tail == "" || tail[0] == ' '
  {}

  /** The command a profile install writes is a spelling it may later rewrite, so it is ours too. */
  lemma SessionCommandIsOwn(harness: Harness, program: string)
    requires harness.Cursor? || harness.Kiro? || harness.Gemini? || harness.Qwen?
    requires Spellable(program) && IsCrystallineProgram(program)
    ensures IsOwnProfileSpelling(SessionCommand(harness, program))
    ensures ProfileCommandKind(SessionCommand(harness, program))
  {
    var tail := SessionTail(harness);
    var rest := SESSION_WORDS + tail;
    SplitPrint(program, rest);
    assert rest[|SESSION_WORDS|..] == tail;
    SessionTailIsOwn(harness);
    OwnSpellingIsOurs(SessionCommand(harness, program));
  }

  lemma SessionTailIsOwn(harness: Harness)
    requires harness.Cursor? || harness.Kiro? || harness.Gemini? || harness.Qwen?
    ensures OwnTail(SessionTail(harness))
  {
    hide OwnTail;
    OwnHarness(harness);
    PlainTail(harness.Id());
    FormatTail(" --format cursor", harness.Id());
    FormatTail(" --format hook-specific", harness.Id());
    hide KnownId;
    var id := harness.Id();
    assert " --format " + "cursor" == " --format cursor" && " --format " + "hook-specific" == " --format hook-specific";
    assert "" + " --harness " == " --harness ";
    assert " --format cursor" + " --harness " + id == " --format cursor" + (" --harness " + id);
    assert " --format hook-specific" + " --harness " + id == " --format hook-specific" + (" --harness " + id);
  }

  lemma OwnHarness(harness: Harness)
    ensures KnownId(harness.Id())
  {}

  lemma PlainTail(id: string)
    requires KnownId(id)
    ensures OwnTail(" --harness " + id)
  {
    hide KnownId;
    var tail := " --harness " + id;
    assert tail[|" --harness "|..] == id;
    assert tail[3] == 'h';
  }

  lemma FormatTail(format: string, id: string)
    requires KnownId(id) && (format == " --format cursor" || format == " --format hook-specific")
    ensures OwnTail(format + (" --harness " + id))
  {
    hide KnownId;
    var own := " --harness " + id;
    assert own[|" --harness "|..] == id;
    assert (format + own)[|format|..] == own;
    assert format == " --format hook-specific" ==> (format + own)[10] == 'h';
  }

  // ----- which commands are ours, said of the text

  /** The command is the program, bare up to a blank or in double quotes, and then the rest. */
  ghost predicate Begins(command: string, program: string, rest: string) {
    && program != "" && (rest == "" || rest[0] == ' ')
    && (|| (command == program + rest && ' ' !in program && program[0] != '"')
        || (command == "\"" + program + "\"" + rest && '"' !in program))
  }

  /** Nothing but slashes and `.` segments. */
  ghost predicate Trailing(s: string) {
    || s == ""
    || (s[0] == '/' && Trailing(s[1..]))
    || (|s| >= 2 && s[..2] == "/." && (|s| == 2 || s[2] == '/') && Trailing(s[2..]))
  }

  /** `crystalline`, or a path from the root whose last segment is that. */
  ghost predicate OurProgram(word: string) {
    || word == PROGRAM_NAME
    || exists a, z :: word == a + ("/" + PROGRAM_NAME) + z && (a == "" || a[0] == '/') && Trailing(z)
  }

  /** The command runs our program with the session words, whole. */
  ghost predicate RunsSession(command: string) {
    exists program, tail :: OurProgram(program) && (tail == "" || tail[0] == ' ') && Begins(command, program, SESSION_WORDS + tail)
  }

  predicate IsFormat(format: string) {
    format in {"", " --format cursor", " --format hook-specific"}
  }

  ghost predicate IsHarness(option: string) {
    option == "" || exists id :: KnownId(id) && option == " --harness " + id
  }

  /** One of the tails an installation writes: a format, a harness, both, or neither. */
  ghost predicate WrittenTail(tail: string) {
    exists format, option :: IsFormat(format) && IsHarness(option) && tail == format + option
  }

  lemma BareSplits(command: string, program: string, rest: string)
    requires program != "" && (rest == "" || rest[0] == ' ') && command == program + rest && ' ' !in program && program[0] != '"'
    ensures SplitProgram(command) == Some((program, rest))
  {
    assert command[..|program|] == program && command[|program|..] == rest;
    assert command[0] == program[0];
    if rest == "" {
      assert command == program;
      Text.IndexOfNone(command, ' ');
    } else {
      Text.IndexOfIs(command, ' ', |program|);
    }
  }

  lemma QuotedSplits(command: string, program: string, rest: string)
    requires program != "" && (rest == "" || rest[0] == ' ') && command == "\"" + program + "\"" + rest && '"' !in program
    ensures SplitProgram(command) == Some((program, rest))
  {
    var quoted := program + "\"" + rest;
    assert command == "\"" + quoted && command[1..] == quoted;
    assert quoted[..|program|] == program && quoted[|program| + 1..] == rest;
    Text.IndexOfIs(quoted, '"', |program|);
  }

  lemma SplitBegins(command: string, program: string, rest: string)
    requires SplitProgram(command) == Some((program, rest))
    ensures Begins(command, program, rest)
  {
    if "\"" <= command {
      assert command == "\"" + command[1..];
      assert command[1..] == program + "\"" + rest;
      assert command == "\"" + program + "\"" + rest;
    } else {
      assert command == program + rest && program[0] == command[0];
      assert "\"" == [command[0]] ==> "\"" <= command;
    }
  }

  /** A command splits as its text says, and no other way. */
  lemma SplitIs(command: string, program: string, rest: string)
    ensures SplitProgram(command) == Some((program, rest)) <==> Begins(command, program, rest)
  {
    hide SplitProgram;
    if Begins(command, program, rest) {
      if command == program + rest && ' ' !in program && program[0] != '"' {
        BareSplits(command, program, rest);
      } else {
        QuotedSplits(command, program, rest);
      }
    }
    if SplitProgram(command) == Some((program, rest)) { SplitBegins(command, program, rest); }
  }

  lemma {:induction false} NamedAppend(a: seq<string>, b: seq<string>)
    ensures Named(a + b) == Named(a) + Named(b)
  {
    if a == [] {
      assert a + b == b;
    } else {
      assert (a + b)[1..] == a[1..] + b;
      NamedAppend(a[1..], b);
    }
  }

  /** A path is its first segment, or that and a slash and the rest. */
  lemma FirstSegment(path: string) returns (segment: string, rest: Option<string>)
    ensures '/' !in segment && path == (if rest.None? then segment else segment + "/" + rest.value)
    ensures Components(path) == Named([segment]) + (if rest.None? then [] else Components(rest.value))
    ensures rest.Some? ==> |rest.value| < |path|
  {
    hide Named;
    var at := Text.IndexOf(path, '/');
    if at < 0 {
      segment, rest := path, None;
      Text.SplitPlain(path, '/');
    } else {
      segment, rest := path[..at], Some(path[at + 1..]);
      assert path == segment + ['/'] + rest.value;
      Text.SplitAppend(segment, rest.value, '/');
      Text.SplitPlain(segment, '/');
      NamedAppend([segment], Text.Split(rest.value, '/'));
    }
  }

  /** A path without a named segment is nothing but slashes and dots. */
  lemma {:induction false} NothingNamed(path: string)
    ensures Components(path) == [] <==> Trailing("/" + path)
    decreases |path|
  {
    hide Components;
    var segment, rest := FirstSegment(path);
    var z := "/" + path;
    assert z[1..] == path;
    if rest.Some? {
      NothingNamed(rest.value);
      assert segment == "" ==> path == "/" + rest.value;
      assert segment == "." ==> z == "/." + ("/" + rest.value) && z[2..] == "/" + rest.value;
      TrailingSegment(segment, "/" + rest.value);
      assert z == "/" + segment + ("/" + rest.value);
    } else {
      TrailingSegment(segment, "");
      assert z == "/" + segment + "";
    }
  }

  /** Whether a path trails off is decided segment by segment. */
  lemma TrailingSegment(segment: string, more: string)
    requires '/' !in segment && (more == "" || more[0] == '/')
    ensures Trailing("/" + segment + more) <==> (segment == "" || segment == ".") && Trailing(more)
  {
    var z := "/" + segment + more;
    assert z[1..] == segment + more;
    if segment == "" {
      assert z[1..] == more;
      if more != "" { assert z[1] == '/'; }
    } else {
      assert z[1] == segment[0] && segment[0] in segment;
      assert !Trailing(z[1..]) by { assert z[1..][0] != '/'; }
      if segment == "." {
        assert z[2..] == more && z[..2] == "/.";
      } else if |segment| > 1 && segment[0] == '.' {
        assert z[2] == segment[1] && segment[1] in segment;
      }
    }
  }

  /** The last named segment of a path, between what is before it and what trails off. */
  lemma {:induction false} LastSegment(path: string) returns (a: string, z: string)
    requires Components(path) != []
    ensures var name := Components(path)[|Components(path)| - 1];
            path == a + name + z && Trailing(z) && (a == "" || a[|a| - 1] == '/')
    decreases |path|
  {
    hide Components;
    var segment, rest := FirstSegment(path);
    if rest.None? {
      a, z := "", "";
      assert "" + segment + "" == segment;
    } else if Components(rest.value) == [] {
      NothingNamed(rest.value);
      a, z := "", "/" + rest.value;
      assert path == "" + segment + z;
    } else {
      var b, y := LastSegment(rest.value);
      a, z := segment + "/" + b, y;
      var parts := Components(path);
      assert parts[|parts| - 1] == Components(rest.value)[|Components(rest.value)| - 1];
      assert path == a + parts[|parts| - 1] + z;
    }
  }

  /** A named segment followed by nothing named is the last. */
  lemma SegmentIsLast(a: string, name: string, z: string)
    requires '/' !in name && name != "" && name != "." && Trailing(z)
    ensures var parts := Components(a + "/" + name + z); parts != [] && parts[|parts| - 1] == name
  {
    hide Named;
    var path, after := a + "/" + name + z, name + z;
    assert path == a + ['/'] + after;
    Text.SplitAppend(a, after, '/');
    NamedAppend(Text.Split(a, '/'), Text.Split(after, '/'));
    assert Named([name]) == [name] by { NamedOne(name); }
    if z == "" {
      assert after == name;
      Text.SplitPlain(name, '/');
    } else {
      assert z == "/" + z[1..] && after == name + ['/'] + z[1..];
      NothingNamed(z[1..]);
      Text.SplitAppend(name, z[1..], '/');
      Text.SplitPlain(name, '/');
      NamedAppend([name], Text.Split(z[1..], '/'));
    }
  }

  lemma NamedOne(name: string)
    requires name != "" && name != "."
    ensures Named([name]) == [name]
  {}

  lemma HeadLetter(before: string, z: string)
    ensures before == "" ==> (before + PROGRAM_NAME + z)[0] == 'c'
  {}

  lemma PathIsOurs(word: string)
    requires "/" <= word && Components(word) != [] && Components(word)[|Components(word)| - 1] == PROGRAM_NAME
    ensures OurProgram(word)
  {
    hide Components, Trailing;
    var before, z := LastSegment(word);
    HeadLetter(before, z);
    var a := before[..|before| - 1];
    assert before == a + "/" && word == a + ("/" + PROGRAM_NAME) + z;
    assert a != "" ==> a[0] == word[0];
  }

  lemma OurPath(word: string, a: string, z: string)
    requires word == a + ("/" + PROGRAM_NAME) + z && (a == "" || a[0] == '/') && Trailing(z)
    ensures IsCrystallineProgram(word)
  {
    hide Components, Trailing;
    assert word == a + "/" + PROGRAM_NAME + z;
    assert word[0] == '/' && '/' !in PROGRAM_NAME && |PROGRAM_NAME| == 11;
    SegmentIsLast(a, PROGRAM_NAME, z);
  }

  /** A program is ours by its text alone. */
  lemma ProgramIs(word: string)
    ensures IsCrystallineProgram(word) <==> OurProgram(word)
  {
    hide Components, Trailing;
    if IsCrystallineProgram(word) && word != PROGRAM_NAME { PathIsOurs(word); }
    if a, z :| word == a + ("/" + PROGRAM_NAME) + z && (a == "" || a[0] == '/') && Trailing(z) { OurPath(word, a, z); }
  }

  lemma WordsFollow(rest: string)
    ensures ExtendsCommand(PROGRAM_NAME + rest, PROGRAM_NAME + SESSION_WORDS)
       <==> exists tail :: (tail == "" || tail[0] == ' ') && rest == SESSION_WORDS + tail
  {
    var command, base := PROGRAM_NAME + rest, PROGRAM_NAME + SESSION_WORDS;
    if base <= command {
      assert SESSION_WORDS <= rest by { assert command[|PROGRAM_NAME|..|base|] == SESSION_WORDS; }
      assert command[|base|..] == rest[|SESSION_WORDS|..] && rest == SESSION_WORDS + rest[|SESSION_WORDS|..];
    }
    if tail :| (tail == "" || tail[0] == ' ') && rest == SESSION_WORDS + tail {
      assert command == base + tail && command[|base|..] == tail;
    }
  }

  /** A command is ours exactly when its text runs our program, by its name or by a path from the root, with the session words and then nothing or a blank. */
  lemma OursIs(command: string)
    ensures ProfileCommandKind(command) <==> RunsSession(command)
  {
    hide SplitProgram, ExtendsCommand, IsCrystallineProgram, OurProgram, Begins;
    forall program, rest
      ensures SplitProgram(command) == Some((program, rest)) <==> Begins(command, program, rest)
    {
      SplitIs(command, program, rest);
    }
    if SplitProgram(command).Some? {
      var (program, rest) := SplitProgram(command).value;
      ProgramIs(program);
      WordsFollow(rest);
    }
    if program, tail :| OurProgram(program) && (tail == "" || tail[0] == ' ') && Begins(command, program, SESSION_WORDS + tail) {
      ProgramIs(program);
      WordsFollow(SESSION_WORDS + tail);
    }
  }

  // ----- which commands an installation wrote

  lemma Stripped(rest: string, prefix: string)
    ensures StripPrefix(prefix + rest, prefix) == Some(rest)
  {
    assert (prefix + rest)[|prefix|..] == rest;
  }

  lemma HarnessTail(tail: string)
    ensures (match StripPrefix(tail, " --harness ") case Some(id) => KnownId(id) case None => tail == "") <==> IsHarness(tail)
  {
    hide KnownId;
    if " --harness " <= tail {
      assert tail == " --harness " + tail[|" --harness "|..];
    }
    if id :| KnownId(id) && tail == " --harness " + id { Stripped(id, " --harness "); }
  }

  lemma LettersAt(tail: string)
    ensures " --format cursor" <= tail ==> |tail| > 10 && tail[3] == 'f' && tail[10] == 'c'
    ensures " --format hook-specific" <= tail ==> |tail| > 10 && tail[3] == 'f' && tail[10] == 'h'
    ensures IsHarness(tail) ==> tail == "" || (|tail| > 10 && tail[3] == 'h')
  {
    hide KnownId;
  }

  lemma TailWith(format: string, option: string)
    requires IsFormat(format) && IsHarness(option)
    ensures OwnTail(format + option)
  {
    hide KnownId, IsHarness;
    HarnessTail(option);
    LettersAt(option);
    LettersAt(format + option);
    Stripped(option, format);
    assert "" + option == option;
  }

  lemma TailParts(tail: string)
    requires OwnTail(tail)
    ensures WrittenTail(tail)
  {
    hide KnownId, IsHarness;
    var format := if " --format cursor" <= tail then " --format cursor" else if " --format hook-specific" <= tail then " --format hook-specific" else "";
    var option := tail[|format|..];
    assert tail == format + option;
    assert format == "" ==> option == tail;
    HarnessTail(option);
    assert IsFormat(format);
  }

  /** A tail counts as written by an installation exactly when it is one of those it writes. */
  lemma OwnTailIs(tail: string)
    ensures OwnTail(tail) <==> WrittenTail(tail)
  {
    hide OwnTail, IsFormat, IsHarness;
    if OwnTail(tail) { TailParts(tail); }
    if format, option :| IsFormat(format) && IsHarness(option) && tail == format + option { TailWith(format, option); }
  }

  /** A command may be rewritten exactly when it runs our program with the session words and one of the tails an installation writes. */
  lemma OwnSpellingIs(command: string)
    ensures IsOwnProfileSpelling(command)
       <==> exists program, tail :: OurProgram(program) && WrittenTail(tail) && Begins(command, program, SESSION_WORDS + tail)
  {
    hide SplitProgram, IsCrystallineProgram, OurProgram, Begins, OwnTail, WrittenTail;
    forall program, rest
      ensures SplitProgram(command) == Some((program, rest)) <==> Begins(command, program, rest)
    {
      SplitIs(command, program, rest);
    }
    if SplitProgram(command).Some? {
      var (program, rest) := SplitProgram(command).value;
      ProgramIs(program);
      if SESSION_WORDS <= rest {
        var tail := rest[|SESSION_WORDS|..];
        assert rest == SESSION_WORDS + tail;
        OwnTailIs(tail);
      }
    }
    if program, tail :| OurProgram(program) && WrittenTail(tail) && Begins(command, program, SESSION_WORDS + tail) {
      ProgramIs(program);
      OwnTailIs(tail);
      Stripped(tail, SESSION_WORDS);
    }
  }
}
