/** Quoting of container commands, and the part of the shell's token recognition that must undo
    it: blanks, backslash and single quotes (sections 2.2.1 and 2.2.2 of the POSIX Shell Command
    Language). */
module Shell {
  import opened Common

  // ---- Quoting ----

  /** Characters that stand for themselves outside quotes. */
  predicate Safe(c: char) {
    || 'A' <= c <= 'Z' || 'a' <= c <= 'z' || '0' <= c <= '9'
    || c == '_' || c == '@' || c == '%' || c == '+' || c == '=' || c == ':' || c == ',' || c == '.' || c == '/' || c == '-'
  }

  predicate AllSafe(s: string) {
    forall i | 0 <= i < |s| :: Safe(s[i])
  }

  /** Every single quote closes the quotes, adds an escaped quote, and opens them again. */
  function Escaped(s: string): string {
    if |s| == 0 then "" else (if s[0] == '\'' then "'\\''" else [s[0]]) + Escaped(s[1..])
  }

  function ShellQuote(value: Option<string>): string {
    var str := if value.Some? then value.value else "";
    if |str| > 0 && AllSafe(str) then str else "'" + Escaped(str) + "'"
  }

  /** A command in an image's configuration: absent, one string, or a list. */
  datatype Command = Null | One(text: string) | Many(parts: seq<string>)

  function Normalized(command: Command): seq<string> {
    match command
    case Null => []
    case One(text) => [text]
    case Many(parts) => parts
  }

  datatype Config = Config(entrypoint: Command, cmd: Command)

  function EntrypointExecutable(config: Config): Option<string> {
    var entrypoint := Normalized(config.entrypoint);
    if |entrypoint| > 0 then Some(entrypoint[0]) else None
  }

  function CommandArgs(config: Config): seq<string> {
    var entrypoint := Normalized(config.entrypoint);
    (if |entrypoint| > 0 then entrypoint[1..] else []) + Normalized(config.cmd)
  }

  function EntrypointOption(config: Config): string {
    match EntrypointExecutable(config)
    case None => ""
    case Some(executable) => "--entrypoint " + ShellQuote(Some(executable))
  }

  function Joined(words: seq<string>): string
    requires |words| > 0
  {
    if |words| == 1 then words[0] else words[0] + " " + Joined(words[1..])
  }

  function QuotedAll(words: seq<string>): seq<string> {
    seq(|words|, i requires 0 <= i < |words| => ShellQuote(Some(words[i])))
  }

  function ImageAndCommand(image: Option<string>, config: Config): string {
    Joined([ShellQuote(image)] + QuotedAll(CommandArgs(config)))
  }

  // ---- Lexing ----

  /** Where the shell is in its input; `Failed` when a character outside quotes would start an
      operator, a comment or an expansion. */
  datatype Lexer =
    | Between(words: seq<string>)
    | InWord(words: seq<string>, word: string)
    | InQuotes(words: seq<string>, word: string)
    | Backslash(words: seq<string>, word: string)
    | Failed

  function Unquoted(words: seq<string>, word: string, c: char): Lexer {
    if c == '\'' then InQuotes(words, word)
    else if c == '\\' then Backslash(words, word)
    else if Safe(c) then InWord(words, word + [c])
    else Failed
  }

  function Step(l: Lexer, c: char): Lexer {
    match l
    case Between(words) => if c == ' ' || c == '\t' then l else Unquoted(words, "", c)
    case InWord(words, word) => if c == ' ' || c == '\t' then Between(words + [word]) else Unquoted(words, word, c)
    case InQuotes(words, word) => if c == '\'' then InWord(words, word) else InQuotes(words, word + [c])
    case Backslash(words, word) => if c == '\n' then InWord(words, word) else InWord(words, word + [c])
    case Failed => Failed
  }

  function Run(l: Lexer, s: string): Lexer
    decreases |s|
  {
    if |s| == 0 then l else Run(Step(l, s[0]), s[1..])
  }

  /** The words of a command line; nothing if it is incomplete or needs more than quoting rules. */
  function Lex(s: string): Option<seq<string>> {
    Ended(Run(Between([]), s))
  }

  function Ended(l: Lexer): Option<seq<string>> {
    match l
    case Between(words) => Some(words)
    case InWord(words, word) => Some(words + [word])
    case _ => None
  }

  lemma {:induction false} RunConcat(l: Lexer, a: string, b: string)
    ensures Run(l, a + b) == Run(Run(l, a), b)
    decreases |a|
  {
    if |a| == 0 {
      assert a + b == b;
    } else {
      assert (a + b)[1..] == a[1..] + b;
      RunConcat(Step(l, a[0]), a[1..], b);
    }
  }

  lemma {:induction false} RunSafe(words: seq<string>, word: string, s: string)
    requires AllSafe(s)
    ensures Run(InWord(words, word), s) == InWord(words, word + s)
    decreases |s|
  {
    if |s| == 0 {
      assert word + s == word;
    } else {
      assert Safe(s[0]);
      RunSafe(words, word + [s[0]], s[1..]);
      assert (word + [s[0]]) + s[1..] == word + s;
    }
  }

  lemma CloseEscapeOpen(words: seq<string>, word: string)
    ensures Run(InQuotes(words, word), "'\\''") == InQuotes(words, word + ['\''])
  {
    var l1 := Step(InQuotes(words, word), '\'');
    var l2 := Step(l1, '\\');
    var l3 := Step(l2, '\'');
    assert "'\\''"[1..] == "\\''" && "\\''"[1..] == "''" && "''"[1..] == "'" && "'"[1..] == "";
    assert Run(InQuotes(words, word), "'\\''") == Run(l1, "\\''") == Run(l2, "''") == Run(l3, "'");
  }

  lemma {:induction false} RunEscaped(words: seq<string>, word: string, s: string)
    ensures Run(InQuotes(words, word), Escaped(s)) == InQuotes(words, word + s)
    decreases |s|
  {
    if |s| == 0 {
      assert word + s == word;
    } else {
      var first := if s[0] == '\'' then "'\\''" else [s[0]];
      RunConcat(InQuotes(words, word), first, Escaped(s[1..]));
      if s[0] == '\'' {
        CloseEscapeOpen(words, word);
      } else {
        assert first[1..] == [];
        assert Run(InQuotes(words, word), first) == InQuotes(words, word + [s[0]]);
      }
      RunEscaped(words, word + [s[0]], s[1..]);
      assert (word + [s[0]]) + s[1..] == word + s;
    }
  }

  function Text(value: Option<string>): string {
    if value.Some? then value.value else ""
  }

  lemma Opens(words: seq<string>, rest: string)
    ensures Run(Between(words), "'" + rest) == Run(InQuotes(words, ""), rest)
  {
    assert ("'" + rest)[1..] == rest;
  }

  lemma Closes(words: seq<string>, word: string)
    ensures Run(InQuotes(words, word), "'") == InWord(words, word)
  {
    assert "'"[1..] == "";
  }

  /** A quoted value is read as one word, the value itself, whatever characters it has. */
  lemma QuoteIsOneWord(words: seq<string>, value: Option<string>)
    ensures Run(Between(words), ShellQuote(value)) == InWord(words, Text(value))
  {
    var s := Text(value);
    if |s| > 0 && AllSafe(s) {
      assert Safe(s[0]) && "" + [s[0]] == [s[0]];
      assert Step(Between(words), s[0]) == InWord(words, [s[0]]);
      RunSafe(words, [s[0]], s[1..]);
      assert [s[0]] + s[1..] == s;
    } else {
      assert "'" + Escaped(s) + "'" == "'" + (Escaped(s) + "'");
      Opens(words, Escaped(s) + "'");
      RunConcat(InQuotes(words, ""), Escaped(s), "'");
      RunEscaped(words, "", s);
      assert "" + s == s;
      Closes(words, s);
    }
  }

  lemma WordThenMore(before: seq<string>, value: Option<string>, rest: string)
    ensures Run(Between(before), ShellQuote(value) + " " + rest) == Run(Between(before + [Text(value)]), rest)
  {
    assert ShellQuote(value) + " " + rest == ShellQuote(value) + (" " + rest);
    RunConcat(Between(before), ShellQuote(value), " " + rest);
    QuoteIsOneWord(before, value);
    assert (" " + rest)[1..] == rest;
  }

  function Quoted(values: seq<Option<string>>): seq<string> {
    seq(|values|, i requires 0 <= i < |values| => ShellQuote(values[i]))
  }

  function Texts(values: seq<Option<string>>): seq<string> {
    seq(|values|, i requires 0 <= i < |values| => Text(values[i]))
  }

  lemma FirstValue(before: seq<string>, values: seq<Option<string>>)
    requires |values| > 1
    ensures Joined(Quoted(values)) == ShellQuote(values[0]) + " " + Joined(Quoted(values[1..]))
    ensures (before + [Text(values[0])]) + Texts(values[1..]) == before + Texts(values)
  {
    assert Quoted(values)[1..] == Quoted(values[1..]);
    assert Texts(values) == [Text(values[0])] + Texts(values[1..]);
  }

  /** Quoted words separated by single spaces are read back as those words. */
  lemma {:induction false} JoinedWords(before: seq<string>, values: seq<Option<string>>)
    requires |values| > 0
    ensures Ended(Run(Between(before), Joined(Quoted(values)))) == Some(before + Texts(values))
    decreases |values|
  {
    if |values| == 1 {
      QuoteIsOneWord(before, values[0]);
      assert Texts(values) == [Text(values[0])];
    } else {
      WordThenMore(before, values[0], Joined(Quoted(values[1..])));
      JoinedWords(before + [Text(values[0])], values[1..]);
      FirstValue(before, values);
    }
  }

  lemma CommandWords(before: seq<string>, image: Option<string>, config: Config)
    ensures Ended(Run(Between(before), ImageAndCommand(image, config))) == Some(before + [Text(image)] + CommandArgs(config))
  {
    var args := CommandArgs(config);
    var values := [image] + seq(|args|, i requires 0 <= i < |args| => Some(args[i]));
    assert Quoted(values) == [ShellQuote(image)] + QuotedAll(args);
    assert Texts(values) == [Text(image)] + args;
    JoinedWords(before, values);
    assert before + ([Text(image)] + args) == before + [Text(image)] + args;
  }

  /** Lexing the built text gives exactly the image and the arguments, for arbitrary strings. */
  lemma ImageAndCommandLexesBack(image: Option<string>, config: Config)
    ensures Lex(ImageAndCommand(image, config)) == Some([Text(image)] + CommandArgs(config))
  {
    CommandWords([], image, config);
    assert [] + [Text(image)] == [Text(image)];
  }

  /** An image without an entrypoint: no option, and the words are the image and the command as configured. */
  lemma CommandAloneLexesBack(image: Option<string>, config: Config)
    requires config.entrypoint == Null || config.entrypoint == Many([])
    ensures EntrypointOption(config) == ""
    ensures var name := if image.Some? then image.value else "";
            Lex(ImageAndCommand(image, config)) == match config.cmd
                                                   case Null => Some([name])
                                                   case One(text) => Some([name, text])
                                                   case Many(parts) => Some([name] + parts)
  {
    ImageAndCommandLexesBack(image, config);
    var name := Text(image);
    assert CommandArgs(config) == Normalized(config.cmd);
    match config.cmd
    case Null => assert [name] + [] == [name];
    case One(text) => assert [name] + [text] == [name, text];
    case Many(_) =>
  }

  lemma OptionIsPlain()
    ensures ShellQuote(Some("--entrypoint")) == "--entrypoint"
  {
    assert AllSafe("--entrypoint");
  }

  /** With the entrypoint option in front, the words are the option, the executable, the image and
      the arguments; run as a container, that is the original entrypoint followed by the command. */
  lemma ArgvIsPreserved(image: Option<string>, config: Config)
    requires |Normalized(config.entrypoint)| > 0
    ensures var words := ["--entrypoint", Normalized(config.entrypoint)[0], Text(image)] + CommandArgs(config);
            && Lex(EntrypointOption(config) + " " + ImageAndCommand(image, config)) == Some(words)
            && [words[1]] + words[3..] == Normalized(config.entrypoint) + Normalized(config.cmd)
  {
    var executable := Normalized(config.entrypoint)[0];
    OptionLexes(executable, ImageAndCommand(image, config));
    CommandWords(["--entrypoint", executable], image, config);
    assert ["--entrypoint", executable] + [Text(image)] == ["--entrypoint", executable, Text(image)];
    ArgvParts("--entrypoint", Text(image), config);
  }

  /** With one entrypoint string, or a list of them: the first is the option's value, the others come before the
      command. */
  lemma EntrypointLexesBack(image: Option<string>, config: Config)
    requires config.entrypoint.One? || (config.entrypoint.Many? && |config.entrypoint.parts| > 0)
    ensures var name := if image.Some? then image.value else "";
            var entrypoint := if config.entrypoint.One? then [config.entrypoint.text] else config.entrypoint.parts;
            var command := match config.cmd case Null => [] case One(text) => [text] case Many(parts) => parts;
            Lex(EntrypointOption(config) + " " + ImageAndCommand(image, config))
            == Some(["--entrypoint", entrypoint[0], name] + (entrypoint[1..] + command))
  {
    ArgvIsPreserved(image, config);
    var entrypoint := Normalized(config.entrypoint);
    var command := match config.cmd case Null => [] case One(text) => [text] case Many(parts) => parts;
    assert entrypoint == if config.entrypoint.One? then [config.entrypoint.text] else config.entrypoint.parts;
    assert command == Normalized(config.cmd) && CommandArgs(config) == entrypoint[1..] + command;
  }

  lemma ArgvParts(option: string, image: string, config: Config)
    requires |Normalized(config.entrypoint)| > 0
    ensures var words := [option, Normalized(config.entrypoint)[0], image] + CommandArgs(config);
            [words[1]] + words[3..] == Normalized(config.entrypoint) + Normalized(config.cmd)
  {
    var entrypoint := Normalized(config.entrypoint);
    assert ([option, entrypoint[0], image] + CommandArgs(config))[3..] == CommandArgs(config);
    assert entrypoint == [entrypoint[0]] + entrypoint[1..];
  }

  lemma OptionLexes(executable: string, rest: string)
    ensures Run(Between([]), "--entrypoint " + ShellQuote(Some(executable)) + " " + rest)
         == Run(Between(["--entrypoint", executable]), rest)
  {
    var more := ShellQuote(Some(executable)) + " " + rest;
    OptionIsPlain();
    assert "--entrypoint " + ShellQuote(Some(executable)) + " " + rest == "--entrypoint" + " " + more;
    WordThenMore([], Some("--entrypoint"), more);
    assert [] + ["--entrypoint"] == ["--entrypoint"] && ["--entrypoint"] + [executable] == ["--entrypoint", executable];
    WordThenMore(["--entrypoint"], Some(executable), rest);
  }
}
