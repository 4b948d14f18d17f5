/**
 * Single-quoting for a POSIX shell, against a reader of the shell's own quoting
 * and token rules.
 */
module PosixShell {
  import opened Options

  /** Each single quote closes the quotes, stands escaped, and opens them again. */
  function Inner(value: string): string {
    if value == "" then ""
    else (if value[0] == '\'' then "'\\''" else [value[0]]) + Inner(value[1..])
  }

  function PosixQuote(value: string): string {
    "'" + Inner(value) + "'"
  }

  function Command(tokens: seq<string>): string {
    if tokens == [] then "" else if |tokens| == 1 then PosixQuote(tokens[0]) else PosixQuote(tokens[0]) + " " + Command(tokens[1..])
  }

  // ----- the shell's reader -----

  datatype Mode = Bare | Single | Double
  datatype Word = NoWord | Word(text: string)

  function Text(w: Word): string {
    if w.Word? then w.text else ""
  }

  /** Characters an unquoted word must not contain to be read as itself (section 2.2). */
  predicate Special(c: char) {
    c in {'|', '&', ';', '<', '>', '(', ')', '$', '`', '\n', '*', '?', '[', '#', '~', '=', '%'}
  }

  /**
   * The words of one simple command of literal text, by sections 2.2 and 2.3 of the POSIX.1-2017
   * Shell Command Language: blanks separate words outside quotes, single quotes keep everything,
   * double quotes keep all but expansions, a backslash keeps one character (and joins lines). Any
   * unquoted special character, expansion or unfinished quote makes the line something else: `None`.
   */
  function Words(s: string, mode: Mode, w: Word): Option<seq<string>>
    decreases |s|
  {
    if s == "" then if mode != Bare then None else Some(if w.Word? then [w.text] else [])
    else
      var c := s[0];
      match mode
      case Single =>
        if c == '\'' then Words(s[1..], Bare, w) else Words(s[1..], Single, Word(Text(w) + [c]))
      case Double =>
        if c == '"' then Words(s[1..], Bare, w)
        else if c == '$' || c == '`' then None
        else if c == '\\' && |s| > 1 && s[1] in {'$', '`', '"', '\\'} then Words(s[2..], Double, Word(Text(w) + [s[1]]))
        else if c == '\\' && |s| > 1 && s[1] == '\n' then Words(s[2..], Double, w)
        else Words(s[1..], Double, Word(Text(w) + [c]))
      case Bare =>
        if c == ' ' || c == '\t' then
          var rest := Words(s[1..], Bare, NoWord);
          if rest.None? then None else Some((if w.Word? then [w.text] else []) + rest.value)
        else if c == '\'' then Words(s[1..], Single, Word(Text(w)))
        else if c == '"' then Words(s[1..], Double, Word(Text(w)))
        else if c == '\\' then
          if |s| == 1 then None
          else if s[1] == '\n' then Words(s[2..], Bare, w)
          else Words(s[2..], Bare, Word(Text(w) + [s[1]]))
        else if Special(c) then None
        else Words(s[1..], Bare, Word(Text(w) + [c]))
  }

  lemma KeepsInSingle(c: char, tail: string, text: string)
    requires c != '\''
    ensures Words([c] + tail, Single, Word(text)) == Words(tail, Single, Word(text + [c]))
  {
  }

  lemma QuoteSwitches(tail: string, w: Word)
    ensures Words("'" + tail, Single, w) == Words(tail, Bare, w)
    ensures Words("'" + tail, Bare, w) == Words(tail, Single, Word(Text(w)))
  {
  }

  lemma EscapeKeeps(c: char, tail: string, w: Word)
    requires c != '\n'
    ensures Words(['\\', c] + tail, Bare, w) == Words(tail, Bare, Word(Text(w) + [c]))
  {
  }

  lemma {:induction false} ReadInner(value: string, rest: string, text: string)
    ensures Words(Inner(value) + "'" + rest, Single, Word(text)) == Words(rest, Bare, Word(text + value))
    decreases value
  {
    hide Words;
    if value == "" {
      assert Inner(value) + "'" + rest == "'" + rest && text + value == text;
      QuoteSwitches(rest, Word(text));
    } else {
      var c, tail := value[0], Inner(value[1..]) + "'" + rest;
      ReadInner(value[1..], rest, text + [c]);
      assert text + [c] + value[1..] == text + value;
      if c == '\'' {
        assert Inner(value) + "'" + rest == "'" + (['\\', '\''] + ("'" + tail));
        QuoteSwitches(['\\', '\''] + ("'" + tail), Word(text));
        EscapeKeeps('\'', "'" + tail, Word(text));
        QuoteSwitches(tail, Word(text + [c]));
      } else {
        assert Inner(value) + "'" + rest == [c] + tail;
        KeepsInSingle(c, tail, text);
      }
    }
  }

  lemma ReadQuoted(value: string, rest: string)
    ensures Words(PosixQuote(value) + rest, Bare, NoWord) == Words(rest, Bare, Word(value))
  {
    var s := PosixQuote(value) + rest;
    assert s[1..] == Inner(value) + "'" + rest;
    ReadInner(value, rest, "");
    assert "" + value == value;
  }

  /** The shell reads a planned command line back as exactly its tokens, whatever they contain. */
  lemma {:induction false} CommandRoundTrips(tokens: seq<string>)
    ensures Words(Command(tokens), Bare, NoWord) == Some(tokens)
    decreases tokens
  {
    if |tokens| == 1 {
      ReadQuoted(tokens[0], "");
      assert PosixQuote(tokens[0]) + "" == PosixQuote(tokens[0]) && tokens == [tokens[0]];
    } else if |tokens| > 1 {
      var rest := " " + Command(tokens[1..]);
      assert Command(tokens) == PosixQuote(tokens[0]) + rest && rest[1..] == Command(tokens[1..]);
      ReadQuoted(tokens[0], rest);
      CommandRoundTrips(tokens[1..]);
      assert [tokens[0]] + tokens[1..] == tokens;
    }
  }
}
