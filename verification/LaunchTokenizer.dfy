/**
 * The shell-neutral argv grammar of the launch field: a character loop over
 * quotes, escapes and words, refusing unquoted shell operators.
 */
module LaunchTokenizer {
  import opened Options

  /** The white space of the source language's `\s`. */
  predicate IsSpace(c: char) {
    || c in {'\t', '\n', '\U{000B}', '\U{000C}', '\r', ' ', '\U{00A0}', '\U{1680}', '\U{2028}', '\U{2029}', '\U{202F}', '\U{205F}', '\U{3000}', '\U{FEFF}'}
    || '\U{2000}' <= c <= '\U{200A}'
  }

  predicate IsQuote(c: char) {
    c == '\'' || c == '"'
  }

  predicate IsOperator(c: char) {
    c in {';', '&', '|', '<', '>', '(', ')', '$', '`', '\r', '\n'}
  }

  /** The loop's variables: the words so far, the word in progress, and the open quote if any. */
  datatype Scanner = Scanner(tokens: seq<string>, token: string, started: bool, quote: Option<char>) {
    function Push(): Scanner {
      if started then Scanner(tokens + [token], "", false, quote) else this
    }

    function Add(c: char): Scanner {
      this.(token := token + [c], started := true)
    }
  }

  /** A backslash escapes its quote or a backslash inside quotes; blanks, quotes and backslashes outside. */
  predicate Escapes(s: string, quote: Option<char>) {
    && |s| > 1 && s[0] == '\\'
    && if quote.Some? then s[1] == quote.value || s[1] == '\\' else IsSpace(s[1]) || IsQuote(s[1]) || s[1] == '\\'
  }

  function Scan(s: string, t: Scanner): Option<Scanner>
    decreases |s|
  {
    if s == [] then Some(t)
    else
      var c := s[0];
      if t.quote.Some? then
        if c == t.quote.value then Scan(s[1..], t.(quote := None, started := true))
        else if Escapes(s, t.quote) then Scan(s[2..], t.Add(s[1]))
        else Scan(s[1..], t.Add(c))
      else if IsSpace(c) then Scan(s[1..], t.Push())
      else if IsQuote(c) then Scan(s[1..], t.(quote := Some(c), started := true))
      else if c == '\\' then if Escapes(s, None) then Scan(s[2..], t.Add(s[1])) else Scan(s[1..], t.Add(c))
      else if IsOperator(c) then None
      else Scan(s[1..], t.Add(c))
  }

  const BLANK := Scanner([], "", false, None)

  predicate Launchable(argv: seq<string>) {
    argv != [] && argv[0] != "" && argv[0][0] != '-'
  }

  /** The argv of a launch field, or `None` when it is refused. */
  function Parse(s: string): (argv: Option<seq<string>>)
    ensures argv.Some? ==> Launchable(argv.value)
  {
    var r := Scan(s, BLANK);
    if r.None? || r.value.quote.Some? then None
    else
      var tokens := r.value.Push().tokens;
      if Launchable(tokens) then Some(tokens) else None
  }

  method ParseTrustedLaunchCommand(source: string) returns (argv: Option<seq<string>>)
    ensures argv == Parse(source)
  {
    var tokens: seq<string>, token: string, tokenStarted, quote: Option<char> := [], "", false, None;
    var i := 0;
    while i < |source|
      invariant i <= |source|
      invariant Scan(source, BLANK) == Scan(source[i..], Scanner(tokens, token, tokenStarted, quote))
    {
      var ch := source[i];
      assert source[i..][1..] == source[i + 1..];
      if i + 1 < |source| { assert source[i..][2..] == source[i + 2..]; }
      if quote.Some? {
        if ch == quote.value {
          quote, tokenStarted := None, true;
        } else if ch == '\\' && i + 1 < |source| && (source[i + 1] == quote.value || source[i + 1] == '\\') {
          token, tokenStarted := token + [source[i + 1]], true;
          i := i + 1;
        } else {
          token, tokenStarted := token + [ch], true;
        }
      } else if IsSpace(ch) {
        if tokenStarted { tokens, token, tokenStarted := tokens + [token], "", false; }
      } else if IsQuote(ch) {
        quote, tokenStarted := Some(ch), true;
      } else if ch == '\\' {
        if i + 1 < |source| && (IsSpace(source[i + 1]) || IsQuote(source[i + 1]) || source[i + 1] == '\\') {
          token, tokenStarted := token + [source[i + 1]], true;
          i := i + 1;
        } else {
          token, tokenStarted := token + [ch], true;
        }
      } else if IsOperator(ch) {
        return None;
      } else {
        token, tokenStarted := token + [ch], true;
      }
      i := i + 1;
    }
    if quote.Some? { return None; }
    if tokenStarted { tokens := tokens + [token]; }
    return if Launchable(tokens) then Some(tokens) else None;
  }

  // ----- the printer it inverts -----

  function Escaped(word: string): string {
    if word == "" then ""
    else (if word[0] == '\'' || word[0] == '\\' then ['\\', word[0]] else [word[0]]) + Escaped(word[1..])
  }

  function Quoted(word: string): string {
    "'" + Escaped(word) + "'"
  }

  /** Words in single quotes, joined by spaces. */
  function Print(argv: seq<string>): string {
    if argv == [] then "" else if |argv| == 1 then Quoted(argv[0]) else Quoted(argv[0]) + " " + Print(argv[1..])
  }

  lemma {:induction false} ScanEscaped(word: string, rest: string, t: Scanner)
    requires t.quote == Some('\'')
    ensures Scan(Escaped(word) + "'" + rest, t) == Scan(rest, t.(token := t.token + word, started := true, quote := None))
    decreases word
  {
    var s := Escaped(word) + "'" + rest;
    if word == "" {
      assert s[1..] == rest && t.token + word == t.token;
    } else {
      var tail := Escaped(word[1..]) + "'" + rest;
      ScanEscaped(word[1..], rest, t.Add(word[0]));
      assert t.token + [word[0]] + word[1..] == t.token + word;
      if word[0] == '\'' || word[0] == '\\' {
        assert s == ['\\', word[0]] + tail && s[2..] == tail;
      } else {
        assert s == [word[0]] + tail && s[1..] == tail;
        assert !Escapes(s, t.quote);
      }
    }
  }

  lemma ScanQuoted(word: string, rest: string, t: Scanner)
    requires t.quote.None? && !t.started && t.token == ""
    ensures Scan(Quoted(word) + rest, t) == Scan(rest, Scanner(t.tokens, word, true, None))
  {
    var s := Quoted(word) + rest;
    assert s[1..] == Escaped(word) + "'" + rest;
    ScanEscaped(word, rest, t.(quote := Some('\''), started := true));
    assert "" + word == word;
  }

  lemma ScanBlank(rest: string, t: Scanner)
    requires t.quote.None?
    ensures Scan(" " + rest, t) == Scan(rest, t.Push())
    ensures Scan("", t) == Some(t)
  {
  }

  lemma {:induction false} ScanPrint(argv: seq<string>, tokens: seq<string>)
    requires argv != []
    ensures Scan(Print(argv), Scanner(tokens, "", false, None))
            == Some(Scanner(tokens + argv[..|argv| - 1], argv[|argv| - 1], true, None))
    decreases argv
  {
    hide Scan, Quoted;
    var t := Scanner(tokens, "", false, None);
    if |argv| == 1 {
      ScanBlank("", Scanner(tokens, argv[0], true, None));
      ScanQuoted(argv[0], "", t);
      assert Quoted(argv[0]) + "" == Quoted(argv[0]) && tokens + argv[..0] == tokens;
    } else {
      ScanQuoted(argv[0], " " + Print(argv[1..]), t);
      assert Print(argv) == Quoted(argv[0]) + (" " + Print(argv[1..]));
      ScanBlank(Print(argv[1..]), Scanner(tokens, argv[0], true, None));
      ScanPrint(argv[1..], tokens + [argv[0]]);
      assert tokens + [argv[0]] + argv[1..][..|argv[1..]| - 1] == tokens + argv[..|argv| - 1];
    }
  }

  /** The tokenizer inverts the printer on exactly the argv lists it can accept at all. */
  lemma ParseInvertsPrint(argv: seq<string>)
    ensures Parse(Print(argv)) == Some(argv) <==> Launchable(argv)
  {
    if argv != [] {
      ScanPrint(argv, []);
      assert [] + argv[..|argv| - 1] == argv[..|argv| - 1];
      assert argv[..|argv| - 1] + [argv[|argv| - 1]] == argv;
    }
  }

  // ----- operators -----

  /** The characters of `s` outside quotes and not escaped, read from inside `quote` if one is open. */
  function Exposed(s: string, quote: Option<char>): string
    decreases |s|
  {
    if s == [] then ""
    else if Escapes(s, quote) && Some(s[0]) != quote then Exposed(s[2..], quote)
    else if quote.Some? then Exposed(s[1..], if s[0] == quote.value then None else quote)
    else if IsQuote(s[0]) then Exposed(s[1..], Some(s[0]))
    else [s[0]] + Exposed(s[1..], None)
  }

  /** An operator that white space does not already excuse. */
  predicate Dangerous(c: char) {
    IsOperator(c) && !IsSpace(c)
  }

  /** A field is refused by the scan exactly when an operator stands outside quotes. */
  lemma {:induction false} ScanRefusesExactlyOperators(s: string, t: Scanner)
    requires t.quote.Some? ==> IsQuote(t.quote.value)
    ensures Scan(s, t).None? <==> exists c :: c in Exposed(s, t.quote) && Dangerous(c)
    decreases |s|
  {
    if s == [] {
    } else {
      var c := s[0];
      var skip := Escapes(s, t.quote) && Some(c) != t.quote;
      if t.quote.Some? {
        if c == t.quote.value { ScanRefusesExactlyOperators(s[1..], t.(quote := None, started := true)); }
        else if skip { ScanRefusesExactlyOperators(s[2..], t.Add(s[1])); }
        else { ScanRefusesExactlyOperators(s[1..], t.Add(c)); }
      } else if skip {
        ScanRefusesExactlyOperators(s[2..], t.Add(s[1]));
      } else if IsQuote(c) {
        ScanRefusesExactlyOperators(s[1..], t.(quote := Some(c), started := true));
      } else {
        assert Exposed(s, None) == [c] + Exposed(s[1..], None);
        if IsSpace(c) { ScanRefusesExactlyOperators(s[1..], t.Push()); }
        else if !IsOperator(c) { ScanRefusesExactlyOperators(s[1..], t.Add(c)); }
        else { assert c in Exposed(s, None); }
      }
    }
  }

  /** Whatever is accepted has no shell operator outside quotes, and a program that is not a flag. */
  lemma AcceptedHasNoOperators(s: string)
    ensures Parse(s).Some? ==> Launchable(Parse(s).value) && forall c | c in Exposed(s, None) :: !Dangerous(c)
  {
    ScanRefusesExactlyOperators(s, BLANK);
  }
}
