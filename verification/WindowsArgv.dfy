/**
 * Quoting of one native Windows argument, against the rules by which a program
 * takes its command line apart again (the part after the program name).
 */
module WindowsArgv {
  import opened LaunchTokenizer

  function Slashes(n: nat): string {
    seq(n, _ => '\\')
  }

  /** Does the argument go on the line as it is? */
  predicate Bare(value: string) {
    value != "" && forall c | c in value :: !IsSpace(c) && c != '"'
  }

  /** The quoted form from here on, with `held` backslashes not written yet. */
  function Body(value: string, held: nat): string {
    if value == "" then Slashes(2 * held) + "\""
    else if value[0] == '\\' then Body(value[1..], held + 1)
    else if value[0] == '"' then Slashes(2 * held + 1) + "\"" + Body(value[1..], 0)
    else Slashes(held) + [value[0]] + Body(value[1..], 0)
  }

  function NativeArg(value: string): string {
    if Bare(value) then value else "\"" + Body(value, 0)
  }

  method WindowsNativeArg(value: string) returns (arg: string)
    ensures arg == NativeArg(value)
  {
    if Bare(value) { return value; }
    var quoted := "\"";
    var backslashes := 0;
    for i := 0 to |value|
      invariant "\"" + Body(value, 0) == quoted + Body(value[i..], backslashes)
    {
      var ch := value[i];
      assert value[i..][0] == ch && value[i..][1..] == value[i + 1..];
      ghost var tail := Body(value[i + 1..], 0);
      if ch == '\\' {
        backslashes := backslashes + 1;
      } else if ch == '"' {
        assert quoted + (Slashes(2 * backslashes + 1) + "\"" + tail) == quoted + Slashes(2 * backslashes + 1) + "\"" + tail;
        quoted := quoted + Slashes(2 * backslashes + 1) + "\"";
        backslashes := 0;
      } else {
        assert quoted + (Slashes(backslashes) + [ch] + tail) == quoted + Slashes(backslashes) + [ch] + tail;
        quoted := quoted + Slashes(backslashes) + [ch];
        backslashes := 0;
      }
    }
    assert quoted + (Slashes(2 * backslashes) + "\"") == quoted + Slashes(2 * backslashes) + "\"";
    return quoted + Slashes(2 * backslashes) + "\"";
  }

  /** The arguments on one line. */
  function Line(args: seq<string>): string {
    if args == [] then "" else if |args| == 1 then NativeArg(args[0]) else NativeArg(args[0]) + " " + Line(args[1..])
  }

  // ----- taking a command line apart -----

  predicate Delimits(c: char) {
    c == ' ' || c == '\t'
  }

  /** The reader: the argument in progress (if `open`), whether inside quotes, backslashes just read. */
  datatype Reader = Reader(open: bool, arg: string, quoted: bool, slashes: nat)

  const BETWEEN := Reader(false, "", false, 0)

  /**
   * Backslashes are literal unless a quote follows: then each pair is one backslash, and an odd one
   * makes the quote literal. Otherwise a quote opens or closes quoting; a doubled quote inside quotes
   * is one literal quote in newer runtimes (`doubled`). Blanks end an argument outside quotes.
   */
  function Read(s: string, r: Reader, doubled: bool): seq<string>
    decreases |s|
  {
    if s == "" then if r.open then [r.arg + Slashes(r.slashes)] else []
    else
      var c := s[0];
      if c == '\\' then Read(s[1..], Reader(true, r.arg, r.quoted, r.slashes + 1), doubled)
      else if c == '"' then
        var arg := r.arg + Slashes(r.slashes / 2);
        if r.slashes % 2 == 1 then Read(s[1..], Reader(true, arg + "\"", r.quoted, 0), doubled)
        else if doubled && r.quoted && |s| > 1 && s[1] == '"' then Read(s[2..], Reader(true, arg + "\"", true, 0), doubled)
        else Read(s[1..], Reader(true, arg, !r.quoted, 0), doubled)
      else if Delimits(c) && !r.quoted then
        if r.open then [r.arg + Slashes(r.slashes)] + Read(s[1..], BETWEEN, doubled) else Read(s[1..], BETWEEN, doubled)
      else Read(s[1..], Reader(true, r.arg + Slashes(r.slashes) + [c], r.quoted, 0), doubled)
  }

  lemma {:induction false} ReadSlashes(n: nat, rest: string, r: Reader, doubled: bool)
    ensures Read(Slashes(n) + rest, r, doubled) == Read(rest, if n == 0 then r else Reader(true, r.arg, r.quoted, r.slashes + n), doubled)
    decreases n
  {
    var s := Slashes(n) + rest;
    if n == 0 {
      assert s == rest;
    } else {
      assert s[1..] == Slashes(n - 1) + rest;
      ReadSlashes(n - 1, rest, Reader(true, r.arg, r.quoted, r.slashes + 1), doubled);
    }
  }

  lemma SlashesAdd(a: nat, b: nat)
    ensures Slashes(a) + Slashes(b) == Slashes(a + b)
  {
  }

  lemma SlashesEnds()
    ensures Slashes(0) == "" && Slashes(1) == ['\\']
  {
  }

  /** Held backslashes and an escaped quote, read inside quotes. */
  lemma ReadEscapedQuote(held: nat, tail: string, arg: string, doubled: bool)
    ensures Read(Slashes(2 * held + 1) + ("\"" + tail), Reader(true, arg, true, 0), doubled)
            == Read(tail, Reader(true, arg + Slashes(held) + "\"", true, 0), doubled)
  {
    ReadSlashes(2 * held + 1, "\"" + tail, Reader(true, arg, true, 0), doubled);
    assert ("\"" + tail)[1..] == tail;
  }

  /** Held backslashes and any other character, read inside quotes. */
  lemma ReadHeldChar(held: nat, c: char, tail: string, arg: string, doubled: bool)
    requires c != '\\' && c != '"'
    ensures Read(Slashes(held) + ([c] + tail), Reader(true, arg, true, 0), doubled)
            == Read(tail, Reader(true, arg + Slashes(held) + [c], true, 0), doubled)
  {
    ReadSlashes(held, [c] + tail, Reader(true, arg, true, 0), doubled);
    assert ([c] + tail)[1..] == tail;
  }

  /** Held backslashes and the closing quote. */
  lemma ReadClosing(held: nat, rest: string, arg: string, doubled: bool)
    requires rest == "" || rest[0] != '"'
    ensures Read(Slashes(2 * held) + ("\"" + rest), Reader(true, arg, true, 0), doubled)
            == Read(rest, Reader(true, arg + Slashes(held), false, 0), doubled)
  {
    ReadSlashes(2 * held, "\"" + rest, Reader(true, arg, true, 0), doubled);
    assert ("\"" + rest)[1..] == rest;
  }

  /** Reading a quoted body gives back the value, and leaves the quotes. */
  lemma {:induction false} ReadBody(value: string, held: nat, rest: string, arg: string, doubled: bool)
    requires rest == "" || rest[0] != '"'
    ensures Read(Body(value, held) + rest, Reader(true, arg, true, 0), doubled)
            == Read(rest, Reader(true, arg + Slashes(held) + value, false, 0), doubled)
    decreases value
  {
    hide Read, Slashes;
    SlashesEnds();
    if value == "" {
      assert Body(value, held) + rest == Slashes(2 * held) + ("\"" + rest);
      ReadClosing(held, rest, arg, doubled);
      assert arg + Slashes(held) + value == arg + Slashes(held);
    } else if value[0] == '\\' {
      ReadBody(value[1..], held + 1, rest, arg, doubled);
      SlashesAdd(held, 1);
      assert arg + Slashes(held + 1) + value[1..] == arg + Slashes(held) + value;
    } else {
      var c := value[0];
      var tail := Body(value[1..], 0) + rest;
      var arg' := arg + Slashes(held) + [c];
      ReadBody(value[1..], 0, rest, arg', doubled);
      assert arg' + Slashes(0) + value[1..] == arg + Slashes(held) + value;
      if c == '"' {
        assert Body(value, held) + rest == Slashes(2 * held + 1) + ("\"" + tail);
        ReadEscapedQuote(held, tail, arg, doubled);
      } else {
        assert Body(value, held) + rest == Slashes(held) + ([c] + tail);
        ReadHeldChar(held, c, tail, arg, doubled);
      }
    }
  }

  /** Reading a bare argument up to the end or a blank gives it back. */
  lemma {:induction false} ReadBare(value: string, rest: string, r: Reader, doubled: bool)
    requires !r.quoted && (rest == "" || Delimits(rest[0])) && (value != "" || r.open)
    requires forall c | c in value :: !IsSpace(c) && c != '"'
    ensures Read(value + rest, r, doubled) == [r.arg + Slashes(r.slashes) + value] + Read(rest, BETWEEN, doubled)
    decreases value
  {
    if value == "" {
      assert value + rest == rest && r.arg + Slashes(r.slashes) + value == r.arg + Slashes(r.slashes);
      assert Read("", BETWEEN, doubled) == [];
      if rest != "" { assert Read(rest, BETWEEN, doubled) == Read(rest[1..], BETWEEN, doubled); }
    } else {
      var c := value[0];
      assert (value + rest)[1..] == value[1..] + rest && c in value;
      if c == '\\' {
        ReadBare(value[1..], rest, Reader(true, r.arg, false, r.slashes + 1), doubled);
        SlashesAdd(r.slashes, 1);
        assert r.arg + Slashes(r.slashes + 1) + value[1..] == r.arg + Slashes(r.slashes) + value;
      } else {
        ReadBare(value[1..], rest, Reader(true, r.arg + Slashes(r.slashes) + [c], false, 0), doubled);
        assert r.arg + Slashes(r.slashes) + [c] + Slashes(0) + value[1..] == r.arg + Slashes(r.slashes) + value;
      }
    }
  }

  lemma ReadOpening(body: string, doubled: bool)
    ensures Read("\"" + body, BETWEEN, doubled) == Read(body, Reader(true, "", true, 0), doubled)
  {
    assert ("\"" + body)[1..] == body && "" + Slashes(0 / 2) == "";
  }

  lemma ReadArg(value: string, rest: string, doubled: bool)
    requires rest == "" || Delimits(rest[0])
    ensures Read(NativeArg(value) + rest, BETWEEN, doubled) == [value] + Read(rest, BETWEEN, doubled)
  {
    if Bare(value) {
      hide Read, Slashes;
      SlashesEnds();
      ReadBare(value, rest, BETWEEN, doubled);
      assert "" + "" + value == value;
    } else {
      hide NativeArg;
      assert NativeArg(value) == "\"" + Body(value, 0) by { QuotedArg(value); }
      ReadQuoted(value, rest, doubled);
    }
  }

  lemma QuotedArg(value: string)
    requires !Bare(value)
    ensures NativeArg(value) == "\"" + Body(value, 0)
  {
  }

  lemma ReadQuoted(value: string, rest: string, doubled: bool)
    requires rest == "" || Delimits(rest[0])
    ensures Read("\"" + Body(value, 0) + rest, BETWEEN, doubled) == [value] + Read(rest, BETWEEN, doubled)
  {
    hide Read, Slashes, Body;
    SlashesEnds();
    assert "\"" + Body(value, 0) + rest == "\"" + (Body(value, 0) + rest);
    ReadOpening(Body(value, 0) + rest, doubled);
    ReadBody(value, 0, rest, "", doubled);
    assert "" + "" + value == value;
    ReadBare("", rest, Reader(true, value, false, 0), doubled);
    assert "" + rest == rest && value + "" + "" == value;
  }

  /** Only what needs quotes gets them: an argument without white space and quotes stands as it is, any other is quoted. */
  lemma QuotedOnlyWhereNeeded(value: string)
    ensures NativeArg(value) == value <==> value != "" && forall c | c in value :: !IsSpace(c) && c != '"'
    ensures NativeArg(value) != value ==> NativeArg(value) != "" && NativeArg(value)[0] == '"'
  {
    if !Bare(value) { QuotedIsLonger(value, 0); }
  }

  lemma {:induction false} QuotedIsLonger(value: string, held: nat)
    ensures |Body(value, held)| > |value| + held
    decreases value
  {
    if value != "" { QuotedIsLonger(value[1..], if value[0] == '\\' then held + 1 else 0); }
  }

  /** Every argument list survives the command line, under either rule for doubled quotes. */
  lemma {:induction false} LineRoundTrips(args: seq<string>, doubled: bool)
    ensures Read(Line(args), BETWEEN, doubled) == args
    decreases args
  {
    if |args| == 1 {
      ReadArg(args[0], "", doubled);
      assert NativeArg(args[0]) + "" == NativeArg(args[0]);
    } else if |args| > 1 {
      var rest := " " + Line(args[1..]);
      assert Line(args) == NativeArg(args[0]) + rest && rest[1..] == Line(args[1..]);
      ReadArg(args[0], rest, doubled);
      LineRoundTrips(args[1..], doubled);
    }
  }
}
