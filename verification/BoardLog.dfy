/**
 * The rotating board log. A file is text of UTF-16 code units, one entry a line, oldest first; its
 * size on disk is counted in UTF-8 bytes, while a line about to be written is counted in code units.
 */
module BoardLog {
  import opened Options

  newtype unit = x: int | 0 <= x < 0x1_0000
  type Text = seq<unit>

  const NEWLINE: unit := 10
  const ELLIPSIS: unit := 0x2026
  const TEXT_MAX: nat := 16384
  const DEFAULT_CAP: nat := 500
  const MAX_BOARD_LOG_BYTES: nat := 4 * 1024 * 1024

  /** Bytes of one code unit; each half of a surrogate pair stands for two of the pair's four. */
  function Width(u: unit): (w: nat)
    ensures 1 <= w <= 3
  {
    if u < 0x80 then 1 else if u < 0x800 || 0xD800 <= u < 0xE000 then 2 else 3
  }

  /** The size of a text on disk. */
  function Bytes(s: Text): nat {
    if s == [] then 0 else Bytes(s[..|s| - 1]) + Width(s[|s| - 1])
  }

  lemma {:induction false} BytesAdd(a: Text, b: Text)
    ensures Bytes(a + b) == Bytes(a) + Bytes(b)
  {
    if b == [] {
      assert a + b == a;
    } else {
      assert (a + b)[..|a + b| - 1] == a + b[..|b| - 1];
      BytesAdd(a, b[..|b| - 1]);
    }
  }

  predicate Ascii(s: Text) {
    forall i | 0 <= i < |s| :: s[i] < 0x80
  }

  lemma {:induction false} BytesBound(s: Text)
    ensures |s| <= Bytes(s) <= 3 * |s| && (Ascii(s) ==> Bytes(s) == |s|)
  {
    if s != [] {
      assert Ascii(s) ==> Ascii(s[..|s| - 1]) && Width(s[|s| - 1]) == 1;
      BytesBound(s[..|s| - 1]);
    }
  }

  // ----- entries and lines -----

  /** An entry: its text, and everything else about it. */
  datatype Entry<R> = Entry(text: Option<Text>, rest: R)

  function ClampEntryText<R>(e: Entry<R>): Entry<R> {
    if e.text.None? || |e.text.value| <= TEXT_MAX then e
    else e.(text := Some(e.text.value[..TEXT_MAX] + [ELLIPSIS]))
  }

  /** Clamping a second time changes nothing, an entry within the limit is left alone, and the text keeps its start. */
  lemma ClampIsStable<R>(e: Entry<R>)
    ensures ClampEntryText(ClampEntryText(e)) == ClampEntryText(e)
    ensures ClampEntryText(e).rest == e.rest && ClampEntryText(e).text.Some? == e.text.Some?
    ensures e.text.Some? ==>
              var kept := ClampEntryText(e).text.value;
              && |kept| <= 16_384 + 1
              && (kept == e.text.value <==> |e.text.value| <= 16_384 || (|e.text.value| == 16_384 + 1 && e.text.value[16_384] == ELLIPSIS))
              && forall i | 0 <= i < |e.text.value| && i < 16_384 :: i < |kept| && kept[i] == e.text.value[i]
  {
  }

  predicate Blank(u: unit) {
    9 <= u <= 13 || u == 0x20 || u == 0xA0 || u == 0x1680 || 0x2000 <= u <= 0x200A || u == 0x2028 || u == 0x2029 || u == 0x202F
    || u == 0x205F || u == 0x3000 || u == 0xFEFF
  }

  function Trim(s: Text): Text {
    if s == [] then []
    else if Blank(s[0]) then Trim(s[1..])
    else if Blank(s[|s| - 1]) then Trim(s[..|s| - 1])
    else s
  }

  /** How an entry is written on one line, and how a line is read back: a value of the entry's shape, or nothing. */
  datatype Codec<!R> = Codec(encode: Entry<R> -> Text, decode: Text -> Option<Entry<R>>)

  /** The line holds no newline, begins and ends with a bracket, and reads back as the entry. */
  ghost predicate Faithful<R(!new)>(c: Codec<R>) {
    forall e: Entry<R> ::
      var t := c.encode(e);
      && t != [] && !Blank(t[0]) && !Blank(t[|t| - 1])
      && NEWLINE !in t
      && c.decode(t) == Some(e)
  }

  function BuildLine<R>(c: Codec<R>, e: Entry<R>): Text {
    c.encode(ClampEntryText(e)) + [NEWLINE]
  }

  // ----- reading a file -----

  function IndexOf(s: Text): (i: nat)
    ensures i <= |s| && (i < |s| ==> s[i] == NEWLINE) && NEWLINE !in s[..i]
  {
    if s == [] || s[0] == NEWLINE then 0
    else
      var i := 1 + IndexOf(s[1..]);
      assert s[..i] == [s[0]] + s[1..][..i - 1];
      i
  }

  /** The parts of a text between its newlines. */
  function Split(s: Text): seq<Text>
    decreases |s|
  {
    var i := IndexOf(s);
    if i == |s| then [s] else [s[..i]] + Split(s[i + 1..])
  }

  function EntryOf<R>(c: Codec<R>, line: Text): Option<Entry<R>> {
    var t := Trim(line);
    if t == [] then None else c.decode(t)
  }

  /** The entries of some lines, oldest first; what does not read is skipped. */
  function Entries<R>(c: Codec<R>, lines: seq<Text>): seq<Entry<R>> {
    if lines == [] then []
    else
      var e := EntryOf(c, lines[|lines| - 1]);
      Entries(c, lines[..|lines| - 1]) + if e.Some? then [e.value] else []
  }

  function Stored<R>(c: Codec<R>, raw: Text): seq<Entry<R>> {
    Entries(c, Split(raw))
  }

  function Reverse<T>(s: seq<T>): (r: seq<T>)
    ensures |r| == |s| && forall i | 0 <= i < |s| :: r[i] == s[|s| - 1 - i]
  {
    if s == [] then [] else Reverse(s[1..]) + [s[0]]
  }

  function Min(a: nat, b: nat): nat {
    if a <= b then a else b
  }

  /** How much a reader asks for: everything, or the newest `cap`. */
  datatype Ask = All | Cap(cap: nat)

  function Asked(all: bool, cap: Option<nat>): Ask {
    if all then All else Cap(if cap.Some? then cap.value else DEFAULT_CAP)
  }

  function Newest<T>(s: seq<T>, ask: Ask): seq<T> {
    match ask
    case All => Reverse(s)
    case Cap(n) => Reverse(s)[..Min(n, |s|)]
  }

  /** One pass over the lines, then newest first, then the cap. */
  method ParseLines<R>(c: Codec<R>, raw: Text, all: bool, cap: Option<nat>) returns (r: seq<Entry<R>>)
    ensures r == Newest(Stored(c, raw), Asked(all, cap))
  {
    var out: seq<Entry<R>> := [];
    var lines := Split(raw);
    for i := 0 to |lines|
      invariant out == Entries(c, lines[..i])
    {
      assert lines[..i + 1][..i] == lines[..i];
      var t := Trim(lines[i]);
      if t == [] { continue; }
      var e := c.decode(t);
      if e.Some? { out := out + [e.value]; }
    }
    assert lines[..|lines|] == lines;
    out := Reverse(out);
    if all { return out; }
    var n := if cap.Some? then cap.value else DEFAULT_CAP;
    return out[..Min(n, |out|)];
  }

  // ----- what an append adds -----

  /** A file this log wrote: empty, or ending with a newline. */
  predicate Whole(s: Text) {
    s == [] || s[|s| - 1] == NEWLINE
  }

  lemma {:induction false} EntriesAdd<R>(c: Codec<R>, a: seq<Text>, b: seq<Text>)
    ensures Entries(c, a + b) == Entries(c, a) + Entries(c, b)
  {
    if b == [] {
      assert a + b == a;
    } else {
      assert (a + b)[..|a + b| - 1] == a + b[..|b| - 1];
      EntriesAdd(c, a, b[..|b| - 1]);
    }
  }

  lemma IndexOfAdd(a: Text, b: Text)
    ensures IndexOf(a) < |a| ==> IndexOf(a + b) == IndexOf(a)
    ensures IndexOf(a) == |a| ==> IndexOf(a + b) == |a| + IndexOf(b)
    decreases |a|
  {
    if a == [] {
      assert a + b == b;
    } else {
      assert (a + b)[1..] == a[1..] + b;
      IndexOfAdd(a[1..], b);
    }
  }

  lemma SplitStep(a: Text)
    ensures var i := IndexOf(a); Split(a) == if i == |a| then [a] else [a[..i]] + Split(a[i + 1..])
    ensures Split(a) != []
  {
    hide IndexOf;
  }

  lemma CutFront<T>(x: T, s: seq<T>, t: seq<T>)
    requires s != []
    ensures var c := [x] + s; c[..|c| - 1] + t == [x] + (s[..|s| - 1] + t) && c[|c| - 1] == s[|s| - 1]
  {
  }

  /** Splitting at the end of a line: the lines before it, then the lines after. */
  lemma {:induction false} SplitAdd(a: Text, b: Text)
    requires a != [] && Whole(a)
    ensures Split(a) != [] && Split(a)[|Split(a)| - 1] == []
    ensures Split(a + b) == Split(a)[..|Split(a)| - 1] + Split(b)
    decreases |a|
  {
    hide Split, IndexOf;
    var i := IndexOf(a);
    IndexOfAdd(a, b);
    SplitStep(a);
    SplitStep(a + b);
    assert i < |a| by {
      assert a[..|a|] == a && a[|a| - 1] in a;
    }
    var t := a[i + 1..];
    assert (a + b)[..i] == a[..i] && (a + b)[i + 1..] == t + b;
    if t == [] {
      EmptySplit();
      assert t + b == b;
    } else {
      SplitAdd(t, b);
    }
    CutFront(a[..i], Split(t), Split(b));
  }

  lemma EmptySplit()
    ensures Split([]) == [[]]
  {
  }

  lemma StoredAdd<R>(c: Codec<R>, a: Text, b: Text)
    requires Whole(a)
    ensures Stored(c, a + b) == Stored(c, a) + Stored(c, b)
  {
    hide Split;
    EmptySplit();
    assert Trim([]) == [];
    if a == [] {
      assert a + b == b;
      var one: seq<Text> := Split([]);
      assert one[..0] == [] && EntryOf(c, one[0]) == None;
      assert Entries(c, one) == Entries(c, one[..0]) + [];
    } else {
      SplitAdd(a, b);
      var s := Split(a);
      EntriesAdd(c, s[..|s| - 1], Split(b));
      assert Entries(c, s) == Entries(c, s[..|s| - 1]) + [];
    }
  }

  lemma IndexOfNone(s: Text)
    requires NEWLINE !in s
    ensures IndexOf(s) == |s|
  {
  }

  /** Writing one entry's line adds exactly that entry, clamped. */
  lemma AppendAddsOne<R(!new)>(c: Codec<R>, file: Text, e: Entry<R>)
    requires Faithful(c) && Whole(file)
    ensures Stored(c, file + BuildLine(c, e)) == Stored(c, file) + [ClampEntryText(e)]
    ensures Whole(file + BuildLine(c, e))
  {
    var t := c.encode(ClampEntryText(e));
    var line := BuildLine(c, e);
    StoredAdd(c, file, line);
    StoredAdd(c, line, []);
    IndexOfNone(t);
    IndexOfAdd(t, [NEWLINE]);
    assert line[..|t|] == t && line[|t| + 1..] == [];
    assert Split(line) == [t, []];
    assert Trim(t) == t && Trim([]) == [];
    var lines := Split(line);
    assert lines[..1] == [t] && [t][..0] == [];
    assert Entries(c, [t]) == [ClampEntryText(e)];
    assert Entries(c, lines) == Entries(c, lines[..1]) + [];
  }
}
