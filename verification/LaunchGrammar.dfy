/**
 * The launch field as a grammar: what a field spells is read off its pieces, and
 * the tokenizer reads exactly that, of every field that has such a spelling and
 * of no other.
 */
module LaunchGrammar {
  import opened Options
  import opened LaunchTokenizer

  /** A character between quotes: itself, or a backslash and the character it stands for. */
  datatype Inner = Kept(c: char) | Told(c: char)

  /** A piece of a field: white space, a bare character, an escaped one, or a quoted stretch. */
  datatype Piece = Gap(c: char) | Bare(c: char) | Escape(c: char) | Quote(q: char, body: seq<Inner>)

  // ----- what pieces are written as, and what they mean -----

  function InnerText(body: seq<Inner>): string {
    if body == [] then "" else (if body[0].Kept? then [body[0].c] else ['\\', body[0].c]) + InnerText(body[1..])
  }

  function InnerMeans(body: seq<Inner>): string {
    if body == [] then "" else [body[0].c] + InnerMeans(body[1..])
  }

  function PieceText(p: Piece): string {
    match p
    case Gap(c) => [c]
    case Bare(c) => [c]
    case Escape(c) => ['\\', c]
    case Quote(q, body) => [q] + InnerText(body) + [q]
  }

  function PieceMeans(p: Piece): string {
    match p
    case Gap(_) => ""
    case Bare(c) => [c]
    case Escape(c) => [c]
    case Quote(_, body) => InnerMeans(body)
  }

  function Text(ps: seq<Piece>): string {
    if ps == [] then "" else PieceText(ps[0]) + Text(ps[1..])
  }

  function Means(ps: seq<Piece>): string {
    if ps == [] then "" else PieceMeans(ps[0]) + Means(ps[1..])
  }

  /** How many pieces before the first white space. */
  function WordLength(ps: seq<Piece>): (n: nat)
    ensures n <= |ps|
  {
    if ps == [] || ps[0].Gap? then 0 else 1 + WordLength(ps[1..])
  }

  /** The words: what the stretches between white space mean. */
  function Words(ps: seq<Piece>): seq<string>
    decreases |ps|
  {
    if ps == [] then []
    else if ps[0].Gap? then Words(ps[1..])
    else [Means(ps[..WordLength(ps)])] + Words(ps[WordLength(ps)..])
  }

  // ----- which pieces may stand where -----

  /** What a backslash escapes outside quotes. */
  predicate Escapable(c: char) {
    IsSpace(c) || IsQuote(c) || c == '\\'
  }

  /** Between quotes everything is itself but the quote, and a backslash where it would escape what follows. */
  predicate InnerFits(body: seq<Inner>, q: char) {
    body != [] ==>
      && InnerFits(body[1..], q)
      && match body[0]
         case Told(c) => c == q || c == '\\'
         case Kept(c) =>
           && c != q
           && (c == '\\' ==> var next := (InnerText(body[1..]) + [q])[0]; next != q && next != '\\')
  }

  predicate PieceFits(p: Piece, rest: string) {
    match p
    case Gap(c) => IsSpace(c)
    case Escape(c) => Escapable(c)
    case Quote(q, body) => IsQuote(q) && InnerFits(body, q)
    case Bare(c) =>
      if c == '\\' then rest == "" || !Escapable(rest[0])
      else !IsSpace(c) && !IsQuote(c) && !IsOperator(c)
  }

  predicate Fits(ps: seq<Piece>) {
    ps == [] || (PieceFits(ps[0], Text(ps[1..])) && Fits(ps[1..]))
  }

  // ----- the scan reads the words -----

  /** What a scan that has a word in progress makes of the rest. */
  function Onward(t: Scanner, ps: seq<Piece>): seq<string> {
    if t.started then t.tokens + [t.token + Means(ps[..WordLength(ps)])] + Words(ps[WordLength(ps)..])
    else t.tokens + Words(ps)
  }

  predicate Between(t: Scanner) {
    t.quote.None? && (!t.started ==> t.token == "")
  }

  /** Quotes and backslashes are no white space, and neither is the other. */
  lemma Kinds()
    ensures !IsSpace('\\') && !IsQuote('\\') && forall c | IsQuote(c) :: !IsSpace(c) && c != '\\'
  {
  }

  lemma Joined(a: string, b: string, c: string)
    ensures (a + b) + c == a + (b + c)
  {
  }

  /** A quoted stretch is read to its closing quote. */
  lemma {:induction false} ScanInner(body: seq<Inner>, q: char, rest: string, t: Scanner)
    requires t.quote == Some(q) && IsQuote(q) && InnerFits(body, q)
    ensures Scan(InnerText(body) + ([q] + rest), t) == Scan(rest, t.(token := t.token + InnerMeans(body), started := true, quote := None))
    decreases body
  {
    hide IsSpace, IsOperator, IsQuote, Scan;
    if body == [] {
      ScanClose(q, rest, t);
      assert "" + ([q] + rest) == [q] + rest && t.token + "" == t.token;
    } else {
      var c, tail := body[0].c, InnerText(body[1..]) + ([q] + rest);
      ScanInner(body[1..], q, rest, t.Add(c));
      assert t.token + [c] + InnerMeans(body[1..]) == t.token + InnerMeans(body);
      assert tail[0] == (InnerText(body[1..]) + [q])[0];
      var first := if body[0].Kept? then [c] else ['\\', c];
      Joined(first, InnerText(body[1..]), [q] + rest);
      ScanOne(body[0], q, tail, t);
    }
  }

  lemma ScanClose(q: char, rest: string, t: Scanner)
    requires t.quote == Some(q)
    ensures Scan([q] + rest, t) == Scan(rest, t.(quote := None, started := true))
  {
    assert ([q] + rest)[1..] == rest;
  }

  /** One character between quotes. */
  lemma ScanOne(i: Inner, q: char, tail: string, t: Scanner)
    requires t.quote == Some(q) && IsQuote(q) && tail != ""
    requires match i
             case Told(c) => c == q || c == '\\'
             case Kept(c) => c != q && (c == '\\' ==> tail[0] != q && tail[0] != '\\')
    ensures Scan((if i.Kept? then [i.c] else ['\\', i.c]) + tail, t) == Scan(tail, t.Add(i.c))
  {
    hide IsSpace, IsOperator;
    var s := (if i.Kept? then [i.c] else ['\\', i.c]) + tail;
    if i.Kept? { assert s[1..] == tail; } else { assert s[2..] == tail; }
  }

  /** One piece, read. */
  function Took(t: Scanner, p: Piece): Scanner {
    if p.Gap? then t.Push() else t.(token := t.token + PieceMeans(p), started := true)
  }

  lemma ScanPiece(p: Piece, rest: string, t: Scanner)
    requires t.quote.None? && PieceFits(p, rest)
    ensures Scan(PieceText(p) + rest, t) == Scan(rest, Took(t, p))
  {
    hide IsSpace, IsOperator, IsQuote, InnerFits, InnerText, InnerMeans;
    Kinds();
    var s := PieceText(p) + rest;
    match p
    case Gap(c) => assert s == [c] + rest && s[1..] == rest;
    case Bare(c) => assert s == [c] + rest && s[1..] == rest;
    case Escape(c) => assert s == ['\\', c] + rest && s[2..] == rest;
    case Quote(q, body) =>
      assert s == [q] + (InnerText(body) + ([q] + rest));
      assert s[1..] == InnerText(body) + ([q] + rest);
      ScanInner(body, q, rest, t.(quote := Some(q), started := true));
  }

  lemma OnwardPiece(t: Scanner, ps: seq<Piece>)
    requires ps != [] && Between(t)
    ensures Onward(Took(t, ps[0]), ps[1..]) == Onward(t, ps) && Between(Took(t, ps[0]))
  {
    if ps[0].Gap? {
      OnwardGap(t, ps);
    } else {
      OnwardWord(t, ps);
    }
  }

  lemma OnwardGap(t: Scanner, ps: seq<Piece>)
    requires ps != [] && ps[0].Gap? && Between(t)
    ensures Onward(t.Push(), ps[1..]) == Onward(t, ps)
  {
    assert ps[..0] == [] && ps[0..] == ps && t.token + "" == t.token;
    hide Means;
    assert Words(ps) == Words(ps[1..]);
    if t.started { assert Means(ps[..0]) == "" by { NothingMeant(); } }
  }

  lemma NothingMeant()
    ensures Means([]) == ""
  {
  }

  lemma OnwardWord(t: Scanner, ps: seq<Piece>)
    requires ps != [] && !ps[0].Gap? && Between(t)
    ensures Onward(Took(t, ps[0]), ps[1..]) == Onward(t, ps)
  {
    var p, rest, n := ps[0], ps[1..], WordLength(ps);
    assert ps[..n][1..] == rest[..n - 1] && ps[n..] == rest[n - 1..] && ps[..n][0] == p;
    assert Means(ps[..n]) == PieceMeans(p) + Means(rest[..n - 1]);
    assert Words(ps) == [Means(ps[..n])] + Words(ps[n..]);
    hide Means, Words, PieceMeans;
    Joined(t.token, PieceMeans(p), Means(rest[..n - 1]));
    if !t.started {
      assert "" + Means(ps[..n]) == Means(ps[..n]);
      assert t.tokens + ([Means(ps[..n])] + Words(ps[n..])) == t.tokens + [Means(ps[..n])] + Words(ps[n..]);
    }
  }

  lemma {:induction false} ScanReadsWords(ps: seq<Piece>, t: Scanner)
    requires Fits(ps) && Between(t)
    ensures var r := Scan(Text(ps), t); r.Some? && r.value.quote.None? && r.value.Push().tokens == Onward(t, ps)
    decreases ps
  {
    if ps == [] {
      assert t.token + "" == t.token;
    } else {
      hide Scan, Onward, PieceFits, Took, Text;
      OnwardPiece(t, ps);
      TextStep(ps);
      ScanPiece(ps[0], Text(ps[1..]), t);
      ScanReadsWords(ps[1..], Took(t, ps[0]));
    }
  }

  lemma TextStep(ps: seq<Piece>)
    requires ps != []
    ensures Text(ps) == PieceText(ps[0]) + Text(ps[1..])
  {
  }

  // ----- and every field the scan reads is spelled so -----

  /** From inside a quote, the scan that gets anywhere finds the quote's end. */
  lemma {:induction false} InnerSpelled(s: string, q: char, t: Scanner)
    requires t.quote == Some(q) && IsQuote(q) && Scan(s, t).Some? && Scan(s, t).value.quote.None?
    ensures exists body, rest :: InnerFits(body, q) && s == InnerText(body) + ([q] + rest)
    decreases |s|
  {
    hide IsSpace, IsOperator, IsQuote;
    assert s != "";
    if s[0] == q {
      assert s == InnerText([]) + ([q] + s[1..]);
    } else {
      var told := Escapes(s, t.quote);
      var n := if told then 2 else 1;
      InnerSpelled(s[n..], q, t.Add(s[n - 1]));
      var body, rest :| InnerFits(body, q) && s[n..] == InnerText(body) + ([q] + rest);
      InnerInFront(s, n, q, body, rest);
    }
  }

  lemma InnerInFront(s: string, n: nat, q: char, body: seq<Inner>, rest: string)
    requires s != "" && s[0] != q && n == (if Escapes(s, Some(q)) then 2 else 1) && n <= |s|
    requires InnerFits(body, q) && s[n..] == InnerText(body) + ([q] + rest)
    ensures exists more, rest' :: InnerFits(more, q) && s == InnerText(more) + ([q] + rest')
  {
    hide IsSpace, IsOperator, IsQuote;
    var more := [if n == 2 then Told(s[1]) else Kept(s[0])] + body;
    assert more[1..] == body;
    assert s == s[..n] + s[n..];
    assert InnerText(more) == s[..n] + InnerText(body);
    Joined(s[..n], InnerText(body), [q] + rest);
    if n == 1 { assert (InnerText(body) + [q])[0] == s[1..][0]; }
  }

  /** Whatever the scan reads to an end outside quotes is the text of fitting pieces. */
  lemma {:induction false} Spelled(s: string, t: Scanner)
    requires t.quote.None? && Scan(s, t).Some? && Scan(s, t).value.quote.None?
    ensures exists ps :: Fits(ps) && Text(ps) == s
    decreases |s|
  {
    hide Fits, Text, PieceFits, Scan, Took;
    if s == "" {
      NoPieces();
    } else {
      var p, rest := FirstPiece(s, t);
      ScanPiece(p, rest, t);
      assert Took(t, p).quote.None? by { TookOutside(t, p); }
      Spelled(rest, Took(t, p));
      Prefixed(p, rest, s);
    }
  }

  lemma TookOutside(t: Scanner, p: Piece)
    requires t.quote.None?
    ensures Took(t, p).quote.None?
  {
  }

  lemma NoPieces()
    ensures Fits([]) && Text([]) == "" && Words([]) == []
  {
  }

  /** The first piece of a field the scan reads. */
  lemma FirstPiece(s: string, t: Scanner) returns (p: Piece, rest: string)
    requires s != "" && t.quote.None? && Scan(s, t).Some? && Scan(s, t).value.quote.None?
    ensures PieceFits(p, rest) && s == PieceText(p) + rest && |rest| < |s|
  {
    hide IsSpace, IsOperator, IsQuote;
    Kinds();
    if IsQuote(s[0]) {
      var q := s[0];
      InnerSpelled(s[1..], q, t.(quote := Some(q), started := true));
      var body, after :| InnerFits(body, q) && s[1..] == InnerText(body) + ([q] + after);
      p, rest := Quote(q, body), after;
      assert s == [q] + s[1..];
      Joined([q] + InnerText(body), [q], rest);
      Joined([q], InnerText(body), [q] + rest);
    } else {
      var escaped := !IsSpace(s[0]) && Escapes(s, None);
      var n := if escaped then 2 else 1;
      p, rest := if IsSpace(s[0]) then Gap(s[0]) else if escaped then Escape(s[1]) else Bare(s[0]), s[n..];
      assert s == s[..n] + s[n..] && PieceText(p) == s[..n];
    }
  }

  lemma Prefixed(p: Piece, rest: string, s: string)
    requires PieceFits(p, rest) && s == PieceText(p) + rest && exists ps :: Fits(ps) && Text(ps) == rest
    ensures exists ps :: Fits(ps) && Text(ps) == s
  {
    var ps :| Fits(ps) && Text(ps) == rest;
    assert ([p] + ps)[1..] == ps;
    assert Fits([p] + ps) && Text([p] + ps) == s;
  }

  /**
   * A field parses to an argv exactly when it is the text of pieces that fit and mean those words, and
   * the words can be launched. So a field without a spelling is refused, and no two spellings of one
   * field mean different words.
   */
  lemma ParseReadsTheWords(s: string, argv: seq<string>)
    ensures Parse(s) == Some(argv) <==> Launchable(argv) && exists ps :: Fits(ps) && Text(ps) == s && Words(ps) == argv
  {
    if ps :| Fits(ps) && Text(ps) == s && Words(ps) == argv {
      ScanReadsWords(ps, BLANK);
      assert [] + Words(ps) == Words(ps);
    }
    if Parse(s) == Some(argv) {
      Spelled(s, BLANK);
      var ps :| Fits(ps) && Text(ps) == s;
      ScanReadsWords(ps, BLANK);
      assert [] + Words(ps) == Words(ps);
    }
  }

  // ----- plain fields -----

  /** Nothing that quotes, escapes, separates or operates. */
  predicate Plain(word: string) {
    forall c | c in word :: !IsSpace(c) && !IsQuote(c) && !IsOperator(c) && c != '\\'
  }

  /** Words written bare, each after some white space of its own; `gaps` has one more, for the end. */
  function PlainText(words: seq<string>, gaps: seq<string>): string
    requires |gaps| == |words| + 1
  {
    if words == [] then gaps[0] else gaps[0] + words[0] + PlainText(words[1..], gaps[1..])
  }

  function Bares(word: string): seq<Piece> {
    seq(|word|, i requires 0 <= i < |word| => Bare(word[i]))
  }

  function Gaps(gap: string): seq<Piece> {
    seq(|gap|, i requires 0 <= i < |gap| => Gap(gap[i]))
  }

  /** One piece more in front. */
  lemma Front(p: Piece, ps: seq<Piece>)
    requires Fits(ps) && PieceFits(p, Text(ps))
    ensures Fits([p] + ps) && Text([p] + ps) == PieceText(p) + Text(ps) && (p.Gap? ==> Words([p] + ps) == Words(ps))
  {
    assert ([p] + ps)[1..] == ps;
  }

  lemma {:induction false} BaresFit(word: string, ps: seq<Piece>)
    requires Plain(word) && Fits(ps)
    ensures Fits(Bares(word) + ps) && Text(Bares(word) + ps) == word + Text(ps)
    decreases word
  {
    hide IsSpace, IsOperator, IsQuote, Fits, Text;
    if word == "" {
      assert Bares(word) + ps == ps && word + Text(ps) == Text(ps);
    } else {
      var tail := word[1..];
      assert word == [word[0]] + tail && word[0] in word && forall c | c in tail :: c in word;
      BaresFit(tail, ps);
      Front(Bare(word[0]), Bares(tail) + ps);
      assert Bares(word) + ps == [Bare(word[0])] + (Bares(tail) + ps);
      Joined([word[0]], tail, Text(ps));
    }
  }

  lemma {:induction false} GapsFit(gap: string, ps: seq<Piece>)
    requires (forall c | c in gap :: IsSpace(c)) && Fits(ps)
    ensures Fits(Gaps(gap) + ps) && Text(Gaps(gap) + ps) == gap + Text(ps) && Words(Gaps(gap) + ps) == Words(ps)
    decreases gap
  {
    hide IsSpace, IsOperator, IsQuote, Fits, Text, Words;
    if gap == "" {
      assert Gaps(gap) + ps == ps && gap + Text(ps) == Text(ps);
    } else {
      var tail := gap[1..];
      assert gap == [gap[0]] + tail && gap[0] in gap && forall c | c in tail :: c in gap;
      GapsFit(tail, ps);
      Front(Gap(gap[0]), Gaps(tail) + ps);
      assert Gaps(gap) + ps == [Gap(gap[0])] + (Gaps(tail) + ps);
      Joined([gap[0]], tail, Text(ps));
    }
  }

  lemma {:induction false} BaresMean(word: string, ps: seq<Piece>)
    requires ps == [] || ps[0].Gap?
    ensures var all := Bares(word) + ps; WordLength(all) == |word| && Means(all[..|word|]) == word && all[|word|..] == ps
    decreases word
  {
    var all := Bares(word) + ps;
    if word != "" {
      var rest := Bares(word[1..]) + ps;
      BaresMean(word[1..], ps);
      assert all[1..] == rest && all[0] == Bare(word[0]);
      assert all[..|word|][1..] == rest[..|word| - 1] && all[|word|..] == rest[|word| - 1..];
      hide Bares;
      assert [word[0]] + word[1..] == word;
    }
  }

  /** The gaps between words are white space, and not empty; those at the ends may be. */
  predicate Apart(gaps: seq<string>) {
    && (forall i | 0 <= i < |gaps| :: forall c | c in gaps[i] :: IsSpace(c))
    && forall i | 0 < i < |gaps| - 1 :: gaps[i] != ""
  }

  lemma {:induction false} PlainSpelled(words: seq<string>, gaps: seq<string>)
    requires |gaps| == |words| + 1 && Apart(gaps) && forall i | 0 <= i < |words| :: words[i] != "" && Plain(words[i])
    ensures exists ps: seq<Piece> :: Fits(ps) && Text(ps) == PlainText(words, gaps) && Words(ps) == words
                         && (gaps[0] != "" ==> ps != [] && ps[0].Gap?) && (words == [] && gaps[0] == "" ==> ps == [])
    decreases words
  {
    hide Fits, Text, Words, Plain, IsSpace;
    var gap := gaps[0];
    if words == [] {
      NoPieces();
      GapsFit(gap, []);
      var ps := Gaps(gap) + [];
      assert Text(ps) == PlainText(words, gaps) && Words(ps) == words;
    } else {
      var rest := gaps[1..];
      assert forall i | 0 <= i < |rest| :: rest[i] == gaps[i + 1];
      PlainSpelled(words[1..], rest);
      var ps: seq<Piece> :| Fits(ps) && Text(ps) == PlainText(words[1..], rest) && Words(ps) == words[1..]
                && (rest[0] != "" ==> ps != [] && ps[0].Gap?) && (words[1..] == [] && rest[0] == "" ==> ps == []);
      WordInFront(words[0], gap, ps);
      assert gap + (words[0] + Text(ps)) == gap + words[0] + PlainText(words[1..], rest);
      assert [words[0]] + words[1..] == words;
    }
  }

  /** White space and a plain word before pieces that do not go on with it. */
  lemma WordInFront(w: string, gap: string, ps: seq<Piece>)
    requires w != "" && Plain(w) && (forall c | c in gap :: IsSpace(c)) && Fits(ps) && (ps == [] || ps[0].Gap?)
    ensures var all := Gaps(gap) + (Bares(w) + ps);
            Fits(all) && Text(all) == gap + (w + Text(ps)) && Words(all) == [w] + Words(ps) && (gap != "" ==> all[0].Gap?)
  {
    hide IsSpace, IsOperator, IsQuote, Fits, Text, Plain, Means;
    var word := Bares(w) + ps;
    BaresFit(w, ps);
    BaresMean(w, ps);
    assert word[0] == Bare(w[0]);
    GapsFit(gap, word);
  }

  /** An ordinary field, its words bare and apart by any white space, parses to those words if they can be launched. */
  lemma PlainFieldParses(words: seq<string>, gaps: seq<string>)
    requires |gaps| == |words| + 1 && Apart(gaps) && forall i | 0 <= i < |words| :: words[i] != "" && Plain(words[i])
    ensures Parse(PlainText(words, gaps)) == if words != [] && words[0][0] != '-' then Some(words) else None
  {
    hide Parse, PlainText, Fits, Words;
    PlainSpelled(words, gaps);
    ReadsOnly(PlainText(words, gaps), words);
  }

  /** A field with a spelling parses to nothing but the words it means. */
  lemma ReadsOnly(s: string, words: seq<string>)
    requires exists ps :: Fits(ps) && Text(ps) == s && Words(ps) == words
    ensures Parse(s) == if Launchable(words) then Some(words) else None
  {
    if Launchable(words) {
      ParseReadsTheWords(s, words);
    } else if Parse(s).Some? {
      var ps :| Fits(ps) && Text(ps) == s && Words(ps) == words;
      ScanReadsWords(ps, BLANK);
      assert [] + Words(ps) == Words(ps);
    }
  }
}
