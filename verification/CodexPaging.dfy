/**
 * Paging a rollout by byte windows. A window is cut back to its first complete
 * line, its records are keyed by absolute offset, and the pages, read newest
 * first, recombine to the whole file.
 */
module CodexPaging {
  import opened Options
  import opened CodexRecords

  newtype byte = x: int | 0 <= x < 256
  type Bytes = seq<byte>
  /** Decoding one line of the file. */
  type Decode = Bytes -> Decoded

  const NEWLINE: byte := 10

  /** The first newline of `s` at or after `from`, or `|s|`. */
  function IndexOf(s: Bytes, from: nat): (i: nat)
    requires from <= |s|
    ensures from <= i <= |s|
    ensures i < |s| ==> s[i] == NEWLINE
    ensures forall j | from <= j < i :: s[j] != NEWLINE
    decreases |s| - from
  {
    if from == |s| || s[from] == NEWLINE then from else IndexOf(s, from + 1)
  }

  /** The non-empty lines of `s` from `from` on, keyed by `base` plus their position. */
  function Lines(s: Bytes, from: nat, base: nat, decode: Decode): seq<Record>
    decreases |s| - from
  {
    if from >= |s| then []
    else
      var to := IndexOf(s, from);
      (if to > from then [RecordAt(base + from, decode(s[from..to]))] else []) + Lines(s, to + 1, base, decode)
  }

  /** A window's answer: where its first complete line starts, and its records; `None` without one. */
  datatype Window = Window(older: Option<nat>, records: seq<Record>) | NoCompleteLine

  function WindowOf(buf: Bytes, bufStart: nat, decode: Decode): Window {
    if bufStart == 0 then Window(None, Lines(buf, 0, 0, decode))
    else
      var nl := IndexOf(buf, 0);
      if nl + 1 >= |buf| then NoCompleteLine
      else Window(Some(bufStart + nl + 1), Lines(buf, nl + 1, bufStart, decode))
  }

  datatype Page = Page(messages: seq<Message>, older: Option<nat>, unmatched: Results, settings: Settings, noCompleteLine: bool)

  function PageOf(buf: Bytes, bufStart: nat, decode: Decode): Page {
    match WindowOf(buf, bufStart, decode)
    case NoCompleteLine => Page([], Some(bufStart), map[], Settings(None, None), true)
    case Window(older, records) => Page(Render(records, map[]), older, Left(records, map[]), LastTurn(records), false)
  }

  method FindNewline(s: Bytes, from: nat) returns (i: nat)
    requires from <= |s|
    ensures i == IndexOf(s, from)
  {
    i := from;
    while i < |s| && s[i] != NEWLINE
      invariant from <= i <= |s| && IndexOf(s, from) == IndexOf(s, i)
    {
      i := i + 1;
    }
  }

  /** One line further. */
  lemma LinesStep(s: Bytes, from: nat, base: nat, decode: Decode)
    requires from < |s|
    ensures var to := IndexOf(s, from);
            Lines(s, from, base, decode)
            == (if to > from then [RecordAt(base + from, decode(s[from..to]))] else []) + Lines(s, to + 1, base, decode)
  {
  }

  lemma NoLines(s: Bytes, from: nat, base: nat, decode: Decode)
    requires from >= |s|
    ensures Lines(s, from, base, decode) == []
  {
  }

  lemma Regroup<T>(a: seq<T>, b: seq<T>, c: seq<T>)
    ensures (a + b) + c == a + (b + c)
  {
  }

  /** The loop over the complete lines of a buffer. */
  method CollectRecords(buf: Bytes, bufStart: nat, first: nat, decode: Decode) returns (records: seq<Record>)
    ensures records == Lines(buf, first, bufStart, decode)
  {
    var from := first;
    records := [];
    while from < |buf|
      invariant Lines(buf, first, bufStart, decode) == records + Lines(buf, from, bufStart, decode)
      decreases |buf| - from
    {
      hide Lines;
      LinesStep(buf, from, bufStart, decode);
      var to := FindNewline(buf, from);
      ghost var rest := Lines(buf, to + 1, bufStart, decode);
      if to > from {
        var record := RecordAt(bufStart + from, decode(buf[from..to]));
        Regroup(records, [record], rest);
        records := records + [record];
      } else {
        assert [] + rest == rest;
      }
      from := to + 1;
    }
    assert records + [] == records;
  }

  /** Byte `o` begins a line that is not empty. */
  predicate Begins(s: Bytes, from: nat, o: nat) {
    from <= o < |s| && (o == from || s[o - 1] == NEWLINE) && s[o] != NEWLINE
  }

  /** The record is a line of its own place and bytes, up to its newline. */
  predicate IsLine(s: Bytes, from: nat, base: nat, decode: Decode, r: Record) {
    && r.offset >= base && Begins(s, from, r.offset - base)
    && r == RecordAt(r.offset, decode(s[r.offset - base..IndexOf(s, r.offset - base)]))
  }

  lemma LineFurther(s: Bytes, from: nat, base: nat, decode: Decode, r: Record)
    requires from < |s| && IsLine(s, IndexOf(s, from) + 1, base, decode, r)
    ensures IsLine(s, from, base, decode, r) && r.offset > base + IndexOf(s, from)
  {
  }

  /** Every record is a line of the buffer. */
  lemma {:induction false} RecordsAreLines(s: Bytes, from: nat, base: nat, decode: Decode)
    ensures forall r | r in Lines(s, from, base, decode) :: IsLine(s, from, base, decode, r)
    decreases |s| - from
  {
    if from < |s| {
      var to := IndexOf(s, from);
      LinesStep(s, from, base, decode);
      RecordsAreLines(s, to + 1, base, decode);
      forall r | r in Lines(s, from, base, decode) ensures IsLine(s, from, base, decode, r) {
        if r in Lines(s, to + 1, base, decode) { LineFurther(s, from, base, decode, r); }
      }
    }
  }

  /** The records stand in the order of their lines, none twice. */
  lemma {:induction false} RecordsRise(s: Bytes, from: nat, base: nat, decode: Decode)
    ensures var records := Lines(s, from, base, decode);
            forall k, l | 0 <= k < l < |records| :: records[k].offset < records[l].offset
    decreases |s| - from
  {
    if from < |s| {
      var to := IndexOf(s, from);
      LinesStep(s, from, base, decode);
      RecordsRise(s, to + 1, base, decode);
      RecordsAreLines(s, to + 1, base, decode);
      hide Lines, IndexOf;
      forall r | r in Lines(s, to + 1, base, decode) ensures r.offset > base + from { assert IsLine(s, to + 1, base, decode, r); }
    }
  }

  /** And every line that is not empty has its record. */
  lemma {:induction false} LinesAreRecords(s: Bytes, from: nat, base: nat, decode: Decode, o: nat)
    requires Begins(s, from, o)
    ensures exists r :: r in Lines(s, from, base, decode) && r.offset == base + o
    decreases |s| - from
  {
    hide Lines, IndexOf;
    var to := IndexOf(s, from);
    LinesStep(s, from, base, decode);
    if o == from {
      assert Lines(s, from, base, decode)[0].offset == base + o;
    } else {
      assert o > to;
      LinesAreRecords(s, to + 1, base, decode, o);
      var r :| r in Lines(s, to + 1, base, decode) && r.offset == base + o;
      assert r in Lines(s, from, base, decode);
    }
  }

  /** The reader of one window. */
  method ParseCodexChatWindow(buf: Bytes, bufStart: nat, decode: Decode) returns (page: Page)
    ensures page == PageOf(buf, bufStart, decode)
    ensures page.noCompleteLine <==> bufStart > 0 && forall i | 0 <= i < |buf| - 1 :: buf[i] != NEWLINE
    ensures page.noCompleteLine ==> page.messages == [] && page.unmatched == map[] && page.older == Some(bufStart)
    ensures !page.noCompleteLine ==> (page.older.None? <==> bufStart == 0)
    ensures !page.noCompleteLine && bufStart > 0 ==>
              var first := page.older.value - bufStart;
              0 < first < |buf| && buf[first - 1] == NEWLINE && forall i | 0 <= i < first - 1 :: buf[i] != NEWLINE
  {
    hide TellsAll, CarriesAll, Settled, Silents, Render, Left, LastTurn, Lines;
    var end := bufStart + |buf|;
    var from := 0;
    var olderCursor: Option<nat> := None;
    if bufStart > 0 {
      var nl := FindNewline(buf, 0);
      if nl == |buf| || bufStart + nl + 1 >= end {
        return Page([], Some(bufStart), map[], Settings(None, None), true);
      }
      from := nl + 1;
      olderCursor := Some(bufStart + from);
    }
    var records := CollectRecords(buf, bufStart, from, decode);
    var messages, unmatched, model, effort, _ := ParseCodexChatRecords(records);
    return Page(messages, olderCursor, unmatched, Settings(model, effort), false);
  }

  // ----- windows of one file -----

  /** The records of the file's bytes `from .. to`. */
  function FileRecords(file: Bytes, from: nat, to: nat, decode: Decode): seq<Record>
    requires to <= |file|
  {
    Lines(file[..to], from, 0, decode)
  }

  predicate LineStart(file: Bytes, at: nat)
    requires at <= |file|
  {
    at == 0 || file[at - 1] == NEWLINE
  }

  lemma {:induction false} IndexShifts(s: Bytes, cut: nat, from: nat)
    requires cut <= from <= |s|
    ensures IndexOf(s, from) == IndexOf(s[cut..], from - cut) + cut
    decreases |s| - from
  {
  }

  /** Lines of a buffer taken from the middle of a file are the file's lines there. */
  lemma {:induction false} LinesShift(s: Bytes, cut: nat, from: nat, decode: Decode)
    requires cut <= from && cut <= |s|
    ensures Lines(s[cut..], from - cut, cut, decode) == Lines(s, from, 0, decode)
    decreases |s| - from
  {
    hide Lines, IndexOf;
    var t := s[cut..];
    if from < |s| {
      IndexShifts(s, cut, from);
      var to := IndexOf(s, from);
      assert t[from - cut..to - cut] == s[from..to];
      LinesStep(s, from, 0, decode);
      LinesStep(t, from - cut, cut, decode);
      LinesShift(s, cut, to + 1, decode);
    } else {
      NoLines(s, from, 0, decode);
      NoLines(t, from - cut, cut, decode);
    }
  }

  lemma {:induction false} IndexWithin(s: Bytes, mid: nat, from: nat)
    requires from < mid <= |s| && s[mid - 1] == NEWLINE
    ensures IndexOf(s, from) == IndexOf(s[..mid], from) && IndexOf(s, from) < mid
    decreases mid - from
  {
  }

  /** Cutting a file at a line start cuts its records, each staying whole with its own offset. */
  lemma {:induction false} LinesSplit(s: Bytes, from: nat, mid: nat, decode: Decode)
    requires from <= mid <= |s| && (mid == from || s[mid - 1] == NEWLINE)
    ensures Lines(s, from, 0, decode) == Lines(s[..mid], from, 0, decode) + Lines(s, mid, 0, decode)
    decreases mid - from
  {
    hide Lines, IndexOf;
    if from < mid {
      IndexWithin(s, mid, from);
      var to := IndexOf(s, from);
      assert s[..mid][from..to] == s[from..to];
      LinesStep(s, from, 0, decode);
      LinesStep(s[..mid], from, 0, decode);
      LinesSplit(s, to + 1, mid, decode);
    } else {
      NoLines(s[..mid], from, 0, decode);
    }
  }

  /**
   * A window ending at `end` either reaches the start of the file, or its first complete line starts
   * strictly before `end`, at a line start, and splits the file's records there.
   */
  lemma WindowSplitsFile(file: Bytes, start: nat, end: nat, decode: Decode)
    requires start <= end <= |file|
    ensures var w := WindowOf(file[start..end], start, decode);
            w.Window? ==>
              if w.older.None? then w.records == FileRecords(file, 0, end, decode)
              else
                && w.older.value < end && LineStart(file, w.older.value)
                && w.records == FileRecords(file, w.older.value, end, decode)
                && FileRecords(file, 0, end, decode) == FileRecords(file, 0, w.older.value, decode) + w.records
  {
    hide Lines, IndexOf;
    var buf, whole := file[start..end], file[..end];
    assert buf == whole[start..];
    if start == 0 {
      assert buf == whole;
    } else {
      var nl := IndexOf(buf, 0);
      if nl + 1 < |buf| {
        var c := start + nl + 1;
        assert file[c - 1] == buf[nl] == NEWLINE;
        LinesShift(whole, start, c, decode);
        LinesSplit(whole, 0, c, decode);
        assert whole[..c] == file[..c];
      }
    }
  }

  /** A window answers exactly when it reaches the file's start or holds a newline before its last byte. */
  lemma AnswersExactlyWhen(file: Bytes, start: nat, end: nat, decode: Decode)
    requires start <= end <= |file|
    ensures WindowOf(file[start..end], start, decode).Window? <==> start == 0 || exists k | start <= k < end - 1 :: file[k] == NEWLINE
  {
  }

  // ----- a chain of pages -----

  /** The starts of the windows read one after the other, newest first, each ending at the last cursor. */
  predicate Chain(file: Bytes, end: nat, starts: seq<nat>, decode: Decode)
    requires end <= |file|
    decreases starts
  {
    if starts == [] then end == 0
    else
      starts[0] <= end &&
      var w := WindowOf(file[starts[0]..end], starts[0], decode);
      w.Window? &&
      if w.older.None? then |starts| == 1
      else w.older.value <= |file| && Chain(file, w.older.value, starts[1..], decode)
  }

  /** The pages of a chain, newest first, as records. */
  function Pages(file: Bytes, end: nat, starts: seq<nat>, decode: Decode): seq<seq<Record>>
    requires end <= |file| && Chain(file, end, starts, decode)
    decreases starts
  {
    if starts == [] then []
    else
      var w := WindowOf(file[starts[0]..end], starts[0], decode);
      [w.records] + if w.older.None? then [] else Pages(file, w.older.value, starts[1..], decode)
  }

  /** Older pages first. */
  function Concat(pages: seq<seq<Record>>): seq<Record> {
    if pages == [] then [] else Concat(pages[1..]) + pages[0]
  }

  /** However the windows fall, their pages hold each line of the file exactly once, at its offset. */
  lemma {:induction false} PagesAreTheFile(file: Bytes, end: nat, starts: seq<nat>, decode: Decode)
    requires end <= |file| && Chain(file, end, starts, decode)
    ensures Concat(Pages(file, end, starts, decode)) == FileRecords(file, 0, end, decode)
    decreases starts
  {
    if starts != [] {
      WindowSplitsFile(file, starts[0], end, decode);
      var w := WindowOf(file[starts[0]..end], starts[0], decode);
      if w.older.None? {
        assert Concat([w.records]) == w.records by { assert [w.records][1..] == []; }
      } else {
        PagesAreTheFile(file, w.older.value, starts[1..], decode);
        var rest := Pages(file, w.older.value, starts[1..], decode);
        assert ([w.records] + rest)[1..] == rest;
      }
    } else {
      assert file[..0] == [];
    }
  }

  // ----- the reader's thread -----

  /** What is on screen, and the outputs whose call is not loaded yet. */
  datatype Thread = Thread(messages: seq<Message>, pending: Results)

  /** An older page is put in front, with the outputs carried to it laid over it: the newer wins. */
  function Prepend(page: seq<Record>, t: Thread): Thread {
    Thread(Overlay(Render(page, map[]), t.pending) + t.messages, Left(page, map[]) + (t.pending - Called(page)))
  }

  function Load(pages: seq<seq<Record>>, t: Thread): Thread
    decreases pages
  {
    if pages == [] then t else Load(pages[1..], Prepend(pages[0], t))
  }

  /** A thread that shows `records` is the rendering of them with what they leave over. */
  predicate Holds(t: Thread, records: seq<Record>) {
    t == Thread(Render(records, map[]), Left(records, map[]))
  }

  lemma PrependHolds(page: seq<Record>, t: Thread, newer: seq<Record>)
    requires OneCallEach(page) && Holds(t, newer)
    ensures Holds(Prepend(page, t), page + newer)
  {
    var none: Results := map[];
    assert none + t.pending == t.pending;
    Compose(page, newer, map[]);
    CarryIsOverlay(page, map[], t.pending);
    CarriedOn(page, map[], t.pending);
  }

  lemma {:induction false} LoadHolds(pages: seq<seq<Record>>, t: Thread, newer: seq<Record>)
    requires (forall p | p in pages :: OneCallEach(p)) && Holds(t, newer)
    ensures Holds(Load(pages, t), Concat(pages) + newer)
    decreases pages
  {
    hide Holds, Prepend, OneCallEach;
    if pages == [] {
      assert Concat(pages) + newer == newer;
    } else {
      PrependHolds(pages[0], t, newer);
      LoadHolds(pages[1..], Prepend(pages[0], t), pages[0] + newer);
      assert Concat(pages[1..]) + (pages[0] + newer) == Concat(pages) + newer;
    }
  }

  lemma {:induction false} PagesKeepOneCall(pages: seq<seq<Record>>)
    requires OneCallEach(Concat(pages))
    ensures forall p | p in pages :: OneCallEach(p)
    decreases pages
  {
    if pages != [] {
      var all, rest := Concat(pages), Concat(pages[1..]);
      assert forall i | 0 <= i < |rest| :: all[i] == rest[i];
      assert forall i | 0 <= i < |pages[0]| :: all[|rest| + i] == pages[0][i];
      PagesKeepOneCall(pages[1..]);
    }
  }

  /**
   * For every file and every chain of windows down to its start, the pages read one by one show
   * exactly what parsing the whole file at once shows, for call ids used by one call each.
   */
  lemma PagingIsWholeFileParsing(file: Bytes, starts: seq<nat>, decode: Decode)
    requires Chain(file, |file|, starts, decode) && OneCallEach(FileRecords(file, 0, |file|, decode))
    ensures Load(Pages(file, |file|, starts, decode), Thread([], map[])).messages == PageOf(file, 0, decode).messages
  {
    var pages := Pages(file, |file|, starts, decode);
    PagesAreTheFile(file, |file|, starts, decode);
    assert file[..|file|] == file;
    PagesKeepOneCall(pages);
    LoadHolds(pages, Thread([], map[]), []);
    assert Concat(pages) + [] == Concat(pages);
  }
}
