/**
 * The two files of a local board log: the current one and one previous generation. Whatever fails,
 * together they hold a contiguous end of everything written, and reading them is reading one log.
 */
module BoardLogStore {
  import opened Options
  import opened BoardLog

  datatype Files = Files(cur: Option<Text>, prev: Option<Text>)

  /** What the file system let an append do: make the directory, rename, write. */
  datatype Io = Io(opens: bool, rotates: bool, writes: bool)

  function TextOf(file: Option<Text>): Text {
    if file.Some? then file.value else []
  }

  /** Everything the two files hold, oldest first. */
  function History<R>(c: Codec<R>, f: Files): seq<Entry<R>> {
    Stored(c, TextOf(f.prev)) + Stored(c, TextOf(f.cur))
  }

  predicate TooLarge(f: Files, incoming: nat) {
    f.cur.Some? && Bytes(f.cur.value) + incoming > MAX_BOARD_LOG_BYTES
  }

  function Rotated(f: Files, incoming: nat, rotates: bool): Files {
    if TooLarge(f, incoming) && rotates then Files(None, f.cur) else f
  }

  function Appended<R>(c: Codec<R>, f: Files, e: Entry<R>, io: Io): Files {
    var line := BuildLine(c, e);
    if !io.opens then f
    else
      var g := Rotated(f, |line|, io.rotates);
      if io.writes then g.(cur := Some(TextOf(g.cur) + line)) else g
  }

  /** A read of the files that could be read: of one log, unless its current file is missing. */
  function ReadOf<R>(c: Codec<R>, f: Files, ask: Ask): seq<Entry<R>> {
    if f.cur.None? then [] else Newest(History(c, f), ask)
  }

  /** The log of one project on the local disk. */
  class LocalLog<R(!new)> {
    const codec: Codec<R>
    var cur: Option<Text>
    var prev: Option<Text>

    constructor (codec: Codec<R>)
      ensures this.codec == codec && OnDisk() == Files(None, None)
    {
      this.codec := codec;
      cur, prev := None, None;
    }

    function OnDisk(): Files
      reads this
    {
      Files(cur, prev)
    }

    /** Move the current file aside when `incoming` more units would take it past its bound. */
    method RotateIfLarge(incoming: nat, rotates: bool)
      modifies this
      ensures OnDisk() == Rotated(old(OnDisk()), incoming, rotates)
    {
      if cur.None? { return; }
      var size := Bytes(cur.value);
      if size + incoming <= MAX_BOARD_LOG_BYTES { return; }
      if rotates {
        prev := cur;
        cur := None;
      }
    }

    /** Append one entry; the answer says whether it was written. */
    method Append(e: Entry<R>, io: Io) returns (ok: bool)
      modifies this
      ensures OnDisk() == Appended(codec, old(OnDisk()), e, io)
      ensures ok == (io.opens && io.writes)
    {
      var line := BuildLine(codec, e);
      if !io.opens { return false; }
      RotateIfLarge(|line|, io.rotates);
      if !io.writes { return false; }
      cur := Some(TextOf(cur) + line);
      return true;
    }

    /** Newest first, through the rotation boundary: the newest of the one log the two files make up. */
    method Read(all: bool, cap: Option<nat>, readsCur: bool, readsPrev: bool) returns (r: seq<Entry<R>>)
      ensures r == ReadOf(codec, Files(if readsCur then cur else None, if readsPrev then prev else None), Asked(all, cap))
    {
      hide Stored, Reverse;
      if cur.None? || !readsCur { return []; }
      var entries := ParseLines(codec, cur.value, all, cap);
      var n := if cap.Some? then cap.value else DEFAULT_CAP;
      NewestJoined(Stored(codec, TextOf(if readsPrev then prev else None)), Stored(codec, cur.value), Asked(all, cap));
      if !all && |entries| >= n { return entries; }
      if prev.None? || !readsPrev {
        NothingBefore(codec, Stored(codec, cur.value));
        return entries;
      }
      var older := ParseLines(codec, prev.value, true, None);
      var joined := entries + older;
      return if all then joined else joined[..Min(n, |joined|)];
    }
  }

  lemma NothingBefore<R>(c: Codec<R>, s: seq<Entry<R>>)
    ensures Stored(c, []) + s == s
  {
    NothingStored(c);
  }

  lemma NothingStored<R>(c: Codec<R>)
    ensures Stored(c, []) == []
    ensures forall s: seq<Entry<R>> {:trigger Stored(c, []) + s} :: Stored(c, []) + s == s
  {
    EmptySplit();
    var one: seq<Text> := Split([]);
    assert one[..0] == [] && EntryOf(c, one[0]) == None;
    assert Entries(c, one) == Entries(c, one[..0]) + [];
  }

  lemma ReverseJoined<T>(a: seq<T>, b: seq<T>)
    ensures Reverse(a + b) == Reverse(b) + Reverse(a)
  {
  }

  /** The newest of a joined log: what the newer part gives, and the older part only where that falls short. */
  lemma {:induction false} NewestJoined<T>(a: seq<T>, b: seq<T>, ask: Ask)
    ensures ask.Cap? && ask.cap <= |b| ==> Newest(a + b, ask) == Newest(b, ask)
    ensures ask.Cap? && ask.cap > |b| ==>
              var joined := Newest(b, ask) + Reverse(a); Newest(a + b, ask) == joined[..Min(ask.cap, |joined|)]
    ensures ask.All? ==> Newest(a + b, ask) == Newest(b, ask) + Reverse(a)
  {
    ReverseJoined(a, b);
    hide Reverse;
    if ask.Cap? && ask.cap > |b| { assert Reverse(b)[..|b|] == Reverse(b); }
  }

  // ----- whole runs -----

  /** An entry offered for writing, and what the file system did with it. */
  datatype Try<R> = Try(entry: Entry<R>, io: Io)

  function Run<R>(c: Codec<R>, tries: seq<Try<R>>): Files {
    if tries == [] then Files(None, None)
    else
      var t := tries[|tries| - 1];
      Appended(c, Run(c, tries[..|tries| - 1]), t.entry, t.io)
  }

  /** The entries reported as written, oldest first. */
  function Acknowledged<R>(tries: seq<Try<R>>): seq<Entry<R>> {
    if tries == [] then []
    else
      var t := tries[|tries| - 1];
      Acknowledged(tries[..|tries| - 1]) + if t.io.opens && t.io.writes then [ClampEntryText(t.entry)] else []
  }

  predicate EndOf<T(==)>(part: seq<T>, all: seq<T>) {
    |part| <= |all| && all[|all| - |part|..] == part
  }

  predicate WholeFiles(f: Files) {
    Whole(TextOf(f.cur)) && Whole(TextOf(f.prev))
  }

  lemma EndOfSum<T>(a: seq<T>, b: seq<T>, all: seq<T>)
    requires EndOf(a + b, all)
    ensures EndOf(b, all)
  {
    assert all[|all| - |b|..] == all[|all| - |a + b|..][|a|..];
    assert (a + b)[|a|..] == b;
  }

  lemma RotationKeepsTheEnd<R>(c: Codec<R>, f: Files, incoming: nat, rotates: bool, all: seq<Entry<R>>)
    requires EndOf(History(c, f), all)
    ensures EndOf(History(c, Rotated(f, incoming, rotates)), all)
  {
    hide Stored, EndOf, TooLarge;
    NothingStored(c);
    var older, newer := Stored(c, TextOf(f.prev)), Stored(c, TextOf(f.cur));
    EndOfSum(older, newer, all);
    assert newer + [] == newer;
  }

  lemma EndPush<T>(part: seq<T>, all: seq<T>, x: T)
    requires EndOf(part, all)
    ensures EndOf(part + [x], all + [x])
  {
  }

  lemma AppendKeepsTheEnd<R(!new)>(c: Codec<R>, f: Files, e: Entry<R>, io: Io, all: seq<Entry<R>>)
    requires Faithful(c) && WholeFiles(f) && EndOf(History(c, f), all)
    ensures WholeFiles(Appended(c, f, e, io))
    ensures EndOf(History(c, Appended(c, f, e, io)), all + if io.opens && io.writes then [ClampEntryText(e)] else [])
  {
    hide Faithful, Stored, Bytes, EndOf, TooLarge, ClampEntryText;
    var line := BuildLine(c, e);
    var g := Rotated(f, |line|, io.rotates);
    RotationKeepsTheEnd(c, f, |line|, io.rotates, all);
    if io.opens && io.writes {
      var x := ClampEntryText(e);
      AppendAddsOne(c, TextOf(g.cur), e);
      var older, newer := Stored(c, TextOf(g.prev)), Stored(c, TextOf(g.cur));
      assert older + (newer + [x]) == (older + newer) + [x];
      EndPush(older + newer, all, x);
    } else {
      assert all + [] == all;
    }
  }

  /**
   * Whatever is refused, cannot be rotated or cannot be written, after any run the two files hold a
   * contiguous end of the entries reported as written, each of them whole.
   */
  lemma {:induction false} FilesHoldTheEnd<R(!new)>(c: Codec<R>, tries: seq<Try<R>>)
    requires Faithful(c)
    ensures WholeFiles(Run(c, tries))
    ensures EndOf(History(c, Run(c, tries)), Acknowledged(tries))
  {
    if tries == [] {
      NothingStored(c);
      assert History(c, Files(None, None)) == [];
    } else {
      var before, t := tries[..|tries| - 1], tries[|tries| - 1];
      FilesHoldTheEnd(c, before);
      AppendKeepsTheEnd(c, Run(c, before), t.entry, t.io, Acknowledged(before));
    }
  }

  lemma NewestOfEnd<T>(part: seq<T>, all: seq<T>, n: nat)
    requires EndOf(part, all)
    ensures Newest(part, Cap(n)) == Newest(all, Cap(Min(n, |part|)))
    ensures Newest(part, All) == Newest(all, Cap(|part|))
  {
  }

  /**
   * After any run, a read is empty while there is no current file, and otherwise the newest entries
   * reported as written, newest first: as many as asked for, as far as the two files reach.
   */
  lemma ReadsLikeOneLog<R(!new)>(c: Codec<R>, tries: seq<Try<R>>, all: bool, cap: Option<nat>)
    requires Faithful(c)
    ensures var f, asked := Run(c, tries), Asked(all, cap);
            var reach := |History(c, f)|;
            && reach <= |Acknowledged(tries)|
            && ReadOf(c, f, asked)
               == if f.cur.None? then []
                  else Newest(Acknowledged(tries), Cap(if all then reach else Min(if cap.Some? then cap.value else 500, reach)))
  {
    var held := History(c, Run(c, tries));
    FilesHoldTheEnd(c, tries);
    NewestOfEnd(held, Acknowledged(tries), if all || cap.None? then DEFAULT_CAP else cap.value);
  }

  /**
   * There is a current file to read after every successful append; it goes missing exactly when a
   * rotation is followed by a write that fails, and then a read shows nothing of what is kept.
   */
  lemma MissingAfterAFailedWrite<R>(c: Codec<R>, f: Files, e: Entry<R>, io: Io)
    requires f.cur.Some?
    ensures Appended(c, f, e, io).cur.None? <==> io.opens && io.rotates && !io.writes && TooLarge(f, |BuildLine(c, e)|)
    ensures Appended(c, f, e, io).cur.None? ==> Appended(c, f, e, io).prev == f.cur
  {
  }

  // ----- size -----

  /** A file may grow to `bound`: no line is longer, and none has too many bytes over its units. */
  predicate Fits<R>(c: Codec<R>, e: Entry<R>, bound: nat) {
    Bytes(BuildLine(c, e)) <= bound && MAX_BOARD_LOG_BYTES + Bytes(BuildLine(c, e)) - |BuildLine(c, e)| <= bound
  }

  predicate Within(f: Files, bound: nat) {
    Bytes(TextOf(f.cur)) <= bound && Bytes(TextOf(f.prev)) <= bound
  }

  lemma AppendStaysWithin<R>(c: Codec<R>, f: Files, e: Entry<R>, io: Io, bound: nat)
    requires Within(f, bound) && io.rotates && Fits(c, e, bound)
    ensures Within(Appended(c, f, e, io), bound)
  {
    hide BuildLine;
    var line := BuildLine(c, e);
    BytesAdd(TextOf(Rotated(f, |line|, true).cur), line);
  }

  /** While renames succeed, neither file passes a bound every line fits. */
  lemma {:induction false} FilesStayBounded<R>(c: Codec<R>, tries: seq<Try<R>>, bound: nat)
    requires forall t | t in tries :: t.io.rotates && Fits(c, t.entry, bound)
    ensures Within(Run(c, tries), bound)
  {
    if tries != [] {
      var before, t := tries[..|tries| - 1], tries[|tries| - 1];
      assert t in tries && forall x | x in before :: x in tries;
      FilesStayBounded(c, before, bound);
      AppendStaysWithin(c, Run(c, before), t.entry, t.io, bound);
    }
  }

  /** Once there is a previous generation, the two files together hold more than one file's bound. */
  lemma {:induction false} PairHoldsTheBound<R>(c: Codec<R>, tries: seq<Try<R>>)
    requires forall t | t in tries :: t.io.opens && t.io.writes
    ensures var f := Run(c, tries); f.prev.Some? ==> Bytes(TextOf(f.prev)) + Bytes(TextOf(f.cur)) > MAX_BOARD_LOG_BYTES
  {
    if tries != [] {
      var before, t := tries[..|tries| - 1], tries[|tries| - 1];
      assert t in tries && forall x | x in before :: x in tries;
      PairHoldsTheBound(c, before);
      var line := BuildLine(c, t.entry);
      BytesAdd(TextOf(Run(c, before).cur), line);
      BytesBound(line);
      assert [] + line == line;
    }
  }

  /** With lines of ASCII no longer than the bound, a rotated log is always between one and two bounds. */
  lemma RotatedPairIsBetween<R>(c: Codec<R>, tries: seq<Try<R>>)
    requires forall t | t in tries :: t.io == Io(true, true, true)
    requires forall t | t in tries :: Ascii(BuildLine(c, t.entry)) && |BuildLine(c, t.entry)| <= MAX_BOARD_LOG_BYTES
    ensures var f := Run(c, tries);
            && Bytes(TextOf(f.cur)) <= 4_194_304
            && Bytes(TextOf(f.prev)) + Bytes(TextOf(f.cur)) <= 8_388_608
            && (f.prev.Some? ==> Bytes(TextOf(f.prev)) + Bytes(TextOf(f.cur)) > 4_194_304)
  {
    forall t | t in tries ensures Fits(c, t.entry, MAX_BOARD_LOG_BYTES) {
      BytesBound(BuildLine(c, t.entry));
    }
    FilesStayBounded(c, tries, MAX_BOARD_LOG_BYTES);
    PairHoldsTheBound(c, tries);
  }

  /**
   * The bound is checked in code units and kept in bytes. Of a file within it, the file after an append
   * passes it exactly when the line alone does, if the log rotates or there was none, and else when the
   * line's bytes do not fit; a line of ASCII then always fits.
   */
  lemma FilePassesItsBoundExactlyWhen<R>(c: Codec<R>, f: Files, e: Entry<R>)
    requires Bytes(TextOf(f.cur)) <= MAX_BOARD_LOG_BYTES
    ensures var line, after := BuildLine(c, e), Appended(c, f, e, Io(true, true, true));
            && (Bytes(TextOf(after.cur)) > MAX_BOARD_LOG_BYTES
                <==> if TooLarge(f, |line|) then Bytes(line) > MAX_BOARD_LOG_BYTES
                     else Bytes(TextOf(f.cur)) + Bytes(line) > MAX_BOARD_LOG_BYTES)
            && (f.cur.Some? && !TooLarge(f, |line|) && Ascii(line) ==> Bytes(TextOf(after.cur)) <= MAX_BOARD_LOG_BYTES)
  {
    var line := BuildLine(c, e);
    BytesAdd(TextOf(f.cur), line);
    BytesBound(line);
    assert [] + line == line;
  }

  /** A line that just fits takes the file past its bound exactly when it is not ASCII. */
  lemma BoundIsPassedByOtherScripts<R>(c: Codec<R>, f: Files, e: Entry<R>)
    requires f.cur.Some? && Bytes(f.cur.value) + |BuildLine(c, e)| == MAX_BOARD_LOG_BYTES
    ensures var after := Appended(c, f, e, Io(true, true, true));
            after.prev == f.prev && (Bytes(TextOf(after.cur)) > MAX_BOARD_LOG_BYTES <==> !Ascii(BuildLine(c, e)))
  {
    var line := BuildLine(c, e);
    FilePassesItsBoundExactlyWhen(c, f, e);
    BytesBound(line);
    if !Ascii(line) { WideBytes(line); }
  }

  /**
   * The two files after an append hold more than two bounds and the line exactly when they held more than
   * two bounds before it and the log does not rotate, or it rotates a file that alone did.
   */
  lemma PairPassesItsBoundExactlyWhen<R>(c: Codec<R>, f: Files, e: Entry<R>)
    ensures var line, after := BuildLine(c, e), Appended(c, f, e, Io(true, true, true));
            Bytes(TextOf(after.prev)) + Bytes(TextOf(after.cur)) > 2 * MAX_BOARD_LOG_BYTES + Bytes(line)
            <==> if TooLarge(f, |line|) then Bytes(TextOf(f.cur)) > 2 * MAX_BOARD_LOG_BYTES
                 else Bytes(TextOf(f.prev)) + Bytes(TextOf(f.cur)) > 2 * MAX_BOARD_LOG_BYTES
  {
    var line := BuildLine(c, e);
    BytesAdd(TextOf(f.cur), line);
    assert [] + line == line;
  }

  // ----- two files over a run -----

  /** How far an append of `e` takes the current file past its bound. */
  function Overfill<R>(c: Codec<R>, f: Files, e: Entry<R>): nat {
    var line := BuildLine(c, e);
    var size := (if TooLarge(f, |line|) then 0 else Bytes(TextOf(f.cur))) + Bytes(line);
    if size > MAX_BOARD_LOG_BYTES then size - MAX_BOARD_LOG_BYTES else 0
  }

  /** How far the run's last append overfilled its file. */
  function LastOverfill<R>(c: Codec<R>, tries: seq<Try<R>>): nat {
    if tries == [] then 0 else Overfill(c, Run(c, tries[..|tries| - 1]), tries[|tries| - 1].entry)
  }

  /** How far the last append before the newest rotation overfilled its file; none if nothing rotated. */
  function RotatedOverfill<R>(c: Codec<R>, tries: seq<Try<R>>): nat {
    if tries == [] then 0
    else
      var before := tries[..|tries| - 1];
      if TooLarge(Run(c, before), |BuildLine(c, tries[|tries| - 1].entry)|) then LastOverfill(c, before)
      else RotatedOverfill(c, before)
  }

  /** Everything succeeds and no line has more than `longest` bytes. */
  ghost predicate Successful<R>(c: Codec<R>, tries: seq<Try<R>>, longest: nat) {
    forall t | t in tries :: t.io == Io(true, true, true) && Bytes(BuildLine(c, t.entry)) <= longest
  }

  /** A file of `size` bytes is past its bound by `over`, or within it and `over` is nothing. */
  predicate PastBy(size: nat, over: nat) {
    if over > 0 then size == MAX_BOARD_LOG_BYTES + over else size <= MAX_BOARD_LOG_BYTES
  }

  lemma OneOverfill<R>(c: Codec<R>, f: Files, e: Entry<R>)
    ensures var after := Appended(c, f, e, Io(true, true, true));
            && PastBy(Bytes(TextOf(after.cur)), Overfill(c, f, e)) && Overfill(c, f, e) <= Bytes(BuildLine(c, e))
            && after.prev == if TooLarge(f, |BuildLine(c, e)|) then f.cur else f.prev
  {
    hide BuildLine, Bytes;
    var line := BuildLine(c, e);
    NothingTaken();
    BytesAdd(TextOf(f.cur), line);
    assert [] + line == line;
  }

  lemma NothingTaken()
    ensures Bytes(TextOf(None)) == 0
  {
  }

  /** Only the last line of a file passes its bound, by what its append overfilled. */
  lemma {:induction false} RunOverfills<R>(c: Codec<R>, tries: seq<Try<R>>, longest: nat)
    requires Successful(c, tries, longest)
    ensures var f := Run(c, tries);
            && PastBy(Bytes(TextOf(f.cur)), LastOverfill(c, tries)) && LastOverfill(c, tries) <= longest
            && PastBy(Bytes(TextOf(f.prev)), RotatedOverfill(c, tries)) && RotatedOverfill(c, tries) <= longest
  {
    hide Bytes, BuildLine, Overfill, TooLarge, Appended;
    if tries == [] {
      NothingTaken();
    } else {
      var before, t := tries[..|tries| - 1], tries[|tries| - 1];
      assert t in tries && forall x | x in before :: x in tries;
      RunOverfills(c, before, longest);
      OneOverfill(c, Run(c, before), t.entry);
    }
  }

  /**
   * Over every run of successful appends from nothing, the two files hold more than two bounds and the
   * longest line exactly when what the last append overfilled, and what the last one before the newest
   * rotation did, come to more than that line.
   */
  lemma RunPassesTwoBoundsExactlyWhen<R>(c: Codec<R>, tries: seq<Try<R>>, longest: nat)
    requires Successful(c, tries, longest)
    ensures PassesTwoBoundsAndALine(c, tries, longest) <==> RotatedOverfill(c, tries) + LastOverfill(c, tries) > longest
  {
    hide Run, Bytes, LastOverfill, RotatedOverfill;
    RunOverfills(c, tries, longest);
  }

  /** No line takes more than two bytes a unit on the average. */
  ghost predicate Narrow<R>(c: Codec<R>, tries: seq<Try<R>>) {
    forall t | t in tries :: Bytes(BuildLine(c, t.entry)) <= 2 * |BuildLine(c, t.entry)|
  }

  lemma NarrowOverfill<R>(c: Codec<R>, f: Files, e: Entry<R>, longest: nat)
    requires Bytes(BuildLine(c, e)) <= longest <= 2 * MAX_BOARD_LOG_BYTES && Bytes(BuildLine(c, e)) <= 2 * |BuildLine(c, e)|
    ensures 2 * Overfill(c, f, e) <= longest
  {
    hide BuildLine, Bytes;
    NothingTaken();
  }

  lemma {:induction false} NarrowOverfills<R>(c: Codec<R>, tries: seq<Try<R>>, longest: nat)
    requires Successful(c, tries, longest) && Narrow(c, tries) && longest <= 2 * MAX_BOARD_LOG_BYTES
    ensures 2 * LastOverfill(c, tries) <= longest && 2 * RotatedOverfill(c, tries) <= longest
  {
    hide Bytes, BuildLine, Overfill, TooLarge, Run;
    if tries != [] {
      var before, t := tries[..|tries| - 1], tries[|tries| - 1];
      assert t in tries && forall x | x in before :: x in tries;
      NarrowOverfills(c, before, longest);
      NarrowOverfill(c, Run(c, before), t.entry, longest);
    }
  }

  /**
   * Lines of at most two bytes a unit, none longer than two bounds, keep the two files within two bounds
   * and the longest line over every run of successful appends.
   */
  lemma NarrowLinesKeepThePromise<R>(c: Codec<R>, tries: seq<Try<R>>, longest: nat)
    requires Successful(c, tries, longest) && Narrow(c, tries) && longest <= 2 * MAX_BOARD_LOG_BYTES
    ensures Bytes(TextOf(Run(c, tries).prev)) + Bytes(TextOf(Run(c, tries).cur)) <= 2 * MAX_BOARD_LOG_BYTES + longest
  {
    hide Run, Bytes, LastOverfill, RotatedOverfill;
    NarrowOverfills(c, tries, longest);
    RunPassesTwoBoundsExactlyWhen(c, tries, longest);
  }

  // ----- a run that passes two bounds and a line -----

  function Good<R>(e: Entry<R>): Try<R> {
    Try(e, Io(true, true, true))
  }

  /** What `n` lines of `k` units take. */
  function Room(n: nat, k: nat): nat {
    n * k
  }

  lemma Distribute(n: nat, k: nat)
    requires n > 0
    ensures Room(n, k) == Room(n - 1, k) + k
  {
  }

  /** `n` appends of `e` after `tries`. */
  function Again<R>(tries: seq<Try<R>>, e: Entry<R>, n: nat): seq<Try<R>> {
    if n == 0 then tries else Again(tries, e, n - 1) + [Good(e)]
  }

  lemma RunPush<R>(c: Codec<R>, tries: seq<Try<R>>, e: Entry<R>)
    ensures Run(c, tries + [Good(e)]) == Appended(c, Run(c, tries), e, Io(true, true, true))
  {
    assert (tries + [Good(e)])[..|tries|] == tries;
  }

  /** While they fit, ASCII lines fill the current file and nothing rotates. */
  lemma {:induction false} Fills<R>(c: Codec<R>, tries: seq<Try<R>>, e: Entry<R>, n: nat)
    requires Ascii(BuildLine(c, e))
    requires Bytes(TextOf(Run(c, tries).cur)) + Room(n, |BuildLine(c, e)|) <= MAX_BOARD_LOG_BYTES
    ensures var f, before := Run(c, Again(tries, e, n)), Run(c, tries);
            f.prev == before.prev && Bytes(TextOf(f.cur)) == Bytes(TextOf(before.cur)) + Room(n, |BuildLine(c, e)|)
            && (n > 0 || before.cur.Some? ==> f.cur.Some?)
  {
    if n > 0 {
      var line, last := BuildLine(c, e), Again(tries, e, n - 1);
      Distribute(n, |line|);
      Fills(c, tries, e, n - 1);
      RunPush(c, last, e);
      BytesAdd(TextOf(Run(c, last).cur), line);
      BytesBound(line);
      hide Run, BuildLine, Bytes, Room;
    }
  }

  /** Small lines as long as the wide one still fits in units, and then the wide one. */
  function Round<R>(tries: seq<Try<R>>, small: Entry<R>, n: nat, wide: Entry<R>): seq<Try<R>> {
    Again(tries, small, n) + [Good(wide)]
  }

  lemma RoundSize<R>(c: Codec<R>, tries: seq<Try<R>>, small: Entry<R>, n: nat, wide: Entry<R>)
    requires Ascii(BuildLine(c, small)) && (n > 0 || Run(c, tries).cur.Some?)
    requires Bytes(TextOf(Run(c, tries).cur)) + Room(n, |BuildLine(c, small)|) + |BuildLine(c, wide)| <= MAX_BOARD_LOG_BYTES
    ensures var f, before := Run(c, Round(tries, small, n, wide)), Run(c, tries);
            && f.prev == before.prev && f.cur.Some?
            && Bytes(TextOf(f.cur)) == Bytes(TextOf(before.cur)) + Room(n, |BuildLine(c, small)|) + Bytes(BuildLine(c, wide))
  {
    hide Room;
    Fills(c, tries, small, n);
    RunPush(c, Again(tries, small, n), wide);
    BytesAdd(TextOf(Run(c, Again(tries, small, n)).cur), BuildLine(c, wide));
  }

  /** Everything succeeds, no line has more than `longest` bytes, and the files hold more than two bounds and that. */
  ghost predicate PassesTwoBoundsAndALine<R>(c: Codec<R>, tries: seq<Try<R>>, longest: nat) {
    && Successful(c, tries, longest)
    && Bytes(TextOf(Run(c, tries).prev)) + Bytes(TextOf(Run(c, tries).cur)) > 2 * MAX_BOARD_LOG_BYTES + longest
  }

  /**
   * Two files can hold more than two bounds and the longest line written: fill a file with small ASCII
   * lines, let a line of a wide script pass its bound, and do so again after the rotation that follows.
   * `n` is how many small lines leave room for the wide one.
   */
  lemma PairCanPassTwoBoundsAndALine<R>(c: Codec<R>, small: Entry<R>, wide: Entry<R>, n: nat)
    requires Ascii(BuildLine(c, small))
    requires n > 0 && Room(n, |BuildLine(c, small)|) + |BuildLine(c, wide)| <= MAX_BOARD_LOG_BYTES
             < Room(n + 1, |BuildLine(c, small)|) + |BuildLine(c, wide)|
    requires Bytes(BuildLine(c, wide)) >= 2 * |BuildLine(c, wide)| + 2 * |BuildLine(c, small)|
    ensures PassesTwoBoundsAndALine(c, Two(small, n, wide), Bytes(BuildLine(c, wide)))
  {
    hide Room, Two, Run, Bytes, Again, Round;
    assert Room(n + 1, |BuildLine(c, small)|) == Room(n, |BuildLine(c, small)|) + |BuildLine(c, small)| by {
      Distribute(n + 1, |BuildLine(c, small)|);
    }
    LinesOfTwo(c, small, n, wide);
    SizeOfTwo(c, small, n, wide);
  }

  /** Two files filled alike. */
  function Two<R>(small: Entry<R>, n: nat, wide: Entry<R>): seq<Try<R>>
    requires n > 0
  {
    Round(Again(Round([], small, n, wide), small, 1), small, n - 1, wide)
  }

  lemma LinesOfTwo<R>(c: Codec<R>, small: Entry<R>, n: nat, wide: Entry<R>)
    requires n > 0 && Ascii(BuildLine(c, small)) && Bytes(BuildLine(c, wide)) >= |BuildLine(c, small)|
    ensures forall t | t in Two(small, n, wide) :: t.io == Io(true, true, true) && Bytes(BuildLine(c, t.entry)) <= Bytes(BuildLine(c, wide))
  {
    var first := Round([], small, n, wide);
    BytesBound(BuildLine(c, small));
    OnlyThese([], small, n, wide);
    OnlyThese(first, small, 1, wide);
    OnlyThese(Again(first, small, 1), small, n - 1, wide);
  }

  lemma SizeOfTwo<R>(c: Codec<R>, small: Entry<R>, n: nat, wide: Entry<R>)
    requires Ascii(BuildLine(c, small)) && n > 0
    requires var s, w := |BuildLine(c, small)|, |BuildLine(c, wide)|;
             Room(n, s) + w <= MAX_BOARD_LOG_BYTES < Room(n + 1, s) + w && Bytes(BuildLine(c, wide)) >= w + s
    ensures var f := Run(c, Two(small, n, wide));
            Bytes(TextOf(f.prev)) == Bytes(TextOf(f.cur)) == Room(n, |BuildLine(c, small)|) + Bytes(BuildLine(c, wide))
  {
    hide Room, Bytes, BuildLine, Run, Ascii, Appended, TextOf, Again, Round;
    var s := BuildLine(c, small);
    var first := Round([], small, n, wide);
    var rotated := Again(first, small, 1);
    BytesBound(s);
    Distribute(n, |s|);
    Distribute(n + 1, |s|);
    FirstFile(c, small, n, wide);
    RotatesOver(c, first, small);
    RoundSize(c, rotated, small, n - 1, wide);
  }

  lemma FirstFile<R>(c: Codec<R>, small: Entry<R>, n: nat, wide: Entry<R>)
    requires Ascii(BuildLine(c, small)) && n > 0
    requires Room(n, |BuildLine(c, small)|) + |BuildLine(c, wide)| <= MAX_BOARD_LOG_BYTES
    ensures var f := Run(c, Round([], small, n, wide));
            f.cur.Some? && Bytes(TextOf(f.cur)) == Room(n, |BuildLine(c, small)|) + Bytes(BuildLine(c, wide))
  {
    RoundSize(c, [], small, n, wide);
  }

  /** The next append to a file past its bound finds the log rotated. */
  lemma RotatesOver<R>(c: Codec<R>, tries: seq<Try<R>>, e: Entry<R>)
    requires Run(c, tries).cur.Some? && Bytes(TextOf(Run(c, tries).cur)) > MAX_BOARD_LOG_BYTES
    ensures var f := Run(c, Again(tries, e, 1));
            f.cur.Some? && f.prev == Run(c, tries).cur && TextOf(f.cur) == BuildLine(c, e)
  {
    assert Again(tries, e, 0) == tries;
    RunPush(c, tries, e);
    assert [] + BuildLine(c, e) == BuildLine(c, e);
  }

  lemma {:induction false} OnlyThese<R>(tries: seq<Try<R>>, small: Entry<R>, n: nat, wide: Entry<R>)
    ensures forall t | t in Again(tries, small, n) :: t in tries || t == Good(small)
    ensures forall t | t in Round(tries, small, n, wide) :: t in tries || t == Good(small) || t == Good(wide)
  {
    if n > 0 { OnlyThese(tries, small, n - 1, wide); }
  }

  /** Such a run exists, in a format that reads back: one letter a line, and a thousand ellipses. */
  lemma TwoBoundsAndALineArePassed()
    ensures exists c: Codec<()>, tries, longest :: Faithful(c) && PassesTwoBoundsAndALine(c, tries, longest)
  {
    EllipsesPass((MAX_BOARD_LOG_BYTES - 1004) / 5);
  }

  lemma EllipsesPass(n: nat)
    requires n == (MAX_BOARD_LOG_BYTES - 1004) / 5
    ensures exists c: Codec<()>, tries, longest :: Faithful(c) && PassesTwoBoundsAndALine(c, tries, longest)
  {
    var c := Braces();
    var small, wide := Entry(Some([65]), ()), Entry(Some(Ellipses(1000)), ());
    BraceLines(1000);
    BracesAreFaithful();
    assert Room(n, 5) == 5 * n && Room(n + 1, 5) == 5 * n + 5;
    hide Room, Run, Two, Bytes, BuildLine, Braces, Ellipses, Ascii, Faithful;
    PairCanPassTwoBoundsAndALine(c, small, wide, n);
  }

  const BACKSLASH: unit := 0x5C
  const NO_TEXT: unit := 0x30
  const SOME_TEXT: unit := 0x31

  /** Newlines and backslashes escaped by a backslash. */
  function Escaped(s: Text): Text {
    if s == [] then []
    else (if s[0] == NEWLINE then [BACKSLASH, 0x6E] else if s[0] == BACKSLASH then [BACKSLASH, BACKSLASH] else [s[0]]) + Escaped(s[1..])
  }

  function Unescaped(s: Text): Text {
    if |s| < 2 || s[0] != BACKSLASH then if s == [] then [] else [s[0]] + Unescaped(s[1..])
    else [if s[1] == BACKSLASH then BACKSLASH else NEWLINE] + Unescaped(s[2..])
  }

  lemma {:induction false} EscapedReadsBack(s: Text)
    ensures Unescaped(Escaped(s)) == s && NEWLINE !in Escaped(s)
  {
    if s != [] {
      var e := Escaped(s[1..]);
      EscapedReadsBack(s[1..]);
      if s[0] == NEWLINE || s[0] == BACKSLASH { assert Escaped(s)[2..] == e; } else { assert Escaped(s)[1..] == e; }
    }
  }

  const HEAD: Text := [0x7B, SOME_TEXT]
  const TAIL: Text := [0x7D]

  /** In braces: a mark for whether there is a text, and the text escaped. */
  function Braced(e: Entry<()>): Text {
    if e.text.Some? then HEAD + Escaped(e.text.value) + TAIL else [0x7B, NO_TEXT, 0x7D]
  }

  function Unbraced(t: Text): Option<Entry<()>> {
    if |t| < 3 then None else Some(Entry(if t[1] == SOME_TEXT then Some(Unescaped(t[2..|t| - 1])) else None, ()))
  }

  function Braces(): Codec<()> {
    Codec(Braced, Unbraced)
  }

  lemma BracedReadsBack(e: Entry<()>)
    ensures Unbraced(Braced(e)) == Some(e) && NEWLINE !in Braced(e)
  {
    var t := Braced(e);
    assert e.rest == ();
    if e.text.Some? {
      EscapedReadsBack(e.text.value);
      assert t[2..|t| - 1] == Escaped(e.text.value);
    }
  }

  lemma BracesAreFaithful()
    ensures Faithful(Braces())
  {
    forall e: Entry<()> ensures Unbraced(Braced(e)) == Some(e) && NEWLINE !in Braced(e) {
      BracedReadsBack(e);
    }
    hide Escaped, Unescaped;
  }

  function Ellipses(n: nat): Text {
    seq(n, _ => ELLIPSIS)
  }

  lemma {:induction false} EllipsesBytes(n: nat)
    ensures Bytes(Ellipses(n)) == 3 * n
  {
    if n > 0 {
      assert Ellipses(n)[..n - 1] == Ellipses(n - 1) && Ellipses(n)[n - 1] == ELLIPSIS;
      EllipsesBytes(n - 1);
    }
  }

  lemma {:induction false} EllipsesArePlain(n: nat)
    ensures Escaped(Ellipses(n)) == Ellipses(n)
  {
    if n > 0 {
      assert Ellipses(n)[1..] == Ellipses(n - 1) && Ellipses(n) == [ELLIPSIS] + Ellipses(n - 1);
      EllipsesArePlain(n - 1);
    }
  }

  /** The line of a short text in which nothing is escaped. */
  lemma BracedLine(text: Text)
    requires Escaped(text) == text && |text| <= TEXT_MAX
    ensures BuildLine(Braces(), Entry(Some(text), ())) == HEAD + text + TAIL + [NEWLINE]
  {
    hide Escaped;
  }

  lemma BracedBytes(text: Text)
    ensures Bytes(HEAD + text + TAIL + [NEWLINE]) == Bytes(text) + 4
  {
    hide Bytes;
    BytesAdd(HEAD + text + TAIL, [NEWLINE]);
    BytesAdd(HEAD + text, TAIL);
    BytesAdd(HEAD, text);
    BytesBound(HEAD);
    BytesBound(TAIL);
    BytesBound([NEWLINE]);
  }

  lemma BraceLines(n: nat)
    requires n <= TEXT_MAX
    ensures var s, w := BuildLine(Braces(), Entry(Some([65]), ())), BuildLine(Braces(), Entry(Some(Ellipses(n)), ()));
            Ascii(s) && |s| == 5 && |w| == n + 4 && Bytes(w) == 3 * n + 4
  {
    hide BuildLine, Bytes, Escaped;
    assert Escaped([65]) == [65] by { OneLetter(); }
    EllipsesArePlain(n);
    EllipsesBytes(n);
    BracedLine([65]);
    BracedLine(Ellipses(n));
    BracedBytes(Ellipses(n));
  }

  lemma OneLetter()
    ensures Escaped([65]) == [65]
  {
  }

  lemma {:induction false} WideBytes(s: Text)
    requires !Ascii(s)
    ensures Bytes(s) > |s|
  {
    var i :| 0 <= i < |s| && s[i] >= 0x80;
    var before := s[..|s| - 1];
    BytesBound(before);
    if i < |before| {
      assert before[i] == s[i];
      WideBytes(before);
    }
  }
}
