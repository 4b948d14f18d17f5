/**
 * Outside edits adopted while a write is in flight: exactly which of them the
 * file loses, and a run that loses one.
 */
module CanvasEdits {
  import opened Options
  import opened CanvasModel
  import opened CanvasDurability

  /** The weaker promise for runs with edits at any time: clean content is what the file holds. */
  ghost predicate Saved<C, M>(w: World<C, M>) {
    w.p.held.Some? ==>
      var h := w.p.held.value;
      && (!h.dirty && h.flushing.None? ==> h.content == w.disk && h.unflushed == [])
      && (h.flushing.Some? ==> h.flushing.value.written <= |h.unflushed|)
      && (h.flushing.Some? && !h.dirty ==> h.content == h.flushing.value.snapshot && h.flushing.value.written == |h.unflushed|)
  }

  ghost predicate Allowed<C, M>(w: World<C, M>, s: Step<C, M>) {
    && Enabled(w.p, s)
    && (s.Seeded? ==> s.loaded == w.disk)
    && (s.ReadDone? && s.content.Some? ==> s.content.value == w.disk)
    && (s.OutsideEdit? && w.p.held.Some? ==> Governs(w.p))
  }

  /** Every echo the order accepts changes nothing over `c`. */
  predicate NoChange<C, M>(apply: Reducer<C, M>, c: C, echoes: seq<Echo<M>>) {
    forall i | 0 <= i < |echoes| && echoes[i].accepted :: apply(c, echoes[i].op).None?
  }

  /**
   * An edit of a governed project while a write of something else is in flight, nothing is dirty or
   * unflushed, and the published difference, as it echoes, changes nothing over the edit.
   */
  ghost predicate Forgotten<C, M>(apply: Reducer<C, M>, w: World<C, M>, s: Step<C, M>) {
    && s.OutsideEdit? && Governs(w.p) && w.p.held.Some?
    && var h := w.p.held.value;
       && h.flushing.Some? && h.unflushed == [] && !h.dirty
       && NoChange(apply, s.edit, s.echoes) && s.edit != h.flushing.value.snapshot
  }

  lemma ApplyToSaved<C, M>(apply: Reducer<C, M>, w: World<C, M>, m: M)
    requires Saved(w) && w.p.held.Some?
    ensures Saved(w.(p := w.p.(held := Some(ApplyTo(apply, w.p.held.value, m, w.p.stopped)))))
  {
  }

  lemma {:induction false} ApplyAllSaved<C, M>(apply: Reducer<C, M>, h: Held<C, M>, ops: seq<M>, stopped: bool)
    requires h.flushing.None? && (!h.dirty ==> h.unflushed == [])
    ensures var h' := ApplyAll(apply, h, ops, stopped);
            h'.flushing.None? && (!h'.dirty ==> h'.content == h.content && h'.unflushed == [])
  {
    if ops != [] { ApplyAllSaved(apply, h, ops[..|ops| - 1], stopped); }
  }

  /** What echoes can do to an edited project: at most add ops, and then it is dirty. */
  lemma {:induction false} EchoesSaved<C, M>(apply: Reducer<C, M>, p: Project<C, M>, echoes: seq<Echo<M>>)
    requires Governs(p) && p.held.Some?
    ensures var p' := ReflectAll(apply, p, echoes);
            && p' == p.(held := p'.held) && p'.held.Some? && p'.held.value.flushing == p.held.value.flushing
            && p.held.value.unflushed <= p'.held.value.unflushed
            && (p.held.value.dirty ==> p'.held.value.dirty)
            && (!p'.held.value.dirty ==> p'.held.value.content == p.held.value.content && p'.held.value.unflushed == p.held.value.unflushed)
  {
    if echoes != [] { EchoesSaved(apply, p, echoes[..|echoes| - 1]); }
  }

  /** Echoes over clean content change it, log something and dirty it, or do none of the three. */
  lemma {:induction false} EchoesChangeAllOrNothing<C, M>(apply: Reducer<C, M>, p: Project<C, M>, echoes: seq<Echo<M>>)
    requires Governs(p) && p.held.Some? && p.held.value.unflushed == [] && !p.held.value.dirty
    ensures var p' := ReflectAll(apply, p, echoes);
            p'.held.Some? &&
            if NoChange(apply, p.held.value.content, echoes) then p' == p
            else p'.held.value.unflushed != [] && p'.held.value.dirty
  {
    if echoes != [] {
      var before, last := echoes[..|echoes| - 1], echoes[|echoes| - 1];
      EchoesChangeAllOrNothing(apply, p, before);
      EchoesSaved(apply, p, before);
      var c := p.held.value.content;
      assert NoChange(apply, c, echoes) <==> NoChange(apply, c, before) && (last.accepted ==> apply(c, last.op).None?) by {
        assert forall i | 0 <= i < |before| :: before[i] == echoes[i];
      }
    }
  }

  lemma EditSaved<C, M>(apply: Reducer<C, M>, w: World<C, M>, s: Step<C, M>)
    requires Saved(w) && Allowed(w, s) && s.OutsideEdit?
    ensures Saved(NextWorld(apply, w, s)) <==> !Forgotten(apply, w, s)
  {
    if w.p.held.Some? {
      var h := w.p.held.value;
      var edited := w.p.(held := Some(h.(content := Fold(apply, s.edit, h.unflushed))));
      EchoesSaved(apply, edited, s.echoes);
      if h.unflushed == [] && !h.dirty { EchoesChangeAllOrNothing(apply, edited, s.echoes); }
    }
  }

  /**
   * Over every step, edits during a write included, clean content stays what the file holds, except
   * exactly for an edit adopted during a write with nothing left to write after it.
   */
  lemma StepKeepsSaved<C, M>(apply: Reducer<C, M>, w: World<C, M>, s: Step<C, M>)
    requires Saved(w) && Allowed(w, s)
    ensures Saved(NextWorld(apply, w, s)) <==> !Forgotten(apply, w, s)
  {
    if s.OutsideEdit? { EditSaved(apply, w, s); }
    else if s.Op? || s.Oversized? { OpSaved(apply, w, s); }
    else if s.Seeded? || s.ReadDone? { AdoptionSaved(apply, w, s); }
    else { OtherSaved(apply, w, s); }
  }

  lemma OpSaved<C, M>(apply: Reducer<C, M>, w: World<C, M>, s: Step<C, M>)
    requires Saved(w) && Allowed(w, s) && (s.Op? || s.Oversized?)
    ensures Saved(NextWorld(apply, w, s))
  {
    if w.p.held.Some? { ApplyToSaved(apply, w, if s.Op? then s.op else s.big); }
  }

  lemma AdoptionSaved<C, M>(apply: Reducer<C, M>, w: World<C, M>, s: Step<C, M>)
    requires Saved(w) && Allowed(w, s) && (s.Seeded? || s.ReadDone?)
    ensures Saved(NextWorld(apply, w, s))
  {
    var c := if s.Seeded? then Some(s.loaded) else s.content;
    if c.Some? { ApplyAllSaved(apply, Adopted(c.value), w.p.queued, w.p.stopped); }
  }

  lemma OtherSaved<C, M>(apply: Reducer<C, M>, w: World<C, M>, s: Step<C, M>)
    requires Saved(w) && Allowed(w, s) && !s.OutsideEdit? && !s.Op? && !s.Oversized? && !s.Seeded? && !s.ReadDone?
    ensures Saved(NextWorld(apply, w, s))
  {
  }

  /** That edit is then lost from the file: the write lands over it and the project is clean. */
  lemma ForgottenEditIsOverwritten<C, M>(apply: Reducer<C, M>, w: World<C, M>, s: Step<C, M>)
    requires Saved(w) && Allowed(w, s) && Forgotten(apply, w, s)
    ensures Enabled(NextWorld(apply, w, s).p, WriteDone(true))
    ensures var after := NextWorld(apply, NextWorld(apply, w, s), WriteDone(true));
            after.p.held.Some? && !after.p.held.value.dirty && after.p.held.value.flushing.None?
            && after.p.held.value.unflushed == [] && after.p.held.value.content == s.edit && after.disk == w.p.held.value.flushing.value.snapshot != s.edit
  {
    var h := w.p.held.value;
    EchoesChangeAllOrNothing(apply, w.p.(held := Some(h.(content := s.edit))), s.echoes);
    assert Fold(apply, s.edit, h.unflushed) == s.edit;
  }

  /**
   * An edit that had no baseline starts the adoption; what is left of it once the file is read finds the
   * edit already in the content under the queued ops, and no difference to publish.
   */
  lemma AdoptedEditChangesNothing<C, M>(apply: Reducer<C, M>, w: World<C, M>)
    requires Inv(apply, w) && Governs(w.p) && w.p.held.Some?
    ensures var h, e := w.p.held.value, Edited(apply, w.p, w.disk, []);
            && e.held.Some? && e.held.value.content == h.content && e.held.value.unflushed == h.unflushed
            && (e.held.value.dirty <==> h.dirty || h.unflushed != [])
  {
  }

  // ----- whole runs -----

  ghost predicate AllowedRun<C, M>(apply: Reducer<C, M>, w: World<C, M>, steps: seq<Step<C, M>>)
    decreases steps
  {
    steps == [] || (Allowed(w, steps[0]) && AllowedRun(apply, NextWorld(apply, w, steps[0]), steps[1..]))
  }

  ghost function After<C, M>(apply: Reducer<C, M>, w: World<C, M>, steps: seq<Step<C, M>>): World<C, M>
    requires AllowedRun(apply, w, steps)
    decreases steps
  {
    if steps == [] then w else After(apply, NextWorld(apply, w, steps[0]), steps[1..])
  }

  ghost predicate ForgetsNothing<C, M>(apply: Reducer<C, M>, w: World<C, M>, steps: seq<Step<C, M>>)
    requires AllowedRun(apply, w, steps)
    decreases steps
  {
    steps == [] || (!Forgotten(apply, w, steps[0]) && ForgetsNothing(apply, NextWorld(apply, w, steps[0]), steps[1..]))
  }

  /** Over every run that forgets no edit, outside edits at any time, clean content is what the file holds. */
  lemma {:induction false} CleanIsSaved<C, M>(apply: Reducer<C, M>, w: World<C, M>, steps: seq<Step<C, M>>)
    requires Saved(w) && AllowedRun(apply, w, steps) && ForgetsNothing(apply, w, steps)
    ensures Saved(After(apply, w, steps))
    decreases steps
  {
    if steps != [] {
      StepKeepsSaved(apply, w, steps[0]);
      CleanIsSaved(apply, NextWorld(apply, w, steps[0]), steps[1..]);
    }
  }

  lemma AfterOne<C, M>(apply: Reducer<C, M>, w: World<C, M>, s: Step<C, M>, rest: seq<Step<C, M>>)
    requires Allowed(w, s) && AllowedRun(apply, NextWorld(apply, w, s), rest)
    ensures AllowedRun(apply, w, [s] + rest) && After(apply, w, [s] + rest) == After(apply, NextWorld(apply, w, s), rest)
  {
    assert ([s] + rest)[1..] == rest;
  }

  /** The steps of the run below: adopt, write an op, edit during the write, write that, edit again, land. */
  function LosingRun<C, M>(disk: C, m: M, first: C, echoes: seq<Echo<M>>, second: C, echoes': seq<Echo<M>>): seq<Step<C, M>> {
    [Contact] + ([ReadDone(Some(disk))] + ([Op(m, true)] + ([FlushNow] + ([OutsideEdit(first, echoes)]
    + ([WriteDone(true)] + ([FlushNow] + ([OutsideEdit(second, echoes')] + ([WriteDone(true)] + []))))))))
  }

  function Sharing<C, M>(h: Held<C, M>): Project<C, M> {
    Project(true, false, false, [], Some(h))
  }

  /** Dirty content with one op unflushed, a write of `was` in flight or not. */
  function Owing<C, M>(c: C, m: M, flushing: Option<Flight<C>>): Project<C, M> {
    Sharing(Held(c, [m], true, true, true, false, 0, flushing))
  }

  /** A write of clean content in flight. */
  function Writing<C, M>(c: C, unflushed: seq<M>): Project<C, M> {
    Sharing(Held(c, unflushed, false, false, false, false, 0, Some(Flight(c, |unflushed|))))
  }

  lemma OpOwes<C, M>(apply: Reducer<C, M>, disk: C, m: M)
    requires apply(disk, m).Some?
    ensures Next(apply, Sharing<C, M>(Adopted(disk)), Op(m, true)) == Owing(Reduce(apply, disk, m), m, None)
  {
    assert [] + [m] == [m];
  }

  lemma FlushWrites<C, M>(apply: Reducer<C, M>, c: C, unflushed: seq<M>)
    ensures Next(apply, Sharing(Held(c, unflushed, true, true, true, false, 0, None)), FlushNow) == Writing(c, unflushed)
  {
  }

  lemma EditOwes<C, M>(apply: Reducer<C, M>, was: C, m: M, edit: C, echoes: seq<Echo<M>>)
    requires NoChange(apply, Reduce(apply, edit, m), echoes)
    ensures Next(apply, Writing(was, [m]), OutsideEdit(edit, echoes)) == Owing(Reduce(apply, edit, m), m, Some(Flight(was, 1)))
  {
    var c := Reduce(apply, edit, m);
    assert [] + [m] == [m];
    assert Fold(apply, edit, [m]) == c by { FoldPush(apply, edit, [], m); }
    QuietEchoes(apply, Sharing(Held(c, [m], false, false, false, false, 0, Some(Flight(was, 1)))), echoes);
    hide Fold, ReflectAll, NoChange;
  }

  lemma LandingStaysDirty<C, M>(apply: Reducer<C, M>, c: C, m: M, was: C)
    ensures Next(apply, Owing(c, m, Some(Flight(was, 1))), WriteDone(true)) == Sharing(Held(c, [], true, true, true, false, 0, None))
  {
    assert [m][1..] == [];
  }

  lemma Adoption<C, M>(apply: Reducer<C, M>, disk: C)
    ensures var w := Untouched<C, M>(true, disk);
            && Allowed(w, Contact)
            && var w1 := NextWorld(apply, w, Contact);
               && Allowed(w1, ReadDone(Some(disk)))
               && NextWorld(apply, w1, ReadDone(Some(disk))).p == Sharing<C, M>(Adopted(disk))
  {
  }

  lemma {:induction false} QuietEchoes<C, M>(apply: Reducer<C, M>, p: Project<C, M>, echoes: seq<Echo<M>>)
    requires Governs(p) && p.held.Some? && NoChange(apply, p.held.value.content, echoes)
    ensures ReflectAll(apply, p, echoes) == p
  {
    if echoes != [] {
      assert forall i | 0 <= i < |echoes| - 1 :: echoes[..|echoes| - 1][i] == echoes[i];
      QuietEchoes(apply, p, echoes[..|echoes| - 1]);
    }
  }

  /**
   * It happens from a project nobody has touched: for every op that changes something and any two edits
   * that differ, each published as ops that change nothing over content already in place, the run ends
   * with the file holding the first edit, the project holding the second, and nothing owed.
   */
  lemma ForgottenIsReachable<C, M>(apply: Reducer<C, M>, disk: C, m: M, first: C, echoes: seq<Echo<M>>, second: C, echoes': seq<Echo<M>>)
    requires apply(disk, m).Some? && second != Reduce(apply, first, m)
    requires NoChange(apply, Reduce(apply, first, m), echoes) && NoChange(apply, second, echoes')
    ensures var steps := LosingRun(disk, m, first, echoes, second, echoes');
            AllowedRun(apply, Untouched(true, disk), steps) &&
            var w := After(apply, Untouched(true, disk), steps);
            && w.disk == Reduce(apply, first, m)
            && w.p.held.Some? && w.p.held.value.content == second
            && !w.p.held.value.dirty && w.p.held.value.flushing.None? && w.p.held.value.unflushed == []
  {
    hide Next, Reduce, LogAfter, Restarts, Forgotten, NoChange, Saved, Fold, AllowedRun, After;
    Adoption(apply, disk);
    OpOwes(apply, disk, m);
    FlushWrites(apply, Reduce(apply, disk, m), [m]);
    EditOwes(apply, Reduce(apply, disk, m), m, first, echoes);
    LandingStaysDirty(apply, Reduce(apply, first, m), m, Reduce(apply, disk, m));
    FlushWrites<C, M>(apply, Reduce(apply, first, m), []);
    var s5, s8 := OutsideEdit(first, echoes), OutsideEdit(second, echoes');
    var landed: Step<C, M> := WriteDone(true);
    var w0 := Untouched<C, M>(true, disk);
    var w1 := NextWorld(apply, w0, Contact);
    var w2 := NextWorld(apply, w1, ReadDone(Some(disk)));
    var w3 := NextWorld(apply, w2, Op(m, true));
    var w4 := NextWorld(apply, w3, FlushNow);
    var w5 := NextWorld(apply, w4, s5);
    var w6 := NextWorld(apply, w5, landed);
    var w7 := NextWorld(apply, w6, FlushNow);
    SecondIsForgotten(apply, w7, second, echoes');
    ForgottenEditIsOverwritten(apply, w7, s8);
    var w8 := NextWorld(apply, w7, s8);
    NothingMore(apply, NextWorld(apply, w8, landed));
    AfterOne(apply, w8, landed, []);
    AfterOne(apply, w7, s8, [landed] + []);
    var r := [s8] + ([landed] + []);
    AfterOne(apply, w6, FlushNow, r);
    AfterOne(apply, w5, landed, [FlushNow] + r);
    AfterOne(apply, w4, s5, [landed] + ([FlushNow] + r));
    r := [s5] + ([landed] + ([FlushNow] + r));
    AfterOne(apply, w3, FlushNow, r);
    AfterOne(apply, w2, Op(m, true), [FlushNow] + r);
    AfterOne(apply, w1, ReadDone(Some(disk)), [Op(m, true)] + ([FlushNow] + r));
    AfterOne(apply, w0, Contact, [ReadDone(Some(disk))] + ([Op(m, true)] + ([FlushNow] + r)));
  }

  lemma NothingMore<C, M>(apply: Reducer<C, M>, w: World<C, M>)
    ensures AllowedRun(apply, w, []) && After(apply, w, []) == w
  {
  }

  /** With a write of clean content in flight, an edit to anything else is one the file loses. */
  lemma SecondIsForgotten<C, M>(apply: Reducer<C, M>, w: World<C, M>, edit: C, echoes: seq<Echo<M>>)
    requires w.p.held.Some? && Governs(w.p)
    requires var h := w.p.held.value; h.flushing == Some(Flight(h.content, 0)) && h.unflushed == [] && !h.dirty && edit != h.content
    requires NoChange(apply, edit, echoes)
    ensures var s := OutsideEdit(edit, echoes); Saved(w) && Allowed(w, s) && Forgotten(apply, w, s)
  {
  }
}
