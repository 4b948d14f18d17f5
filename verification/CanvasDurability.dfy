/**
 * What every run of the canvas authority keeps: the content is the fold of the
 * ops not yet written over the file, the file is the fold of a prefix of the
 * total order, dirty state always has a timer, and adoption loses no op.
 */
module CanvasDurability {
  import opened Options
  import opened CanvasModel

  // ----- folding -----

  lemma {:induction false} FoldSplit<C, M>(apply: Reducer<C, M>, c: C, a: seq<M>, b: seq<M>)
    ensures Fold(apply, c, a + b) == Fold(apply, Fold(apply, c, a), b)
  {
    if b == [] {
      assert a + b == a;
    } else {
      assert (a + b)[..|a + b| - 1] == a + b[..|b| - 1];
      FoldSplit(apply, c, a, b[..|b| - 1]);
    }
  }

  lemma FoldPush<C, M>(apply: Reducer<C, M>, c: C, ops: seq<M>, m: M)
    ensures Fold(apply, c, ops + [m]) == Reduce(apply, Fold(apply, c, ops), m)
  {
  }

  // ----- a project together with its file and its history -----

  /**
   * `disk` is the file. Since the content `base` was read or edited in, the ops `log` were applied;
   * the file holds the first `durable` of them, and a write in flight carries the first `upto`.
   * While a first read is pending, `log` is what was accepted since first contact.
   */
  datatype World<C, M> = World(p: Project<C, M>, disk: C, base: C, log: seq<M>, durable: nat, upto: nat)

  function Ops<M>(echoes: seq<Echo<M>>): seq<M> {
    if echoes == [] then []
    else Ops(echoes[..|echoes| - 1]) + (if echoes[|echoes| - 1].accepted then [echoes[|echoes| - 1].op] else [])
  }

  /** What the step does to the history, given the project after it. */
  function LogAfter<C, M>(w: World<C, M>, s: Step<C, M>, p': Project<C, M>): seq<M> {
    if p'.held.None? && !p'.adopting then []
    else match s
      case Op(m, accepted) => if Governs(w.p) && accepted then w.log + [m] else w.log
      case Oversized(m) => if Governs(w.p) && w.p.held.Some? then w.log + [m] else w.log
      case OutsideEdit(_, echoes) =>
        if Governs(w.p) && w.p.held.Some? then w.p.held.value.unflushed + Ops(echoes) else w.log
      case _ => w.log
  }

  predicate Restarts<C, M>(w: World<C, M>, s: Step<C, M>, p': Project<C, M>) {
    || (w.p.held.None? && p'.held.Some?)
    || (s.OutsideEdit? && Governs(w.p) && w.p.held.Some?)
  }

  function NextWorld<C, M>(apply: Reducer<C, M>, w: World<C, M>, s: Step<C, M>): World<C, M>
    requires Enabled(w.p, s)
  {
    var p' := Next(apply, w.p, s);
    var landed := s.WriteDone? && s.ok;
    var disk' := if landed then w.p.held.value.flushing.value.snapshot else if s.OutsideEdit? then s.edit else w.disk;
    var log' := LogAfter(w, s, p');
    var started := p'.held.Some? && p'.held.value.flushing.Some? && (w.p.held.None? || w.p.held.value.flushing.None?);
    World(p', disk',
          if Restarts(w, s, p') then disk' else w.base,
          log',
          if Restarts(w, s, p') then 0 else if landed then w.upto else w.durable,
          if started then |log'| else w.upto)
  }

  /** Reads and loads see the file; only an adopted project's file is edited from outside, and not mid-write. */
  ghost predicate Orderly<C, M>(w: World<C, M>, s: Step<C, M>) {
    && Enabled(w.p, s)
    && (s.Seeded? ==> s.loaded == w.disk)
    && (s.ReadDone? && s.content.Some? ==> s.content.value == w.disk)
    && (s.OutsideEdit? && w.p.held.Some? ==> Governs(w.p) && w.p.held.value.flushing.None?)
  }

  // ----- the invariant -----

  predicate TimerPending<C, M>(h: Held<C, M>) {
    h.quiet || h.max || h.retry
  }

  ghost predicate Durable<C, M>(apply: Reducer<C, M>, h: Held<C, M>, disk: C, stopped: bool) {
    && h.content == Fold(apply, disk, h.unflushed)
    && (h.dirty || h.flushing.Some? <==> h.unflushed != [])
    && (h.flushing.Some? ==>
          var f := h.flushing.value;
          && 1 <= f.written <= |h.unflushed|
          && f.snapshot == Fold(apply, disk, h.unflushed[..f.written])
          && (h.dirty <==> f.written < |h.unflushed|))
    && (h.dirty && h.flushing.None? && !stopped ==> TimerPending(h))
  }

  ghost predicate Recorded<C, M>(apply: Reducer<C, M>, w: World<C, M>) {
    w.p.held.Some? ==>
      var h := w.p.held.value;
      && h.content == Fold(apply, w.base, w.log)
      && w.durable <= |w.log| && w.disk == Fold(apply, w.base, w.log[..w.durable])
      && (h.flushing.Some? ==>
            w.durable <= w.upto <= |w.log| && h.flushing.value.snapshot == Fold(apply, w.base, w.log[..w.upto]))
  }

  ghost predicate Adopting<C, M>(w: World<C, M>) {
    && !(w.p.adopting && w.p.held.Some?)
    && (w.p.adopting ==> w.p.queued == w.log)
    && (!w.p.adopting ==> w.p.queued == [])
    && (!w.p.adopting && w.p.held.None? ==> w.log == [])
  }

  ghost predicate Inv<C, M>(apply: Reducer<C, M>, w: World<C, M>) {
    && (w.p.held.Some? ==> Durable(apply, w.p.held.value, w.disk, w.p.stopped))
    && Recorded(apply, w)
    && Adopting(w)
  }

  // ----- its parts -----

  lemma ApplyToDurable<C, M>(apply: Reducer<C, M>, h: Held<C, M>, m: M, disk: C, stopped: bool)
    requires Durable(apply, h, disk, stopped)
    ensures var h' := ApplyTo(apply, h, m, stopped);
            && Durable(apply, h', disk, stopped) && h'.content == Reduce(apply, h.content, m)
            && h.unflushed <= h'.unflushed && h'.flushing == h.flushing
  {
    var h' := ApplyTo(apply, h, m, stopped);
    FoldPush(apply, disk, h.unflushed, m);
    if h'.flushing.Some? {
      var n := h'.flushing.value.written;
      assert h'.unflushed[..n] == h.unflushed[..n];
    }
  }

  lemma {:induction false} ApplyAllDurable<C, M>(apply: Reducer<C, M>, h: Held<C, M>, ops: seq<M>, disk: C, stopped: bool)
    requires Durable(apply, h, disk, stopped)
    ensures var h' := ApplyAll(apply, h, ops, stopped);
            && Durable(apply, h', disk, stopped) && h'.content == Fold(apply, h.content, ops)
            && h.unflushed <= h'.unflushed && h'.flushing == h.flushing
  {
    if ops != [] {
      ApplyAllDurable(apply, h, ops[..|ops| - 1], disk, stopped);
      ApplyToDurable(apply, ApplyAll(apply, h, ops[..|ops| - 1], stopped), ops[|ops| - 1], disk, stopped);
    }
  }

  /** The same content, ops and write in flight: only timers may differ. */
  ghost predicate SameWork<C, M>(h: Held<C, M>, h': Held<C, M>) {
    h'.content == h.content && h'.unflushed == h.unflushed && h'.dirty == h.dirty && h'.flushing == h.flushing
  }

  /** A flush starts a write of everything unwritten, or lets a clean unshared project go. */
  lemma FlushKeeps<C, M>(apply: Reducer<C, M>, w: World<C, M>, p: Project<C, M>)
    requires Inv(apply, w) && p.adopting == w.p.adopting && p.queued == w.p.queued && p.stopped == w.p.stopped
    requires p.held.Some? == w.p.held.Some? && (p.held.Some? ==> SameWork(w.p.held.value, p.held.value))
    ensures var p' := Flush(p);
            var started := p'.held.Some? && p'.held.value.flushing.Some? && w.p.held.value.flushing.None?;
            Inv(apply, w.(p := p', log := if p'.held.None? && !p'.adopting then [] else w.log,
                          upto := if started then |w.log| else w.upto))
  {
    if p.held.Some? && p.held.value.dirty && p.held.value.flushing.None? {
      var h := p.held.value;
      assert h.unflushed[..|h.unflushed|] == h.unflushed;
      assert w.log[..|w.log|] == w.log;
    }
  }

  /** A write that landed moves the file by exactly the ops its snapshot held. */
  lemma LandedDurable<C, M>(apply: Reducer<C, M>, p: Project<C, M>, disk: C, ok: bool)
    requires p.held.Some? && p.held.value.flushing.Some? && Durable(apply, p.held.value, disk, p.stopped)
    ensures var p' := Landed(p, ok);
            var h := p.held.value;
            var disk' := if ok then h.flushing.value.snapshot else disk;
            && (p'.held.Some? ==> Durable(apply, p'.held.value, disk', p.stopped)
                                  && p'.held.value.content == h.content && p'.held.value.flushing.None?)
            && (p'.held.None? ==> ok && disk' == h.content)
  {
    var h := p.held.value;
    var f := h.flushing.value;
    FoldSplit(apply, disk, h.unflushed[..f.written], h.unflushed[f.written..]);
    assert h.unflushed[..f.written] + h.unflushed[f.written..] == h.unflushed;
  }

  lemma {:induction false} ReflectAllDurable<C, M>(apply: Reducer<C, M>, p: Project<C, M>, echoes: seq<Echo<M>>, disk: C)
    requires Governs(p) && p.held.Some? && Durable(apply, p.held.value, disk, p.stopped)
    ensures var p' := ReflectAll(apply, p, echoes);
            && p' == p.(held := p'.held) && p'.held.Some?
            && Durable(apply, p'.held.value, disk, p.stopped)
            && p'.held.value.content == Fold(apply, p.held.value.content, Ops(echoes))
            && p'.held.value.flushing == p.held.value.flushing
  {
    if echoes != [] {
      var before, last := echoes[..|echoes| - 1], echoes[|echoes| - 1];
      ReflectAllDurable(apply, p, before, disk);
      if last.accepted {
        ApplyToDurable(apply, ReflectAll(apply, p, before).held.value, last.op, disk, p.stopped);
        FoldPush(apply, p.held.value.content, Ops(before), last.op);
      } else {
        assert Ops(before) + [] == Ops(before);
      }
    }
  }

  // ----- every step keeps it -----

  lemma OpStep<C, M>(apply: Reducer<C, M>, w: World<C, M>, s: Step<C, M>)
    requires Inv(apply, w) && Orderly(w, s) && (s.Op? || s.Oversized?)
    ensures Inv(apply, NextWorld(apply, w, s))
  {
    if w.p.held.Some? {
      HeldOpStep(apply, w, s);
    }
  }

  lemma LogOneMore<C, M>(apply: Reducer<C, M>, w: World<C, M>, m: M)
    requires Recorded(apply, w) && w.p.held.Some?
    ensures Fold(apply, w.base, w.log + [m]) == Reduce(apply, w.p.held.value.content, m)
    ensures (w.log + [m])[..w.durable] == w.log[..w.durable]
    ensures w.p.held.value.flushing.Some? ==> (w.log + [m])[..w.upto] == w.log[..w.upto]
  {
    FoldPush(apply, w.base, w.log, m);
  }

  /** An op over a held project is logged, or refused and leaves everything alone. */
  lemma HeldOpShape<C, M>(apply: Reducer<C, M>, w: World<C, M>, s: Step<C, M>)
    requires Enabled(w.p, s) && (s.Op? || s.Oversized?) && w.p.held.Some?
    ensures var w', m := NextWorld(apply, w, s), if s.Op? then s.op else s.big;
            || w' == w
            || w' == w.(p := w.p.(held := Some(ApplyTo(apply, w.p.held.value, m, w.p.stopped))), log := w.log + [m])
  {
  }

  lemma AppliedIsRecorded<C, M>(apply: Reducer<C, M>, w: World<C, M>, m: M)
    requires Recorded(apply, w) && w.p.held.Some?
    ensures Recorded(apply, w.(p := w.p.(held := Some(ApplyTo(apply, w.p.held.value, m, w.p.stopped))), log := w.log + [m]))
  {
    LogOneMore(apply, w, m);
  }

  lemma HeldOpStep<C, M>(apply: Reducer<C, M>, w: World<C, M>, s: Step<C, M>)
    requires Inv(apply, w) && Orderly(w, s) && (s.Op? || s.Oversized?) && w.p.held.Some?
    ensures Inv(apply, NextWorld(apply, w, s))
  {
    var m := if s.Op? then s.op else s.big;
    HeldOpShape(apply, w, s);
    AppliedIsRecorded(apply, w, m);
    ApplyToDurable(apply, w.p.held.value, m, w.disk, w.p.stopped);
    hide Fold, Durable, Recorded, ApplyTo, NextWorld;
  }

  lemma AdoptStep<C, M>(apply: Reducer<C, M>, w: World<C, M>, s: Step<C, M>)
    requires Inv(apply, w) && Orderly(w, s) && (s.Contact? || s.Seeded? || s.ReadDone?)
    ensures Inv(apply, NextWorld(apply, w, s))
  {
    var w' := NextWorld(apply, w, s);
    if w.p.held.None? && w'.p.held.Some? {
      ApplyAllDurable(apply, Adopted(w.disk), w.p.queued, w.disk, w.p.stopped);
      assert w.log == w.p.queued;
      assert w'.log[..0] == [];
    }
  }

  lemma FlushStep<C, M>(apply: Reducer<C, M>, w: World<C, M>, s: Step<C, M>)
    requires Inv(apply, w) && Orderly(w, s)
    requires s.QuietFired? || s.MaxFired? || s.RetryFired? || s.FlushNow? || (s.Share? && !s.on && !w.p.stopped)
    ensures Inv(apply, NextWorld(apply, w, s))
  {
    var p := match s
      case QuietFired => w.p.(held := Some(w.p.held.value.(quiet := false)))
      case MaxFired => w.p.(held := Some(w.p.held.value.(max := false)))
      case RetryFired => w.p.(held := Some(w.p.held.value.(retry := false)))
      case Share(on) => w.p.(shared := on)
      case _ => w.p;
    FlushKeeps(apply, w, p);
    assert Next(apply, w.p, s) == Flush(p);
  }

  lemma LandStep<C, M>(apply: Reducer<C, M>, w: World<C, M>, s: Step<C, M>)
    requires Inv(apply, w) && Orderly(w, s) && s.WriteDone?
    ensures Inv(apply, NextWorld(apply, w, s))
  {
    LandedDurable(apply, w.p, w.disk, s.ok);
  }

  lemma EditStep<C, M>(apply: Reducer<C, M>, w: World<C, M>, s: Step<C, M>)
    requires Inv(apply, w) && Orderly(w, s) && s.OutsideEdit?
    ensures Inv(apply, NextWorld(apply, w, s))
  {
    if Governs(w.p) && w.p.held.Some? {
      var h := w.p.held.value;
      var edited := w.p.(held := Some(h.(content := Fold(apply, s.edit, h.unflushed))));
      ReflectAllDurable(apply, edited, s.echoes, s.edit);
      FoldSplit(apply, s.edit, h.unflushed, Ops(s.echoes));
      assert NextWorld(apply, w, s).log[..0] == [];
    }
  }

  /** Every step keeps the invariant, given that no outside edit is adopted during a write. */
  lemma StepKeepsInv<C, M>(apply: Reducer<C, M>, w: World<C, M>, s: Step<C, M>)
    requires Inv(apply, w) && Orderly(w, s)
    ensures Inv(apply, NextWorld(apply, w, s))
  {
    match s
    case Op(_, _) => OpStep(apply, w, s);
    case Oversized(_) => OpStep(apply, w, s);
    case Contact => AdoptStep(apply, w, s);
    case Seeded(_) => AdoptStep(apply, w, s);
    case ReadDone(_) => AdoptStep(apply, w, s);
    case WriteDone(_) => LandStep(apply, w, s);
    case OutsideEdit(_, _) => EditStep(apply, w, s);
    case Share(on) => if !on && !w.p.stopped { FlushStep(apply, w, s); }
    case Stop =>
    case Stopped =>
    case _ => FlushStep(apply, w, s);
  }

  // ----- runs -----

  /** A project nobody has touched yet, over the file `disk`. */
  function Untouched<C, M>(shared: bool, disk: C): World<C, M> {
    World(Project(shared, false, false, [], None), disk, disk, [], 0, 0)
  }

  ghost predicate OrderlyRun<C, M>(apply: Reducer<C, M>, w: World<C, M>, steps: seq<Step<C, M>>)
    decreases steps
  {
    steps == [] || (Orderly(w, steps[0]) && OrderlyRun(apply, NextWorld(apply, w, steps[0]), steps[1..]))
  }

  ghost function Run<C, M>(apply: Reducer<C, M>, w: World<C, M>, steps: seq<Step<C, M>>): World<C, M>
    requires OrderlyRun(apply, w, steps)
    decreases steps
  {
    if steps == [] then w else Run(apply, NextWorld(apply, w, steps[0]), steps[1..])
  }

  lemma {:induction false} RunKeepsInv<C, M>(apply: Reducer<C, M>, w: World<C, M>, steps: seq<Step<C, M>>)
    requires Inv(apply, w) && OrderlyRun(apply, w, steps)
    ensures Inv(apply, Run(apply, w, steps))
    decreases steps
  {
    if steps != [] {
      StepKeepsInv(apply, w, steps[0]);
      RunKeepsInv(apply, NextWorld(apply, w, steps[0]), steps[1..]);
    }
  }

  /**
   * In every run from first contact: the held content is the fold, in order and each once, of every
   * accepted op over the content read; the file is the fold of a prefix of the same ops; what is
   * missing from the file is exactly `unflushed`; and unwritten content has a write in flight or a
   * timer pending, or the authority is stopping.
   */
  lemma FileIsAPrefixOfTheOrder<C, M>(apply: Reducer<C, M>, shared: bool, disk: C, steps: seq<Step<C, M>>)
    requires OrderlyRun(apply, Untouched(shared, disk), steps)
    ensures var w := Run(apply, Untouched(shared, disk), steps);
            w.p.held.Some? ==>
              var h := w.p.held.value;
              && h.content == Fold(apply, w.base, w.log)
              && w.durable <= |w.log| && w.disk == Fold(apply, w.base, w.log[..w.durable])
              && h.content == Fold(apply, w.disk, h.unflushed)
              && (h.unflushed == [] <==> !h.dirty && h.flushing.None?)
              && (h.unflushed != [] ==> h.flushing.Some? || TimerPending(h) || w.p.stopped)
              && !w.p.adopting
  {
    RunKeepsInv(apply, Untouched(shared, disk), steps);
  }

  /** Nothing leaves `unflushed` by this step except what a landed snapshot held; letting go loses nothing. */
  ghost predicate RetiresOnlyWritten<C, M>(apply: Reducer<C, M>, w: World<C, M>, s: Step<C, M>)
    requires Inv(apply, w) && Orderly(w, s) && w.p.held.Some?
  {
    var h, w' := w.p.held.value, NextWorld(apply, w, s);
    if w'.p.held.Some? then
      || h.unflushed <= w'.p.held.value.unflushed
      || (&& s.WriteDone? && s.ok && w'.p.held.value.unflushed == h.unflushed[h.flushing.value.written..]
          && w'.disk == Fold(apply, w.disk, h.unflushed[..h.flushing.value.written]))
    else w'.disk == h.content
  }

  /** An op leaves `unflushed` only when a snapshot holding it landed; letting go loses nothing. */
  lemma RetiredOnlyWhenWritten<C, M>(apply: Reducer<C, M>, w: World<C, M>, s: Step<C, M>)
    requires Inv(apply, w) && Orderly(w, s) && w.p.held.Some?
    ensures RetiresOnlyWritten(apply, w, s)
  {
    if s.OutsideEdit? { EditRetiresNothing(apply, w, s); }
    else if s.WriteDone? { WriteRetiresWritten(apply, w, s); }
    else if s.Op? || s.Oversized? { OpRetiresNothing(apply, w, s); }
    else { QuietRetiresNothing(apply, w, s); }
  }

  lemma OpRetiresNothing<C, M>(apply: Reducer<C, M>, w: World<C, M>, s: Step<C, M>)
    requires Inv(apply, w) && Orderly(w, s) && w.p.held.Some? && (s.Op? || s.Oversized?)
    ensures RetiresOnlyWritten(apply, w, s)
  {
    ApplyToDurable(apply, w.p.held.value, if s.Op? then s.op else s.big, w.disk, w.p.stopped);
  }

  lemma WriteRetiresWritten<C, M>(apply: Reducer<C, M>, w: World<C, M>, s: Step<C, M>)
    requires Inv(apply, w) && Orderly(w, s) && w.p.held.Some? && s.WriteDone?
    ensures RetiresOnlyWritten(apply, w, s)
  {
    if s.ok { LandedDurable(apply, w.p, w.disk, s.ok); }
  }

  lemma QuietRetiresNothing<C, M>(apply: Reducer<C, M>, w: World<C, M>, s: Step<C, M>)
    requires Inv(apply, w) && Orderly(w, s) && w.p.held.Some?
    requires !s.OutsideEdit? && !s.WriteDone? && !s.Op? && !s.Oversized?
    ensures RetiresOnlyWritten(apply, w, s)
  {
    FlushOnlyKeeps(w);
  }

  lemma EditRetiresNothing<C, M>(apply: Reducer<C, M>, w: World<C, M>, s: Step<C, M>)
    requires Inv(apply, w) && Orderly(w, s) && w.p.held.Some? && s.OutsideEdit?
    ensures RetiresOnlyWritten(apply, w, s)
  {
    var h := w.p.held.value;
    EchoesOnlyAdd(apply, w.p.(held := Some(h.(content := Fold(apply, s.edit, h.unflushed)))), s.echoes);
  }

  /** A flush drops a project only when its content is what the file holds. */
  lemma FlushOnlyKeeps<C, M>(w: World<C, M>)
    ensures var f := Flush(w.p);
            w.p.held.Some? ==> if f.held.Some? then f.held.value.unflushed == w.p.held.value.unflushed
                               else !w.p.held.value.dirty && w.p.held.value.flushing.None?
  {
  }

  lemma {:induction false} EchoesOnlyAdd<C, M>(apply: Reducer<C, M>, p: Project<C, M>, echoes: seq<Echo<M>>)
    requires Governs(p) && p.held.Some?
    ensures var p' := ReflectAll(apply, p, echoes);
            p' == p.(held := p'.held) && p'.held.Some? && p.held.value.unflushed <= p'.held.value.unflushed
  {
    if echoes != [] { EchoesOnlyAdd(apply, p, echoes[..|echoes| - 1]); }
  }
}
