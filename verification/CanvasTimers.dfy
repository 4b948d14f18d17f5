/**
 * When an adopted project writes: what starts a write, what timers run, and that
 * a failed write's retry alone decides the next attempt.
 */
module CanvasTimers {
  import opened Options
  import opened CanvasModel
  import opened CanvasDurability

  /** What an adopted project's timers say of it. */
  predicate Timed<C, M>(h: Held<C, M>, stopped: bool) {
    && (h.quiet || h.max || h.retry ==> h.dirty)
    && (h.retry ==> !h.quiet && !h.max && h.flushing.None?)
    && (h.attempt > 0 ==> h.retry || h.flushing.Some? || stopped)
    && (h.dirty && h.flushing.None? && !stopped ==> h.quiet || h.max || h.retry)
  }

  predicate Writing<C, M>(p: Project<C, M>) {
    p.held.Some? && p.held.value.flushing.Some?
  }

  predicate AllTimed<C, M>(p: Project<C, M>) {
    p.held.Some? ==>
      && !p.adopting && Timed(p.held.value, p.stopped)
      && (!p.shared && !p.stopped ==> p.held.value.dirty || p.held.value.flushing.Some?)
  }

  lemma {:induction false} ApplyAllTimed<C, M>(apply: Reducer<C, M>, h: Held<C, M>, ops: seq<M>, stopped: bool)
    requires Timed(h, stopped)
    ensures var h' := ApplyAll(apply, h, ops, stopped);
            && Timed(h', stopped) && h'.flushing == h.flushing && h'.attempt == h.attempt && h'.retry == h.retry
            && (h.dirty ==> h'.dirty)
  {
    if ops != [] { ApplyAllTimed(apply, h, ops[..|ops| - 1], stopped); }
  }

  lemma {:induction false} ReflectAllTimed<C, M>(apply: Reducer<C, M>, p: Project<C, M>, echoes: seq<Echo<M>>)
    requires AllTimed(p) && p.held.Some?
    ensures var p' := ReflectAll(apply, p, echoes);
            && AllTimed(p') && p'.held.Some? && p'.stopped == p.stopped && p'.shared == p.shared && p'.adopting == p.adopting
            && p'.held.value.flushing == p.held.value.flushing && p'.held.value.attempt == p.held.value.attempt
            && p'.held.value.retry == p.held.value.retry && (p.held.value.dirty ==> p'.held.value.dirty)
  {
    if echoes != [] { ReflectAllTimed(apply, p, echoes[..|echoes| - 1]); }
  }

  /** An outside edit dirties at most, and starts no write and no retry. */
  lemma EditedTimed<C, M>(apply: Reducer<C, M>, p: Project<C, M>, edit: C, echoes: seq<Echo<M>>)
    requires AllTimed(p) && p.held.Some?
    ensures var p', h := Edited(apply, p, edit, echoes), p.held.value;
            && AllTimed(p') && p'.held.Some? && p'.held.value.flushing == h.flushing && p'.held.value.attempt == h.attempt
            && p'.held.value.retry == h.retry && (h.dirty ==> p'.held.value.dirty)
  {
    var h := p.held.value;
    var e := p.(held := Some(h.(content := Fold(apply, edit, h.unflushed))));
    assert Timed(e.held.value, p.stopped);
    ReflectAllTimed(apply, e, echoes);
    hide ReflectAll, Fold;
  }

  /** A fresh project with its queue applied is timed and writes nothing. */
  lemma InstalledTimed<C, M>(apply: Reducer<C, M>, p: Project<C, M>, c: Option<C>)
    requires p.held.None? && !p.adopting
    ensures var p' := Install(apply, p, c); AllTimed(p') && !Writing(p')
  {
    if c.Some? { ApplyAllTimed(apply, Adopted<C, M>(c.value), p.queued, p.stopped); }
  }

  lemma StepTimed<C, M>(apply: Reducer<C, M>, p: Project<C, M>, s: Step<C, M>)
    requires AllTimed(p) && Enabled(p, s)
    ensures AllTimed(Next(apply, p, s))
  {
    match s
    case OutsideEdit(c, echoes) => if p.held.Some? { EditedTimed(apply, p, c, echoes); hide Edited; }
    case Seeded(c) => if p.held.None? && !p.adopting { InstalledTimed(apply, p, Some(c)); }
    case ReadDone(c) => if p.held.None? { InstalledTimed(apply, p.(adopting := false), c); }
    case WriteDone(ok) => LandedTimed(p, ok);
    case Op(m, _) => OpTimed(apply, p, m);
    case Oversized(m) => OpTimed(apply, p, m);
    case _ => OtherTimed(apply, p, s);
  }

  lemma LandedTimed<C, M>(p: Project<C, M>, ok: bool)
    requires AllTimed(p) && Writing(p)
    ensures AllTimed(Landed(p, ok)) && !Writing(Landed(p, ok))
  {
  }

  lemma OpTimed<C, M>(apply: Reducer<C, M>, p: Project<C, M>, m: M)
    requires AllTimed(p)
    ensures p.held.Some? ==> Timed(ApplyTo(apply, p.held.value, m, p.stopped), p.stopped)
  {
  }

  lemma OtherTimed<C, M>(apply: Reducer<C, M>, p: Project<C, M>, s: Step<C, M>)
    requires AllTimed(p) && Enabled(p, s)
    requires s.Contact? || s.QuietFired? || s.MaxFired? || s.RetryFired? || s.FlushNow? || s.Share? || s.Stop? || s.Stopped?
    ensures AllTimed(Next(apply, p, s))
  {
  }

  /** A run of steps the environment can take. */
  ghost predicate PossibleRun<C, M>(apply: Reducer<C, M>, p: Project<C, M>, steps: seq<Step<C, M>>)
    decreases steps
  {
    steps == [] || (Enabled(p, steps[0]) && PossibleRun(apply, Next(apply, p, steps[0]), steps[1..]))
  }

  ghost function Onward<C, M>(apply: Reducer<C, M>, p: Project<C, M>, steps: seq<Step<C, M>>): Project<C, M>
    requires PossibleRun(apply, p, steps)
    decreases steps
  {
    if steps == [] then p else Onward(apply, Next(apply, p, steps[0]), steps[1..])
  }

  /**
   * Over every run, outside edits and stopping at any time included: a timer runs only for dirty content;
   * while a retry is pending neither flush timer runs and nothing is being written; a project that failed
   * to write is being retried, writing or stopping; dirty content waits for a timer or a write; and a
   * project that is no longer shared is held only while it owes the file something.
   */
  lemma {:induction false} EveryRunIsTimed<C, M>(apply: Reducer<C, M>, p: Project<C, M>, steps: seq<Step<C, M>>)
    requires AllTimed(p) && PossibleRun(apply, p, steps)
    ensures AllTimed(Onward(apply, p, steps))
    decreases steps
  {
    if steps != [] {
      StepTimed(apply, p, steps[0]);
      EveryRunIsTimed(apply, Next(apply, p, steps[0]), steps[1..]);
    }
  }

  /** A timer going off, a flush asked for, or the project leaving the shared set. */
  predicate AsksForAWrite<C, M>(p: Project<C, M>, s: Step<C, M>) {
    s.QuietFired? || s.MaxFired? || s.RetryFired? || s.FlushNow? || (s.Share? && !s.on && !p.stopped)
  }

  /** A write starts exactly when one is asked for, none is in flight and the content is dirty; and then it carries all of it. */
  lemma WriteStartsExactlyWhen<C, M>(apply: Reducer<C, M>, p: Project<C, M>, s: Step<C, M>)
    requires AllTimed(p) && Enabled(p, s) && !Writing(p)
    ensures var next := Next(apply, p, s);
            && (Writing(next) <==> p.held.Some? && p.held.value.dirty && AsksForAWrite(p, s))
            && (Writing(next) ==>
                  && next.held.value.flushing == Some(Flight(p.held.value.content, |p.held.value.unflushed|))
                  && !next.held.value.dirty && !next.held.value.quiet && !next.held.value.max && !next.held.value.retry)
  {
    match s
    case OutsideEdit(c, echoes) => if p.held.Some? { EditedTimed(apply, p, c, echoes); hide Edited; }
    case Seeded(c) => if p.held.None? && !p.adopting { InstalledTimed(apply, p, Some(c)); }
    case ReadDone(c) => if p.held.None? { InstalledTimed(apply, p.(adopting := false), c); }
    case _ =>
  }

  /** While a retry is pending no op and no edit brings a write nearer: only the retry, a flush asked for or unsharing does. */
  lemma RetryOwnsTheNextWrite<C, M>(apply: Reducer<C, M>, p: Project<C, M>, s: Step<C, M>)
    requires AllTimed(p) && Enabled(p, s) && p.held.Some? && p.held.value.retry
    requires !s.RetryFired? && !s.FlushNow? && !(s.Share? && !s.on && !p.stopped)
    ensures var next := Next(apply, p, s);
            && next.held.Some? && !Writing(next) && !next.held.value.quiet && !next.held.value.max && next.held.value.dirty
            && (next.held.value.retry <==> !s.Stopped?) && next.held.value.attempt == p.held.value.attempt
  {
    StepTimed(apply, p, s);
    WriteStartsExactlyWhen(apply, p, s);
    if s.OutsideEdit? { EditedTimed(apply, p, s.edit, s.echoes); }
  }

  /** Attempts count the failures since a write last landed. */
  lemma AttemptsCountFailures<C, M>(apply: Reducer<C, M>, p: Project<C, M>, s: Step<C, M>)
    requires AllTimed(p) && Enabled(p, s) && p.held.Some?
    ensures var next := Next(apply, p, s);
            next.held.Some? ==>
              next.held.value.attempt == if s.WriteDone? then (if s.ok then 0 else p.held.value.attempt + 1) else p.held.value.attempt
  {
    if s.OutsideEdit? { EditedTimed(apply, p, s.edit, s.echoes); }
  }

  /** A governed project that is touched is held, or being read, afterwards; a load adopts it at once. */
  lemma TouchAdopts<C, M>(apply: Reducer<C, M>, p: Project<C, M>, s: Step<C, M>)
    requires AllTimed(p) && Enabled(p, s) && !p.stopped
    ensures (s.Share? && s.on) || (p.shared && (s.Contact? || s.Seeded? || s.OutsideEdit? || (s.Op? && s.accepted))) ==>
              var next := Next(apply, p, s); next.held.Some? || next.adopting
    ensures p.shared && s.Seeded? && !p.adopting ==> Next(apply, p, s).held.Some?
    ensures p.shared && s.ReadDone? && s.content.Some? ==> Next(apply, p, s).held.Some?
    ensures s.ReadDone? && (!p.shared || s.content.None?) ==> Next(apply, p, s) == p.(adopting := false, queued := [])
  {
    if s.OutsideEdit? && p.held.Some? { EditedTimed(apply, p, s.edit, s.echoes); }
  }

  /** Nothing reaches a project that is not governed: no op, no load, no edit. */
  lemma UngovernedIsLeftAlone<C, M>(apply: Reducer<C, M>, p: Project<C, M>, s: Step<C, M>)
    requires Enabled(p, s) && (!p.shared || p.stopped) && (s.Op? || s.Oversized? || s.Contact? || s.Seeded? || s.OutsideEdit?)
    ensures Next(apply, p, s) == p
  {
  }

  /** No timer is armed that was not. */
  predicate ArmsNothing<C, M>(h: Held<C, M>, h': Held<C, M>) {
    (h'.quiet ==> h.quiet) && (h'.max ==> h.max) && (h'.retry ==> h.retry)
  }

  lemma {:induction false} StoppedOpsArmNothing<C, M>(apply: Reducer<C, M>, h: Held<C, M>, ops: seq<M>)
    ensures ArmsNothing(h, ApplyAll(apply, h, ops, true))
  {
    if ops != [] { StoppedOpsArmNothing(apply, h, ops[..|ops| - 1]); }
  }

  /** Stopping is for good, is nothing else, and from then on no timer is armed, not even after a write that fails. */
  lemma StoppingArmsNothing<C, M>(apply: Reducer<C, M>, p: Project<C, M>, s: Step<C, M>)
    requires Enabled(p, s)
    ensures s.Stop? ==> Next(apply, p, s) == p.(stopped := true)
    ensures !s.Stop? && !s.OutsideEdit? ==> Next(apply, p, s).stopped == p.stopped
    ensures p.stopped && p.held.Some? && Next(apply, p, s).held.Some? && !(s.ReadDone?) ==> ArmsNothing(p.held.value, Next(apply, p, s).held.value)
    ensures p.stopped && s.ReadDone? && p.shared && s.content.Some? ==>
              Next(apply, p, s).held.Some? && var h := Next(apply, p, s).held.value; !h.quiet && !h.max && !h.retry
  {
    if s.ReadDone? && s.content.Some? && p.stopped { StoppedOpsArmNothing(apply, Adopted<C, M>(s.content.value), p.queued); }
    if s.Seeded? && p.stopped { StoppedOpsArmNothing(apply, Adopted<C, M>(s.loaded), p.queued); }
    if s.OutsideEdit? && !p.stopped { hide ReflectAll; }
  }
}
