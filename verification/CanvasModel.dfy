/**
 * The canvas authority for one shared project, as a state machine over atomic
 * steps: ops arriving in the reflector's order, the first read, timers, writes
 * that land or fail, outside edits, sharing and stopping.
 */
module CanvasModel {
  import opened Options

  /** The content reducer: `None` when the op changes nothing (the source's same object). */
  type Reducer<!C, !M> = (C, M) -> Option<C>

  /** A write in flight: the content it carries and how many unflushed ops that contains. */
  datatype Flight<C> = Flight(snapshot: C, written: nat)

  /** The state of an adopted project. Each timer is either pending or not. */
  datatype Held<C, M> = Held(
    content: C, unflushed: seq<M>, dirty: bool,
    quiet: bool, max: bool, retry: bool, attempt: nat, flushing: Option<Flight<C>>)

  datatype Project<C, M> = Project(
    shared: bool, stopped: bool, adopting: bool, queued: seq<M>, held: Option<Held<C, M>>)

  datatype Echo<M> = Echo(op: M, accepted: bool)

  datatype Step<C, M> =
    | Op(op: M, accepted: bool)          // a reflected op, and the order's verdict on it
    | Oversized(big: M)                  // a node too large for an op, contributed by a save
    | Contact                            // a save, or joining the shared set
    | Seeded(loaded: C)                  // a load, whose result is the disk state
    | ReadDone(content: Option<C>)       // the adoption read finished, or failed
    | QuietFired | MaxFired | RetryFired
    | FlushNow                           // a flush asked for by `flushAll` or `stop`
    | WriteDone(ok: bool)
    | Share(on: bool)
    | Stop | Stopped                     // stopping begins; its drains are over
    | OutsideEdit(edit: C, echoes: seq<Echo<M>>)

  function Reduce<C, M>(apply: Reducer<C, M>, c: C, m: M): C {
    var r := apply(c, m);
    if r.Some? then r.value else c
  }

  function Fold<C, M>(apply: Reducer<C, M>, c: C, ops: seq<M>): C {
    if ops == [] then c else Reduce(apply, Fold(apply, c, ops[..|ops| - 1]), ops[|ops| - 1])
  }

  // ----- the rules -----

  predicate Governs<C, M>(p: Project<C, M>) {
    p.shared && !p.stopped
  }

  /** Both flush timers run, unless stopping, or a failed write is waiting to be tried again. */
  function Schedule<C, M>(h: Held<C, M>, stopped: bool): Held<C, M> {
    if stopped || h.retry then h else h.(quiet := true, max := true)
  }

  function MarkDirty<C, M>(h: Held<C, M>, stopped: bool): Held<C, M> {
    Schedule(h.(dirty := true), stopped)
  }

  function ApplyTo<C, M>(apply: Reducer<C, M>, h: Held<C, M>, m: M, stopped: bool): Held<C, M> {
    var r := apply(h.content, m);
    if r.None? then h else MarkDirty(h.(content := r.value, unflushed := h.unflushed + [m]), stopped)
  }

  function ApplyAll<C, M>(apply: Reducer<C, M>, h: Held<C, M>, ops: seq<M>, stopped: bool): Held<C, M> {
    if ops == [] then h
    else ApplyTo(apply, ApplyAll(apply, h, ops[..|ops| - 1], stopped), ops[|ops| - 1], stopped)
  }

  function ClearTimers<C, M>(h: Held<C, M>): Held<C, M> {
    h.(quiet := false, max := false, retry := false)
  }

  /** An unshared project that owes the file nothing is let go. */
  function Release<C, M>(p: Project<C, M>): Project<C, M>
    requires p.held.Some?
  {
    if p.shared || p.held.value.dirty || p.held.value.flushing.Some? then p else p.(held := None)
  }

  function Adopted<C, M>(content: C): Held<C, M> {
    Held(content, [], false, false, false, false, 0, None)
  }

  /** The read content becomes the state, and the queued ops are applied over it in order. */
  function Install<C, M>(apply: Reducer<C, M>, p: Project<C, M>, content: Option<C>): Project<C, M> {
    var p' := p.(queued := []);
    if !p.shared || content.None? then p'
    else p'.(held := Some(ApplyAll(apply, Adopted(content.value), p.queued, p.stopped)))
  }

  function Adopt<C, M>(apply: Reducer<C, M>, p: Project<C, M>, seed: Option<C>): Project<C, M> {
    if p.held.Some? || p.adopting then p
    else if seed.Some? then Install(apply, p, seed)
    else p.(adopting := true)
  }

  function Flush<C, M>(p: Project<C, M>): Project<C, M> {
    if p.held.None? || p.held.value.flushing.Some? then p
    else if !p.held.value.dirty then Release(p)
    else
      var h := ClearTimers(p.held.value);
      p.(held := Some(h.(dirty := false, flushing := Some(Flight(h.content, |h.unflushed|)))))
  }

  /** The write landed: the ops its snapshot held are retired. */
  function Written<C, M>(h: Held<C, M>): Held<C, M>
    requires h.flushing.Some?
  {
    var n := if h.flushing.value.written <= |h.unflushed| then h.flushing.value.written else |h.unflushed|;
    h.(flushing := None, unflushed := h.unflushed[n..], attempt := 0)
  }

  /** A failed write loses nothing; only the retry may start another. */
  function Failed<C, M>(h: Held<C, M>, stopped: bool): Held<C, M> {
    ClearTimers(h).(flushing := None, dirty := true, attempt := h.attempt + 1, retry := !stopped)
  }

  function Landed<C, M>(p: Project<C, M>, ok: bool): Project<C, M>
    requires p.held.Some? && p.held.value.flushing.Some?
  {
    var h := p.held.value;
    if !ok then p.(held := Some(Failed(h, p.stopped)))
    else if h.dirty then p.(held := Some(Schedule(Written(h), p.stopped)))
    else Release(p.(held := Some(Written(h))))
  }

  function Reflected<C, M>(apply: Reducer<C, M>, p: Project<C, M>, m: M, accepted: bool): Project<C, M> {
    if !Governs(p) || !accepted then p
    else if p.held.Some? then p.(held := Some(ApplyTo(apply, p.held.value, m, p.stopped)))
    else Adopt(apply, p.(queued := p.queued + [m]), None)
  }

  function ReflectAll<C, M>(apply: Reducer<C, M>, p: Project<C, M>, echoes: seq<Echo<M>>): Project<C, M> {
    if echoes == [] then p
    else
      var last := echoes[|echoes| - 1];
      Reflected(apply, ReflectAll(apply, p, echoes[..|echoes| - 1]), last.op, last.accepted)
  }

  /** The edit is adopted with the unwritten ops over it, and its difference echoes back as ops. */
  function Edited<C, M>(apply: Reducer<C, M>, p: Project<C, M>, edit: C, echoes: seq<Echo<M>>): Project<C, M> {
    if !Governs(p) then p
    else if p.held.None? then Adopt(apply, p, None)
    else
      var h := p.held.value;
      var e := ReflectAll(apply, p.(held := Some(h.(content := Fold(apply, edit, h.unflushed)))), echoes);
      if e.held.Some? && e.held.value.unflushed != [] then e.(held := Some(MarkDirty(e.held.value, e.stopped))) else e
  }

  function Shared<C, M>(apply: Reducer<C, M>, p: Project<C, M>, on: bool): Project<C, M> {
    var p' := p.(shared := on);
    if p.stopped then p' else if on then Adopt(apply, p', None) else Flush(p')
  }

  /** Steps the environment can take in a state: only pending timers fire, only started work ends. */
  predicate Enabled<C, M>(p: Project<C, M>, s: Step<C, M>) {
    match s
    case ReadDone(_) => p.adopting
    case QuietFired => p.held.Some? && p.held.value.quiet
    case MaxFired => p.held.Some? && p.held.value.max
    case RetryFired => p.held.Some? && p.held.value.retry
    case WriteDone(_) => p.held.Some? && p.held.value.flushing.Some?
    case Stopped => p.stopped
    case _ => true
  }

  function Next<C, M>(apply: Reducer<C, M>, p: Project<C, M>, s: Step<C, M>): Project<C, M>
    requires Enabled(p, s)
  {
    match s
    case Op(m, accepted) => Reflected(apply, p, m, accepted)
    case Oversized(m) =>
      if Governs(p) && p.held.Some? then p.(held := Some(ApplyTo(apply, p.held.value, m, p.stopped))) else p
    case Contact => if Governs(p) then Adopt(apply, p, None) else p
    case Seeded(c) => if Governs(p) then Adopt(apply, p, Some(c)) else p
    case ReadDone(c) => Install(apply, p.(adopting := false), c)
    case QuietFired => Flush(p.(held := Some(p.held.value.(quiet := false))))
    case MaxFired => Flush(p.(held := Some(p.held.value.(max := false))))
    case RetryFired => Flush(p.(held := Some(p.held.value.(retry := false))))
    case FlushNow => Flush(p)
    case WriteDone(ok) => Landed(p, ok)
    case Share(on) => Shared(apply, p, on)
    case Stop => p.(stopped := true)
    case Stopped => if p.held.Some? then p.(held := Some(ClearTimers(p.held.value))) else p
    case OutsideEdit(c, echoes) => Edited(apply, p, c, echoes)
  }
}
