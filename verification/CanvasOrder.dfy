/**
 * The authority behind the reflector: when ops reach it in the order they were
 * stamped, its log is that order, each op once, through adoption, failed
 * writes, outside edits and restarts of its history.
 */
module CanvasOrder {
  import opened Options
  import opened CanvasModel
  import opened CanvasDurability
  import CanvasSync

  /** Strictly rising places, none past `last`. */
  ghost predicate Rising<M>(place: M -> nat, ops: seq<M>, last: nat) {
    && (forall i, j | 0 <= i < j < |ops| :: place(ops[i]) < place(ops[j]))
    && (forall i | 0 <= i < |ops| :: place(ops[i]) <= last)
  }

  ghost predicate RisingEchoes<M>(place: M -> nat, echoes: seq<Echo<M>>, last: nat) {
    && (forall i, j | 0 <= i < j < |echoes| :: place(echoes[i].op) < place(echoes[j].op))
    && (forall i | 0 <= i < |echoes| :: last < place(echoes[i].op))
  }

  /** The step's ops come after everything stamped so far. */
  ghost predicate Stamped<C, M>(place: M -> nat, s: Step<C, M>, last: nat) {
    && !s.Oversized?
    && (s.Op? ==> last < place(s.op))
    && (s.OutsideEdit? ==> RisingEchoes(place, s.echoes, last))
  }

  function LastPlace<C, M>(place: M -> nat, s: Step<C, M>, last: nat): nat {
    match s
    case Op(m, _) => place(m)
    case OutsideEdit(_, echoes) => if echoes == [] then last else place(echoes[|echoes| - 1].op)
    case _ => last
  }

  ghost predicate InOrder<C, M>(place: M -> nat, w: World<C, M>, last: nat) {
    && Rising(place, w.log, last) && Rising(place, w.p.queued, last)
    && (w.p.held.Some? ==> Rising(place, w.p.held.value.unflushed, last))
  }

  lemma RisingPush<M>(place: M -> nat, ops: seq<M>, m: M, last: nat)
    requires Rising(place, ops, last) && last < place(m)
    ensures Rising(place, ops + [m], place(m))
  {
  }

  lemma RisingLater<M>(place: M -> nat, ops: seq<M>, last: nat, later: nat)
    requires Rising(place, ops, last) && last <= later
    ensures Rising(place, ops, later)
  {
  }

  /** Applying queued ops logs a rising sequence, as the ops it leaves out change nothing. */
  lemma {:induction false} ApplyAllRises<C, M>(apply: Reducer<C, M>, place: M -> nat, h: Held<C, M>, ops: seq<M>, stopped: bool, last: nat)
    requires h.unflushed == [] && Rising(place, ops, last)
    ensures var u := ApplyAll(apply, h, ops, stopped).unflushed;
            && Rising(place, u, last) && (forall m | m in u :: m in ops)
  {
    if ops != [] {
      var before, m := ops[..|ops| - 1], ops[|ops| - 1];
      ApplyAllRises(apply, place, h, before, stopped, last);
      var u := ApplyAll(apply, h, before, stopped).unflushed;
      forall i | 0 <= i < |u| ensures place(u[i]) < place(m) {
        assert u[i] in before;
      }
    }
  }

  lemma {:induction false} ReflectAllRises<C, M>(apply: Reducer<C, M>, place: M -> nat, p: Project<C, M>, echoes: seq<Echo<M>>, last: nat)
    requires Governs(p) && p.held.Some? && Rising(place, p.held.value.unflushed, last) && RisingEchoes(place, echoes, last)
    ensures var p' := ReflectAll(apply, p, echoes);
            var last' := if echoes == [] then last else place(echoes[|echoes| - 1].op);
            && p' == p.(held := p'.held) && p'.held.Some?
            && Rising(place, p'.held.value.unflushed, last') && Rising(place, p.held.value.unflushed + Ops(echoes), last')
  {
    if echoes == [] {
      assert p.held.value.unflushed + [] == p.held.value.unflushed;
    } else {
      var before, e := echoes[..|echoes| - 1], echoes[|echoes| - 1];
      ReflectAllRises(apply, place, p, before, last);
      var mid := if before == [] then last else place(before[|before| - 1].op);
      assert mid < place(e.op);
      var u := ReflectAll(apply, p, before).held.value.unflushed;
      var logged := p.held.value.unflushed + Ops(before);
      RisingPush(place, u, e.op, mid);
      RisingPush(place, logged, e.op, mid);
      RisingLater(place, u, mid, place(e.op));
      RisingLater(place, logged, mid, place(e.op));
      assert p.held.value.unflushed + Ops(echoes) == if e.accepted then logged + [e.op] else logged;
    }
  }

  lemma StepInOrder<C, M>(apply: Reducer<C, M>, place: M -> nat, w: World<C, M>, s: Step<C, M>, last: nat)
    requires Inv(apply, w) && CanvasDurability.Orderly(w, s) && InOrder(place, w, last) && Stamped(place, s, last)
    ensures InOrder(place, NextWorld(apply, w, s), LastPlace(place, s, last))
  {
    if s.Op? {
      OpInOrder(apply, place, w, s, last);
    } else if s.Contact? || s.Seeded? || s.ReadDone? {
      AdoptInOrder(apply, place, w, s, last);
    } else if s.OutsideEdit? {
      EditInOrder(apply, place, w, s, last);
    } else {
      QuietInOrder(apply, place, w, s, last);
    }
  }

  lemma {:induction false} OpInOrder<C, M>(apply: Reducer<C, M>, place: M -> nat, w: World<C, M>, s: Step<C, M>, last: nat)
    requires InOrder(place, w, last) && s.Op? && last < place(s.op)
    ensures InOrder(place, NextWorld(apply, w, s), place(s.op))
  {
    var m := s.op;
    RisingLater(place, w.log, last, place(m));
    RisingLater(place, w.p.queued, last, place(m));
    RisingPush(place, w.log, m, last);
    RisingPush(place, w.p.queued, m, last);
    if w.p.held.Some? {
      RisingLater(place, w.p.held.value.unflushed, last, place(m));
      RisingPush(place, w.p.held.value.unflushed, m, last);
    }
  }

  lemma AdoptInOrder<C, M>(apply: Reducer<C, M>, place: M -> nat, w: World<C, M>, s: Step<C, M>, last: nat)
    requires Enabled(w.p, s) && InOrder(place, w, last) && (s.Contact? || s.Seeded? || s.ReadDone?)
    ensures InOrder(place, NextWorld(apply, w, s), last)
  {
    var c := if s.Seeded? then Some(s.loaded) else if s.ReadDone? then s.content else None;
    if c.Some? { ApplyAllRises(apply, place, Adopted(c.value), w.p.queued, w.p.stopped, last); }
  }

  /** The steps that bring no op: what stays unflushed is a suffix of what was. */
  lemma QuietInOrder<C, M>(apply: Reducer<C, M>, place: M -> nat, w: World<C, M>, s: Step<C, M>, last: nat)
    requires Enabled(w.p, s) && InOrder(place, w, last)
    requires !s.Op? && !s.Oversized? && !s.Contact? && !s.Seeded? && !s.ReadDone? && !s.OutsideEdit?
    ensures InOrder(place, NextWorld(apply, w, s), last)
  {
    QuietSuffix(apply, w.p, s);
    var p' := Next(apply, w.p, s);
    assert p'.queued == w.p.queued;
  }

  lemma QuietSuffix<C, M>(apply: Reducer<C, M>, p: Project<C, M>, s: Step<C, M>)
    requires Enabled(p, s) && !s.Op? && !s.Oversized? && !s.Contact? && !s.Seeded? && !s.ReadDone? && !s.OutsideEdit?
    ensures var p' := Next(apply, p, s);
            && p'.queued == p.queued
            && (p'.held.Some? ==> p.held.Some? && exists n: nat :: n <= |p.held.value.unflushed| && p'.held.value.unflushed == p.held.value.unflushed[n..])
  {
    if p.held.Some? {
      var u := p.held.value.unflushed;
      assert u == u[0..];
    }
  }

  lemma EchoesAreLater<C, M>(place: M -> nat, s: Step<C, M>, last: nat)
    requires Stamped(place, s, last) && s.OutsideEdit?
    ensures last <= LastPlace(place, s, last)
  {
    if s.echoes != [] { assert last < place(s.echoes[|s.echoes| - 1].op); }
  }

  lemma EditInOrder<C, M>(apply: Reducer<C, M>, place: M -> nat, w: World<C, M>, s: Step<C, M>, last: nat)
    requires Inv(apply, w) && CanvasDurability.Orderly(w, s) && InOrder(place, w, last) && Stamped(place, s, last) && s.OutsideEdit?
    ensures InOrder(place, NextWorld(apply, w, s), LastPlace(place, s, last))
  {
    hide Fold, Reflected, Rising, RisingEchoes, Durable, Recorded, ReflectAll, Ops;
    var last' := LastPlace(place, s, last);
    EchoesAreLater(place, s, last);
    RisingLater(place, w.log, last, last');
    RisingLater(place, w.p.queued, last, last');
    if w.p.held.Some? {
      var h := w.p.held.value;
      RisingLater(place, h.unflushed, last, last');
      ReflectAllRises(apply, place, w.p.(held := Some(h.(content := Fold(apply, s.edit, h.unflushed)))), s.echoes, last);
    }
  }

  ghost predicate StampedRun<C, M>(place: M -> nat, steps: seq<Step<C, M>>, last: nat)
    decreases steps
  {
    steps == [] || (Stamped(place, steps[0], last) && StampedRun(place, steps[1..], LastPlace(place, steps[0], last)))
  }

  lemma {:induction false} RunInOrder<C, M>(apply: Reducer<C, M>, place: M -> nat, w: World<C, M>, steps: seq<Step<C, M>>, last: nat)
    returns (end: nat)
    requires Inv(apply, w) && InOrder(place, w, last) && OrderlyRun(apply, w, steps) && StampedRun(place, steps, last)
    ensures InOrder(place, Run(apply, w, steps), end)
    decreases steps
  {
    if steps == [] { return last; }
    StepKeepsInv(apply, w, steps[0]);
    StepInOrder(apply, place, w, steps[0], last);
    end := RunInOrder(apply, place, NextWorld(apply, w, steps[0]), steps[1..], LastPlace(place, steps[0], last));
  }

  /**
   * From first contact on, whatever interleaves with reads, writes and edits, the ops the content is
   * folded from stand in strictly rising stamp order: none is reordered and none appears twice.
   */
  lemma LogIsTheStampedOrder<C, M>(apply: Reducer<C, M>, place: M -> nat, shared: bool, disk: C, steps: seq<Step<C, M>>)
    requires OrderlyRun(apply, Untouched(shared, disk), steps) && StampedRun(place, steps, 0)
    ensures var w := Run(apply, Untouched(shared, disk), steps);
            && (forall i, j | 0 <= i < j < |w.log| :: place(w.log[i]) < place(w.log[j]))
            && (w.p.held.Some? ==> w.p.held.value.content == Fold(apply, w.base, w.log))
            && (w.p.adopting ==> w.p.queued == w.log && w.p.held.None?)
  {
    var _ := RunInOrder(apply, place, Untouched(shared, disk), steps, 0);
    RunKeepsInv(apply, Untouched(shared, disk), steps);
  }

  // ----- from the reflector to the authority -----

  function EchoOps<M>(echoes: seq<Echo<M>>): seq<M> {
    seq(|echoes|, i requires 0 <= i < |echoes| => echoes[i].op)
  }

  function StepOps<C, M>(s: Step<C, M>): seq<M> {
    match s
    case Op(m, _) => [m]
    case OutsideEdit(_, echoes) => EchoOps(echoes)
    case _ => []
  }

  /** The ops that reach the authority in a run, in the order they reach it. */
  function OpsOf<C, M>(steps: seq<Step<C, M>>): seq<M>
    decreases steps
  {
    if steps == [] then [] else StepOps(steps[0]) + OpsOf(steps[1..])
  }

  /** Ops past `last`, each at a later place than the one before. */
  ghost predicate RisesPast<M>(place: M -> nat, ops: seq<M>, last: nat) {
    && (forall i, j | 0 <= i < j < |ops| :: place(ops[i]) < place(ops[j]))
    && (forall i | 0 <= i < |ops| :: last < place(ops[i]))
  }

  lemma RisesFirst<M>(place: M -> nat, a: seq<M>, b: seq<M>, last: nat)
    requires RisesPast(place, a + b, last)
    ensures RisesPast(place, a, last)
  {
    assert forall i | 0 <= i < |a| :: (a + b)[i] == a[i];
  }

  lemma RisesSecond<M>(place: M -> nat, a: seq<M>, b: seq<M>, last: nat)
    requires RisesPast(place, a + b, last)
    ensures RisesPast(place, b, if a == [] then last else place(a[|a| - 1]))
  {
    var all := a + b;
    forall i, j | 0 <= i < j < |b| ensures place(b[i]) < place(b[j]) {
      assert all[|a| + i] == b[i] && all[|a| + j] == b[j];
    }
    forall i | 0 <= i < |b| ensures (if a == [] then last else place(a[|a| - 1])) < place(b[i]) {
      assert all[|a| + i] == b[i];
      if a != [] { assert all[|a| - 1] == a[|a| - 1]; }
    }
  }

  lemma RisesPush<M>(place: M -> nat, ops: seq<M>, m: M, last: nat)
    requires RisesPast(place, ops, last) && last < place(m) && forall i | 0 <= i < |ops| :: place(ops[i]) < place(m)
    ensures RisesPast(place, ops + [m], last)
  {
  }

  lemma StepIsStamped<C, M>(place: M -> nat, s: Step<C, M>, last: nat)
    requires RisesPast(place, StepOps(s), last) && !s.Oversized?
    ensures Stamped(place, s, last)
    ensures LastPlace(place, s, last) == if StepOps(s) == [] then last else place(StepOps(s)[|StepOps(s)| - 1])
  {
    if s.OutsideEdit? {
      assert forall i | 0 <= i < |s.echoes| :: StepOps(s)[i] == s.echoes[i].op;
    } else if s.Op? {
      assert StepOps(s)[0] == s.op;
    }
  }

  lemma {:induction false} RisingOpsAreStamped<C, M>(place: M -> nat, steps: seq<Step<C, M>>, last: nat)
    requires RisesPast(place, OpsOf(steps), last) && forall i | 0 <= i < |steps| :: !steps[i].Oversized?
    ensures StampedRun(place, steps, last)
    decreases steps
  {
    hide RisesPast, StepOps, Stamped, LastPlace;
    if steps != [] {
      var ops, rest := StepOps(steps[0]), steps[1..];
      RisesFirst(place, ops, OpsOf(rest), last);
      RisesSecond(place, ops, OpsOf(rest), last);
      StepIsStamped(place, steps[0], last);
      assert forall i | 0 <= i < |rest| :: rest[i] == steps[i + 1];
      RisingOpsAreStamped(place, rest, LastPlace(place, steps[0], last));
    }
  }

  /** The ops the listener heard of one project. */
  function HeardOf<B>(heard: seq<CanvasSync.Sent<B>>, project: string): seq<CanvasSync.Mutation<B>> {
    if heard == [] then []
    else
      var last := heard[|heard| - 1];
      HeardOf(heard[..|heard| - 1], project) + if last.project == project then [last.m] else []
  }

  function PlaceOf<B>(m: CanvasSync.Mutation<B>): nat {
    if m.place < 0 then 0 else m.place
  }

  lemma {:induction false} HeardRises<B>(heard: seq<CanvasSync.Sent<B>>, project: string)
    requires forall i | 0 <= i < |heard| :: heard[i].m.place == i + 1
    ensures RisesPast(PlaceOf, HeardOf(heard, project), 0)
    ensures forall i | 0 <= i < |HeardOf(heard, project)| :: PlaceOf(HeardOf(heard, project)[i]) <= |heard|
  {
    if heard != [] {
      var before := heard[..|heard| - 1];
      assert forall i | 0 <= i < |before| :: before[i] == heard[i];
      HeardRises(before, project);
      RisesPush(PlaceOf, HeardOf(before, project), heard[|heard| - 1].m, 0);
    } else {
      assert HeardOf(heard, project) == [];
    }
  }

  /**
   * End to end: whatever is cast at the reflector, by whom and to which project, the ops it tells the
   * authority of one project make a stamped run, however they interleave with everything else; so that
   * project's content is their fold in stamp order, none reordered and none twice.
   */
  lemma CastsAreTheLog<B, C>(guard: CanvasSync.Guard<B>, clients: set<nat>, owners: set<nat>, ins: seq<CanvasSync.Input<B>>, project: string,
                             apply: Reducer<C, CanvasSync.Mutation<B>>, shared: bool, disk: C, steps: seq<Step<C, CanvasSync.Mutation<B>>>)
    requires var heard := CanvasSync.CastAll(guard, CanvasSync.Bus(0, [], map id | id in clients :: [], owners), ins).heard;
             OpsOf(steps) == HeardOf(heard, project)
    requires (forall i | 0 <= i < |steps| :: !steps[i].Oversized?) && OrderlyRun(apply, Untouched(shared, disk), steps)
    ensures StampedRun(PlaceOf, steps, 0)
    ensures var w := Run(apply, Untouched(shared, disk), steps);
            && (forall i, j | 0 <= i < j < |w.log| :: PlaceOf(w.log[i]) < PlaceOf(w.log[j]))
            && (w.p.held.Some? ==> w.p.held.value.content == Fold(apply, w.base, w.log))
            && (w.p.adopting ==> w.p.queued == w.log && w.p.held.None?)
  {
    CanvasSync.OneOrderForEveryone(guard, clients, owners, ins);
    var heard := CanvasSync.CastAll(guard, CanvasSync.Bus(0, [], map id | id in clients :: [], owners), ins).heard;
    HeardRises(heard, project);
    RisingOpsAreStamped(PlaceOf, steps, 0);
    LogIsTheStampedOrder(apply, PlaceOf, shared, disk, steps);
  }
}
