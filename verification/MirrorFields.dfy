/**
 * The rest of an entry after one event, field by field: who the node is, its
 * turn, its open request for input, its picker and its approval tickets, each
 * told from the entry and the event before it.
 */
module MirrorFields {
  import opened Options
  import opened MirrorEntry

  /** The event leaves the open picker open: it neither resets its session nor answers it. */
  predicate PickerStands(e: Entry, ev: Event) {
    e.question.Some? && !Resets(ev, e.question.value.sessionId) && !Answers(ev, e.question.value)
  }

  /** The event is the node's own, past every hold: no other agent's while this one works or starts nothing. */
  predicate Heard(prev: Option<Entry>, ev: Event, now: int) {
    var e := Base(prev, now);
    && !UncorrelatedStartIdle(prev, ev, now) && !PickerStands(e, ev) && !TicketsStand(e, ev)
    && (ev.agentId == "" || e.who.agentId == "" || ev.agentId == e.who.agentId
        || (e.status.state != Some(Working) && SessionStart(ev)))
  }

  /** What the two stages that set a state leave of the rest. */
  lemma StateStages(prev: Option<Entry>, known: Entry, ev: Event, now: int)
    ensures ev.state.Some? ==>
              var t, e := Transition(prev, known, ev, now), Base(prev, now);
              && t == known.(status := t.status, awaitingInput := t.awaitingInput)
              && (known.awaitingInput == e.awaitingInput ==>
                    t.awaitingInput == if ev.idle ==> e.status.state == Some(Working) || IdleAfterStart(e, ev)
                                       then ev.awaitingInput || LeavesAskOpen(e, ev) else e.awaitingInput)
    ensures var b := Boundary(known, ev, now); b == known.(status := b.status, awaitingInput := false, turnId := "")
  {
  }

  /** What the whole reducer leaves, told by the entry it knows the event for. */
  lemma Stages(prev: Option<Entry>, ev: Event, now: int)
    ensures var e, n := Base(prev, now), ReduceEffective(prev, ev, now);
            var known, heard := Identify(Asked(e, ev), ev), Heard(prev, ev, now);
            && n.who == (if heard then known.who else e.who) && n.hibernated == e.hibernated
            && n.turnId == (if !heard then e.turnId else if ev.kind == SessionKind then "" else known.turnId)
            && n.approvals == (if UncorrelatedStartIdle(prev, ev, now) then e.approvals else Tickets(e, ev))
            && n.question == (if UncorrelatedStartIdle(prev, ev, now) || PickerStands(e, ev) then e.question else known.question)
            && n.awaitingInput ==
               if !heard then e.awaitingInput
               else if ev.kind == SessionKind then false
               else if ev.kind == StateKind && ev.state.Some? && (ev.idle ==> e.status.state == Some(Working) || IdleAfterStart(e, ev))
               then ev.awaitingInput || LeavesAskOpen(e, ev)
               else e.awaitingInput
  {
    hide Tickets, Resets, Answers, UncorrelatedStartIdle, SessionStart, Transition, Boundary, IdleAfterStart, LeavesAskOpen;
    StateStages(prev, Identify(Asked(Base(prev, now), ev), ev), ev, now);
  }

  function Or(told: string, known: string): string {
    if told != "" then told else known
  }

  /**
   * An event of the node's own says who it is wherever it says anything, and no other event does; the
   * name is never touched. A turn id lasts until the next event that states one, or a session boundary.
   */
  lemma WhoAfter(prev: Option<Entry>, original: Event, now: int)
    ensures var e, n, ev := Base(prev, now), Reduce(prev, original, now), ResolveCancelled(original);
            if Heard(prev, ev, now) then
              && n.who == Identity(Or(ev.agentId, e.who.agentId), Or(ev.sessionId, e.who.sessionId), Or(ev.account, e.who.account), e.who.name)
              && n.turnId == if ev.kind == SessionKind then "" else if ev.kind == StateKind && ev.turnId.Some? then ev.turnId.value else e.turnId
            else n.who == e.who && n.turnId == e.turnId
    ensures Reduce(prev, original, now).hibernated == Base(prev, now).hibernated
  {
    Stages(prev, ResolveCancelled(original), now);
    hide Tickets, Resets, Answers, UncorrelatedStartIdle, SessionStart, Heard, ReduceEffective, IdleAfterStart, LeavesAskOpen, ResolveCancelled;
  }

  /** A request for input is open from the event that asks until one that carries a state over it without asking or finishing. */
  lemma AwaitingAfter(prev: Option<Entry>, original: Event, now: int)
    ensures var e, n, ev := Base(prev, now), Reduce(prev, original, now), ResolveCancelled(original);
            n.awaitingInput ==
            if !Heard(prev, ev, now) then e.awaitingInput
            else if ev.kind == SessionKind then false
            else if ev.kind == StateKind && ev.state.Some? && (ev.idle ==> e.status.state == Some(Working) || IdleAfterStart(e, ev))
            then ev.awaitingInput || LeavesAskOpen(e, ev)
            else e.awaitingInput
  {
    Stages(prev, ResolveCancelled(original), now);
    hide Tickets, Resets, Answers, UncorrelatedStartIdle, SessionStart, Heard, ReduceEffective, IdleAfterStart, LeavesAskOpen, ResolveCancelled;
  }

  /** The picker an event raises is the one shown, unless an open one stands; and one that is closed is gone. */
  lemma PickerAfter(prev: Option<Entry>, original: Event, now: int)
    ensures var e, n, ev := Base(prev, now), Reduce(prev, original, now), ResolveCancelled(original);
            n.question ==
            if UncorrelatedStartIdle(prev, ev, now)
               || (e.question.Some? && !(ev.kind == SessionKind && ev.phase == Some(Start))
                   && (ev.sessionId != e.question.value.sessionId
                       || (ev.kind != SessionKind && !ev.newTurn && !ev.interrupted && ev.answeredId != e.question.value.toolUseId)))
            then e.question
            else if ev.questionId != "" && ev.sessionId != "" then Some(Question(ev.sessionId, ev.questionId))
            else None
  {
    Stages(prev, ResolveCancelled(original), now);
    hide Tickets, UncorrelatedStartIdle, Heard, ReduceEffective, IdleAfterStart, LeavesAskOpen, ResolveCancelled;
  }

  /** An approval asked for while another ask is open. */
  predicate Joins(e: Entry, ev: Event, id: string) {
    id != "" && ev.pendingId == id && ev.state == Some(Blocked) && ev.approvalAsk && (e.question.Some? || e.approvals != [])
  }

  /** Exactly the tickets that were out, or join, and are not settled by their own result or dropped by a reset; each once. */
  lemma TicketsAfter(prev: Option<Entry>, original: Event, now: int)
    requires NoTwice(Base(prev, now).approvals)
    ensures var e, n, ev := Base(prev, now), Reduce(prev, original, now), ResolveCancelled(original);
            && NoTwice(n.approvals)
            && forall id :: id in n.approvals <==>
                 if UncorrelatedStartIdle(prev, ev, now) then id in e.approvals
                 else
                   && !(ev.kind == SessionKind && ev.phase == Some(Start))
                   && !(ev.sessionId == e.who.sessionId && (ev.kind == SessionKind || ev.newTurn || ev.interrupted))
                   && (id in e.approvals || Joins(e, ev, id))
                   && !(id != "" && ev.pendingId == id && ev.state == Some(Working))
  {
    var e, ev := Base(prev, now), ResolveCancelled(original);
    TicketsAre(e, ev);
    Stages(prev, ev, now);
    hide Tickets, UncorrelatedStartIdle, Heard, ReduceEffective, IdleAfterStart, LeavesAskOpen, ResolveCancelled, PickerStands, Joins;
  }

  predicate NoTwice(ids: seq<string>) {
    forall i, j | 0 <= i < j < |ids| :: ids[i] != ids[j]
  }

  lemma TicketsAre(e: Entry, ev: Event)
    requires NoTwice(e.approvals)
    ensures NoTwice(Tickets(e, ev))
    ensures forall id :: id in Tickets(e, ev) <==>
              !Resets(ev, e.who.sessionId) && (id in e.approvals || Joins(e, ev, id)) && !(id != "" && ev.pendingId == id && ev.state == Some(Working))
  {
    var raised := ev.pendingId != "" && ev.state == Some(Blocked) && ev.approvalAsk && (e.question.Some? || e.approvals != []);
    var ids := if raised && ev.pendingId !in e.approvals then e.approvals + [ev.pendingId] else e.approvals;
    RemovedOnce(ids, ev.pendingId);
    assert forall id :: id in ids <==> id in e.approvals || (raised && id == ev.pendingId);
  }

  lemma {:induction false} RemovedOnce(ids: seq<string>, id: string)
    requires NoTwice(ids)
    ensures NoTwice(Remove(ids, id))
  {
    if ids != [] {
      var rest, tail := Remove(ids[1..], id), ids[1..];
      forall i, j | 0 <= i < j < |tail| ensures tail[i] != tail[j] { assert ids[i + 1] != ids[j + 1]; }
      RemovedOnce(tail, id);
      var r := Remove(ids, id);
      if ids[0] == id {
        assert r == rest;
      } else {
        assert r == [ids[0]] + rest;
        forall j | 0 <= j < |rest| ensures rest[j] != ids[0] { assert rest[j] in tail; }
      }
    }
  }

  /** A cancellation of a parent session's turn, for a reason that is known. */
  predicate Cancels(ev: Event) {
    ev.agentId == "grok" && ev.kind == StateKind && ev.state.None? && !ev.fromSubagent && ev.cancel.Some? && ev.cancel.value != UnknownReason
  }

  /** Exactly a cancelled turn becomes a `done`, an interrupted one if the user cancelled it; every other event stays as it is. */
  lemma CancelledTurnEnds(ev: Event)
    ensures ResolveCancelled(ev)
            == if Cancels(ev) then ev.(state := Some(Done), interrupted := ev.interrupted || ev.cancel.value == UserInterrupt) else ev
  {
    if Cancels(ev) {
      match ev.cancel.value
      case UserInterrupt =>
      case _ =>
    }
  }

  // ----- two holds -----

  /** Nothing is being asked of the entry's user. */
  predicate Quiet(e: Entry) {
    e.question.None? && e.approvals == []
  }

  /** An event that asks nothing, from the node's own agent or from none that says. */
  predicate PlainState(e: Entry, ev: Event, state: State) {
    && ev.kind == StateKind && ev.state == Some(state) && ev.questionId == "" && ev.pendingId == "" && ev.cancel.None?
    && (ev.agentId == "" || e.who.agentId == "" || ev.agentId == e.who.agentId)
  }

  /** Within three seconds of a `done`, `working` means the same turn, unless it opens a turn or a session. */
  lemma LateWorkingIsHeldOff(e: Entry, ev: Event, now: int)
    requires Evident(e) && Quiet(e) && e.status.state == Some(Done) && PlainState(e, ev, Working) && !ev.idle
    ensures var n := Reduce(Some(e), ev, now).status;
            if ev.newTurn || ev.phase == Some(Start) || now - e.status.updatedAt >= 3_000 then n.state == Some(Working) && n.updatedAt == now
            else n == e.status
  {
    hide Tickets;
    QuietStays(e, ev);
  }

  lemma QuietStays(e: Entry, ev: Event)
    requires Quiet(e) && ev.pendingId == ""
    ensures Tickets(e, ev) == []
  {
  }

  /**
   * After a vouched session start an idle prompt is that session's own exactly if it names the same session
   * and agent, the entry still does, and the clock has not gone back. Then it settles the node as done,
   * vouched for and not inferred, if it is vouched for; any other changes nothing at all.
   */
  lemma FirstIdleIsItsOwn(e: Entry, ev: Event, now: int)
    requires Evident(e) && Quiet(e) && e.status.sessionStarted.Some? && e.who.agentId == e.status.sessionStarted.value.agentId
    requires ev.kind == StateKind && ev.state == Some(Done) && ev.idle && ev.questionId == "" && ev.pendingId == "" && !ev.awaitingInput
    requires !e.awaitingInput && ev.cancel.None?
    ensures var n, start := Reduce(Some(e), ev, now), e.status.sessionStarted.value;
            if ev.sessionId == start.sessionId == e.who.sessionId && ev.agentId == start.agentId && start.at <= now then
              (ev.verified ==> n.status.state == Some(Done) && n.status.stateVerified && !n.status.idleInferred && n.status.updatedAt == now)
              && (!ev.verified ==> n.status == e.status)
            else n == e
  {
    hide Tickets, Resets;
    QuietStays(e, ev);
  }
}
