/**
 * The agent status reducer: one node's mirror entry, and what one normalized
 * hook event at a given time makes of it.
 */
module MirrorEntry {
  import opened Options

  datatype State = Working | Waiting | Blocked | Done
  datatype Kind = StateKind | SessionKind | OtherKind
  datatype Phase = Start | End
  datatype Cancel = UserInterrupt | PermissionRejected | PermissionCancelled | MaxTurns | NoProgress | UnknownReason

  /** A normalized event; an absent string is `""`, an absent flag is `false`. */
  datatype Event = Event(
    agentId: string, kind: Kind, state: Option<State>, phase: Option<Phase>, sessionId: string,
    interrupted: bool, idle: bool, awaitingInput: bool, questionId: string, answeredId: string,
    newTurn: bool, turnId: Option<string>, pendingId: string, approvalAsk: bool, verified: bool,
    clientRevision: Option<int>, account: string, cancel: Option<Cancel>, fromSubagent: bool)

  datatype Question = Question(sessionId: string, toolUseId: string)
  datatype Started = Started(sessionId: string, agentId: string, at: int)

  datatype Identity = Identity(agentId: string, sessionId: string, account: string, name: string)

  /** The committed state together with everything that vouches for it. */
  datatype Evidence = Evidence(
    state: Option<State>, updatedAt: int, stateVerified: bool, verifiedAt: Option<int>, clientRevision: Option<int>,
    restored: bool, idleInferred: bool, sessionStarted: Option<Started>, stateExpired: bool)

  /** A node's entry. `approvals` are the child approval tickets outstanding beside a picker. */
  datatype Entry = Entry(
    who: Identity, status: Evidence, approvals: seq<string>, question: Option<Question>,
    awaitingInput: bool, turnId: string, hibernated: bool)

  const DONE_HOLDOFF_MS: int := 3000

  function Blank(now: int): Entry {
    Entry(Identity("", "", "", ""), Evidence(None, now, false, None, None, false, false, None, false), [], None, false, "", false)
  }

  function Base(prev: Option<Entry>, now: int): Entry {
    if prev.Some? then prev.value else Blank(now)
  }

  /** A session-level cancellation becomes the end of its turn, except for an unknown reason. */
  function ResolveCancelled(ev: Event): Event {
    if ev.agentId != "grok" || ev.kind != StateKind || ev.state.Some? || ev.cancel.None? || ev.fromSubagent then ev
    else match ev.cancel.value
      case UserInterrupt => ev.(state := Some(Done), interrupted := true)
      case UnknownReason => ev
      case _ => ev.(state := Some(Done))
  }

  /** An idle prompt that is not the one of the session start on record. */
  predicate UncorrelatedStartIdle(prev: Option<Entry>, ev: Event, now: int) {
    prev.Some? && prev.value.status.sessionStarted.Some? && ev.kind == StateKind && ev.idle &&
    var started := prev.value.status.sessionStarted.value;
    ev.sessionId != started.sessionId || ev.agentId != started.agentId
    || prev.value.who.sessionId != started.sessionId || now < started.at
  }

  predicate SessionStart(ev: Event) {
    ev.phase == Some(Start) && (ev.kind == SessionKind || (ev.kind == StateKind && ev.state == Some(Working)))
  }

  /** The boundary, turn or interrupt of session `sessionId` that drops what was being asked. */
  predicate Resets(ev: Event, sessionId: string) {
    || (ev.kind == SessionKind && ev.phase == Some(Start))
    || (ev.sessionId == sessionId && (ev.kind == SessionKind || ev.newTurn || ev.interrupted))
  }

  predicate Answers(ev: Event, q: Question) {
    ev.sessionId == q.sessionId && ev.answeredId == q.toolUseId
  }

  function Remove(ids: seq<string>, id: string): (r: seq<string>)
    ensures forall x :: x in r <==> x in ids && x != id
  {
    if ids == [] then [] else (if ids[0] == id then [] else [ids[0]]) + Remove(ids[1..], id)
  }

  /** The outstanding tickets after the event. */
  function Tickets(e: Entry, ev: Event): seq<string> {
    if Resets(ev, e.who.sessionId) then []
    else
      var raised := ev.pendingId != "" && ev.state == Some(Blocked) && ev.approvalAsk && (e.question.Some? || e.approvals != []);
      var ids := if raised && ev.pendingId !in e.approvals then e.approvals + [ev.pendingId] else e.approvals;
      if ev.pendingId != "" && ev.state == Some(Working) then Remove(ids, ev.pendingId) else ids
  }

  /** Set the state together with all of its evidence; `proof` says whether this change is vouched for. */
  function Commit(e: Entry, ev: Event, now: int, state: Option<State>, proof: bool, afterStart: bool): Entry {
    e.(status := Evidence(state, now, proof, if proof then Some(now) else e.status.verifiedAt, ev.clientRevision,
                          false, state == Some(Done) && ev.idle && !afterStart, None, false))
  }

  /** Identity and turn id, captured off any event of the node's own agent. */
  function Identify(e: Entry, ev: Event): Entry {
    e.(who := Identity(if ev.agentId != "" then ev.agentId else e.who.agentId,
                       if ev.sessionId != "" then ev.sessionId else e.who.sessionId,
                       if ev.account != "" then ev.account else e.who.account,
                       e.who.name),
       turnId := if ev.kind == StateKind && ev.turnId.Some? then ev.turnId.value else e.turnId)
  }

  predicate Foreign(e: Entry, ev: Event) {
    ev.agentId != "" && e.who.agentId != "" && ev.agentId != e.who.agentId
  }

  /** The first thing heard after a session start on record is a vouched idle prompt. */
  predicate IdleAfterStart(e: Entry, ev: Event) {
    ev.idle && ev.verified && e.status.sessionStarted.Some? && e.status.state.None?
  }

  /** A `working` too soon after a `done` to be a new turn. */
  predicate HeldOff(prev: Option<Entry>, ev: Event, now: int) {
    ev.state == Some(Working) && !SessionStart(ev) && !ev.newTurn
    && prev.Some? && prev.value.status.state == Some(Done) && now - prev.value.status.updatedAt < DONE_HOLDOFF_MS
  }

  /** A `state` event carrying a state, past every hold. */
  function Transition(prev: Option<Entry>, next: Entry, ev: Event, now: int): Entry {
    var e := Base(prev, now);
    if ev.idle && e.status.state != Some(Working) && !IdleAfterStart(e, ev) then next
    else if !ev.awaitingInput && e.awaitingInput && ev.state == Some(Done) && !ev.interrupted then
      Commit(next, ev, now, Some(Waiting), ev.verified, false)
    else
      var asked := next.(awaitingInput := ev.awaitingInput);
      if HeldOff(prev, ev, now) then asked
      else Commit(asked, ev, now, ev.state, ev.verified, IdleAfterStart(e, ev))
  }

  /** At either end of a session no state is left; a vouched start is put on record. */
  function Boundary(next: Entry, ev: Event, now: int): Entry {
    var reset := Commit(next, ev, now, None, false, false).(awaitingInput := false, turnId := "");
    if ev.phase == Some(Start) && ev.verified && ev.sessionId != ""
    then reset.(status := reset.status.(sessionStarted := Some(Started(ev.sessionId, ev.agentId, now))))
    else reset
  }

  /** The entry with its tickets settled, and the event's own picker (if it raises one) open. */
  function Asked(e: Entry, ev: Event): Entry {
    e.(approvals := Tickets(e, ev),
       question := if ev.questionId != "" && ev.sessionId != "" then Some(Question(ev.sessionId, ev.questionId)) else None)
  }

  function ReduceEffective(prev: Option<Entry>, ev: Event, now: int): Entry {
    var e := Base(prev, now);
    if UncorrelatedStartIdle(prev, ev, now) then e
    else if e.question.Some? && !Resets(ev, e.question.value.sessionId) && !Answers(ev, e.question.value) then
      e.(approvals := Tickets(e, ev))
    else
      var asked := Asked(e, ev);
      if asked.approvals != [] && asked.question.None? then
        if ev.kind == StateKind then Commit(asked, ev, now, Some(Blocked), ev.verified, false) else asked
      else if Foreign(asked, ev) && !(SessionStart(ev) && e.status.state != Some(Working)) then asked
      else
        var known := Identify(asked, ev);
        if ev.kind == StateKind && ev.state.Some? then Transition(prev, known, ev, now)
        else if ev.kind == SessionKind then Boundary(known, ev, now)
        else known
  }

  /** The reducer. */
  function Reduce(prev: Option<Entry>, ev: Event, now: int): Entry {
    ReduceEffective(prev, ResolveCancelled(ev), now)
  }

  // ----- what the stages do -----

  /** The claims a committed state carries agree with it. */
  predicate Coherent(s: Evidence) {
    && (s.idleInferred ==> s.state == Some(Done))
    && (s.sessionStarted.Some? ==> s.state.None?)
    && (s.stateExpired ==> s.state.None?)
    && (s.restored ==> !s.stateVerified)
  }

  /** The evidence is that of `ev` at `now`, committed over `before`. */
  predicate CommittedBy(before: Evidence, after: Evidence, ev: Event, now: int) {
    && Coherent(after)
    && after.updatedAt == now && after.clientRevision == ev.clientRevision && !after.restored && !after.stateExpired
    && after.stateVerified == (ev.kind == StateKind && ev.verified)
    && after.verifiedAt == (if after.stateVerified then Some(now) else before.verifiedAt)
    && (after.state.None? <==> ev.kind == SessionKind)
    && (after.idleInferred ==> ev.idle)
    && (after.sessionStarted.Some? ==> ev.kind == SessionKind && ev.verified)
  }

  lemma TransitionShape(prev: Option<Entry>, next: Entry, ev: Event, now: int)
    requires ev.kind == StateKind && ev.state.Some?
    ensures var t := Transition(prev, next, ev, now);
            && t == next.(status := t.status, awaitingInput := t.awaitingInput)
            && (t.status == next.status || CommittedBy(next.status, t.status, ev, now))
            && (ev.state == Some(Waiting) && !ev.idle ==> t.status.state == Some(Waiting))
  {
  }

  lemma BoundaryShape(next: Entry, ev: Event, now: int)
    requires ev.kind == SessionKind
    ensures var b := Boundary(next, ev, now);
            && b == next.(status := b.status, awaitingInput := false, turnId := "")
            && CommittedBy(next.status, b.status, ev, now)
  {
  }

  /** What any event leaves of the rest of the entry's status and identity. */
  lemma ReduceShape(prev: Option<Entry>, ev: Event, now: int)
    ensures var e, n := Base(prev, now), ReduceEffective(prev, ev, now);
            && (n.status == e.status || CommittedBy(e.status, n.status, ev, now))
            && (e.who.agentId != "" ==> n.who.agentId != "") && (e.who.sessionId != "" ==> n.who.sessionId != "")
  {
    hide Transition, Boundary, Tickets, Resets, Answers, Foreign, UncorrelatedStartIdle, SessionStart, CommittedBy;
    var e := Base(prev, now);
    var known := Identify(Asked(e, ev), ev);
    assert known.status == e.status;
    if ev.kind == StateKind {
      if ev.state.Some? { TransitionShape(prev, known, ev, now); }
      BlockedIsCommitted(Asked(e, ev), ev, now);
    } else if ev.kind == SessionKind {
      BoundaryShape(known, ev, now);
    }
  }

  lemma BlockedIsCommitted(e: Entry, ev: Event, now: int)
    requires ev.kind == StateKind
    ensures CommittedBy(e.status, Commit(e, ev, now, Some(Blocked), ev.verified, false).status, ev, now)
  {
  }

  // ----- attention is held -----

  /** An open picker or an outstanding ticket shows as waiting or blocked. */
  predicate Attentive(e: Entry) {
    e.question.Some? || e.approvals != [] ==> e.status.state == Some(Waiting) || e.status.state == Some(Blocked)
  }

  /** A picker event is the node's own agent going to `waiting`. */
  predicate OwnQuestion(prev: Option<Entry>, ev: Event) {
    ev.questionId != "" && ev.sessionId != "" ==>
      ev.kind == StateKind && ev.state == Some(Waiting) && !ev.idle && (prev.Some? ==> !Foreign(prev.value, ev))
  }

  lemma ReduceKeepsAttention(prev: Option<Entry>, ev: Event, now: int)
    requires prev.Some? ==> Attentive(prev.value)
    requires OwnQuestion(prev, ResolveCancelled(ev))
    ensures Attentive(Reduce(prev, ev, now))
  {
    AttentionStep(prev, ResolveCancelled(ev), now);
  }

  /** A ticket is only kept when a picker or another ticket was already open. */
  lemma TicketsOnlyBesideAsks(e: Entry, ev: Event)
    ensures Tickets(e, ev) != [] ==> e.question.Some? || e.approvals != []
    ensures forall id :: id in e.approvals ==>
              (id !in Tickets(e, ev) <==> Resets(ev, e.who.sessionId) || (ev.pendingId != "" && ev.pendingId == id && ev.state == Some(Working)))
  {
  }

  /** A new picker commits `waiting`; without one, outstanding tickets hold `blocked`. */
  lemma AttentionStep(prev: Option<Entry>, ev: Event, now: int)
    requires prev.Some? ==> Attentive(prev.value)
    requires OwnQuestion(prev, ev)
    ensures Attentive(ReduceEffective(prev, ev, now))
  {
    hide Transition, Boundary, Tickets, Resets, Answers, UncorrelatedStartIdle, SessionStart, CommittedBy;
    var e := Base(prev, now);
    TicketsOnlyBesideAsks(e, ev);
    var known := Identify(Asked(e, ev), ev);
    if ev.kind == StateKind && ev.state.Some? { TransitionShape(prev, known, ev, now); }
    if ev.kind == SessionKind { BoundaryShape(known, ev, now); }
  }

  /** The event closes the picker: its matching answer, or a reset of its session. */
  predicate Closes(ev: Event, q: Question) {
    Resets(ev, q.sessionId) || Answers(ev, q)
  }

  /** Nothing else touches a held picker: only the tickets beside it may change. */
  lemma PickerHolds(e: Entry, ev: Event, now: int)
    requires e.question.Some? && !Closes(ResolveCancelled(ev), e.question.value)
    ensures var n := Reduce(Some(e), ev, now); n == e.(approvals := n.approvals)
  {
  }

  /** Exactly what removes an outstanding ticket: its own result, or a reset of the entry's session. */
  lemma TicketLeavesOnlyOnItsResult(e: Entry, ev: Event, now: int, id: string)
    requires id in e.approvals && !UncorrelatedStartIdle(Some(e), ResolveCancelled(ev), now)
    ensures var r := ResolveCancelled(ev);
            id !in Reduce(Some(e), ev, now).approvals
            <==> Resets(r, e.who.sessionId) || (r.pendingId != "" && r.pendingId == id && r.state == Some(Working))
  {
    var r := ResolveCancelled(ev);
    TicketsOnlyBesideAsks(e, r);
    TicketsAreKept(Some(e), r, now);
  }

  lemma {:induction false} TicketsAreKept(prev: Option<Entry>, ev: Event, now: int)
    requires !UncorrelatedStartIdle(prev, ev, now)
    ensures ReduceEffective(prev, ev, now).approvals == Tickets(Base(prev, now), ev)
  {
    hide Tickets, Resets, Answers, Foreign, SessionStart, UncorrelatedStartIdle;
  }

  // ----- evidence -----

  /** What an entry claims about how its state is known; an expired one still has an identity. */
  predicate Evident(e: Entry) {
    Coherent(e.status) && (e.status.stateExpired ==> e.who.agentId != "" || e.who.sessionId != "")
  }

  lemma ReduceKeepsEvidence(prev: Option<Entry>, ev: Event, now: int)
    requires prev.Some? ==> Evident(prev.value)
    ensures Evident(Reduce(prev, ev, now))
  {
    hide ReduceEffective, CommittedBy;
    EvidenceMovesAsOne(prev, ev, now);
    ReduceShape(prev, ResolveCancelled(ev), now);
    CommittedIsFresh(Base(prev, now).status, Reduce(prev, ev, now).status, ResolveCancelled(ev), now);
  }

  lemma CommittedIsFresh(before: Evidence, after: Evidence, ev: Event, now: int)
    ensures CommittedBy(before, after, ev, now) ==> Coherent(after) && !after.stateExpired
  {
  }

  /** Evidence moves as one: an event leaves all of it alone, or commits all of it as its own. */
  lemma EvidenceMovesAsOne(prev: Option<Entry>, ev: Event, now: int)
    ensures var before, after := Base(prev, now).status, Reduce(prev, ev, now).status;
            before == after || CommittedBy(before, after, ResolveCancelled(ev), now)
  {
    ReduceShape(prev, ResolveCancelled(ev), now);
  }

  /** The event leaves tickets outstanding that no picker of its own stands beside. */
  predicate TicketsStand(e: Entry, ev: Event) {
    Tickets(e, ev) != [] && (ev.questionId == "" || ev.sessionId == "")
  }

  /** An idle prompt sets nothing outside work, and neither does a `working` right after a `done`. */
  predicate Settles(prev: Option<Entry>, ev: Event, now: int) {
    var e := Base(prev, now);
    (ev.idle ==> e.status.state == Some(Working) || IdleAfterStart(e, ev)) && !HeldOff(prev, ev, now)
  }

  /**
   * The event sets the evidence: no idle prompt of another start, no open picker it leaves open, and then
   * a state event beside outstanding tickets, or the node's own session boundary or settled state.
   */
  predicate Commits(prev: Option<Entry>, original: Event, now: int) {
    var e, ev := Base(prev, now), ResolveCancelled(original);
    && !UncorrelatedStartIdle(prev, ev, now)
    && (e.question.Some? ==> Resets(ev, e.question.value.sessionId) || Answers(ev, e.question.value))
    && if TicketsStand(e, ev) then ev.kind == StateKind
       else
         && (!Foreign(e, ev) || (SessionStart(ev) && e.status.state != Some(Working)))
         && (ev.kind == SessionKind || (ev.kind == StateKind && ev.state.Some? && Settles(prev, ev, now)))
  }

  /** An uninterrupted `done` over an open request for input. */
  predicate LeavesAskOpen(e: Entry, ev: Event) {
    e.awaitingInput && !ev.awaitingInput && ev.state == Some(Done) && !ev.interrupted
  }

  /** The state a committing event leaves: blocked beside tickets, none at a boundary, waiting over an open ask, else its own. */
  function StateLeft(e: Entry, ev: Event): Option<State> {
    if TicketsStand(e, ev) then Some(Blocked)
    else if ev.kind == SessionKind then None
    else if LeavesAskOpen(e, ev) then Some(Waiting)
    else ev.state
  }

  /** All of the evidence that goes with it. */
  function EvidenceLeft(e: Entry, ev: Event, now: int): Evidence {
    var state, proof := StateLeft(e, ev), ev.kind == StateKind && ev.verified;
    Evidence(state, now, proof, if proof then Some(now) else e.status.verifiedAt, ev.clientRevision, false,
             state == Some(Done) && ev.idle && !(ev.verified && e.status.sessionStarted.Some? && e.status.state.None?),
             if ev.kind == SessionKind && !TicketsStand(e, ev) && ev.phase == Some(Start) && ev.verified && ev.sessionId != ""
             then Some(Started(ev.sessionId, ev.agentId, now)) else None,
             false)
  }

  /**
   * An event commits evidence exactly under that condition, known beforehand, and then the state and all
   * that vouches for it are those told by the entry and the event before it; otherwise all of it stands.
   * So at a later time than the evidence's it changes if and only if it commits.
   */
  lemma CommitsExactlyWhen(prev: Option<Entry>, ev: Event, now: int)
    ensures var e, after := Base(prev, now), Reduce(prev, ev, now).status;
            && (if Commits(prev, ev, now) then
                  && CommittedBy(e.status, after, ResolveCancelled(ev), now)
                  && after.state == StateLeft(e, ResolveCancelled(ev)) && after == EvidenceLeft(e, ResolveCancelled(ev), now)
                else after == e.status)
            && (e.status.updatedAt != now ==> (after != e.status <==> Commits(prev, ev, now)))
  {
    hide Transition, Boundary, Tickets, Resets, Answers, Foreign, UncorrelatedStartIdle, SessionStart, Settles;
    var resolved := ResolveCancelled(ev);
    var e := Base(prev, now);
    var known := Identify(Asked(e, resolved), resolved);
    assert known.status == e.status && known.awaitingInput == e.awaitingInput;
    if resolved.kind == StateKind {
      if resolved.state.Some? { TransitionLeaves(prev, known, resolved, now); }
      BlockedIsCommitted(Asked(e, resolved), resolved, now);
    } else if resolved.kind == SessionKind {
      BoundaryLeaves(known, resolved, now);
    }
    ForeignByAgent(e, resolved);
  }

  lemma TransitionLeaves(prev: Option<Entry>, next: Entry, ev: Event, now: int)
    requires ev.kind == StateKind && ev.state.Some? && next.status == Base(prev, now).status
    ensures var s, e := Transition(prev, next, ev, now).status, Base(prev, now);
            if !Settles(prev, ev, now) then s == next.status
            else CommittedBy(next.status, s, ev, now) && (!TicketsStand(e, ev) ==> s == EvidenceLeft(e, ev, now))
  {
    hide Tickets;
  }

  lemma BoundaryLeaves(next: Entry, ev: Event, now: int)
    requires ev.kind == SessionKind
    ensures var s := Boundary(next, ev, now).status;
            && CommittedBy(next.status, s, ev, now)
            && forall e: Entry | e.status == next.status && !TicketsStand(e, ev) :: s == EvidenceLeft(e, ev, now)
  {
    hide Tickets;
  }

  lemma ForeignByAgent(e: Entry, ev: Event)
    ensures Foreign(Asked(e, ev), ev) <==> Foreign(e, ev)
  {
  }
}
