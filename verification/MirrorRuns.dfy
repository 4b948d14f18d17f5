/**
 * Whole lives of a mirror entry: hook events, ageing, restarts, seeding,
 * hibernation, naming and the stale sweep, in any order.
 */
module MirrorRuns {
  import opened Options
  import opened MirrorEntry
  import opened MirrorAgeing

  const WORKING_STALE_MS: int := 20 * 60_000

  datatype Move =
    | Hook(ev: Event, at: int)
    | Aged(id: string, at: int, live: Live)
    | Seed(who: Identity, at: int)
    | Hibernate(on: bool, at: int)
    | Sweep(at: int)
    | Name(name: string)
    | Restart(savedAt: int, loadedAt: int, accepts: Accepts)
    | Clear

  /** Fill in an identity a stateless entry lacks; a state or a session id is never touched. */
  function SeedOne(st: Option<Entry>, who: Identity, at: int): Option<Entry> {
    if st.Some? then
      var e := st.value;
      if e.who.sessionId != "" || e.status.state.Some? || (e.who.agentId != "" && e.who.agentId != who.agentId) then st
      else Some(e.(who := Identity(who.agentId, who.sessionId, if e.who.account == "" then who.account else e.who.account, e.who.name)))
    else
      Some(Entry(who.(name := ""), Evidence(None, at - EXPIRE_MS - 1, false, None, None, false, false, None, true), [], None, false, "", false))
  }

  function HibernateOne(st: Option<Entry>, on: bool, at: int): Option<Entry> {
    if on then Some(if st.Some? then st.value.(hibernated := true) else Blank(at).(hibernated := true))
    else if st.Some? then Some(st.value.(hibernated := false)) else None
  }

  predicate StaleWorking(e: Entry, at: int) {
    e.status.state == Some(Working) && at - e.status.updatedAt > WORKING_STALE_MS
  }

  function SweepOne(e: Entry, at: int): Entry {
    if StaleWorking(e, at) then e.(status := e.status.(state := Some(Done))) else e
  }

  function After(st: Option<Entry>, m: Move): Option<Entry> {
    match m
    case Hook(ev, at) => Some(Reduce(st, ev, at))
    case Aged(id, at, live) => if st.Some? then Age(id, st.value, at, live) else None
    case Seed(who, at) => SeedOne(st, who, at)
    case Hibernate(on, at) => HibernateOne(st, on, at)
    case Sweep(at) => if st.Some? then Some(SweepOne(st.value, at)) else None
    case Name(name) => if st.Some? && name != "" then Some(st.value.(who := st.value.who.(name := name))) else st
    case Restart(savedAt, loadedAt, accepts) =>
      var saved := if st.Some? then Age("", st.value, savedAt, None) else None;
      if saved.Some? then Restore(ToFile(saved.value), loadedAt, accepts) else None
    case Clear => None
  }

  /** Picker events come from the node's own agent going to `waiting`; seeds carry real ids. */
  predicate Fair(st: Option<Entry>, m: Move) {
    match m
    case Hook(ev, _) => OwnQuestion(st, ResolveCancelled(ev))
    case Seed(who, _) => who.agentId != "" && who.sessionId != ""
    case _ => true
  }

  ghost predicate Sound(st: Option<Entry>) {
    st.Some? ==> Attentive(st.value) && Evident(st.value)
  }

  lemma MoveKeepsSound(st: Option<Entry>, m: Move)
    requires Sound(st) && Fair(st, m)
    ensures Sound(After(st, m))
  {
    hide Reduce;
    if m.Hook? {
      ReduceKeepsAttention(st, m.ev, m.at);
      ReduceKeepsEvidence(st, m.ev, m.at);
    }
  }

  function Life(moves: seq<Move>): Option<Entry> {
    if moves == [] then None else After(Life(moves[..|moves| - 1]), moves[|moves| - 1])
  }

  ghost predicate FairLife(moves: seq<Move>) {
    moves == [] || (FairLife(moves[..|moves| - 1]) && Fair(Life(moves[..|moves| - 1]), moves[|moves| - 1]))
  }

  /**
   * In every reachable entry an open picker or an outstanding ticket shows as waiting or blocked, an
   * inferred idle is a `done`, a pending session start or an expired state has no state, and nothing
   * restored is verified.
   */
  lemma {:induction false} EveryReachableEntryIsSound(moves: seq<Move>)
    requires FairLife(moves)
    ensures Sound(Life(moves))
  {
    if moves != [] {
      EveryReachableEntryIsSound(moves[..|moves| - 1]);
      MoveKeepsSound(Life(moves[..|moves| - 1]), moves[|moves| - 1]);
    }
  }

  // ----- runs of the reducer alone -----

  datatype Timed = Timed(ev: Event, at: int)

  function Fold(st: Option<Entry>, run: seq<Timed>): Option<Entry> {
    if run == [] then st
    else Some(Reduce(Fold(st, run[..|run| - 1]), run[|run| - 1].ev, run[|run| - 1].at))
  }

  /** The last event of the run that commits evidence where it comes, or `-1`. */
  function LastCommit(st: Option<Entry>, run: seq<Timed>): int
    ensures -1 <= LastCommit(st, run) < |run|
  {
    if run == [] then -1
    else
      var before := run[..|run| - 1];
      var last := run[|run| - 1];
      if Commits(Fold(st, before), last.ev, last.at) then |run| - 1 else LastCommit(st, before)
  }

  /**
   * The state an entry carries, and all that vouches for it, is what the one event that last committed
   * left of the entry it found: verified exactly if that was a verified state event, dated when it came,
   * under its script revision.
   */
  lemma {:induction false} EvidenceIsTheLastCommit(st: Option<Entry>, run: seq<Timed>)
    requires run != [] && LastCommit(st, run) >= 0
    ensures var s, cause := Fold(st, run).value.status, run[LastCommit(st, run)];
            && s.stateVerified == (cause.ev.kind == StateKind && cause.ev.verified)
            && s.updatedAt == cause.at && s.clientRevision == cause.ev.clientRevision && !s.restored
            && (s.stateVerified ==> s.verifiedAt == Some(cause.at))
            && (s.state.None? <==> cause.ev.kind == SessionKind)
            && var found, ev := Base(Fold(st, run[..LastCommit(st, run)]), cause.at), ResolveCancelled(cause.ev);
               s.state == StateLeft(found, ev) && s == EvidenceLeft(found, ev, cause.at)
  {
    hide Reduce, Commits, StateLeft, EvidenceLeft;
    var before, last := run[..|run| - 1], run[|run| - 1];
    CommitsExactlyWhen(Fold(st, before), last.ev, last.at);
    if LastCommit(st, run) < |run| - 1 {
      CommittedRunIsNotEmpty(st, before);
      EvidenceIsTheLastCommit(st, before);
      assert before[..LastCommit(st, before)] == run[..LastCommit(st, before)];
    }
  }

  lemma CommittedRunIsNotEmpty(st: Option<Entry>, run: seq<Timed>)
    ensures LastCommit(st, run) >= 0 ==> run != [] && Fold(st, run).Some?
  {
  }

  /** A verified entry that started from nothing owes its proof to a verified event of the run. */
  lemma VerifiedHasItsProof(run: seq<Timed>)
    requires Fold(None, run).Some? && Fold(None, run).value.status.stateVerified
    ensures exists i :: 0 <= i < |run| && run[i].ev.verified && run[i].ev.kind == StateKind
                        && run[i].at == Fold(None, run).value.status.updatedAt
  {
    if LastCommit(None, run) < 0 {
      NeverCommitted(run);
    } else {
      EvidenceIsTheLastCommit(None, run);
    }
  }

  lemma {:induction false} NeverCommitted(run: seq<Timed>)
    requires run != [] && LastCommit(None, run) < 0
    ensures !Fold(None, run).value.status.stateVerified
  {
    hide Reduce, Commits;
    var before, last := run[..|run| - 1], run[|run| - 1];
    CommitsExactlyWhen(Fold(None, before), last.ev, last.at);
    if before != [] { NeverCommitted(before); }
  }

  // ----- a held picker over whole runs -----

  /** While nothing closes it, a picker, its session, its state and its evidence stand through any run. */
  lemma {:induction false} PickerHoldsThroughRuns(e: Entry, run: seq<Timed>)
    requires e.question.Some? && forall i | 0 <= i < |run| :: !Closes(ResolveCancelled(run[i].ev), e.question.value)
    ensures var n := Fold(Some(e), run).value; n == e.(approvals := n.approvals)
  {
    hide Reduce;
    if run != [] {
      var before, last := run[..|run| - 1], run[|run| - 1];
      PickerHoldsThroughRuns(e, before);
      PickerHolds(Fold(Some(e), before).value, last.ev, last.at);
    }
  }

  // ----- asks over whole lives -----

  /** Ageing strips the entry: it is not hibernated, and its state is past its horizon. */
  predicate PastHorizon(e: Entry, at: int) {
    !e.hibernated && at - e.status.updatedAt > EXPIRE_MS
  }

  /** The event puts up this very picker. */
  predicate Raises(ev: Event, q: Question) {
    ev.questionId != "" && ev.sessionId != "" && q == Question(ev.sessionId, ev.questionId)
  }

  /** The moves that take the open picker down: what closes it without raising it again, ageing, a restart, a clear. */
  predicate TakesPicker(e: Entry, m: Move, q: Question) {
    match m
    case Hook(ev, _) => Closes(ResolveCancelled(ev), q) && !Raises(ResolveCancelled(ev), q)
    case Aged(_, at, _) => PastHorizon(e, at)
    case Restart(_, _, _) => true
    case Clear => true
    case _ => false
  }

  /** The moves that take an outstanding ticket: its own result, a reset of the session, ageing, a restart, a clear. */
  predicate TakesTicket(e: Entry, m: Move, id: string) {
    match m
    case Hook(ev, _) =>
      var r := ResolveCancelled(ev);
      Resets(r, e.who.sessionId) || (r.pendingId != "" && r.pendingId == id && r.state == Some(Working))
    case Aged(_, at, _) => PastHorizon(e, at)
    case Restart(_, _, _) => true
    case Clear => true
    case _ => false
  }

  /** While something is asked there is a state, so no session start is on record and nothing has expired. */
  lemma AskedHasState(e: Entry)
    requires Sound(Some(e)) && (e.question.Some? || e.approvals != [])
    ensures e.status.sessionStarted.None? && !e.status.stateExpired
  {
  }

  lemma ReducePicker(e: Entry, ev: Event, now: int)
    requires e.question.Some? && !UncorrelatedStartIdle(Some(e), ev, now)
    ensures ReduceEffective(Some(e), ev, now).question
            == if !Closes(ev, e.question.value) then e.question
               else if ev.questionId != "" && ev.sessionId != "" then Some(Question(ev.sessionId, ev.questionId)) else None
  {
    hide Tickets, Resets, Answers, Foreign, SessionStart, UncorrelatedStartIdle;
  }

  /** In every sound entry, a move takes the picker down if and only if it is one of those. */
  lemma PickerLeavesExactlyWhen(e: Entry, m: Move)
    requires Sound(Some(e)) && e.question.Some?
    ensures var after := After(Some(e), m);
            after.Some? && after.value.question == e.question <==> !TakesPicker(e, m, e.question.value)
  {
    AskedHasState(e);
    if m.Hook? {
      ReducePicker(e, ResolveCancelled(m.ev), m.at);
      hide ReduceEffective;
    }
  }

  lemma TicketLeavesExactlyWhen(e: Entry, m: Move, id: string)
    requires Sound(Some(e)) && id in e.approvals
    ensures var after := After(Some(e), m);
            after.Some? && id in after.value.approvals <==> !TakesTicket(e, m, id)
  {
    AskedHasState(e);
    if m.Hook? {
      TicketLeavesOnlyOnItsResult(e, m.ev, m.at, id);
      hide Reduce;
    }
  }

  /** Through any life, a picker put up once is up until a move takes it down. */
  lemma {:induction false} PickerStaysInLife(moves: seq<Move>, more: seq<Move>, q: Question)
    requires FairLife(moves + more)
    requires Life(moves).Some? && Life(moves).value.question == Some(q)
    requires forall i | 0 <= i < |more| :: Life(moves + more[..i]).Some? ==> !TakesPicker(Life(moves + more[..i]).value, more[i], q)
    ensures Life(moves + more).Some? && Life(moves + more).value.question == Some(q)
  {
    hide TakesPicker, After, Fair, Sound;
    if more == [] {
      assert moves + more == moves;
    } else {
      var before, m := more[..|more| - 1], more[|more| - 1];
      LifePush(moves, more);
      assert forall i | 0 <= i < |before| :: before[..i] == more[..i] && before[i] == more[i];
      PickerStaysInLife(moves, before, q);
      EveryReachableEntryIsSound(moves + before);
      PickerLeavesExactlyWhen(Life(moves + before).value, m);
    }
  }

  lemma LifePush(moves: seq<Move>, more: seq<Move>)
    requires more != []
    ensures var before, m := more[..|more| - 1], more[|more| - 1];
            Life(moves + more) == After(Life(moves + before), m) && (FairLife(moves + more) ==> FairLife(moves + before))
  {
    assert (moves + more)[..|moves + more| - 1] == moves + more[..|more| - 1];
  }

  /** And a ticket is outstanding until a move takes it. */
  lemma {:induction false} TicketStaysInLife(moves: seq<Move>, more: seq<Move>, id: string)
    requires FairLife(moves + more)
    requires Life(moves).Some? && id in Life(moves).value.approvals
    requires forall i | 0 <= i < |more| :: Life(moves + more[..i]).Some? ==> !TakesTicket(Life(moves + more[..i]).value, more[i], id)
    ensures Life(moves + more).Some? && id in Life(moves + more).value.approvals
  {
    hide TakesTicket, After, Fair, Sound;
    if more == [] {
      assert moves + more == moves;
    } else {
      var before, m := more[..|more| - 1], more[|more| - 1];
      LifePush(moves, more);
      assert forall i | 0 <= i < |before| :: before[..i] == more[..i] && before[i] == more[i];
      TicketStaysInLife(moves, before, id);
      EveryReachableEntryIsSound(moves + before);
      TicketLeavesExactlyWhen(Life(moves + before).value, m, id);
    }
  }

  // ----- what the other moves touch -----

  /**
   * A seed never touches what an entry says of its state, and overwrites nothing known of who it is: it
   * fills in agent, session and account where there is neither state nor session and the agent is the same
   * or unknown. With no entry it makes one that vouches for nothing and is already past its horizon.
   */
  lemma SeedOnlyFills(st: Option<Entry>, who: Identity, at: int)
    ensures SeedOne(st, who, at).Some?
    ensures st.Some? ==>
              var e, n := st.value, SeedOne(st, who, at).value;
              && n == e.(who := n.who) && n.who.name == e.who.name
              && if e.who.sessionId == "" && e.status.state.None? && (e.who.agentId == "" || e.who.agentId == who.agentId) then
                   n.who.agentId == who.agentId && n.who.sessionId == who.sessionId && n.who.account == (if e.who.account != "" then e.who.account else who.account)
                 else n.who == e.who
    ensures st.None? ==>
              var n := SeedOne(st, who, at).value;
              && n.who == who.(name := "") && n.status.state.None? && !n.status.stateVerified && n.status.stateExpired && !n.hibernated
              && n.question.None? && n.approvals == [] && PastHorizon(n, at)
  {
  }

  /** Hibernating or waking changes that flag alone; of a node nobody knows, only hibernating makes an entry, and it says nothing else. */
  lemma HibernationIsOneFlag(st: Option<Entry>, on: bool, at: int)
    ensures st.Some? ==> HibernateOne(st, on, at) == Some(st.value.(hibernated := on))
    ensures st.None? ==>
              var n := HibernateOne(st, on, at);
              && (n.Some? <==> on)
              && (on ==> n.value.hibernated && n.value.status.state.None? && !n.value.status.stateVerified && n.value.who == Identity("", "", "", "")
                         && n.value.question.None? && n.value.approvals == [] && n.value.status.updatedAt == at)
  {
  }

  /** The sweep takes `working` to `done` exactly after twenty minutes of silence, and touches nothing else. */
  lemma SweepEndsOnlyTheSilent(e: Entry, at: int)
    ensures var n := SweepOne(e, at);
            && n == e.(status := e.status.(state := n.status.state))
            && n.status.state == if e.status.state == Some(Working) && at - e.status.updatedAt > 1_200_000 then Some(Done) else e.status.state
  {
  }
}
