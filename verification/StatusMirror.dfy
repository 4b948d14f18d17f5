/**
 * The status mirror's in-memory state: the node entries and the inbox feed,
 * updated in place by events, flushes, restarts, seeds and sweeps.
 */
module StatusMirror {
  import opened Options
  import opened MirrorEntry
  import opened MirrorAgeing
  import opened MirrorRuns
  import opened InboxFeed

  const INBOX_EVENTS_CAP: nat := 50

  datatype SeedEntry = SeedEntry(nodeId: string, who: Identity)

  function Lookup(nodes: map<string, Entry>, id: string): Option<Entry> {
    if id in nodes then Some(nodes[id]) else None
  }

  function Store(nodes: map<string, Entry>, id: string, e: Option<Entry>): map<string, Entry> {
    if e.Some? then nodes[id := e.value] else nodes
  }

  function SeedAll(nodes: map<string, Entry>, seeds: seq<SeedEntry>, now: int, live: Live): map<string, Entry> {
    if seeds == [] then nodes
    else
      var before := SeedAll(nodes, seeds[..|seeds| - 1], now, live);
      var s := seeds[|seeds| - 1];
      if live.Some? && s.nodeId !in live.value then before
      else Store(before, s.nodeId, SeedOne(Lookup(before, s.nodeId), s.who, now))
  }

  /** Seeding nodes, each once, seeds exactly the listed ones that may exist, each from its own entry, and touches no other. */
  lemma {:induction false} SeedAllExactly(nodes: map<string, Entry>, seeds: seq<SeedEntry>, now: int, live: Live, id: string)
    requires forall i, j | 0 <= i < j < |seeds| :: seeds[i].nodeId != seeds[j].nodeId
    ensures forall i | 0 <= i < |seeds| && seeds[i].nodeId == id && (live.None? || id in live.value) ::
              Lookup(SeedAll(nodes, seeds, now, live), id) == SeedOne(Lookup(nodes, id), seeds[i].who, now)
    ensures (forall i | 0 <= i < |seeds| :: seeds[i].nodeId != id) || (live.Some? && id !in live.value) ==>
              Lookup(SeedAll(nodes, seeds, now, live), id) == Lookup(nodes, id)
  {
    if seeds != [] {
      var before := seeds[..|seeds| - 1];
      SeedAllExactly(nodes, before, now, live, id);
      assert forall i | 0 <= i < |before| :: before[i] == seeds[i];
      hide SeedOne;
      SeedIsThere(Lookup(SeedAll(nodes, before, now, live), seeds[|before|].nodeId), seeds[|before|].who, now);
    }
  }

  lemma SeedIsThere(st: Option<Entry>, who: Identity, now: int)
    ensures SeedOne(st, who, now).Some?
  {
  }

  class Mirror {
    var state: map<string, Entry>
    var inboxEvents: seq<InboxEvent>
    var inboxSeq: nat
    /** Everything ever pushed, as it now reads; the feed is what retention leaves of it. */
    ghost var history: seq<InboxEvent>

    constructor ()
      ensures Valid() && state == map[] && history == []
    {
      state, inboxEvents, inboxSeq, history := map[], [], 0, [];
    }

    /** The feed is one trim of the whole history, whose ids are distinct and numbered so far. */
    ghost predicate Valid()
      reads this
    {
      && Unique(history) && (forall e | e in history :: e.id.n <= inboxSeq)
      && inboxEvents == Trim(history, INBOX_EVENTS_CAP)
    }

    /** Reduce the entry of the node the event is about. */
    method RecordAgentEvent(nodeId: string, rawEvent: Event, now: int)
      modifies this`state
      ensures state == if nodeId == "" then old(state) else old(state)[nodeId := Reduce(Lookup(old(state), nodeId), rawEvent, now)]
    {
      if nodeId == "" { return; }
      var ev := ResolveCancelled(rawEvent);
      var prev := if nodeId in state then Some(state[nodeId]) else None;
      if UncorrelatedStartIdle(prev, ev, now) {
        return;
      }
      state := state[nodeId := ReduceEffective(prev, ev, now)];
    }

    /**
     * Age the feed and memory, then shape the file from what is left; the live set is asked for only
     * when needed. The feed stays one trim of a history: the aged one, unless the clock went back.
     */
    method Flush(now: int, live: Live) returns (doc: map<string, FileNode>)
      requires Valid()
      modifies this`state, this`inboxEvents, this`history
      ensures state == AgeAll(old(state), now, live)
      ensures doc == FileOf(old(state), now, live)
      ensures Valid() && inboxEvents == Fresh(old(inboxEvents), now, EXPIRE_MS)
      ensures InTime(old(history)) ==> history == Fresh(old(history), now, EXPIRE_MS)
    {
      AgeFeed(now);
      var anyExpired := false;
      var todo := state.Keys;
      while todo != {} && !anyExpired
        invariant todo <= state.Keys
        invariant !anyExpired ==> forall id | id in state.Keys - todo :: state[id].hibernated || now - state[id].status.updatedAt <= EXPIRE_MS
        decreases |todo|
      {
        var id :| id in todo;
        todo := todo - {id};
        if !state[id].hibernated && now - state[id].status.updatedAt > EXPIRE_MS { anyExpired := true; }
      }
      var known := if anyExpired then live else None;
      if !anyExpired {
        LiveSetIsOnlyForTheExpired(state, now, live);
        LiveSetIsOnlyForTheExpired(state, now, None);
      }
      AgeMemory(now, known);
      AgeAllTwice(old(state), now, now, known);
      doc := BuildFile(state, now, known);
    }

    method AgeFeed(now: int)
      requires Valid()
      modifies this`inboxEvents, this`history
      ensures Valid() && inboxEvents == Fresh(old(inboxEvents), now, EXPIRE_MS)
      ensures InTime(old(history)) ==> history == Fresh(old(history), now, EXPIRE_MS)
    {
      inboxEvents := Fresh(inboxEvents, now, EXPIRE_MS);
      if InTime(history) {
        AgeTrimCommute(history, INBOX_EVENTS_CAP, now, EXPIRE_MS);
        FreshStaysUnique(history, now, EXPIRE_MS);
        history := Fresh(history, now, EXPIRE_MS);
      } else {
        AgedFeedStaysTrimmed(history, INBOX_EVENTS_CAP, now, EXPIRE_MS);
        TrimStaysUnique(history, INBOX_EVENTS_CAP);
        FreshStaysUnique(Trim(history, INBOX_EVENTS_CAP), now, EXPIRE_MS);
        history := inboxEvents;
      }
    }

    /** Every entry by its age: whole, without its state, or gone. */
    method AgeMemory(now: int, live: Live)
      modifies this`state
      ensures state == AgeAll(old(state), now, live)
    {
      var todo := state.Keys;
      while todo != {}
        invariant todo <= state.Keys <= old(state).Keys
        invariant forall id | id in todo :: state[id] == old(state)[id]
        invariant forall id | id in old(state).Keys - todo ::
                    Lookup(state, id) == Age(id, old(state)[id], now, live)
        decreases |todo|
      {
        var id :| id in todo;
        todo := todo - {id};
        var aged := Age(id, state[id], now, live);
        if aged.None? {
          state := state - {id};
        } else if aged.value != state[id] {
          state := state[id := aged.value];
        }
      }
      assert forall id | id in old(state) :: Lookup(state, id) == Age(id, old(state)[id], now, live);
    }

    method BuildFile(nodes: map<string, Entry>, now: int, live: Live) returns (out: map<string, FileNode>)
      ensures out == FileOf(nodes, now, live)
    {
      out := map[];
      var todo := nodes.Keys;
      while todo != {}
        invariant todo <= nodes.Keys && out.Keys <= nodes.Keys - todo
        invariant forall id | id in nodes.Keys - todo ::
                    var a := Age(id, nodes[id], now, live);
                    (id in out <==> a.Some?) && (id in out ==> out[id] == ToFile(a.value))
        decreases |todo|
      {
        var id :| id in todo;
        todo := todo - {id};
        var e := Age(id, nodes[id], now, live);
        if e.Some? { out := out[id := ToFile(e.value)]; }
      }
    }

    /**
     * Seed empty memory from the file; a live session is never clobbered. A feed with distinct ids, as
     * one this mirror wrote has, is taken back trimmed, and numbering goes on past it.
     */
    method LoadPersisted(file: map<string, FileNode>, events: seq<InboxEvent>, now: int, accepts: Accepts)
      requires Valid()
      modifies this
      ensures old(state != map[] || inboxEvents != []) ==> state == old(state) && inboxEvents == old(inboxEvents) && Valid()
      ensures old(state == map[] && inboxEvents == []) ==>
                && state == RestoreAll(file, now, accepts) && inboxEvents == Trim(events, INBOX_EVENTS_CAP)
                && (Unique(events) ==> Valid())
    {
      if state != map[] || inboxEvents != [] { return; }
      LoadNodes(file, now, accepts);
      LoadFeed(events);
    }

    method LoadFeed(events: seq<InboxEvent>)
      modifies this`inboxEvents, this`inboxSeq, this`history
      ensures inboxEvents == Trim(events, INBOX_EVENTS_CAP)
      ensures Unique(events) ==> Valid()
    {
      inboxEvents := TrimInboxFeed(events, INBOX_EVENTS_CAP);
      var maxSeq: nat := 0;
      for i := 0 to |inboxEvents|
        invariant forall j | 0 <= j < i :: inboxEvents[j].id.n <= maxSeq
      {
        if inboxEvents[i].id.n > maxSeq { maxSeq := inboxEvents[i].id.n; }
      }
      inboxSeq := maxSeq;
      history := inboxEvents;
      TrimIsIdempotent(events, INBOX_EVENTS_CAP);
      if Unique(events) { TrimStaysUnique(events, INBOX_EVENTS_CAP); }
    }

    method LoadNodes(file: map<string, FileNode>, now: int, accepts: Accepts)
      requires state == map[]
      modifies this`state
      ensures state == RestoreAll(file, now, accepts)
    {
      var todo := file.Keys;
      while todo != {}
        invariant todo <= file.Keys && state.Keys <= file.Keys - todo
        invariant forall id | id in file.Keys - todo :: Lookup(state, id) == Restore(file[id], now, accepts)
        decreases |todo|
      {
        var id :| id in todo;
        todo := todo - {id};
        var e := Restore(file[id], now, accepts);
        if e.Some? { state := state[id := e.value]; }
      }
      assert forall id | id in file :: Lookup(state, id) == Restore(file[id], now, accepts);
    }

    method SeedNodeIdentities(seeds: seq<SeedEntry>, now: int, live: Live)
      modifies this`state
      ensures state == SeedAll(old(state), seeds, now, live)
    {
      for i := 0 to |seeds|
        invariant state == SeedAll(old(state), seeds[..i], now, live)
      {
        var s := seeds[i];
        assert seeds[..i + 1][..i] == seeds[..i];
        if live.Some? && s.nodeId !in live.value { continue; }
        var e := SeedOne(if s.nodeId in state then Some(state[s.nodeId]) else None, s.who, now);
        state := state[s.nodeId := e.value];
      }
      assert seeds[..|seeds|] == seeds;
    }

    method SetNodeHibernated(nodeId: string, on: bool, now: int)
      modifies this`state
      ensures state == Store(old(state), nodeId, HibernateOne(Lookup(old(state), nodeId), on, now))
    {
      if nodeId in state {
        state := state[nodeId := state[nodeId].(hibernated := on)];
      } else if on {
        state := state[nodeId := Blank(now).(hibernated := true)];
      }
    }

    /** Move every node that went quiet while working off `working`. */
    method SweepStaleWorking(now: int) returns (swept: set<string>)
      modifies this`state
      ensures state == map id | id in old(state) :: SweepOne(old(state)[id], now)
      ensures swept == set id | id in old(state) && StaleWorking(old(state)[id], now)
    {
      swept := {};
      var todo := state.Keys;
      while todo != {}
        invariant todo <= state.Keys == old(state).Keys
        invariant forall id | id in state :: state[id] == if id in todo then old(state)[id] else SweepOne(old(state)[id], now)
        invariant swept == set id | id in old(state) && id !in todo && StaleWorking(old(state)[id], now)
        decreases |todo|
      {
        var id :| id in todo;
        todo := todo - {id};
        if StaleWorking(state[id], now) {
          state := state[id := state[id].(status := state[id].status.(state := Some(Done)))];
          swept := swept + {id};
        }
      }
    }

    /** Append to the feed and trim it: it stays exactly what one trim of the whole history gives. */
    method PushInboxEvent(ts: int, nodeId: string, kind: InboxKind, title: string)
      requires Valid()
      modifies this`inboxEvents, this`inboxSeq, this`history
      ensures Valid() && inboxSeq == old(inboxSeq) + 1
      ensures history == old(history) + [InboxEvent(Id(ts, inboxSeq), nodeId, kind, title, false)]
    {
      inboxSeq := inboxSeq + 1;
      var full := InboxEvent(Id(ts, inboxSeq), nodeId, kind, title, false);
      inboxEvents := inboxEvents + [full];
      inboxEvents := TrimInboxFeed(inboxEvents, INBOX_EVENTS_CAP);
      assert Unique(history + [full]) by {
        forall i | 0 <= i < |history| ensures history[i].id != full.id { assert history[i] in history; }
      }
      TrimAbsorbs(history, full, INBOX_EVENTS_CAP);
      history := history + [full];
    }

    /** Resolve the node's finished turns in the feed. */
    method MarkRead(nodeId: string) returns (any: bool)
      modifies this`inboxEvents
      ensures inboxEvents == AckAll(old(inboxEvents), nodeId)
      ensures any <==> exists e | e in old(inboxEvents) :: Unread(e, nodeId)
    {
      any := false;
      ghost var before := inboxEvents;
      for i := 0 to |inboxEvents|
        invariant inboxEvents == AckAll(before[..i], nodeId) + before[i..] && |AckAll(before[..i], nodeId)| == i <= |before|
        invariant any == AnyUnread(before[..i], nodeId)
      {
        hide *;
        ghost var done := AckAll(before[..i], nodeId);
        var e := inboxEvents[i];
        assert e == before[i] && before[..i + 1] == before[..i] + [e];
        AckPush(before[..i], e, nodeId);
        AnyUnreadPush(before[..i], e, nodeId);
        AckNext(done, before, i, nodeId);
        if Unread(e, nodeId) {
          inboxEvents := inboxEvents[i := e.(resolved := true)];
          any := true;
        }
      }
      assert before[..|before|] == before && before[|before|..] == [];
      AnyUnreadIff(before, nodeId);
    }

    /** Replacing the next event by its acknowledged form, which is itself unless it is unread. */
    static lemma AckNext(done: seq<InboxEvent>, all: seq<InboxEvent>, i: nat, node: string)
      requires |done| == i < |all|
      ensures (done + all[i..])[i := Acked(all[i], node)] == (done + [Acked(all[i], node)]) + all[i + 1..]
      ensures !Unread(all[i], node) ==> done + all[i..] == (done + [all[i]]) + all[i + 1..]
      ensures Acked(all[i], node) == if Unread(all[i], node) then all[i].(resolved := true) else all[i]
    {
    }

    static lemma AckPush(events: seq<InboxEvent>, e: InboxEvent, node: string)
      ensures AckAll(events + [e], node) == AckAll(events, node) + [Acked(e, node)]
    {
    }

    /** The user read a finished turn: its cards are resolved, those already cut from the feed included. */
    method AckDone(nodeId: string) returns (any: bool)
      requires Valid()
      modifies this`inboxEvents, this`history
      ensures Valid() && history == AckAll(old(history), nodeId)
      ensures any <==> exists e | e in old(inboxEvents) :: Unread(e, nodeId)
    {
      any := MarkRead(nodeId);
      AckTrimCommute(history, nodeId, INBOX_EVENTS_CAP);
      AckedIds(history, nodeId);
      AckedStayNumbered(history, nodeId, inboxSeq);
      history := AckAll(history, nodeId);
    }

    static lemma {:induction false} AckedStayNumbered(events: seq<InboxEvent>, node: string, n: nat)
      requires forall e | e in events :: e.id.n <= n
      ensures forall e | e in AckAll(events, node) :: e.id.n <= n
    {
      AckedIds(events, node);
      forall e | e in AckAll(events, node) ensures e.id.n <= n {
        var i :| 0 <= i < |events| && AckAll(events, node)[i] == e;
        assert events[i] in events;
      }
    }

    static lemma {:induction false} AckedIds(events: seq<InboxEvent>, node: string)
      ensures |AckAll(events, node)| == |events|
      ensures forall i | 0 <= i < |events| :: AckAll(events, node)[i].id == events[i].id
    {
      if events != [] { AckedIds(events[..|events| - 1], node); }
    }
  }
}
