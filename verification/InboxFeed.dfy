/**
 * The inbox feed's retention rule. Trimming after every append gives the feed
 * that one trim of the whole history gives, keeps what readers depend on, and
 * stays bounded.
 */
module InboxFeed {
  datatype InboxKind = Approval | Question | DoneKind
  /** An event id: when it was made, and the writer's running number. */
  datatype Id = Id(ts: int, n: nat)
  datatype InboxEvent = InboxEvent(id: Id, nodeId: string, kind: InboxKind, title: string, resolved: bool)

  /** The two kinds of event a reader depends on: a finished turn, an ask still open. */
  datatype Load = Finished | OpenAsk

  predicate Bears(e: InboxEvent, load: Load) {
    if load == Finished then e.kind == DoneKind else !e.resolved && e.kind != DoneKind
  }

  /** Per node, the id of its newest event of that kind. */
  function Newest(events: seq<InboxEvent>, load: Load): map<string, Id> {
    if events == [] then map[]
    else
      var e := events[|events| - 1];
      var before := Newest(events[..|events| - 1], load);
      if Bears(e, load) then before[e.nodeId := e.id] else before
  }

  function Protected(events: seq<InboxEvent>): set<Id> {
    Newest(events, Finished).Values + Newest(events, OpenAsk).Values
  }

  function Keep(events: seq<InboxEvent>, ids: set<Id>): seq<InboxEvent> {
    if events == [] then []
    else Keep(events[..|events| - 1], ids) + (if events[|events| - 1].id in ids then [events[|events| - 1]] else [])
  }

  /** The newest `cap` events wholesale, and of the older ones only the protected. */
  function Trim(events: seq<InboxEvent>, cap: nat): seq<InboxEvent> {
    if |events| <= cap then events
    else
      var start := |events| - cap;
      Keep(events[..start], Protected(events)) + events[start..]
  }

  predicate Unique(events: seq<InboxEvent>) {
    forall i, j | 0 <= i < j < |events| :: events[i].id != events[j].id
  }

  // ----- one event more -----

  lemma NewestPush(events: seq<InboxEvent>, e: InboxEvent, load: Load)
    ensures Newest(events + [e], load) == if Bears(e, load) then Newest(events, load)[e.nodeId := e.id] else Newest(events, load)
  {
  }

  lemma KeepPush(events: seq<InboxEvent>, e: InboxEvent, ids: set<Id>)
    ensures Keep(events + [e], ids) == if e.id in ids then Keep(events, ids) + [e] else Keep(events, ids)
  {
  }

  lemma NothingYet(ids: set<Id>, load: Load)
    ensures Newest([], load) == map[] && Keep([], ids) == []
  {
  }

  // ----- the loop -----

  method TrimInboxFeed(events: seq<InboxEvent>, cap: nat) returns (kept: seq<InboxEvent>)
    ensures kept == Trim(events, cap)
  {
    hide Newest, Keep;
    if |events| <= cap { return events; }
    var newestDone: map<string, Id> := map[];
    var newestAsk: map<string, Id> := map[];
    NothingYet({}, Finished);
    NothingYet({}, OpenAsk);
    for i := 0 to |events|
      invariant newestDone == Newest(events[..i], Finished) && newestAsk == Newest(events[..i], OpenAsk)
    {
      var e := events[i];
      assert events[..i + 1] == events[..i] + [e];
      NewestPush(events[..i], e, Finished);
      NewestPush(events[..i], e, OpenAsk);
      if e.kind == DoneKind {
        newestDone := newestDone[e.nodeId := e.id];
      } else if !e.resolved {
        newestAsk := newestAsk[e.nodeId := e.id];
      }
    }
    assert events[..|events|] == events;
    var ids := newestDone.Values + newestAsk.Values;
    var windowStart := |events| - cap;
    kept := [];
    NothingYet(ids, Finished);
    for i := 0 to |events|
      invariant kept == if i <= windowStart then Keep(events[..i], ids) else Keep(events[..windowStart], ids) + events[windowStart..i]
    {
      assert events[..i + 1] == events[..i] + [events[i]];
      KeepPush(events[..i], events[i], ids);
      if i >= windowStart || events[i].id in ids { kept := kept + [events[i]]; }
    }
  }

  // ----- splitting -----

  lemma {:induction false} KeepSplit(a: seq<InboxEvent>, b: seq<InboxEvent>, ids: set<Id>)
    ensures Keep(a + b, ids) == Keep(a, ids) + Keep(b, ids)
  {
    if b == [] {
      assert a + b == a;
    } else {
      assert (a + b)[..|a + b| - 1] == a + b[..|b| - 1];
      KeepSplit(a, b[..|b| - 1], ids);
    }
  }

  lemma {:induction false} NewestSplit(a: seq<InboxEvent>, b: seq<InboxEvent>, load: Load)
    ensures Newest(a + b, load) == Newest(a, load) + Newest(b, load)
  {
    if b == [] {
      assert a + b == a;
    } else {
      assert (a + b)[..|a + b| - 1] == a + b[..|b| - 1];
      NewestSplit(a, b[..|b| - 1], load);
    }
  }

  /** Filtering forgets no newest event whose id is kept, and invents none. */
  lemma {:induction false} NewestOfKept(events: seq<InboxEvent>, ids: set<Id>, load: Load, node: string)
    ensures var k, n := Newest(Keep(events, ids), load), Newest(events, load);
            && (node in n && n[node] in ids ==> node in k && k[node] == n[node])
            && (node in k ==> node in n)
  {
    hide *;
    NothingYet(ids, load);
    if events != [] {
      var before, e := events[..|events| - 1], events[|events| - 1];
      assert before + [e] == events;
      NewestOfKept(before, ids, load, node);
      KeepPush(before, e, ids);
      NewestPush(before, e, load);
      NewestPush(Keep(before, ids), e, load);
    }
  }

  /** Trimming keeps each node's newest finished turn and newest open ask. */
  lemma TrimKeepsNewest(events: seq<InboxEvent>, cap: nat, load: Load)
    ensures Newest(Trim(events, cap), load) == Newest(events, load)
  {
    hide Newest, Keep;
    if |events| > cap {
      var start := |events| - cap;
      var s, t, ids := events[..start], events[start..], Protected(events);
      assert events == s + t;
      NewestSplit(s, t, load);
      NewestSplit(Keep(s, ids), t, load);
      forall node
        ensures node in Newest(Keep(s, ids) + t, load) <==> node in Newest(events, load)
        ensures node in Newest(events, load) ==> Newest(Keep(s, ids) + t, load)[node] == Newest(events, load)[node]
      {
        NewestOfKept(s, ids, load, node);
        if node in Newest(s, load) && node !in Newest(t, load) {
          assert Newest(events, load)[node] == Newest(s, load)[node];
          assert Newest(events, load)[node] in Newest(events, load).Values;
        }
      }
    }
  }

  lemma {:induction false} KeepKept(events: seq<InboxEvent>, ids: set<Id>, ids': set<Id>)
    requires forall e | e in events && e.id in ids' :: e.id in ids
    ensures Keep(Keep(events, ids), ids') == Keep(events, ids')
  {
    if events != [] {
      var before, e := events[..|events| - 1], events[|events| - 1];
      KeepKept(before, ids, ids');
      KeepSplit(Keep(before, ids), if e.id in ids then [e] else [], ids');
      assert Keep([e], ids') == Keep([], ids') + (if e.id in ids' then [e] else []);
    }
  }

  // ----- incremental and batch -----

  /** What is protected after an append does not depend on what was trimmed before it. */
  lemma ProtectedAfterTrim(events: seq<InboxEvent>, x: InboxEvent, cap: nat)
    ensures Protected(Trim(events, cap) + [x]) == Protected(events + [x])
  {
    forall load: Load ensures Newest(Trim(events, cap) + [x], load) == Newest(events + [x], load) {
      TrimKeepsNewest(events, cap, load);
      NewestSplit(Trim(events, cap), [x], load);
      NewestSplit(events, [x], load);
    }
  }

  /** An appended event protects no older event that was not protected before it. */
  lemma OldProtection(events: seq<InboxEvent>, x: InboxEvent)
    requires Unique(events + [x])
    ensures forall e | e in events && e.id in Protected(events + [x]) :: e.id in Protected(events)
  {
  }

  /** Cutting `s + window` after a cut of `s` drops the same events as cutting it once. */
  lemma CutTwice(s: seq<InboxEvent>, first: InboxEvent, rest: seq<InboxEvent>, ids: set<Id>, ids': set<Id>)
    requires forall e | e in s && e.id in ids' :: e.id in ids
    ensures Keep(Keep(s, ids) + [first], ids') + rest == Keep(s + [first], ids') + rest
  {
    KeepKept(s, ids, ids');
    KeepSplit(s, [first], ids');
    KeepSplit(Keep(s, ids), [first], ids');
  }

  /** A trim written out over its two parts. */
  lemma TrimParts(older: seq<InboxEvent>, window: seq<InboxEvent>)
    requires older != []
    ensures Trim(older + window, |window|) == Keep(older, Protected(older + window)) + window
  {
  }

  /** Appending to a trimmed feed and trimming again is trimming the untrimmed one with the append. */
  lemma TrimAbsorbs(events: seq<InboxEvent>, x: InboxEvent, cap: nat)
    requires Unique(events + [x])
    ensures Trim(Trim(events, cap) + [x], cap) == Trim(events + [x], cap)
  {
    hide Keep, Protected;
    if |events| > cap {
      var start := |events| - cap;
      var s, t, ids := events[..start], events[start..], Protected(events);
      var kept := Keep(s, ids);
      var first, rest := (t + [x])[0], (t + [x])[1..];
      ProtectedAfterTrim(events, x, cap);
      OldProtection(events, x);
      assert forall e | e in s :: e in events;
      CutTwice(s, first, rest, ids, Protected(events + [x]));
      assert t + [x] == [first] + rest;
      assert events + [x] == (s + [first]) + rest by { assert events == s + t; }
      assert Trim(events, cap) + [x] == (kept + [first]) + rest by { assert Trim(events, cap) == kept + t; }
      TrimParts(s + [first], rest);
      TrimParts(kept + [first], rest);
      hide Trim;
      assert |rest| == cap;
    }
  }

  /** The feed as the writer keeps it: trimmed after every append. */
  function Incremental(history: seq<InboxEvent>, cap: nat): seq<InboxEvent> {
    if history == [] then []
    else Trim(Incremental(history[..|history| - 1], cap) + [history[|history| - 1]], cap)
  }

  /** Trimming after every append gives what trimming the whole history once gives. */
  lemma {:induction false} IncrementalIsBatch(history: seq<InboxEvent>, cap: nat)
    requires Unique(history)
    ensures Incremental(history, cap) == Trim(history, cap)
  {
    if history == [] {
      assert Trim([], cap) == [];
    } else {
      hide Trim;
      var before, x := history[..|history| - 1], history[|history| - 1];
      assert before + [x] == history;
      assert Unique(before);
      hide Unique;
      IncrementalIsBatch(before, cap);
      TrimAbsorbs(before, x, cap);
    }
  }

  lemma TrimIsIdempotent(events: seq<InboxEvent>, cap: nat)
    ensures Trim(Trim(events, cap), cap) == Trim(events, cap)
  {
    if |events| > cap {
      var start := |events| - cap;
      var kept := Keep(events[..start], Protected(events));
      TrimKeepsNewest(events, cap, Finished);
      TrimKeepsNewest(events, cap, OpenAsk);
      KeepKept(events[..start], Protected(events), Protected(events));
      var f := kept + events[start..];
      assert f[..|kept|] == kept && f[|kept|..] == events[start..];
      if |f| <= cap { assert kept == []; }
    }
  }

  // ----- the bound -----

  lemma SubsetSize<T>(a: set<T>, b: set<T>)
    requires a <= b
    ensures |a| <= |b|
  {
    assert b == a + (b - a);
  }

  function Ids(events: seq<InboxEvent>): set<Id> {
    set e | e in events :: e.id
  }

  /** Kept events have distinct kept ids, so there are at most as many as ids. */
  lemma {:induction false} KeptAtMost(events: seq<InboxEvent>, ids: set<Id>)
    requires Unique(events)
    ensures |Keep(events, ids)| <= |ids * Ids(events)|
  {
    if events != [] {
      var before, e := events[..|events| - 1], events[|events| - 1];
      KeptAtMost(before, ids);
      assert before + [e] == events;
      NotInBoth(before, [e], e);
      hide *;
      IdsPush(before, e);
      KeepPush(before, e, ids);
      CountPush(ids, Ids(before), e.id);
    } else {
      assert Keep(events, ids) == [];
    }
  }

  lemma CountPush(ids: set<Id>, old': set<Id>, x: Id)
    requires x !in old'
    ensures |ids * (old' + {x})| == |ids * old'| + if x in ids then 1 else 0
  {
    assert ids * (old' + {x}) == if x in ids then ids * old' + {x} else ids * old';
  }

  lemma IdsPush(before: seq<InboxEvent>, e: InboxEvent)
    ensures Ids(before + [e]) == Ids(before) + {e.id}
    ensures (forall x | x in before :: x.id != e.id) ==> e.id !in Ids(before)
  {
  }

  lemma {:induction false} FewValues(m: map<string, Id>)
    ensures |m.Values| <= |m.Keys|
    decreases |m.Keys|
  {
  }

  function Nodes(events: seq<InboxEvent>): set<string> {
    set e | e in events :: e.nodeId
  }

  lemma {:induction false} NewestAreNodes(events: seq<InboxEvent>, load: Load)
    ensures Newest(events, load).Keys <= Nodes(events)
  {
    if events != [] {
      var before, e := events[..|events| - 1], events[|events| - 1];
      NewestAreNodes(before, load);
      assert e in events && forall x | x in before :: x in events;
    }
  }

  /** The feed never holds more than the cap and two events per node. */
  lemma TrimIsBounded(events: seq<InboxEvent>, cap: nat)
    requires Unique(events)
    ensures |Trim(events, cap)| <= cap + 2 * |Nodes(events)|
  {
    if |events| > cap {
      var ids := Protected(events);
      var older := events[..|events| - cap];
      KeptAtMost(older, ids);
      SubsetSize(ids * Ids(older), ids);
      forall load: Load ensures |Newest(events, load).Values| <= |Nodes(events)| {
        FewValues(Newest(events, load));
        NewestAreNodes(events, load);
        SubsetSize(Newest(events, load).Keys, Nodes(events));
      }
      UnionSize(Newest(events, Finished).Values, Newest(events, OpenAsk).Values);
    }
  }

  lemma UnionSize<T>(a: set<T>, b: set<T>)
    ensures |a + b| <= |a| + |b|
  {
  }

  // ----- acknowledging a finished turn -----

  /** A finished turn of `node` the user has not read. */
  predicate Unread(e: InboxEvent, node: string) {
    e.nodeId == node && e.kind == DoneKind && !e.resolved
  }

  predicate AnyUnread(events: seq<InboxEvent>, node: string) {
    events != [] && (AnyUnread(events[..|events| - 1], node) || Unread(events[|events| - 1], node))
  }

  lemma AnyUnreadPush(events: seq<InboxEvent>, e: InboxEvent, node: string)
    ensures AnyUnread(events + [e], node) <==> AnyUnread(events, node) || Unread(e, node)
  {
    assert (events + [e])[..|events|] == events;
  }

  lemma {:induction false} AnyUnreadIff(events: seq<InboxEvent>, node: string)
    ensures AnyUnread(events, node) <==> exists e | e in events :: Unread(e, node)
  {
    if events != [] {
      var before, e := events[..|events| - 1], events[|events| - 1];
      AnyUnreadIff(before, node);
      assert e in events && forall x | x in events :: x in before || x == e;
    }
  }

  /** `e`, read: a finished turn of `node` no longer asks for attention. */
  function Acked(e: InboxEvent, node: string): InboxEvent {
    if e.nodeId == node && e.kind == DoneKind then e.(resolved := true) else e
  }

  function AckAll(events: seq<InboxEvent>, node: string): seq<InboxEvent> {
    if events == [] then [] else AckAll(events[..|events| - 1], node) + [Acked(events[|events| - 1], node)]
  }

  lemma {:induction false} AckSplit(a: seq<InboxEvent>, b: seq<InboxEvent>, node: string)
    ensures AckAll(a + b, node) == AckAll(a, node) + AckAll(b, node)
    ensures |AckAll(a, node)| == |a|
    decreases |a| + |b|
  {
    if b != [] {
      assert (a + b)[..|a + b| - 1] == a + b[..|b| - 1];
      AckSplit(a, b[..|b| - 1], node);
    } else {
      assert a + b == a;
      if a != [] { AckSplit(a[..|a| - 1], [], node); }
    }
  }

  lemma {:induction false} AckKeepsNewest(events: seq<InboxEvent>, node: string, load: Load)
    ensures Newest(AckAll(events, node), load) == Newest(events, load)
  {
    if events != [] {
      var before, e := events[..|events| - 1], events[|events| - 1];
      AckKeepsNewest(before, node, load);
      NewestPush(AckAll(before, node), Acked(e, node), load);
    }
  }

  lemma {:induction false} AckKeepCommute(events: seq<InboxEvent>, node: string, ids: set<Id>)
    ensures Keep(AckAll(events, node), ids) == AckAll(Keep(events, ids), node)
  {
    if events != [] {
      var before, e := events[..|events| - 1], events[|events| - 1];
      AckKeepCommute(before, node, ids);
      KeepPush(AckAll(before, node), Acked(e, node), ids);
      AckSplit(Keep(before, ids), if e.id in ids then [e] else [], node);
      assert AckAll([e], node) == AckAll([], node) + [Acked(e, node)];
    }
  }

  /** Acknowledging commutes with trimming: a turn read before or after the cut is the same turn. */
  lemma AckTrimCommute(events: seq<InboxEvent>, node: string, cap: nat)
    ensures Trim(AckAll(events, node), cap) == AckAll(Trim(events, cap), node)
  {
    AckSplit(events, [], node);
    if |events| > cap {
      var start := |events| - cap;
      var s, t := events[..start], events[start..];
      assert events == s + t;
      AckKeepsNewest(events, node, Finished);
      AckKeepsNewest(events, node, OpenAsk);
      AckSplit(s, t, node);
      AckSplit(t, [], node);
      TrimParts(AckAll(s, node), AckAll(t, node));
      AckKeepCommute(s, node, Protected(events));
      AckSplit(Keep(s, Protected(events)), t, node);
    }
  }

  // ----- ageing the feed -----

  predicate IsFresh(e: InboxEvent, now: int, horizon: int) {
    now - e.id.ts <= horizon
  }

  /** The events not older than `horizon`. */
  function Fresh(events: seq<InboxEvent>, now: int, horizon: int): (r: seq<InboxEvent>)
    ensures |r| <= |events|
  {
    if events == [] then []
    else
      var e := events[|events| - 1];
      Fresh(events[..|events| - 1], now, horizon) + if IsFresh(e, now, horizon) then [e] else []
  }

  /** Ids carry their time, so ageing keeps by id. */
  lemma {:induction false} FreshIsKeep(events: seq<InboxEvent>, now: int, horizon: int, ids: set<Id>)
    requires forall e | e in events :: e.id in ids <==> IsFresh(e, now, horizon)
    ensures Fresh(events, now, horizon) == Keep(events, ids)
  {
    if events != [] {
      var before, e := events[..|events| - 1], events[|events| - 1];
      assert e in events && forall x | x in before :: x in events;
      FreshIsKeep(before, now, horizon, ids);
    }
  }

  function FreshIds(events: seq<InboxEvent>, now: int, horizon: int): set<Id> {
    set e | e in events && IsFresh(e, now, horizon) :: e.id
  }

  lemma {:induction false} KeepAll(events: seq<InboxEvent>, ids: set<Id>)
    requires forall e | e in events :: e.id in ids
    ensures Keep(events, ids) == events
  {
    if events != [] {
      var before, e := events[..|events| - 1], events[|events| - 1];
      assert before + [e] == events && e in events && forall x | x in before :: x in events;
      KeepAll(before, ids);
    }
  }

  lemma {:induction false} KeepFrom(events: seq<InboxEvent>, ids: set<Id>)
    ensures |Keep(events, ids)| <= |events|
    ensures forall e | e in Keep(events, ids) :: e in events && e.id in ids
  {
    if events != [] {
      KeepFrom(events[..|events| - 1], ids);
      assert events[|events| - 1] in events && forall x | x in events[..|events| - 1] :: x in events;
    }
  }

  /** What was protected and is kept is still protected. */
  lemma ProtectedOfKept(events: seq<InboxEvent>, ids: set<Id>)
    ensures forall id | id in Protected(events) && id in ids :: id in Protected(Keep(events, ids))
  {
    forall id, load: Load | id in Newest(events, load).Values && id in ids ensures id in Newest(Keep(events, ids), load).Values {
      var node :| node in Newest(events, load) && Newest(events, load)[node] == id;
      NewestOfKept(events, ids, load, node);
      assert Newest(Keep(events, ids), load)[node] == id;
    }
  }

  lemma ProtectedOfTrim(events: seq<InboxEvent>, cap: nat)
    ensures Protected(Trim(events, cap)) == Protected(events)
  {
    TrimKeepsNewest(events, cap, Finished);
    TrimKeepsNewest(events, cap, OpenAsk);
  }

  /** A feed whose events before the newest `cap` are all protected is trimmed. */
  lemma ProtectedPrefix(older: seq<InboxEvent>, newer: seq<InboxEvent>, cap: nat)
    requires |newer| <= cap && forall e | e in older :: e.id in Protected(older + newer)
    ensures Trim(older + newer, cap) == older + newer
  {
    hide Protected, Keep;
    var f := older + newer;
    if |f| > cap {
      var first := f[..|f| - cap];
      assert first == older[..|f| - cap];
      KeepAll(first, Protected(f));
      assert first + f[|f| - cap..] == f;
    }
  }

  /** Ageing a trimmed feed leaves a trimmed feed, whatever order the clock put its times in. */
  lemma AgedFeedStaysTrimmed(events: seq<InboxEvent>, cap: nat, now: int, horizon: int)
    ensures var f := Fresh(Trim(events, cap), now, horizon); Trim(f, cap) == f
  {
    hide Newest, Bears, Protected, Keep, Fresh;
    var feed := Trim(events, cap);
    var f := Fresh(feed, now, horizon);
    if |events| > cap {
      var ids := FreshIds(feed, now, horizon);
      FreshMatch(feed, now, horizon);
      FreshIsKeep(feed, now, horizon, ids);
      var older, window := events[..|events| - cap], events[|events| - cap..];
      var kept := Keep(older, Protected(events));
      KeepSplit(kept, window, ids);
      KeepFrom(window, ids);
      KeepFrom(kept, ids);
      KeepFrom(older, Protected(events));
      ProtectedOfTrim(events, cap);
      ProtectedOfKept(feed, ids);
      ProtectedPrefix(Keep(kept, ids), Keep(window, ids), cap);
    }
  }

  lemma FreshMatch(events: seq<InboxEvent>, now: int, horizon: int)
    ensures forall e | e in events :: e.id in FreshIds(events, now, horizon) <==> IsFresh(e, now, horizon)
  {
  }

  /** The clock never went back. */
  predicate InTime(events: seq<InboxEvent>) {
    forall i, j | 0 <= i < j < |events| :: events[i].id.ts <= events[j].id.ts
  }

  lemma {:induction false} NoneFresh(events: seq<InboxEvent>, now: int, horizon: int)
    requires forall i | 0 <= i < |events| :: !IsFresh(events[i], now, horizon)
    ensures Fresh(events, now, horizon) == []
  {
    if events != [] { NoneFresh(events[..|events| - 1], now, horizon); }
  }

  /** In time order, what is fresh is what comes last. */
  lemma {:induction false} FreshIsSuffix(events: seq<InboxEvent>, now: int, horizon: int)
    requires InTime(events)
    ensures var f := Fresh(events, now, horizon);
            && f == events[|events| - |f|..]
            && forall i | 0 <= i < |events| :: IsFresh(events[i], now, horizon) <==> i >= |events| - |f|
  {
    hide IsFresh, Fresh;
    if events == [] {
      FreshStep([], now, horizon);
    } else {
      var before, e := events[..|events| - 1], events[|events| - 1];
      FreshStep(events, now, horizon);
      if IsFresh(e, now, horizon) {
        FreshIsSuffix(before, now, horizon);
        assert forall i | 0 <= i < |before| :: before[i] == events[i];
      } else {
        StaleBefore(events, now, horizon);
        NoneFresh(events, now, horizon);
      }
    }
  }

  lemma FreshStep(events: seq<InboxEvent>, now: int, horizon: int)
    ensures events == [] ==> Fresh(events, now, horizon) == []
    ensures events != [] ==>
              var e := events[|events| - 1];
              Fresh(events, now, horizon) == Fresh(events[..|events| - 1], now, horizon) + if IsFresh(e, now, horizon) then [e] else []
  {
  }

  lemma StaleBefore(events: seq<InboxEvent>, now: int, horizon: int)
    requires InTime(events) && events != [] && !IsFresh(events[|events| - 1], now, horizon)
    ensures forall i | 0 <= i < |events| :: !IsFresh(events[i], now, horizon)
  {
  }

  lemma {:induction false} FreshSplit(a: seq<InboxEvent>, b: seq<InboxEvent>, now: int, horizon: int)
    ensures Fresh(a + b, now, horizon) == Fresh(a, now, horizon) + Fresh(b, now, horizon)
  {
    if b == [] {
      assert a + b == a;
    } else {
      assert (a + b)[..|a + b| - 1] == a + b[..|b| - 1];
      FreshSplit(a, b[..|b| - 1], now, horizon);
    }
  }

  lemma {:induction false} FreshKeepCommute(events: seq<InboxEvent>, ids: set<Id>, now: int, horizon: int)
    ensures Fresh(Keep(events, ids), now, horizon) == Keep(Fresh(events, now, horizon), ids)
  {
    if events != [] {
      var before, e := events[..|events| - 1], events[|events| - 1];
      FreshKeepCommute(before, ids, now, horizon);
      FreshSplit(Keep(before, ids), if e.id in ids then [e] else [], now, horizon);
      KeepSplit(Fresh(before, now, horizon), if IsFresh(e, now, horizon) then [e] else [], ids);
      assert Fresh([e], now, horizon) == Fresh([], now, horizon) + if IsFresh(e, now, horizon) then [e] else [];
      assert Keep([e], ids) == Keep([], ids) + if e.id in ids then [e] else [];
    }
  }

  lemma {:induction false} KeepAgrees(events: seq<InboxEvent>, a: set<Id>, b: set<Id>)
    requires forall e | e in events :: e.id in a <==> e.id in b
    ensures Keep(events, a) == Keep(events, b)
  {
    if events != [] {
      assert events[|events| - 1] in events && forall x | x in events[..|events| - 1] :: x in events;
      KeepAgrees(events[..|events| - 1], a, b);
    }
  }

  /** Of a suffix, exactly what the whole protects of it is protected. */
  lemma ProtectedOfSuffix(old': seq<InboxEvent>, f: seq<InboxEvent>)
    requires Unique(old' + f)
    ensures forall e | e in f :: e.id in Protected(old' + f) <==> e.id in Protected(f)
  {
    forall load: Load, e | e in f ensures e.id in Newest(old' + f, load).Values <==> e.id in Newest(f, load).Values {
      NewestSplit(old', f, load);
      forall node | node in Newest(old' + f, load) && node !in Newest(f, load) ensures Newest(old' + f, load)[node] != e.id {
        NewestIsThere(old', load, node);
        NotInBoth(old', f, e);
      }
      forall node | node in Newest(f, load) ensures Newest(old' + f, load)[node] == Newest(f, load)[node] {}
      SameValue(Newest(old' + f, load), Newest(f, load), e.id);
    }
  }

  lemma SameValue(big: map<string, Id>, small: map<string, Id>, id: Id)
    requires small.Keys <= big.Keys && forall k | k in small :: big[k] == small[k]
    requires forall k | k in big && k !in small :: big[k] != id
    ensures id in big.Values <==> id in small.Values
  {
  }

  lemma {:induction false} NewestIsThere(events: seq<InboxEvent>, load: Load, node: string)
    requires node in Newest(events, load)
    ensures exists e | e in events :: e.id == Newest(events, load)[node]
  {
    var before, e := events[..|events| - 1], events[|events| - 1];
    assert e in events && forall x | x in before :: x in events;
    if !(Bears(e, load) && e.nodeId == node) { NewestIsThere(before, load, node); }
  }

  lemma NotInBoth(a: seq<InboxEvent>, b: seq<InboxEvent>, e: InboxEvent)
    requires Unique(a + b) && e in b
    ensures forall x | x in a :: x.id != e.id
  {
    var j :| 0 <= j < |b| && b[j] == e;
    forall x | x in a ensures x.id != e.id {
      var i :| 0 <= i < |a| && a[i] == x;
      assert (a + b)[i] == x && (a + b)[|a| + j] == e;
    }
  }

  /** While the clock does not go back, ageing and retention commute. */
  lemma AgeTrimCommute(events: seq<InboxEvent>, cap: nat, now: int, horizon: int)
    requires Unique(events) && InTime(events)
    ensures Trim(Fresh(events, now, horizon), cap) == Fresh(Trim(events, cap), now, horizon)
  {
    hide Fresh, Keep, Protected;
    if |events| > cap {
      var start := |events| - cap;
      var older, window, ids := events[..start], events[start..], Protected(events);
      assert events == older + window;
      FreshSplit(older, window, now, horizon);
      FreshSplit(Keep(older, ids), window, now, horizon);
      FreshKeepCommute(older, ids, now, horizon);
      AllOrNothing(events, start, now, horizon);
      var f1, f2 := Fresh(older, now, horizon), Fresh(window, now, horizon);
      if f1 != [] {
        AgedProtection(events, f1, now, horizon);
        TrimParts(f1, window);
      } else {
        KeepAll([], ids);
        assert [] + f2 == f2;
      }
    }
  }

  /** What is fresh is protected after ageing exactly when it was before. */
  lemma AgedProtection(events: seq<InboxEvent>, part: seq<InboxEvent>, now: int, horizon: int)
    requires Unique(events) && InTime(events)
    requires part <= Fresh(events, now, horizon)
    ensures Keep(part, Protected(events)) == Keep(part, Protected(Fresh(events, now, horizon)))
  {
    hide Fresh, Keep, Protected;
    var f := Fresh(events, now, horizon);
    FreshIsSuffix(events, now, horizon);
    assert events == events[..|events| - |f|] + f;
    ProtectedOfSuffix(events[..|events| - |f|], f);
    assert forall e | e in part :: e in f;
    KeepAgrees(part, Protected(events), Protected(f));
  }

  /** In time order, an older event is fresh only when every later one is. */
  lemma AllOrNothing(events: seq<InboxEvent>, start: nat, now: int, horizon: int)
    requires InTime(events) && start <= |events|
    ensures Fresh(events[..start], now, horizon) != [] ==> Fresh(events[start..], now, horizon) == events[start..]
  {
    var older, window := events[..start], events[start..];
    assert InTime(older) && InTime(window);
    FreshIsSuffix(older, now, horizon);
    FreshIsSuffix(window, now, horizon);
    if Fresh(older, now, horizon) != [] {
      assert IsFresh(older[start - 1], now, horizon);
      if window != [] {
        assert older[start - 1] == events[start - 1] && window[0] == events[start];
        assert IsFresh(window[0], now, horizon);
      }
    }
  }

  lemma {:induction false} KeepStaysUnique(events: seq<InboxEvent>, ids: set<Id>)
    requires Unique(events)
    ensures Unique(Keep(events, ids))
  {
    if events != [] {
      var before, e := events[..|events| - 1], events[|events| - 1];
      KeepStaysUnique(before, ids);
      KeepFrom(before, ids);
      assert before + [e] == events;
      NotInBoth(before, [e], e);
    }
  }

  lemma FreshStaysUnique(events: seq<InboxEvent>, now: int, horizon: int)
    requires Unique(events)
    ensures Unique(Fresh(events, now, horizon)) && forall e | e in Fresh(events, now, horizon) :: e in events
  {
    var ids := FreshIds(events, now, horizon);
    assert forall e | e in events && e.id in ids :: IsFresh(e, now, horizon);
    FreshIsKeep(events, now, horizon, ids);
    KeepStaysUnique(events, ids);
    KeepFrom(events, ids);
  }

  lemma TrimStaysUnique(events: seq<InboxEvent>, cap: nat)
    requires Unique(events)
    ensures Unique(Trim(events, cap)) && forall e | e in Trim(events, cap) :: e in events
  {
    hide Protected, Keep;
    if |events| > cap {
      var older, window := events[..|events| - cap], events[|events| - cap..];
      KeepStaysUnique(older, Protected(events));
      KeepFrom(older, Protected(events));
      assert older + window == events;
      forall e | e in window ensures forall x | x in older :: x.id != e.id {
        NotInBoth(older, window, e);
      }
    }
  }

  // ----- exactly what stays -----

  /** `kept` is the events at `at`, in order. */
  predicate Picks(events: seq<InboxEvent>, kept: seq<InboxEvent>, at: seq<nat>) {
    && |kept| == |at| && (forall k, l | 0 <= k < l < |at| :: at[k] < at[l])
    && forall k | 0 <= k < |at| :: at[k] < |events| && kept[k] == events[at[k]]
  }

  function KeptAt(events: seq<InboxEvent>, ids: set<Id>): seq<nat> {
    if events == [] then []
    else
      KeptAt(events[..|events| - 1], ids) + if events[|events| - 1].id in ids then [|events| - 1] else []
  }

  lemma {:induction false} KeepPicks(events: seq<InboxEvent>, ids: set<Id>)
    ensures Picks(events, Keep(events, ids), KeptAt(events, ids))
    ensures forall i | 0 <= i < |events| :: i in KeptAt(events, ids) <==> events[i].id in ids
  {
    if events != [] {
      var before, e := events[..|events| - 1], events[|events| - 1];
      KeepPicks(before, ids);
      assert before + [e] == events;
      PicksPush(before, e, Keep(before, ids), KeptAt(before, ids));
      KeepPush(before, e, ids);
      assert KeptAt(events, ids) == KeptAt(before, ids) + if e.id in ids then [|before|] else [];
      hide Picks, Keep, KeptAt;
    }
  }

  lemma PicksPush(before: seq<InboxEvent>, e: InboxEvent, kept: seq<InboxEvent>, at: seq<nat>)
    requires Picks(before, kept, at)
    ensures Picks(before + [e], kept, at) && Picks(before + [e], kept + [e], at + [|before|])
    ensures |before| !in at
  {
  }

  function Range(from: nat, n: nat): (r: seq<nat>)
    ensures |r| == n && (forall i | 0 <= i < n :: r[i] == from + i) && forall x :: x in r <==> from <= x < from + n
  {
    if n == 0 then [] else Range(from, n - 1) + [from + n - 1]
  }

  /** Followed by a stretch taken whole. */
  lemma {:induction false} PicksTail(older: seq<InboxEvent>, window: seq<InboxEvent>, kept: seq<InboxEvent>, at: seq<nat>)
    requires Picks(older, kept, at)
    ensures Picks(older + window, kept + window, at + Range(|older|, |window|))
  {
    hide Picks;
    if window == [] {
      assert older + window == older && kept + window == kept && at + Range(|older|, 0) == at;
    } else {
      var before, e := window[..|window| - 1], window[|window| - 1];
      PicksTail(older, before, kept, at);
      PicksPush(older + before, e, kept + before, at + Range(|older|, |before|));
      assert older + window == older + before + [e] && kept + window == kept + before + [e];
      assert at + Range(|older|, |window|) == at + Range(|older|, |before|) + [|older + before|];
    }
  }

  /** Of its node, the last finished turn or the last open ask. */
  predicate IsNewest(events: seq<InboxEvent>, i: nat)
    requires i < |events|
  {
    || (events[i].kind == DoneKind && forall j | i < j < |events| && events[j].kind == DoneKind :: events[j].nodeId != events[i].nodeId)
    || (events[i].kind != DoneKind && !events[i].resolved
        && forall j | i < j < |events| && events[j].kind != DoneKind && !events[j].resolved :: events[j].nodeId != events[i].nodeId)
  }

  /** The newest of its node that bears the load, at `i`. */
  predicate LastOf(events: seq<InboxEvent>, load: Load, i: nat)
    requires i < |events|
  {
    Bears(events[i], load) && forall j | i < j < |events| && Bears(events[j], load) :: events[j].nodeId != events[i].nodeId
  }

  lemma {:induction false} NewestIsLast(events: seq<InboxEvent>, load: Load)
    ensures forall i | 0 <= i < |events| && LastOf(events, load, i) ::
              events[i].nodeId in Newest(events, load) && Newest(events, load)[events[i].nodeId] == events[i].id
    ensures forall node | node in Newest(events, load) ::
              exists i :: 0 <= i < |events| && LastOf(events, load, i) && events[i].nodeId == node && events[i].id == Newest(events, load)[node]
  {
    if events != [] {
      var before, e := events[..|events| - 1], events[|events| - 1];
      NewestIsLast(before, load);
      LastOfPush(before, e, load);
      assert before + [e] == events;
      NewestPush(before, e, load);
      hide Newest, LastOf;
      forall node | node in Newest(events, load)
        ensures exists i :: 0 <= i < |events| && LastOf(events, load, i) && events[i].nodeId == node && events[i].id == Newest(events, load)[node]
      {
        if Bears(e, load) && node == e.nodeId {
          assert LastOf(events, load, |before|);
        } else {
          var i :| 0 <= i < |before| && LastOf(before, load, i) && before[i].nodeId == node && before[i].id == Newest(before, load)[node];
          assert LastOf(events, load, i) && events[i] == before[i];
        }
      }
    }
  }

  lemma LastOfPush(before: seq<InboxEvent>, e: InboxEvent, load: Load)
    ensures forall i | 0 <= i < |before| ::
              LastOf(before + [e], load, i) <==> LastOf(before, load, i) && !(Bears(e, load) && e.nodeId == before[i].nodeId)
    ensures LastOf(before + [e], load, |before|) <==> Bears(e, load)
  {
    var all := before + [e];
    assert all[|before|] == e && forall i | 0 <= i < |before| :: all[i] == before[i];
  }

  lemma NewestMeans(events: seq<InboxEvent>, i: nat)
    requires i < |events|
    ensures LastOf(events, Finished, i) || LastOf(events, OpenAsk, i) <==> IsNewest(events, i)
  {
  }

  lemma ProtectedIsNewest(events: seq<InboxEvent>, i: nat)
    requires Unique(events) && i < |events|
    ensures events[i].id in Protected(events) <==> IsNewest(events, i)
  {
    hide Newest, LastOf, IsNewest;
    NewestIsLast(events, Finished);
    NewestIsLast(events, OpenAsk);
    NewestMeans(events, i);
    if events[i].id in Protected(events) {
      var load, node :| node in Newest(events, load) && Newest(events, load)[node] == events[i].id;
      NewestIsLast(events, load);
      var j :| 0 <= j < |events| && LastOf(events, load, j) && events[j].nodeId == node && events[j].id == events[i].id;
      assert i == j;
    }
    if LastOf(events, Finished, i) { assert events[i].id in Newest(events, Finished).Values; }
    if LastOf(events, OpenAsk, i) { assert events[i].id in Newest(events, OpenAsk).Values; }
  }

  /** A trim keeps, in order, exactly the newest `cap` events and, of the older, each node's last finished turn and last open ask. */
  lemma TrimKeepsExactly(events: seq<InboxEvent>, cap: nat)
    requires Unique(events)
    ensures exists at :: Picks(events, Trim(events, cap), at)
                         && forall i | 0 <= i < |events| :: i in at <==> i >= |events| - cap || IsNewest(events, i)
  {
    hide Protected, IsNewest, Picks, Keep, Unique, KeptAt;
    var start := if |events| <= cap then 0 else |events| - cap;
    var older, window, ids := events[..start], events[start..], Protected(events);
    var at := KeptAt(older, ids);
    KeepPicks(older, ids);
    PicksTail(older, window, Keep(older, ids), at);
    NothingYet(ids, Finished);
    assert older + window == events && [] + events == events;
    assert Picks(events, Trim(events, cap), at + Range(start, |window|));
    forall i | 0 <= i < |events| ensures i in at + Range(start, |window|) <==> i >= |events| - cap || IsNewest(events, i) {
      StaysWhen(events, start, i);
    }
  }

  lemma StaysWhen(events: seq<InboxEvent>, start: nat, i: nat)
    requires Unique(events) && start <= |events| && i < |events|
    ensures i in KeptAt(events[..start], Protected(events)) + Range(start, |events| - start) <==> i >= start || IsNewest(events, i)
  {
    hide Protected, IsNewest, Unique;
    KeepPicks(events[..start], Protected(events));
    ProtectedIsNewest(events, i);
    assert i < start ==> events[..start][i] == events[i];
  }

  /** Ageing keeps, in order, exactly the events not older than the horizon. */
  lemma FreshKeepsExactly(events: seq<InboxEvent>, now: int, horizon: int)
    ensures exists at :: Picks(events, Fresh(events, now, horizon), at)
                         && forall i | 0 <= i < |events| :: i in at <==> now - events[i].id.ts <= horizon
  {
    var ids := FreshIds(events, now, horizon);
    FreshMatch(events, now, horizon);
    FreshIsKeep(events, now, horizon, ids);
    KeepPicks(events, ids);
    forall i | 0 <= i < |events| ensures i in KeptAt(events, ids) <==> now - events[i].id.ts <= horizon { assert events[i] in events; }
  }

  /** Acknowledging a node resolves exactly its finished turns, in place. */
  lemma {:induction false} AckedExactly(events: seq<InboxEvent>, node: string)
    ensures |AckAll(events, node)| == |events|
    ensures forall i | 0 <= i < |events| ::
              AckAll(events, node)[i] == events[i].(resolved := events[i].resolved || (events[i].nodeId == node && events[i].kind == DoneKind))
  {
    if events != [] { AckedExactly(events[..|events| - 1], node); }
  }
}
