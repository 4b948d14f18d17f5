/**
 * Turns and sessions: what a turn end leaves working, how waiting calls of one
 * type are taken first in first out, which acks are remembered, and that nothing
 * of one session reaches the next.
 */
module SubagentTurns {
  import opened Options
  import opened SubagentRules
  import opened SubagentLedger
  import opened SubagentBounds

  // ----- first in, first out -----

  /** No ack holds the call for a child. */
  predicate Free(hints: seq<Hint>, p: Pending) {
    forall h | h in hints :: h.call != p.call
  }

  /** The waiting calls of type `ty` that no ack holds for another child, in order. */
  function Line(pending: seq<Pending>, hints: seq<Hint>, ty: string): seq<Pending> {
    if pending == [] then []
    else
      var p := pending[|pending| - 1];
      Line(pending[..|pending| - 1], hints, ty)
      + if p.ty == Some(ty) && Free(hints, p) then [p] else []
  }

  lemma {:induction false} LineSplit(a: seq<Pending>, b: seq<Pending>, hints: seq<Hint>, ty: string)
    ensures Line(a + b, hints, ty) == Line(a, hints, ty) + Line(b, hints, ty)
  {
    if b == [] {
      assert a + b == a;
    } else {
      assert (a + b)[..|a + b| - 1] == a + b[..|b| - 1];
      LineSplit(a, b[..|b| - 1], hints, ty);
    }
  }

  lemma {:induction false} NobodyInLine(pending: seq<Pending>, hints: seq<Hint>, ty: string)
    requires forall p | p in pending :: p.ty != Some(ty) || !Free(hints, p)
    ensures Line(pending, hints, ty) == []
  {
    if pending != [] {
      assert pending[|pending| - 1] in pending && forall p | p in pending[..|pending| - 1] :: p in pending;
      NobodyInLine(pending[..|pending| - 1], hints, ty);
    }
  }

  lemma LineOfOne(p: Pending, hints: seq<Hint>, ty: string)
    ensures Line([p], hints, ty) == if p.ty == Some(ty) && Free(hints, p) then [p] else []
  {
    assert [p][..0] == [];
  }

  /** Cutting the queue around one call. */
  lemma LineAround(pending: seq<Pending>, i: nat, hints: seq<Hint>, ty: string)
    requires i < |pending|
    ensures Line(pending, hints, ty) == Line(pending[..i], hints, ty) + Line([pending[i]], hints, ty) + Line(pending[i + 1..], hints, ty)
    ensures Line(Without(pending, i), hints, ty) == Line(pending[..i], hints, ty) + Line(pending[i + 1..], hints, ty)
  {
    var a, p, b := pending[..i], pending[i], pending[i + 1..];
    assert pending == (a + [p]) + b && Without(pending, i) == a + b;
    LineSplit(a + [p], b, hints, ty);
    LineSplit(a, [p], hints, ty);
    LineSplit(a, b, hints, ty);
  }

  lemma FrontTaken(pending: seq<Pending>, i: nat, hints: seq<Hint>, ty: string)
    requires i < |pending| && pending[i].ty == Some(ty) && Free(hints, pending[i]) && Line(pending[..i], hints, ty) == []
    ensures Line(pending, hints, ty) == [pending[i]] + Line(Without(pending, i), hints, ty)
    ensures forall other | other != ty :: Line(Without(pending, i), hints, other) == Line(pending, hints, other)
  {
    hide Line;
    LineAround(pending, i, hints, ty);
    LineOfOne(pending[i], hints, ty);
    forall other | other != ty ensures Line(Without(pending, i), hints, other) == Line(pending, hints, other) {
      LineAround(pending, i, hints, other);
      LineOfOne(pending[i], hints, other);
    }
  }

  /**
   * A typed child takes the front of its type's line, or, when that is empty, the oldest free call that
   * has no type; an untyped child takes the oldest free call without a type or not.
   */
  lemma NextIsFirstInLine(pending: seq<Pending>, hints: seq<Hint>, ty: Option<string>)
    ensures var i := NextFor(pending, hints, ty);
            if ty.Some? && Line(pending, hints, ty.value) != [] then
              && i < |pending| && pending[i] == Line(pending, hints, ty.value)[0]
              && Line(Without(pending, i), hints, ty.value) == Line(pending, hints, ty.value)[1..]
              && forall other | other != ty.value :: Line(Without(pending, i), hints, other) == Line(pending, hints, other)
            else
              && (i < |pending| ==> (ty.None? || pending[i].ty.None?) && Free(hints, pending[i]))
              && forall j | 0 <= j < i && (ty.None? || pending[j].ty.None?) :: !Free(hints, pending[j])
  {
    hide Line;
    var i := NextFor(pending, hints, ty);
    if ty.Some? && Line(pending, hints, ty.value) != [] {
      InLineIsFound(pending, hints, ty.value);
      forall p | p in pending[..i] ensures p.ty != ty || !Free(hints, p) {
        var j :| 0 <= j < i && pending[j] == p;
        assert Reserved(hints, p.call) || !SameType(p, ty);
      }
      NobodyInLine(pending[..i], hints, ty.value);
      assert Free(hints, pending[i]);
      FrontTaken(pending, i, hints, ty.value);
    } else {
      if ty.Some? { EmptyLine(pending, hints, ty.value); }
      forall j | 0 <= j < i && (ty.None? || pending[j].ty.None?) ensures !Free(hints, pending[j]) {
        assert Reserved(hints, pending[j].call) || !Untyped(pending[j], ty);
      }
    }
  }

  lemma {:induction false} InLineIsFound(pending: seq<Pending>, hints: seq<Hint>, ty: string)
    requires Line(pending, hints, ty) != []
    ensures var i := First(pending, (p: Pending) => !Reserved(hints, p.call) && SameType(p, Some(ty)));
            i < |pending|
  {
    if !(exists p | p in pending :: p.ty == Some(ty) && Free(hints, p)) {
      NobodyInLine(pending, hints, ty);
    } else {
      var p :| p in pending && p.ty == Some(ty) && Free(hints, p);
      var j :| 0 <= j < |pending| && pending[j] == p;
      assert !Reserved(hints, p.call) && SameType(p, Some(ty));
    }
  }

  lemma EmptyLine(pending: seq<Pending>, hints: seq<Hint>, ty: string)
    requires Line(pending, hints, ty) == []
    ensures forall p | p in pending && p.ty == Some(ty) :: Reserved(hints, p.call)
  {
    forall p | p in pending && p.ty == Some(ty) ensures Reserved(hints, p.call) {
      var j :| 0 <= j < |pending| && pending[j] == p;
      LineAround(pending, j, hints, ty);
      LineOfOne(p, hints, ty);
    }
  }

  /**
   * A child starting without an ack, in a table with room and a call in its type's line: its card is that
   * call's, with its label, and the line moves up by one while every other line stands.
   */
  lemma ChildTakesTheFront(t: Table, ev: Event)
    requires ev.signal == Some(Native) && CardAt(t.cards, ev.key) == |t.cards| && |t.cards| < 128
    requires HintAt(t.hints, ev.key) == |t.hints| && ev.ty.Some? && Line(t.pending, t.hints, ev.ty.value) != []
    ensures var r, front := NativeStart(t, ev).table.value, Line(t.pending, t.hints, ev.ty.value)[0];
            && r.cards == t.cards + [Card(ev.key, Some(front.call), ev.ty, front.task, true)]
            && r.hints == t.hints && r.native && r.session == t.session
            && Line(r.pending, r.hints, ev.ty.value) == Line(t.pending, t.hints, ev.ty.value)[1..]
            && forall other | other != ev.ty.value :: Line(r.pending, r.hints, other) == Line(t.pending, t.hints, other)
  {
    hide NextFor, Line;
    OpenedCounts(t, ev, ev.key);
    NextIsFirstInLine(t.pending, t.hints, ev.ty);
    var o := Opened(t, ev);
    var last := |o.cards| - 1;
    assert o == Table(t.session, true, t.pending, t.cards + [Card(ev.key, None, ev.ty, None, true)], t.hints);
    var p := t.pending[NextFor(t.pending, t.hints, ev.ty)];
    assert o.cards[last := Take(o.cards[last], p)] == t.cards + [Card(ev.key, Some(p.call), ev.ty, p.task, true)];
  }

  /** A call told while there is room joins the end of its type's line. */
  lemma CallJoinsTheEnd(t: Table, ev: Event)
    requires |t.pending| < 64 && ev.ty.Some? && forall h | h in t.hints :: h.call != ev.key
    ensures var r := ToolStart(t, ev).table.value;
            && Line(r.pending, r.hints, ev.ty.value) == Line(t.pending, t.hints, ev.ty.value) + [Pending(ev.key, ev.ty, ev.task, !t.native)]
            && forall other | other != ev.ty.value :: Line(r.pending, r.hints, other) == Line(t.pending, t.hints, other)
  {
    var p := Pending(ev.key, ev.ty, ev.task, !t.native);
    LineSplit(t.pending, [p], t.hints, ev.ty.value);
    LineOfOne(p, t.hints, ev.ty.value);
    forall other | other != ev.ty.value ensures Line(t.pending + [p], t.hints, other) == Line(t.pending, t.hints, other) {
      LineSplit(t.pending, [p], t.hints, other);
      LineOfOne(p, t.hints, other);
    }
  }

  // ----- acks remembered -----

  /**
   * An ack ahead of its child's start is kept as the child's newest word; what other children were told
   * stands, unless the hints are full and this is one more: then the oldest child's goes.
   */
  lemma AckIsRemembered(t: Table, ev: Event, launch: Launch)
    requires CardAt(t.cards, launch.agent) == |t.cards| && Sound(Some(t))
    ensures var r := Ack(t, ev, launch).table.value;
            && r == t.(hints := r.hints) && Hinted(r, launch.agent) == launch.call
            && forall a | a != launch.agent ::
                 Hinted(r, a) == if |t.hints| == 64 && HintAt(t.hints, launch.agent) == |t.hints| && a == t.hints[0].agent then "" else Hinted(t, a)
  {
    Remembered(t.hints, launch.agent, launch.call);
    hide Remember, First;
    forall a | a != launch.agent
      ensures Hinted(Ack(t, ev, launch).table.value, a)
              == if |t.hints| == 64 && HintAt(t.hints, launch.agent) == |t.hints| && a == t.hints[0].agent then "" else Hinted(t, a)
    {
      OtherHint(t.hints, launch.agent, launch.call, a);
    }
  }

  /** How many hints an ack of a new child pushes out. */
  function PushedOut(hints: seq<Hint>, agent: string): nat {
    if HintAt(hints, agent) == |hints| && |hints| >= HINTS_MAX then 1 else 0
  }

  lemma Remembered(hints: seq<Hint>, agent: string, call: string)
    requires |hints| <= HINTS_MAX && forall i, j | 0 <= i < j < |hints| :: hints[i].agent != hints[j].agent
    ensures var r := Remember(hints, agent, call); HintAt(r, agent) < |r| && r[HintAt(r, agent)] == Hint(agent, call)
  {
    var r, i := Remember(hints, agent, call), HintAt(hints, agent) - PushedOut(hints, agent);
    RememberedOnce(hints, agent, call);
    assert r[i] == Hint(agent, call);
    HintStands(r, i, agent);
  }

  lemma RememberedOnce(hints: seq<Hint>, agent: string, call: string)
    requires |hints| <= HINTS_MAX && forall i, j | 0 <= i < j < |hints| :: hints[i].agent != hints[j].agent
    ensures var r := Remember(hints, agent, call); forall x, y | 0 <= x < y < |r| :: r[x].agent != r[y].agent
  {
  }

  lemma RememberedAt(hints: seq<Hint>, agent: string, call: string, m: nat)
    requires |hints| <= HINTS_MAX && PushedOut(hints, agent) <= m < |hints| && m != HintAt(hints, agent)
    ensures var r := Remember(hints, agent, call); m - PushedOut(hints, agent) < |r| && r[m - PushedOut(hints, agent)] == hints[m]
  {
  }

  lemma OtherHint(hints: seq<Hint>, agent: string, call: string, a: string)
    requires |hints| <= HINTS_MAX && a != agent && forall i, j | 0 <= i < j < |hints| :: hints[i].agent != hints[j].agent
    ensures var r := Remember(hints, agent, call);
            var k, k' := HintAt(hints, a), HintAt(r, a);
            if k == |hints| || (|hints| == HINTS_MAX && HintAt(hints, agent) == |hints| && a == hints[0].agent) then k' == |r|
            else k' < |r| && r[k'] == hints[k]
  {
    hide Remember, HintAt;
    var r, k := Remember(hints, agent, call), HintAt(hints, a);
    var cut := if HintAt(hints, agent) == |hints| == HINTS_MAX then 1 else 0;
    if cut <= k < |hints| {
      KeptHint(hints, agent, call, k);
    } else {
      if HintAt(r, a) < |r| {
        OthersRemembered(hints, agent, call);
        NobodyHinted(hints, cut, r[HintAt(r, a)]);
      }
    }
  }

  lemma KeptHint(hints: seq<Hint>, agent: string, call: string, k: nat)
    requires |hints| <= HINTS_MAX && forall i, j | 0 <= i < j < |hints| :: hints[i].agent != hints[j].agent
    requires k < |hints| && hints[k].agent != agent && (|hints| == HINTS_MAX && HintAt(hints, agent) == |hints| ==> k > 0)
    ensures var r := Remember(hints, agent, call); HintAt(r, hints[k].agent) < |r| && r[HintAt(r, hints[k].agent)] == hints[k]
  {
    RememberedOnce(hints, agent, call);
    RememberedAt(hints, agent, call, k);
    hide Remember, First, PushedOut;
    HintStands(Remember(hints, agent, call), k - PushedOut(hints, agent), hints[k].agent);
  }

  /** Whatever else is remembered was so before, and is not the oldest where that had to go. */
  lemma OthersRemembered(hints: seq<Hint>, agent: string, call: string)
    ensures var cut := if HintAt(hints, agent) == |hints| && |hints| >= HINTS_MAX then 1 else 0;
            forall h | h in Remember(hints, agent, call) && h.agent != agent :: h in hints[cut..]
  {
    var i := HintAt(hints, agent);
    var set' := if i < |hints| then hints[i := Hint(agent, call)] else hints + [Hint(agent, call)];
    forall h | h in Remember(hints, agent, call) && h.agent != agent ensures h in hints[if i == |hints| && |hints| >= HINTS_MAX then 1 else 0..] {
      if i == |hints| && |hints| >= HINTS_MAX { assert set'[1..] == hints[1..] + [Hint(agent, call)]; }
    }
  }

  lemma NobodyHinted(hints: seq<Hint>, cut: nat, h: Hint)
    requires cut <= |hints| && h in hints[cut..] && forall i, j | 0 <= i < j < |hints| :: hints[i].agent != hints[j].agent
    ensures cut <= HintAt(hints, h.agent) < |hints|
  {
    var j :| cut <= j < |hints| && hints[j] == h;
    HintStands(hints, j, h.agent);
  }

  lemma HintStands(hints: seq<Hint>, k: nat, a: string)
    requires k < |hints| && hints[k].agent == a && forall i, j | 0 <= i < j < |hints| :: hints[i].agent != hints[j].agent
    ensures HintAt(hints, a) == k
  {
  }

  // ----- turn ends -----

  /**
   * A turn end of a native session empties the queue and, with an inventory, leaves working exactly the
   * cards it lists; without one no card changes. Each card that stops is ended and released.
   */
  lemma TurnEndSettles(t: Table, ev: Event)
    requires t.native && (ev.sessionId == "" || t.session == ev.sessionId)
    ensures var r := TurnEnd(Some(t), ev);
            && r.table.Some? && r.table.value.pending == [] && |r.table.value.cards| == |t.cards|
            && (forall j | 0 <= j < |t.cards| ::
                  var stops := t.cards[j].working && ev.background.Some? && t.cards[j].agent !in ev.background.value;
                  && r.table.value.cards[j] == t.cards[j].(working := t.cards[j].working && !stops)
                  && (stops ==> Times(r.released, t.cards[j].agent) > 0 && exists e | e in r.events :: e.kind == SubagentEnd && e.key == t.cards[j].agent))
  {
    var r := TurnEnd(Some(t), ev);
    if ev.background.Some? {
      var alive := ev.background.value;
      SettledAt(t.cards, alive);
      var gone := Gone(t.cards, alive);
      forall j | 0 <= j < |t.cards| && t.cards[j].working && t.cards[j].agent !in alive
        ensures Times(r.released, t.cards[j].agent) > 0 && exists e | e in r.events :: e.kind == SubagentEnd && e.key == t.cards[j].agent
      {
        GoneHas(t.cards, alive, j);
        GoneIsTold(ev, gone, t.cards[j]);
        TimesSplit(CardKeys(gone), ShownCalls(t.pending), t.cards[j].agent);
        var e :| e in CardEnds(ev, gone) && e.kind == SubagentEnd && e.key == t.cards[j].agent;
        assert e in r.events;
      }
    }
  }

  lemma {:induction false} SettledAt(cards: seq<Card>, alive: set<string>)
    ensures forall j | 0 <= j < |cards| :: Settled(cards, alive)[j] == cards[j].(working := cards[j].working && cards[j].agent in alive)
  {
    if cards != [] { SettledAt(cards[1..], alive); }
  }

  lemma {:induction false} GoneHas(cards: seq<Card>, alive: set<string>, j: nat)
    requires j < |cards| && cards[j].working && cards[j].agent !in alive
    ensures cards[j] in Gone(cards, alive)
    decreases cards
  {
    if j > 0 { GoneHas(cards[1..], alive, j - 1); }
  }

  lemma {:induction false} GoneIsTold(ev: Event, gone: seq<Card>, c: Card)
    requires c in gone
    ensures Times(CardKeys(gone), c.agent) > 0 && exists e | e in CardEnds(ev, gone) :: e.kind == SubagentEnd && e.key == c.agent
  {
    if gone[0] == c {
      assert EndEvent(ev, c.agent, c.ty, Native) in CardEnds(ev, gone);
    } else {
      GoneIsTold(ev, gone[1..], c);
      var e :| e in CardEnds(ev, gone[1..]) && e.kind == SubagentEnd && e.key == c.agent;
      assert e in CardEnds(ev, gone);
    }
  }

  // ----- sessions -----

  /**
   * A start or an ack of another session finds nothing of the old one; a native end or a turn end of
   * another session changes nothing; and after the end of a session nothing is left.
   */
  lemma SessionsStayApart(t: Table, ev: Event)
    ensures ev.kind == Session && ev.sessionEnd ==> Apply(Some(t), ev).table.None?
    ensures OtherSession(t, ev) && ev.kind == SubagentStart && ev.signal.Some? && ev.key != "" ==> Apply(Some(t), ev) == Apply(None, ev)
    ensures OtherSession(t, ev) && ev.kind == State && ev.launch.Some? ==> Apply(Some(t), ev) == Apply(None, ev)
    ensures OtherSession(t, ev) && ev.kind == State && ev.launch.None? ==> Apply(Some(t), ev) == Outcome(Some(t), [ev], [])
    ensures OtherSession(t, ev) && ev.kind == SubagentEnd && ev.signal == Some(Native) && ev.key != "" ==>
              Apply(Some(t), ev) == Outcome(Some(t), [], [])
  {
    hide NativeStart, ToolStart, Ack;
  }

  /**
   * A start or an ack fills in a session that is not known yet and keeps one that is; a child's start
   * makes the session a native one for good, and a call told then is not drawn.
   */
  lemma SessionAndLatch(t: Table, ev: Event)
    requires !OtherSession(t, ev)
    requires (ev.kind == SubagentStart && ev.signal.Some? && ev.key != "") || (ev.kind == State && ev.launch.Some?)
    ensures var r := Apply(Some(t), ev);
            && r.table.Some? && r.table.value.session == (if t.session != "" then t.session else ev.sessionId)
            && (r.table.value.native <==> t.native || (ev.kind == SubagentStart && ev.signal == Some(Native)))
            && (ev.kind == SubagentStart && ev.signal != Some(Native) ==> r.events == if t.native then [] else [ev])
  {
    hide NativeStart, Ack, ToolStart;
    var c := Current(Some(t), ev);
    NativeSession(c, ev);
    OtherwiseSession(c, ev);
    assert c.session == (if t.session != "" then t.session else ev.sessionId) && c.native == t.native;
  }

  lemma NativeSession(t: Table, ev: Event)
    ensures var r := NativeStart(t, ev).table; r.Some? && r.value.session == t.session && r.value.native
  {
    hide BindFromCard, BindFromQueue, BindUnknown, Evict, NextFor;
    if CardAt(t.cards, ev.key) == |t.cards| {
      var o := Opened(t, ev);
      BindSession(o, |o.cards| - 1, Hinted(t, ev.key), ev);
    }
  }

  lemma OtherwiseSession(t: Table, ev: Event)
    ensures var r := ToolStart(t, ev);
            r.table.Some? && r.table.value.session == t.session && r.table.value.native == t.native && r.events == if t.native then [] else [ev]
    ensures ev.launch.Some? ==>
              var r := Ack(t, ev, ev.launch.value).table; r.Some? && r.value.session == t.session && r.value.native == t.native
  {
    if ev.launch.Some? {
      var k := CardAt(t.cards, ev.launch.value.agent);
      if k < |t.cards| { BindSession(t, k, ev.launch.value.call, ev); }
      hide Bind;
    }
  }

  /** No binding touches the session or the latch. */
  lemma BindSession(t: Table, k: nat, call: string, ev: Event)
    requires k < |t.cards|
    ensures var r := Bind(t, k, call, ev).table; r.session == t.session && r.native == t.native
    ensures var r := BindNext(t, k).table; r.session == t.session && r.native == t.native
  {
    hide NextFor;
  }

  /** The end of a call that only waits is handed on exactly if the call is drawn. */
  lemma WaitingEndIsTold(t: Table, ev: Event)
    requires ev.kind == SubagentEnd && ev.signal.Some? && ev.signal != Some(Native) && ev.key != ""
    requires Ended(t, ev) == |t.cards| && WaitingAt(t.pending, ev.key) < |t.pending|
    ensures var r, i := Apply(Some(t), ev), WaitingAt(t.pending, ev.key);
            && r.events == (if t.pending[i].shown then [ev] else [])
            && r.table == Some(t.(pending := t.pending[..i] + t.pending[i + 1..])) && r.released == []
  {
  }

  /**
   * Bound to another call, a card gives up its own: that one waits first, with the card's type and label
   * and not drawn; the card takes the other's label, keeps its own type if it has one, and
   * the call it takes leaves the queue.
   */
  lemma GivesBackToTheFront(t: Table, k: nat, call: string, ev: Event)
    requires k < |t.cards| && t.cards[k].call != Some(call) && OtherHolder(t.cards, call, t.cards[k].agent) == |t.cards|
    ensures var r, c, i := Bind(t, k, call, ev).table, t.cards[k], WaitingAt(t.pending, call);
            && r.pending == (if c.call.Some? then [Pending(c.call.value, c.ty, c.task, false)] else [])
                            + (if i < |t.pending| then t.pending[..i] + t.pending[i + 1..] else t.pending)
            && r.cards == t.cards[k := if i < |t.pending|
                                       then Card(c.agent, Some(call), if c.ty.Some? then c.ty else t.pending[i].ty, t.pending[i].task, c.working)
                                       else Card(c.agent, Some(call), c.ty, c.task, c.working)]
  {
  }

  /**
   * Where another card holds the call, that card gives it up with its label and takes the next one for its
   * own type from the queue, the call given back standing first in it.
   */
  lemma OwnerTakesTheNext(t: Table, k: nat, call: string, ev: Event)
    requires k < |t.cards| && t.cards[k].call != Some(call) && OtherHolder(t.cards, call, t.cards[k].agent) < |t.cards|
    ensures var r, c, o := Bind(t, k, call, ev).table, t.cards[k], OtherHolder(t.cards, call, t.cards[k].agent);
            var owner, queue := t.cards[o], (if c.call.Some? then [Pending(c.call.value, c.ty, c.task, false)] else []) + t.pending;
            var i := NextFor(queue, t.hints, owner.ty);
            && r.cards[k] == Card(c.agent, Some(call), if c.ty.Some? then c.ty else owner.ty, owner.task, c.working)
            && r.pending == (if i < |queue| then queue[..i] + queue[i + 1..] else queue)
            && r.cards[o] == if i < |queue|
                             then Card(owner.agent, Some(queue[i].call), if owner.ty.Some? then owner.ty else queue[i].ty, queue[i].task, owner.working)
                             else Card(owner.agent, None, owner.ty, None, owner.working)
  {
    hide NextFor;
    var c, o := t.cards[k], OtherHolder(t.cards, call, t.cards[k].agent);
    var mine := Take(c, Pending(call, t.cards[o].ty, t.cards[o].task, false));
    var bare := t.cards[o].(call := None, task := None);
    var moved := t.(pending := GivenBack(c, call) + t.pending, cards := t.cards[k := mine][o := bare]);
    assert Bind(t, k, call, ev).table == BindNext(moved, o).table;
    assert moved.cards[o] == bare && moved.cards[k] == mine;
  }
}
