/**
 * The tracker's outputs against a simple consumer: folding the emitted events
 * always leaves exactly the working cards and the drawn waiting calls on
 * screen, whether or not the consumer understands `supersedes`.
 */
module SubagentView {
  import opened Options
  import opened SubagentRules
  import opened SubagentLedger
  import opened SubagentBounds

  // ----- the consumer -----

  /** A start adds its key (moving the card it supersedes, if `knows`), an end removes it. */
  function Consume(view: set<string>, e: Event, knows: bool): set<string> {
    if e.key == "" then view
    else if e.kind == SubagentStart then (if knows then view - {e.supersedes} else view) + {e.key}
    else if e.kind == SubagentEnd then view - {e.key}
    else view
  }

  function Fold(view: set<string>, evs: seq<Event>, knows: bool): set<string>
    decreases evs
  {
    if evs == [] then view else Fold(Consume(view, evs[0], knows), evs[1..], knows)
  }

  lemma {:induction false} FoldSplit(view: set<string>, a: seq<Event>, b: seq<Event>, knows: bool)
    ensures Fold(view, a + b, knows) == Fold(Fold(view, a, knows), b, knows)
    decreases a
  {
    if a == [] {
      assert a + b == b;
    } else {
      FoldSplit(Consume(view, a[0], knows), a[1..], b, knows);
      assert (a + b)[1..] == a[1..] + b;
    }
  }

  /** The view holds exactly the drawn keys. */
  ghost predicate Shows(view: set<string>, st: Option<Table>) {
    forall key :: key in view <==> DrawnOf(st, key) > 0
  }

  // ----- ids -----

  /** Tool call ids and child agent ids of one session, from disjoint non-empty name spaces. */
  datatype Names = Names(calls: set<string>, agents: set<string>) {
    predicate Valid() {
      calls !! agents && "" !in calls && "" !in agents
    }
  }

  predicate Named(t: Table, n: Names) {
    && (forall p | p in t.pending :: p.call in n.calls)
    && (forall c | c in t.cards :: c.agent in n.agents && (c.call.Some? ==> c.call.value in n.calls))
    && (forall h | h in t.hints :: h.agent in n.agents && h.call in n.calls)
  }

  /** The event is one of this session's, with ids from the right name space. */
  predicate Proper(st: Option<Table>, ev: Event, n: Names) {
    && !(ev.kind == Session && ev.sessionEnd)
    && (st.Some? ==> !OtherSession(st.value, ev))
    && ev.supersedes == ""
    && (ev.kind == SubagentStart || ev.kind == SubagentEnd ==>
          ev.signal.Some? && ev.key in (if ev.signal == Some(Native) then n.agents else n.calls))
    && (ev.kind == SubagentEnd && ev.child != "" ==> ev.child in n.agents)
    && (ev.kind == State && ev.launch.Some? ==> ev.launch.value.call in n.calls && ev.launch.value.agent in n.agents)
    && FreshCall(st, ev)
  }

  lemma BindNextNamed(t: Table, k: nat, n: Names)
    requires Named(t, n) && k < |t.cards|
    ensures Named(BindNext(t, k).table, n)
  {
  }

  lemma {:induction false} BindFromCardNamed(t: Table, k: nat, o: nat, call: string, ev: Event, n: Names)
    requires Named(t, n) && k < |t.cards| && o < |t.cards| && call in n.calls
    ensures Named(BindFromCard(t, k, o, call, ev).table, n)
  {
    var mine := Take(t.cards[k], Pending(call, t.cards[o].ty, t.cards[o].task, false));
    var bare := t.cards[o].(call := None, task := None);
    BindNextNamed(t.(pending := GivenBack(t.cards[k], call) + t.pending, cards := t.cards[k := mine][o := bare]), o, n);
  }

  lemma BindNamed(t: Table, k: nat, call: string, ev: Event, n: Names)
    requires Named(t, n) && k < |t.cards| && call in n.calls
    ensures Named(Bind(t, k, call, ev).table, n)
  {
    var o := OtherHolder(t.cards, call, t.cards[k].agent);
    if o < |t.cards| { BindFromCardNamed(t, k, o, call, ev, n); }
  }

  lemma OpenedNamed(t: Table, ev: Event, n: Names)
    requires Named(t, n) && ev.key in n.agents && ev.signal == Some(Native)
    requires CardAt(t.cards, ev.key) == |t.cards| && |t.cards| <= CARDS_MAX
    ensures Named(Opened(t, ev), n)
  {
    OpenedCounts(t, ev, "");
  }

  lemma {:induction false} SettledNamed(cards: seq<Card>, alive: set<string>)
    ensures forall i | 0 <= i < |cards| :: Settled(cards, alive)[i].agent == cards[i].agent && Settled(cards, alive)[i].call == cards[i].call
  {
    if cards != [] { SettledNamed(cards[1..], alive); }
  }

  lemma AckNamed(t: Table, ev: Event, launch: Launch, n: Names)
    requires Named(t, n) && launch.call in n.calls && launch.agent in n.agents
    ensures Named(Ack(t, ev, launch).table.value, n)
  {
    var k := CardAt(t.cards, launch.agent);
    if k < |t.cards| { BindNamed(t, k, launch.call, ev, n); }
  }

  lemma NativeStartNamed(t: Table, ev: Event, n: Names)
    requires n.Valid() && Named(t, n) && ev.key in n.agents && ev.signal == Some(Native) && |t.cards| <= CARDS_MAX
    ensures Named(NativeStart(t, ev).table.value, n)
  {
    if CardAt(t.cards, ev.key) == |t.cards| {
      OpenedNamed(t, ev, n);
      var o := Opened(t, ev);
      if Hinted(t, ev.key) != "" {
        BindNamed(o, |o.cards| - 1, Hinted(t, ev.key), ev, n);
      } else {
        BindNextNamed(o, |o.cards| - 1, n);
      }
    }
  }

  lemma EndNamed(t: Table, ev: Event, n: Names)
    requires Named(t, n)
    ensures Named(TurnEnd(Some(t), ev).table.value, n)
    ensures Named(NativeEnd(Some(t), ev).table.value, n)
  {
    if ev.background.Some? { SettledNamed(t.cards, ev.background.value); }
  }

  lemma ToolEndNamed(t: Table, ev: Event, n: Names)
    requires Named(t, n) && ev.key in n.calls
    ensures Named(ToolEnd(Some(t), ev).table.value, n)
  {
    hide Bind;
    var k := Ended(t, ev);
    if k < |t.cards| {
      var b := if Mispaired(t, ev) then Bind(t, k, ev.key, ev) else Pairing(t, "", [], []);
      if Mispaired(t, ev) { BindNamed(t, k, ev.key, ev, n); }
      assert Named(b.table.(cards := b.table.cards[k := b.table.cards[k].(working := false)]), n);
    }
  }

  lemma StepNamed(st: Option<Table>, ev: Event, n: Names)
    requires n.Valid() && Proper(st, ev, n) && Sound(st) && (st.Some? ==> Named(st.value, n))
    ensures var r := Apply(st, ev).table; r.Some? ==> Named(r.value, n)
  {
    var t := Current(st, ev);
    match ev.kind
    case State =>
      if ev.launch.Some? { AckNamed(t, ev, ev.launch.value, n); }
      else if st.Some? { EndNamed(st.value, ev, n); }
    case SubagentStart =>
      if ev.signal == Some(Native) { NativeStartNamed(t, ev, n); }
    case SubagentEnd =>
      if st.Some? {
        if ev.signal == Some(Native) { EndNamed(st.value, ev, n); } else { ToolEndNamed(st.value, ev, n); }
      }
    case _ =>
  }

  /** Everything the refinement needs of a state. */
  ghost predicate Good(st: Option<Table>, n: Names) {
    n.Valid() && Sound(st) && SinglePlace(st) && (st.Some? ==> Named(st.value, n))
  }

  /** With one place per call and one card per child, no key is drawn twice. */
  lemma DrawnOnce(t: Table, n: Names, key: string)
    requires Good(Some(t), n)
    ensures Drawn(t, key) <= 1
    ensures Drawn(t, key) > 0 ==> key != ""
    ensures key in n.agents ==> ShownCount(t.pending, key) == 0
    ensures key in n.calls ==> WorkingCount(t.cards, key) == 0
  {
    assert PlacesOf(Some(t), key) <= 1;
    WorkingAreAgents(t.cards, key);
    ShownAreWaiting(t.pending, key);
    WaitingIffFound(t.pending, key);
    AgentIffFound(t.cards, key);
  }

  lemma WorkingIsDrawn(t: Table, j: nat)
    requires j < |t.cards| && t.cards[j].working
    ensures Drawn(t, t.cards[j].agent) > 0
  {
    CardsAround(t.cards, j, t.cards[j].agent);
  }

  // ----- the events of pairing -----

  /** A start that supersedes `sup`, and the plain end after it, in either consumer. */
  lemma StartThenEnd(view: set<string>, ev: Event, card: Card, sup: string, starts: bool, ty: Option<string>, knows: bool, key: string)
    requires "" !in view && card.agent != "" && card.agent != sup
    ensures key in Fold(view, (if starts then [StartEvent(ev, card, sup)] else []) + SupersededEnd(ev, sup, ty), knows)
            <==> (key in view || (starts && key == card.agent)) && key != sup
  {
    var s := if starts then [StartEvent(ev, card, sup)] else [];
    FoldSplit(view, s, SupersededEnd(ev, sup, ty), knows);
    var mid := Fold(view, s, knows);
    assert mid == if starts then Consume(view, s[0], knows) else view;
    if sup != "" { assert Fold(mid, SupersededEnd(ev, sup, ty), knows) == Consume(mid, EndEvent(ev, sup, ty, Tool), knows); }
  }

  /** What a start that supersedes nothing does, as a set. */
  lemma StartOnly(view: set<string>, ev: Event, card: Card, starts: bool, ty: Option<string>, knows: bool)
    requires "" !in view && card.agent != ""
    ensures Fold(view, (if starts then [StartEvent(ev, card, "")] else []) + SupersededEnd(ev, "", ty), knows)
            == view + if starts then {card.agent} else {}
  {
  }

  /** Pairing with a call nobody else holds: the caller's own events are all there is. */
  lemma BindLooseShape(t: Table, k: nat, call: string, ev: Event, n: Names, key: string)
    requires n.Valid() && Named(t, n) && k < |t.cards| && OtherHolder(t.cards, call, t.cards[k].agent) == |t.cards|
    ensures var b := Bind(t, k, call, ev);
            && b.events == [] && b.table.cards[k].agent == t.cards[k].agent
            && (b.superseded != "" ==> b.superseded in n.calls)
            && (Times(b.released, key) == 0 <==> b.superseded == "" || key != b.superseded)
  {
  }

  /** What `Bind` and the events its caller sends around it do to a view. */
  lemma BindView(t: Table, k: nat, call: string, ev: Event, n: Names, view: set<string>, starts: bool, knows: bool, key: string)
    requires n.Valid() && Named(t, n) && k < |t.cards| && "" !in view
    requires forall j | 0 <= j < |t.cards| && j != k && t.cards[j].working :: t.cards[j].agent in view
    ensures var b := Bind(t, k, call, ev);
            var card := b.table.cards[k];
            var evs := (if starts then [StartEvent(ev, card, b.superseded)] else []) + SupersededEnd(ev, b.superseded, card.ty);
            key in Fold(view, evs + b.events, knows)
            <==> (key in view || (starts && key == t.cards[k].agent)) && Times(b.released, key) == 0
  {
    hide Fold, Times, Consume, BindFromCard, BindFromQueue, BindUnknown;
    var b := Bind(t, k, call, ev);
    var card := b.table.cards[k];
    var evs := (if starts then [StartEvent(ev, card, b.superseded)] else []) + SupersededEnd(ev, b.superseded, card.ty);
    assert t.cards[k] in t.cards;
    FoldSplit(view, evs, b.events, knows);
    var o := OtherHolder(t.cards, call, t.cards[k].agent);
    if o < |t.cards| {
      BindFromCardShape(t, k, o, call, ev);
      StartOnly(view, ev, card, starts, card.ty, knows);
      BindFromCardView(t, k, o, call, ev, n, Fold(view, evs, knows), knows, key);
    } else {
      BindLooseShape(t, k, call, ev, n, key);
      StartThenEnd(view, ev, card, b.superseded, starts, card.ty, knows, key);
      assert evs + b.events == evs;
    }
  }

  lemma BindFromCardShape(t: Table, k: nat, o: nat, call: string, ev: Event)
    requires k < |t.cards| && o < |t.cards| && k != o
    ensures var b := BindFromCard(t, k, o, call, ev); b.superseded == "" && b.table.cards[k].agent == t.cards[k].agent
  {
  }

  lemma BindFromCardView(t: Table, k: nat, o: nat, call: string, ev: Event, n: Names, view: set<string>, knows: bool, key: string)
    requires n.Valid() && Named(t, n) && k < |t.cards| && o < |t.cards| && k != o && "" !in view
    requires t.cards[o].working ==> t.cards[o].agent in view
    ensures var b := BindFromCard(t, k, o, call, ev);
            key in Fold(view, b.events, knows) <==> key in view && Times(b.released, key) == 0
  {
    var mine := Take(t.cards[k], Pending(call, t.cards[o].ty, t.cards[o].task, false));
    var bare := t.cards[o].(call := None, task := None);
    var moved := t.(pending := GivenBack(t.cards[k], call) + t.pending, cards := t.cards[k := mine][o := bare]);
    var nx := BindNext(moved, o);
    var owner := nx.table.cards[o];
    assert owner.agent == t.cards[o].agent && owner.working == t.cards[o].working;
    StartThenEnd(view, ev, owner, nx.superseded, owner.working, owner.ty, knows, key);
  }

  lemma BindNextView(t: Table, k: nat, ev: Event, n: Names, view: set<string>, knows: bool, key: string)
    requires n.Valid() && Named(t, n) && k < |t.cards| && "" !in view
    ensures var b := BindNext(t, k);
            var card := b.table.cards[k];
            key in Fold(view, [StartEvent(ev, card, b.superseded)] + SupersededEnd(ev, b.superseded, card.ty) + b.events, knows)
            <==> (key in view || key == t.cards[k].agent) && Times(b.released, key) == 0
  {
    var b := BindNext(t, k);
    var card := b.table.cards[k];
    assert card.agent == t.cards[k].agent && card.agent in n.agents;
    StartThenEnd(view, ev, card, b.superseded, true, card.ty, knows, key);
    var evs := [StartEvent(ev, card, b.superseded)] + SupersededEnd(ev, b.superseded, card.ty);
    assert evs + b.events == evs;
  }

  // ----- one event -----

  lemma FoldQuiet(view: set<string>, ev: Event, knows: bool)
    requires ev.kind == State
    ensures Fold(view, [ev], knows) == view
  {
  }

  lemma AckView(t: Table, ev: Event, launch: Launch, n: Names, view: set<string>, knows: bool, key: string)
    requires Good(Some(t), n) && Shows(view, Some(t)) && "" !in view && ev.kind == State
    ensures var r := Ack(t, ev, launch);
            key in Fold(view, r.events, knows) <==> key in view && Times(r.released, key) == 0
  {
    hide Fold, Bind, Times, Named, Consume;
    FoldQuiet(view, ev, knows);
    var k := CardAt(t.cards, launch.agent);
    if k < |t.cards| && t.cards[k].call != Some(launch.call) {
      var b := Bind(t, k, launch.call, ev);
      var card := b.table.cards[k];
      AllWorkingShown(t, view);
      BindView(t, k, launch.call, ev, n, view, card.working, knows, key);
      BindKeepsCard(t, k, launch.call, ev);
      var evs := (if card.working then [StartEvent(ev, card, b.superseded)] else []) + SupersededEnd(ev, b.superseded, card.ty) + b.events;
      assert Ack(t, ev, launch).events == [ev] + evs;
      FoldSplit(view, [ev], evs, knows);
    } else {
      assert Times([], key) == 0 by { NoTimes(key); }
    }
  }

  lemma NoTimes(key: string)
    ensures Times([], key) == 0
  {
  }

  lemma AllWorkingShown(t: Table, view: set<string>)
    requires Shows(view, Some(t))
    ensures forall j | 0 <= j < |t.cards| && t.cards[j].working :: t.cards[j].agent in view
  {
    forall j | 0 <= j < |t.cards| && t.cards[j].working ensures t.cards[j].agent in view {
      WorkingIsDrawn(t, j);
      assert DrawnOf(Some(t), t.cards[j].agent) > 0;
    }
  }

  lemma BindKeepsCard(t: Table, k: nat, call: string, ev: Event)
    requires k < |t.cards|
    ensures var c := Bind(t, k, call, ev).table.cards[k]; c.agent == t.cards[k].agent && c.working == t.cards[k].working
  {
  }

  lemma NativeStartView(t: Table, ev: Event, n: Names, view: set<string>, knows: bool, key: string)
    requires Good(Some(t), n) && Shows(view, Some(t)) && "" !in view
    requires ev.signal == Some(Native) && ev.key in n.agents
    ensures var r := NativeStart(t, ev);
            key in Fold(view, r.events, knows) <==> (key in view || key == ev.key) && Times(r.released, key) == 0
  {
    var k := CardAt(t.cards, ev.key);
    if k < |t.cards| {
      StartThenEnd(view, ev, t.cards[k].(working := true), "", true, None, knows, key);
    } else {
      OpenedNamed(t, ev, n);
      OpenedCounts(t, ev, key);
      AllWorkingShown(t, view);
      var o := Opened(t, ev);
      OpenedDistinct(t, ev);
      var last := |o.cards| - 1;
      forall j | 0 <= j < |o.cards| && j != last && o.cards[j].working ensures o.cards[j].agent in view {
        assert o.cards[j] in o.cards && o.cards[j] != o.cards[last];
      }
      if Hinted(t, ev.key) != "" {
        BindView(o, last, Hinted(t, ev.key), ev, n, view, true, knows, key);
      } else {
        BindNextView(o, last, ev, n, view, knows, key);
      }
    }
  }

  /** The end of a card, re-keyed onto it, when no pairing is corrected. */
  lemma PlainCardEndView(t: Table, ev: Event, n: Names, view: set<string>, knows: bool, key: string)
    requires Good(Some(t), n) && Shows(view, Some(t)) && "" !in view
    requires ev.kind == SubagentEnd && Ended(t, ev) < |t.cards| && !Mispaired(t, ev)
    ensures var r := ToolEnd(Some(t), ev);
            key in Fold(view, r.events, knows) <==> key in view && Times(r.released, key) == 0
  {
    var k := Ended(t, ev);
    var card := t.cards[k];
    var r := ToolEnd(Some(t), ev);
    CardNotShown(t, n, k, view);
    assert card in t.cards;
    assert r.events == [ev.(key := card.agent)];
    assert r.released == if card.working then [card.agent] else [];
    assert Fold(view, r.events, knows) == view - {card.agent};
  }

  lemma {:induction false} CorrectingEndShape(t: Table, ev: Event)
    requires Ended(t, ev) < |t.cards| && Mispaired(t, ev)
    ensures var k := Ended(t, ev);
            var b := Bind(t, k, ev.key, ev);
            var card := b.table.cards[k];
            var r := ToolEnd(Some(t), ev);
            && card.agent == t.cards[k].agent && card.working == t.cards[k].working
            && r.events == [ev.(key := card.agent)] + (([] + SupersededEnd(ev, b.superseded, card.ty)) + b.events)
            && r.released == b.released + (if card.working then [card.agent] else [])
  {
    var k := Ended(t, ev);
    BindKeepsCard(t, k, ev.key, ev);
    EndOrder(t, k, ev.key, ev);
    var b := Bind(t, k, ev.key, ev);
    var first, last := [ev.(key := t.cards[k].agent)], SupersededEnd(ev, b.superseded, b.table.cards[k].ty);
    assert first + b.events + last == first + (b.events + last);
  }

  /** The end of a card that first gets its own call from elsewhere. */
  lemma CorrectingEndView(t: Table, ev: Event, n: Names, view: set<string>, knows: bool, key: string)
    requires Good(Some(t), n) && Shows(view, Some(t)) && "" !in view
    requires ev.kind == SubagentEnd && ev.key in n.calls && Ended(t, ev) < |t.cards| && Mispaired(t, ev)
    ensures var r := ToolEnd(Some(t), ev);
            key in Fold(view, r.events, knows) <==> key in view && Times(r.released, key) == 0
  {
    var k := Ended(t, ev);
    var agent := t.cards[k].agent;
    CorrectingEndShape(t, ev);
    CardNotShown(t, n, k, view);
    assert t.cards[k] in t.cards;
    MidView(t, n, k, view);
    BindView(t, k, ev.key, ev, n, view - {agent}, false, knows, key);
    var b := Bind(t, k, ev.key, ev);
    var card := b.table.cards[k];
    var evs := ([] + SupersededEnd(ev, b.superseded, card.ty)) + b.events;
    FoldSplit(view, [ev.(key := agent)], evs, knows);
    assert Fold(view, [ev.(key := agent)], knows) == view - {agent};
    TimesSplit(b.released, if card.working then [agent] else [], key);
  }

  lemma MidView(t: Table, n: Names, k: nat, view: set<string>)
    requires Good(Some(t), n) && Shows(view, Some(t)) && k < |t.cards|
    ensures forall j | 0 <= j < |t.cards| && j != k && t.cards[j].working :: t.cards[j].agent in view - {t.cards[k].agent}
  {
    AllWorkingShown(t, view);
    DistinctFromCounts(t.cards);
  }

  lemma ToolEndView(t: Table, ev: Event, n: Names, view: set<string>, knows: bool, key: string)
    requires Good(Some(t), n) && Shows(view, Some(t)) && "" !in view
    requires ev.kind == SubagentEnd && ev.key in n.calls
    ensures var r := ToolEnd(Some(t), ev);
            key in Fold(view, r.events, knows) <==> key in view && Times(r.released, key) == 0 && !PassedEnd(t, ev, key)
  {
    if Ended(t, ev) < |t.cards| {
      if Mispaired(t, ev) { CorrectingEndView(t, ev, n, view, knows, key); }
      else { PlainCardEndView(t, ev, n, view, knows, key); }
    } else {
      QueueEndView(t, ev, n, view, knows, key);
    }
  }

  /** The end of a call that is waiting, or of one the table does not know. */
  lemma QueueEndView(t: Table, ev: Event, n: Names, view: set<string>, knows: bool, key: string)
    requires Good(Some(t), n) && Shows(view, Some(t)) && ev.kind == SubagentEnd && ev.key in n.calls
    requires Ended(t, ev) == |t.cards|
    ensures var r := ToolEnd(Some(t), ev);
            key in Fold(view, r.events, knows) <==> key in view && Times(r.released, key) == 0 && !PassedEnd(t, ev, key)
  {
    var i := WaitingAt(t.pending, ev.key);
    var r := ToolEnd(Some(t), ev);
    DrawnOnce(t, n, ev.key);
    assert PlacesOf(Some(t), ev.key) <= 1;
    ShownAreWaiting(t.pending, ev.key);
    WaitingIffFound(t.pending, ev.key);
    assert ev.key in view <==> DrawnOf(Some(t), ev.key) > 0;
    if i < |t.pending| {
      PendingAround(t.pending, i, ev.key);
      ShownAreWaiting(Without(t.pending, i), ev.key);
      if t.pending[i].shown { assert Fold(view, r.events, knows) == view - {ev.key}; }
    } else {
      assert Fold(view, r.events, knows) == view - {ev.key} == view;
    }
  }

  /** The order of a pairing's own events and the superseded end does not matter: one is empty. */
  lemma EndOrder(t: Table, k: nat, call: string, ev: Event)
    requires k < |t.cards|
    ensures var b := Bind(t, k, call, ev);
            var e := SupersededEnd(ev, b.superseded, b.table.cards[k].ty);
            b.events + e == ([] + e) + b.events
  {
  }

  /** An idle card's key is not on screen. */
  lemma CardNotShown(t: Table, n: Names, k: nat, view: set<string>)
    requires Good(Some(t), n) && Shows(view, Some(t)) && k < |t.cards|
    ensures t.cards[k].agent in view <==> t.cards[k].working
  {
    var agent := t.cards[k].agent;
    if t.cards[k].working { WorkingIsDrawn(t, k); }
    else {
      DrawnOnce(t, n, agent);
      CardsAround(t.cards, k, agent);
      WorkingAreAgents(Without(t.cards, k), agent);
    }
    assert agent in view <==> DrawnOf(Some(t), agent) > 0;
  }

  lemma NativeEndView(t: Table, ev: Event, n: Names, view: set<string>, knows: bool, key: string)
    requires Good(Some(t), n) && Shows(view, Some(t)) && "" !in view && ev.kind == SubagentEnd
    ensures var r := NativeEnd(Some(t), ev);
            key in Fold(view, r.events, knows) <==> key in view && Times(r.released, key) == 0
  {
    var k := CardAt(t.cards, ev.key);
    var r := NativeEnd(Some(t), ev);
    if k < |t.cards| && r.events != [] {
      CardNotShown(t, n, k, view);
      assert t.cards[k] in t.cards;
      assert Fold(view, r.events, knows) == view - {ev.key};
    }
  }

  lemma {:induction false} CardEndsView(ev: Event, cards: seq<Card>, view: set<string>, knows: bool, key: string)
    requires forall c | c in cards :: c.agent != ""
    ensures key in Fold(view, CardEnds(ev, cards), knows) <==> key in view && Times(CardKeys(cards), key) == 0
    decreases cards
  {
    if cards != [] { CardEndsView(ev, cards[1..], view - {cards[0].agent}, knows, key); }
  }

  lemma {:induction false} CallEndsView(ev: Event, pending: seq<Pending>, view: set<string>, knows: bool, key: string)
    requires forall p | p in pending :: p.call != ""
    ensures key in Fold(view, CallEnds(ev, pending), knows) <==> key in view && Times(ShownCalls(pending), key) == 0
    decreases pending
  {
    if pending != [] {
      var p := pending[0];
      var first := if p.shown then [EndEvent(ev, p.call, p.ty, Tool)] else [];
      FoldSplit(view, first, CallEnds(ev, pending[1..]), knows);
      TimesSplit(Replaced(p), ShownCalls(pending[1..]), key);
      var mid := if p.shown then view - {p.call} else view;
      assert Fold(view, first, knows) == mid;
      CallEndsView(ev, pending[1..], mid, knows, key);
    }
  }

  lemma {:induction false} GoneAreCards(cards: seq<Card>, alive: set<string>)
    ensures forall c | c in Gone(cards, alive) :: c in cards
  {
    if cards != [] { GoneAreCards(cards[1..], alive); }
  }

  lemma TurnEndView(t: Table, ev: Event, n: Names, view: set<string>, knows: bool, key: string)
    requires Good(Some(t), n) && ev.kind == State
    ensures var r := TurnEnd(Some(t), ev);
            key in Fold(view, r.events, knows) <==> key in view && Times(r.released, key) == 0
  {
    hide Fold, Times, Consume, CardEnds, CallEnds, Gone, CardKeys, ShownCalls;
    var r := TurnEnd(Some(t), ev);
    FoldQuiet(view, ev, knows);
    if r.events != [ev] {
      var gone := if ev.background.Some? then Gone(t.cards, ev.background.value) else [];
      if ev.background.Some? { GoneAreCards(t.cards, ev.background.value); }
      var cardEnds, callEnds := CardEnds(ev, gone), CallEnds(ev, t.pending);
      assert r.events == [ev] + (cardEnds + callEnds);
      FoldSplit(view, [ev], cardEnds + callEnds, knows);
      FoldSplit(view, cardEnds, callEnds, knows);
      CardEndsView(ev, gone, view, knows, key);
      CallEndsView(ev, t.pending, Fold(view, cardEnds, knows), knows, key);
      TimesSplit(CardKeys(gone), ShownCalls(t.pending), key);
    } else {
      TurnEndQuiet(t, ev, key);
    }
  }

  /** A turn end that emits nothing releases nothing. */
  lemma TurnEndQuiet(t: Table, ev: Event, key: string)
    requires TurnEnd(Some(t), ev).events == [ev]
    ensures Times(TurnEnd(Some(t), ev).released, key) == 0
  {
    var gone := if ev.background.Some? then Gone(t.cards, ev.background.value) else [];
    assert t.native && !(ev.sessionId != "" && t.session != ev.sessionId) ==> CardEnds(ev, gone) + CallEnds(ev, t.pending) == [] by {
      assert TurnEnd(Some(t), ev).events == [ev] ==> |TurnEnd(Some(t), ev).events| == 1;
    }
    CallEndsMatch(ev, t.pending);
  }

  lemma {:induction false} CallEndsMatch(ev: Event, pending: seq<Pending>)
    ensures |CallEnds(ev, pending)| == |ShownCalls(pending)|
  {
    if pending != [] { CallEndsMatch(ev, pending[1..]); }
  }

  /** How often this event silently drops `key` because a bounded table is full. */
  function Dropped(st: Option<Table>, ev: Event, key: string): nat {
    if ev.kind == SubagentStart then Overflow(Current(st, ev), ev, key) else 0
  }

  /**
   * The bounds bite on something drawn: a full queue whose oldest call has a card on screen, or a
   * new child in a full table whose cards all work.
   */
  predicate DropsDrawn(st: Option<Table>, ev: Event) {
    var t := Current(st, ev);
    ev.kind == SubagentStart &&
    if ev.signal == Some(Native) then
      CardAt(t.cards, ev.key) == |t.cards| && |t.cards| >= CARDS_MAX && forall i | 0 <= i < |t.cards| :: t.cards[i].working
    else |t.pending| >= PENDING_MAX && t.pending[0].shown
  }

  lemma CurrentGood(st: Option<Table>, ev: Event, n: Names)
    requires Good(st, n) && Proper(st, ev, n)
    ensures Good(Some(Current(st, ev)), n)
    ensures forall key :: Drawn(Current(st, ev), key) == DrawnOf(st, key)
  {
    var t := Current(st, ev);
    forall call ensures PlacesOf(Some(t), call) <= 1 {
      assert PlacesOf(st, call) <= 1;
    }
  }

  lemma ToolStartView(t: Table, ev: Event, view: set<string>, knows: bool, key: string)
    requires Shows(view, Some(t)) && "" !in view && ev.key != "" && ev.supersedes == "" && ev.kind == SubagentStart
    ensures key in Fold(view, ToolStart(t, ev).events, knows) <==> key in view || (!t.native && key == ev.key)
  {
  }

  lemma StartStepView(st: Option<Table>, ev: Event, n: Names, view: set<string>, knows: bool, key: string)
    requires Good(st, n) && Proper(st, ev, n) && Shows(view, st) && "" !in view && ev.kind == SubagentStart
    ensures key in Fold(view, Apply(st, ev).events, knows)
            <==> DrawnOf(Apply(st, ev).table, key) + Dropped(st, ev, key) > 0
    ensures DrawnOf(Apply(st, ev).table, key) + Dropped(st, ev, key) <= 1
  {
    var t := Current(st, ev);
    CurrentGood(st, ev, n);
    DrawnOnce(t, n, key);
    assert key in view <==> Drawn(t, key) > 0 by { assert key in view <==> DrawnOf(st, key) > 0; }
    assert Shows(view, Some(t));
    if ev.signal == Some(Native) {
      NativeStartCounts(t, ev, key);
      NativeStartView(t, ev, n, view, knows, key);
      NotWorkingNotDrawn(t, n, ev.key);
      ReleasedAreCalls(t, ev, n);
    } else {
      ToolStartCounts(t, ev, key);
      ToolStartView(t, ev, view, knows, key);
      assert PlacesOf(st, ev.key) == 0;
      ShownAreWaiting(t.pending, ev.key);
      DrawnOnce(t, n, ev.key);
    }
  }

  lemma NotWorkingNotDrawn(t: Table, n: Names, agent: string)
    requires Good(Some(t), n) && agent in n.agents
    ensures Drawn(t, agent) == One(Working(t, agent))
  {
    DrawnOnce(t, n, agent);
    AgentIffFound(t.cards, agent);
    WorkingAreAgents(t.cards, agent);
    var k := CardAt(t.cards, agent);
    if k < |t.cards| {
      CardsAround(t.cards, k, agent);
      WorkingAreAgents(Without(t.cards, k), agent);
    }
  }

  /** A native start never releases its own key: what it replaces are tool calls. */
  lemma {:induction false} ReleasedAreCalls(t: Table, ev: Event, n: Names)
    requires Good(Some(t), n) && ev.signal == Some(Native) && ev.key in n.agents && ev.kind == SubagentStart
    ensures Times(NativeStart(t, ev).released, ev.key) == 0
  {
    NativeStartCounts(t, ev, ev.key);
    NotWorkingNotDrawn(t, n, ev.key);
    var k := CardAt(t.cards, ev.key);
    if k == |t.cards| {
      OpenedNamed(t, ev, n);
      var o := Opened(t, ev);
      var last := |o.cards| - 1;
      if Hinted(t, ev.key) != "" { BindReleases(o, last, Hinted(t, ev.key), ev, n, ev.key); }
    }
  }

  lemma {:induction false} BindReleases(t: Table, k: nat, call: string, ev: Event, n: Names, key: string)
    requires n.Valid() && Named(t, n) && k < |t.cards| && key in n.agents
    ensures Times(Bind(t, k, call, ev).released, key) == 0
  {
    var o := OtherHolder(t.cards, call, t.cards[k].agent);
    if o < |t.cards| {
      var mine := Take(t.cards[k], Pending(call, t.cards[o].ty, t.cards[o].task, false));
      var bare := t.cards[o].(call := None, task := None);
      var moved := t.(pending := GivenBack(t.cards[k], call) + t.pending, cards := t.cards[k := mine][o := bare]);
      assert forall p | p in moved.pending :: p.call in n.calls;
    }
  }

  lemma OtherStepView(st: Option<Table>, ev: Event, n: Names, view: set<string>, knows: bool, key: string)
    requires Good(st, n) && Proper(st, ev, n) && Shows(view, st) && "" !in view && ev.kind != SubagentStart
    ensures key in Fold(view, Apply(st, ev).events, knows) <==> DrawnOf(Apply(st, ev).table, key) > 0
  {
    var t := Current(st, ev);
    CurrentGood(st, ev, n);
    DistinctFromCounts(t.cards);
    DrawnOnce(t, n, key);
    assert key in view <==> DrawnOf(st, key) > 0;
    if ev.kind == State && ev.launch.Some? {
      assert Shows(view, Some(t));
      AckView(t, ev, ev.launch.value, n, view, knows, key);
      AckCounts(t, ev, ev.launch.value, key);
    } else if ev.kind == State && st.Some? && ev.done && !ev.idle {
      DrawnOnce(st.value, n, key);
      TurnEndView(st.value, ev, n, view, knows, key);
      TurnEndCounts(st.value, ev, key);
    } else if ev.kind == SubagentEnd && st.Some? {
      DrawnOnce(st.value, n, key);
      DistinctFromCounts(st.value.cards);
      if ev.signal == Some(Native) {
        NativeEndView(st.value, ev, n, view, knows, key);
        NativeEndCounts(st.value, ev, key);
      } else {
        ToolEndView(st.value, ev, n, view, knows, key);
        ToolEndCounts(st.value, ev, key);
      }
    } else {
      PassThrough(st, ev, view, knows, key);
    }
  }

  lemma PassThrough(st: Option<Table>, ev: Event, view: set<string>, knows: bool, key: string)
    requires Shows(view, st) && ev.kind != SubagentStart && (ev.kind == SubagentEnd ==> st.None?)
    requires !(ev.kind == Session && ev.sessionEnd) && !(ev.kind == State && ev.launch.Some?)
    requires ev.kind == State && ev.done && !ev.idle ==> st.None?
    ensures key in Fold(view, Apply(st, ev).events, knows) <==> DrawnOf(Apply(st, ev).table, key) > 0
  {
  }

  /**
   * One event, whatever it is: after the events the tracker hands on, the view is exact again unless
   * a full table just dropped something drawn, and then it is not.
   */
  lemma StepView(st: Option<Table>, ev: Event, n: Names, view: set<string>, knows: bool)
    requires Good(st, n) && Proper(st, ev, n) && Shows(view, st)
    ensures Shows(Fold(view, Apply(st, ev).events, knows), Apply(st, ev).table) <==> !DropsDrawn(st, ev)
  {
    NoEmptyKey(st, n, view);
    var view' := Fold(view, Apply(st, ev).events, knows);
    var st' := Apply(st, ev).table;
    if ev.kind == SubagentStart {
      forall key
        ensures key in view' <==> DrawnOf(st', key) + Dropped(st, ev, key) > 0
        ensures DrawnOf(st', key) + Dropped(st, ev, key) <= 1
      {
        StartStepView(st, ev, n, view, knows, key);
      }
      if DropsDrawn(st, ev) {
        var t := Current(st, ev);
        var lost := if ev.signal == Some(Native) then t.cards[Victim(t.cards)].agent else t.pending[0].call;
        assert Dropped(st, ev, lost) == 1;
        assert lost in view' && DrawnOf(st', lost) == 0;
      } else {
        forall key ensures key in view' <==> DrawnOf(st', key) > 0 {
          assert Dropped(st, ev, key) == 0;
        }
      }
    } else {
      forall key ensures key in view' <==> DrawnOf(st', key) > 0 {
        OtherStepView(st, ev, n, view, knows, key);
      }
    }
  }

  lemma NoEmptyKey(st: Option<Table>, n: Names, view: set<string>)
    requires Good(st, n) && Shows(view, st)
    ensures "" !in view
  {
    assert "" in view <==> DrawnOf(st, "") > 0;
    if st.Some? { DrawnOnce(st.value, n, ""); }
  }

  lemma StepGood(st: Option<Table>, ev: Event, n: Names)
    requires Good(st, n) && Proper(st, ev, n)
    ensures Good(Apply(st, ev).table, n)
  {
    StepKeepsSound(st, ev);
    StepKeepsSinglePlace(st, ev);
    StepNamed(st, ev, n);
  }

  // ----- whole runs -----

  /** A run of one session in which no full table drops anything drawn. */
  ghost predicate ProperRun(evs: seq<Event>, n: Names) {
    evs == [] ||
    var before := evs[..|evs| - 1];
    && ProperRun(before, n)
    && Proper(Run(None, before), evs[|evs| - 1], n) && !DropsDrawn(Run(None, before), evs[|evs| - 1])
  }

  /** The screen after a run: every batch of emitted events folded in order. */
  function Screen(evs: seq<Event>, knows: bool): set<string> {
    if evs == [] then {}
    else
      var before := evs[..|evs| - 1];
      Fold(Screen(before, knows), Apply(Run(None, before), evs[|evs| - 1]).events, knows)
  }

  /** After every event of every such run, either consumer shows exactly what is drawn. */
  lemma {:induction false} ScreenIsExact(evs: seq<Event>, n: Names, knows: bool)
    requires n.Valid() && ProperRun(evs, n)
    ensures Shows(Screen(evs, knows), Run(None, evs)) && Good(Run(None, evs), n)
  {
    if evs != [] {
      var before := evs[..|evs| - 1];
      ScreenIsExact(before, n, knows);
      StepView(Run(None, before), evs[|evs| - 1], n, Screen(before, knows), knows);
      StepGood(Run(None, before), evs[|evs| - 1], n);
    }
  }
}
