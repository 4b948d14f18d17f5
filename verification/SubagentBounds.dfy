/**
 * What every run of the card tracker keeps: table bounds, one card per child,
 * one place per tool call, a bounded load, and at most one release per opening.
 */
module SubagentBounds {
  import opened Options
  import opened SubagentRules
  import opened SubagentLedger

  // ----- eviction -----

  /** The card eviction takes from a table one over its bound. */
  function Victim(cards: seq<Card>): (i: nat)
    requires |cards| > 0
    ensures i < |cards|
    ensures cards[i].working ==> i == 0 && forall j | 0 <= j < |cards| :: cards[j].working
    ensures !cards[i].working ==> forall j | 0 <= j < i :: cards[j].working
  {
    var idle := First(cards, (c: Card) => !c.working);
    if idle < |cards| then idle else 0
  }

  lemma {:induction false} EvictFromIsVictim(cards: seq<Card>, i: nat)
    requires |cards| == CARDS_MAX + 1 && i <= |cards|
    requires forall j | 0 <= j < i :: cards[j].working
    ensures EvictFrom(cards, i) == Without(cards, Victim(cards))
    decreases |cards| - i
  {
    if i == |cards| {
      assert cards[Victim(cards)].working;
    } else if cards[i].working {
      EvictFromIsVictim(cards, i + 1);
    } else {
      assert Victim(cards) == i;
    }
  }

  // ----- what each rule does to the counts of one key -----

  /** How often one event drops `key` from the drawn keys because a bounded table is full. */
  function Overflow(t: Table, ev: Event, key: string): nat {
    if ev.signal == Some(Native) then
      if CardAt(t.cards, ev.key) == |t.cards| && |t.cards| >= CARDS_MAX
      then One(DrawnCard(t.cards[Victim(t.cards)], key)) else 0
    else if |t.pending| >= PENDING_MAX then One(DrawnCall(t.pending[0], key)) else 0
  }

  predicate Working(t: Table, agent: string) {
    CardAt(t.cards, agent) < |t.cards| && t.cards[CardAt(t.cards, agent)].working
  }

  lemma ToolStartCounts(t: Table, ev: Event, key: string)
    requires ev.signal != Some(Native)
    ensures var r := ToolStart(t, ev);
            && Drawn(r.table.value, key) + Overflow(t, ev, key) == Drawn(t, key) + One(!t.native && key == ev.key)
            && Places(r.table.value, key) <= Places(t, key) + One(key == ev.key)
            && (|t.pending| < PENDING_MAX ==> Places(r.table.value, key) == Places(t, key) + One(key == ev.key))
            && r.table.value.cards == t.cards && r.table.value.hints == t.hints
            && Load(r.table.value) == Load(t) + One(|t.pending| < PENDING_MAX)
  {
    var p := Pending(ev.key, ev.ty, ev.task, !t.native);
    PendingSplit(t.pending, [p], key);
  }

  /** The table after a new card is opened, before it is paired. */
  lemma OpenedCounts(t: Table, ev: Event, key: string)
    requires ev.signal == Some(Native) && CardAt(t.cards, ev.key) == |t.cards| && |t.cards| <= CARDS_MAX
    ensures var o := Opened(t, ev);
            && o.pending == t.pending && |o.cards| <= CARDS_MAX
            && Drawn(o, key) + Overflow(t, ev, key) == Drawn(t, key) + One(key == ev.key)
            && Places(o, key) <= Places(t, key)
            && (|t.cards| < CARDS_MAX ==> Places(o, key) == Places(t, key))
            && Load(o) <= Load(t)
            && AgentCount(o.cards, key) <= AgentCount(t.cards, key) + One(key == ev.key)
            && (|t.cards| < CARDS_MAX ==> o.cards == t.cards + [Card(ev.key, None, ev.ty, None, true)])
            && (forall c | c in o.cards :: c in t.cards || c == Card(ev.key, None, ev.ty, None, true))
  {
    var card := Card(ev.key, None, ev.ty, None, true);
    var cards := t.cards + [card];
    CardsSplit(t.cards, [card], key);
    if |cards| > CARDS_MAX {
      EvictFromIsVictim(cards, 0);
      var v := Victim(cards);
      CardsAround(cards, v, key);
      VictimOfPushed(t.cards, card);
      assert forall c | c in Without(cards, v) :: c in cards;
    }
  }

  lemma VictimOfPushed(cards: seq<Card>, card: Card)
    requires |cards| > 0 && card.working
    ensures Victim(cards + [card]) == Victim(cards)
  {
    var all := cards + [card];
    assert forall j | 0 <= j < |cards| :: all[j] == cards[j];
  }

  lemma AckCounts(t: Table, ev: Event, launch: Launch, key: string)
    requires Distinct(t.cards)
    ensures var r := Ack(t, ev, launch).table.value;
            && Drawn(t, key) == Drawn(r, key) + Times(Ack(t, ev, launch).released, key)
            && Places(t, key) <= Places(r, key) <= Places(t, key) + One(key == launch.call && Places(t, launch.call) == 0)
            && Load(r) <= Load(t) + One(Places(t, launch.call) == 0)
            && AgentCount(r.cards, key) == AgentCount(t.cards, key) && |r.cards| == |t.cards|
  {
    var k := CardAt(t.cards, launch.agent);
    if k < |t.cards| && t.cards[k].call != Some(launch.call) {
      BindConserves(t, k, launch.call, ev, key);
    }
  }

  /** The call a new card is told to take by an earlier acknowledgement, or `""`. */
  function Hinted(t: Table, agent: string): string {
    var i := HintAt(t.hints, agent);
    if i < |t.hints| then t.hints[i].call else ""
  }

  lemma NativeStartCounts(t: Table, ev: Event, key: string)
    requires ev.signal == Some(Native) && |t.cards| <= CARDS_MAX
    requires forall a :: AgentCount(t.cards, a) <= 1
    ensures var r := NativeStart(t, ev);
            && Drawn(r.table.value, key) + Times(r.released, key) + Overflow(t, ev, key)
               == Drawn(t, key) + One(key == ev.key && !Working(t, ev.key))
            && Places(r.table.value, key) <= Places(t, key) + One(key == Hinted(t, ev.key) && Places(t, key) == 0)
            && (|t.cards| < CARDS_MAX ==> Places(t, key) <= Places(r.table.value, key))
            && Load(r.table.value) <= Load(t) + One(Hinted(t, ev.key) != "" && Places(Opened(t, ev), Hinted(t, ev.key)) == 0)
            && AgentCount(r.table.value.cards, key) <= 1
            && (AgentCount(r.table.value.cards, key) > AgentCount(t.cards, key) ==> key == ev.key)
            && |r.table.value.cards| <= CARDS_MAX
  {
    hide WaitingCount, ShownCount, HeldCount, WorkingCount, HoldingCards, AgentCount, Opened, Bind, BindNext, Times;
    if CardAt(t.cards, ev.key) < |t.cards| {
      ResumeCounts(t, ev, key);
    } else {
      AgentIffFound(t.cards, ev.key);
      OpenedDistinct(t, ev);
      OpenedCounts(t, ev, key);
      EvictedHint(t, ev, key);
      TakenCounts(Opened(t, ev), Hinted(t, ev.key), ev, key);
    }
  }

  /** A child started again keeps every call and card where it was. */
  lemma ResumeCounts(t: Table, ev: Event, key: string)
    requires ev.signal == Some(Native) && CardAt(t.cards, ev.key) < |t.cards|
    ensures var r := NativeStart(t, ev);
            && Drawn(r.table.value, key) + Times(r.released, key) == Drawn(t, key) + One(key == ev.key && !Working(t, ev.key))
            && Places(r.table.value, key) == Places(t, key) && Load(r.table.value) == Load(t)
            && AgentCount(r.table.value.cards, key) == AgentCount(t.cards, key)
            && |r.table.value.cards| == |t.cards| && Overflow(t, ev, key) == 0
  {
    var k := CardAt(t.cards, ev.key);
    CardSet(t.cards, k, t.cards[k].(working := true), key);
  }

  /** The last card takes the hinted call, or the next one. */
  lemma TakenCounts(o: Table, hinted: string, ev: Event, key: string)
    requires o.cards != [] && Distinct(o.cards) && o.cards[|o.cards| - 1].call.None?
    ensures var r := if hinted != "" then Bind(o, |o.cards| - 1, hinted, ev) else BindNext(o, |o.cards| - 1);
            && Places(r.table, key) == Places(o, key) + One(hinted != "" && key == hinted && Places(o, key) == 0)
            && Load(r.table) == Load(o) + One(hinted != "" && Places(o, hinted) == 0)
            && Drawn(o, key) == Drawn(r.table, key) + Times(r.released, key)
            && AgentCount(r.table.cards, key) == AgentCount(o.cards, key)
  {
    hide Places, Load, Drawn, AgentCount, Bind, BindNext, Times;
    if hinted != "" { BindConserves(o, |o.cards| - 1, hinted, ev, key); } else { BindNextConserves(o, |o.cards| - 1, key); }
  }

  /** Counting a hinted call as new after an eviction never exceeds what eviction freed. */
  lemma EvictedHint(t: Table, ev: Event, key: string)
    requires ev.signal == Some(Native) && CardAt(t.cards, ev.key) == |t.cards| && |t.cards| <= CARDS_MAX
    ensures var o := Opened(t, ev);
            Places(o, key) + One(key == Hinted(t, ev.key) && Places(o, key) == 0)
            <= Places(t, key) + One(key == Hinted(t, ev.key) && Places(t, key) == 0)
  {
    OpenedCounts(t, ev, key);
  }

  lemma DistinctFromCounts(cards: seq<Card>)
    requires forall a :: AgentCount(cards, a) <= 1
    ensures Distinct(cards)
  {
    forall i, j | 0 <= i < j < |cards| ensures cards[i].agent != cards[j].agent {
      if cards[i].agent == cards[j].agent { TwoCards(cards, i, j); }
    }
  }

  lemma OpenedDistinct(t: Table, ev: Event)
    requires ev.signal == Some(Native) && CardAt(t.cards, ev.key) == |t.cards| && |t.cards| <= CARDS_MAX
    requires forall a :: AgentCount(t.cards, a) <= 1
    ensures Distinct(Opened(t, ev).cards)
    ensures forall a :: AgentCount(Opened(t, ev).cards, a) <= 1
  {
    AgentIffFound(t.cards, ev.key);
    forall a ensures AgentCount(Opened(t, ev).cards, a) <= 1 {
      OpenedCounts(t, ev, a);
    }
    DistinctFromCounts(Opened(t, ev).cards);
  }

  lemma NativeEndCounts(t: Table, ev: Event, key: string)
    ensures var r := NativeEnd(Some(t), ev);
            && Drawn(t, key) == Drawn(r.table.value, key) + Times(r.released, key)
            && Places(r.table.value, key) == Places(t, key) && Load(r.table.value) == Load(t)
            && AgentCount(r.table.value.cards, key) == AgentCount(t.cards, key) && |r.table.value.cards| == |t.cards|
  {
    var k := CardAt(t.cards, ev.key);
    if k < |t.cards| { CardSet(t.cards, k, t.cards[k].(working := false), key); }
  }

  /** A tool end passed through for a waiting call drops its key without a release. */
  predicate PassedEnd(t: Table, ev: Event, key: string) {
    && Ended(t, ev) == |t.cards| && key == ev.key
    && WaitingAt(t.pending, ev.key) < |t.pending| && t.pending[WaitingAt(t.pending, ev.key)].shown
  }

  lemma ToolEndCounts(t: Table, ev: Event, key: string)
    requires Distinct(t.cards)
    ensures var r := ToolEnd(Some(t), ev);
            && Drawn(t, key) == Drawn(r.table.value, key) + Times(r.released, key) + One(PassedEnd(t, ev, key))
            && Places(r.table.value, key) <= Places(t, key) + One(key == ev.key && Places(t, key) == 0)
            && (Places(r.table.value, key) < Places(t, key) ==> key == ev.key && Ended(t, ev) == |t.cards|)
            && Load(r.table.value) <= Load(t) + One(Mispaired(t, ev) && Places(t, ev.key) == 0)
            && AgentCount(r.table.value.cards, key) == AgentCount(t.cards, key) && |r.table.value.cards| == |t.cards|
  {
    if Ended(t, ev) < |t.cards| {
      CardEndCounts(t, ev, key);
    } else {
      var i := WaitingAt(t.pending, ev.key);
      if i < |t.pending| { PendingAround(t.pending, i, key); }
    }
  }

  lemma CardEndCounts(t: Table, ev: Event, key: string)
    requires Distinct(t.cards) && Ended(t, ev) < |t.cards|
    ensures var r := ToolEnd(Some(t), ev);
            && Drawn(t, key) == Drawn(r.table.value, key) + Times(r.released, key)
            && t.hints == r.table.value.hints
            && Places(r.table.value, key) == Places(t, key) + One(Mispaired(t, ev) && key == ev.key && Places(t, key) == 0)
            && Load(r.table.value) == Load(t) + One(Mispaired(t, ev) && Places(t, ev.key) == 0)
            && AgentCount(r.table.value.cards, key) == AgentCount(t.cards, key) && |r.table.value.cards| == |t.cards|
  {
    hide Bind, Distinct, WaitingCount, ShownCount, HeldCount, WorkingCount, AgentCount, HoldingCards;
    var k := Ended(t, ev);
    if Mispaired(t, ev) { BindConserves(t, k, ev.key, ev, key); }
    var b := if Mispaired(t, ev) then Bind(t, k, ev.key, ev) else Pairing(t, "", [], []);
    var card := b.table.cards[k];
    CardSet(b.table.cards, k, card.(working := false), key);
    TimesSplit(b.released, if card.working then [card.agent] else [], key);
    OneTime(card.agent, key);
  }

  lemma OneTime(a: string, key: string)
    ensures Times([a], key) == One(a == key) && Times([], key) == 0
  {
  }

  lemma {:induction false} SettledCounts(cards: seq<Card>, alive: set<string>, key: string)
    ensures WorkingCount(cards, key) == WorkingCount(Settled(cards, alive), key) + Times(CardKeys(Gone(cards, alive)), key)
    ensures HeldCount(Settled(cards, alive), key) == HeldCount(cards, key)
    ensures AgentCount(Settled(cards, alive), key) == AgentCount(cards, key)
    ensures HoldingCards(Settled(cards, alive)) == HoldingCards(cards)
  {
    if cards != [] {
      SettledCounts(cards[1..], alive, key);
      var rest := Gone(cards[1..], alive);
      assert Settled(cards, alive)[1..] == Settled(cards[1..], alive);
      assert [] + rest == rest && ([cards[0]] + rest)[1..] == rest;
      assert ([cards[0].agent] + CardKeys(rest))[1..] == CardKeys(rest);
    }
  }

  lemma {:induction false} ShownReleased(pending: seq<Pending>, key: string)
    ensures Times(ShownCalls(pending), key) == ShownCount(pending, key)
  {
    if pending != [] {
      ShownReleased(pending[1..], key);
      TimesSplit(Replaced(pending[0]), ShownCalls(pending[1..]), key);
    }
  }

  lemma TurnEndCounts(t: Table, ev: Event, key: string)
    ensures var r := TurnEnd(Some(t), ev);
            && Drawn(t, key) == Drawn(r.table.value, key) + Times(r.released, key)
            && HeldCount(r.table.value.cards, key) == HeldCount(t.cards, key)
            && Places(r.table.value, key) <= Places(t, key) && Load(r.table.value) <= Load(t)
            && AgentCount(r.table.value.cards, key) == AgentCount(t.cards, key) && |r.table.value.cards| == |t.cards|
  {
    if t.native && !(ev.sessionId != "" && t.session != ev.sessionId) {
      ShownReleased(t.pending, key);
      var alive := if ev.background.Some? then ev.background.value else {};
      SettledCounts(t.cards, alive, key);
      TimesSplit(CardKeys(if ev.background.Some? then Gone(t.cards, alive) else []), ShownCalls(t.pending), key);
    }
  }

  // ----- what every run keeps -----

  /** One card per child, bounded tables, and hints only for children without a card. */
  ghost predicate Sound(st: Option<Table>) {
    st.Some? ==>
      var t := st.value;
      && (forall a :: AgentCount(t.cards, a) <= 1)
      && |t.cards| <= CARDS_MAX && |t.hints| <= HINTS_MAX
      && (forall i, j | 0 <= i < j < |t.hints| :: t.hints[i].agent != t.hints[j].agent)
      && (forall h | h in t.hints :: AgentCount(t.cards, h.agent) == 0)
  }

  lemma RememberKeeps(t: Table, agent: string, call: string)
    requires Sound(Some(t)) && CardAt(t.cards, agent) == |t.cards|
    ensures Sound(Some(t.(hints := Remember(t.hints, agent, call))))
  {
    AgentIffFound(t.cards, agent);
  }

  lemma ForgottenHint(hints: seq<Hint>, agent: string)
    requires forall i, j | 0 <= i < j < |hints| :: hints[i].agent != hints[j].agent
    requires HintAt(hints, agent) < |hints|
    ensures forall h | h in Without(hints, HintAt(hints, agent)) :: h.agent != agent && h in hints
  {
  }

  lemma SoundFrom(t: Table, t': Table)
    requires Sound(Some(t)) && t'.hints == t.hints && |t'.cards| <= CARDS_MAX
    requires forall a :: AgentCount(t'.cards, a) == AgentCount(t.cards, a)
    ensures Sound(Some(t'))
  {
  }

  lemma NativeStartHints(t: Table, ev: Event)
    ensures var r := NativeStart(t, ev).table.value;
            r.hints == if CardAt(t.cards, ev.key) < |t.cards| then t.hints else Opened(t, ev).hints
  {
  }

  /** The hints left once `agent` has its card are older hints, none of them for `agent`. */
  lemma HintsLeft(t: Table, ev: Event)
    requires ev.signal == Some(Native) && Sound(Some(t))
    ensures var r := NativeStart(t, ev).table.value;
            && |r.hints| <= HINTS_MAX
            && (forall i, j | 0 <= i < j < |r.hints| :: r.hints[i].agent != r.hints[j].agent)
            && (forall h | h in r.hints :: h in t.hints && h.agent != ev.key)
  {
    NativeStartHints(t, ev);
    AgentIffFound(t.cards, ev.key);
    var i := HintAt(t.hints, ev.key);
    if CardAt(t.cards, ev.key) == |t.cards| && i < |t.hints| {
      ForgottenHint(t.hints, ev.key);
    }
  }

  lemma NativeStartSound(t: Table, ev: Event)
    requires ev.signal == Some(Native) && Sound(Some(t))
    ensures Sound(NativeStart(t, ev).table)
  {
    HintsLeft(t, ev);
    ghost var r := NativeStart(t, ev).table.value;
    assert |r.cards| <= CARDS_MAX by { NativeStartCounts(t, ev, ev.key); }
    forall a ensures AgentCount(r.cards, a) <= 1 && (AgentCount(r.cards, a) > AgentCount(t.cards, a) ==> a == ev.key) {
      NativeStartCounts(t, ev, a);
    }
  }

  lemma CurrentSound(st: Option<Table>, ev: Event)
    requires Sound(st)
    ensures Sound(Some(Current(st, ev)))
  {
  }

  lemma AckSound(t: Table, ev: Event, launch: Launch)
    requires Sound(Some(t))
    ensures Sound(Ack(t, ev, launch).table)
  {
    if CardAt(t.cards, launch.agent) == |t.cards| {
      RememberKeeps(t, launch.agent, launch.call);
    } else {
      DistinctFromCounts(t.cards);
      var r := Ack(t, ev, launch).table.value;
      forall a ensures AgentCount(r.cards, a) == AgentCount(t.cards, a) {
        AckCounts(t, ev, launch, a);
      }
      AckCounts(t, ev, launch, "");
      SoundFrom(t, r);
    }
  }

  lemma EndSound(t: Table, ev: Event, r: Option<Table>)
    requires Sound(Some(t))
    requires r == TurnEnd(Some(t), ev).table || r == NativeEnd(Some(t), ev).table || r == ToolEnd(Some(t), ev).table
    ensures Sound(r)
  {
    DistinctFromCounts(t.cards);
    forall a ensures AgentCount(r.value.cards, a) == AgentCount(t.cards, a) {
      TurnEndCounts(t, ev, a);
      NativeEndCounts(t, ev, a);
      ToolEndCounts(t, ev, a);
    }
    TurnEndCounts(t, ev, "");
    NativeEndCounts(t, ev, "");
    ToolEndCounts(t, ev, "");
    SoundFrom(t, r.value);
  }

  /** No event, in any order, breaks the table's shape or its bounds. */
  lemma StepKeepsSound(st: Option<Table>, ev: Event)
    requires Sound(st)
    ensures Sound(Apply(st, ev).table)
  {
    var t := Current(st, ev);
    CurrentSound(st, ev);
    match ev.kind
    case State =>
      if ev.launch.Some? {
        AckSound(t, ev, ev.launch.value);
      } else if ev.done && !ev.idle && st.Some? {
        EndSound(st.value, ev, TurnEnd(st, ev).table);
      }
    case SubagentStart =>
      if ev.signal.Some? && ev.key != "" {
        if ev.signal == Some(Native) {
          NativeStartSound(t, ev);
        } else {
          ToolStartCounts(t, ev, "");
          SoundFrom(t, ToolStart(t, ev).table.value);
        }
      }
    case SubagentEnd =>
      if ev.signal.Some? && ev.key != "" && st.Some? {
        EndSound(st.value, ev, Apply(st, ev).table);
      }
    case _ =>
  }

  /** The tables after a run of events, oldest first. */
  function Run(st: Option<Table>, evs: seq<Event>): Option<Table> {
    if evs == [] then st
    else Apply(Run(st, evs[..|evs| - 1]), evs[|evs| - 1]).table
  }

  lemma {:induction false} RunKeepsSound(evs: seq<Event>)
    ensures Sound(Run(None, evs))
  {
    if evs != [] {
      RunKeepsSound(evs[..|evs| - 1]);
      StepKeepsSound(Run(None, evs[..|evs| - 1]), evs[|evs| - 1]);
    }
  }

  // ----- one place per tool call -----

  ghost predicate SinglePlace(st: Option<Table>) {
    forall call :: PlacesOf(st, call) <= 1
  }

  predicate IsToolStart(ev: Event) {
    ev.kind == SubagentStart && ev.signal.Some? && ev.signal != Some(Native) && ev.key != ""
  }

  /** A tool start's id is not in the table yet. */
  predicate FreshCall(st: Option<Table>, ev: Event) {
    IsToolStart(ev) ==> PlacesOf(st, ev.key) == 0
  }

  lemma PlacesStep(st: Option<Table>, ev: Event, call: string)
    requires Sound(st) && FreshCall(st, ev)
    ensures PlacesOf(Apply(st, ev).table, call) <= if PlacesOf(st, call) > 1 then PlacesOf(st, call) else 1
  {
    var t := Current(st, ev);
    if st.Some? { DistinctFromCounts(st.value.cards); }
    if ev.kind == Session && ev.sessionEnd {
    } else if ev.kind == State && ev.launch.Some? {
      AckCounts(t, ev, ev.launch.value, call);
    } else if ev.kind == State && ev.done && !ev.idle && st.Some? {
      TurnEndCounts(st.value, ev, call);
    } else if ev.kind == SubagentStart && ev.signal.Some? && ev.key != "" {
      if ev.signal == Some(Native) { NativeStartCounts(t, ev, call); } else { ToolStartCounts(t, ev, call); }
    } else if ev.kind == SubagentEnd && ev.signal.Some? && ev.key != "" && st.Some? {
      if ev.signal == Some(Native) { NativeEndCounts(st.value, ev, call); } else { ToolEndCounts(st.value, ev, call); }
    }
  }

  /** With fresh tool ids, a call is never in two places, whatever else arrives. */
  lemma StepKeepsSinglePlace(st: Option<Table>, ev: Event)
    requires Sound(st) && SinglePlace(st) && FreshCall(st, ev)
    ensures SinglePlace(Apply(st, ev).table)
  {
    forall call ensures PlacesOf(Apply(st, ev).table, call) <= 1 {
      PlacesStep(st, ev, call);
    }
  }

  // ----- the load -----

  function LoadOf(st: Option<Table>): nat {
    if st.None? then 0 else Load(st.value)
  }

  /** The call an event binds by name: an ack's, an exact end's, or a consumed hint's. */
  function Named(st: Option<Table>, ev: Event): Option<string> {
    var t := Current(st, ev);
    if ev.kind == State && ev.launch.Some? then
      if CardAt(t.cards, ev.launch.value.agent) < |t.cards| then Some(ev.launch.value.call) else None
    else if ev.kind == SubagentStart && ev.signal == Some(Native) then
      if CardAt(t.cards, ev.key) == |t.cards| && Hinted(t, ev.key) != "" then Some(Hinted(t, ev.key)) else None
    else if ev.kind == SubagentEnd && ev.signal.Some? && ev.signal != Some(Native) then
      if st.Some? && Mispaired(st.value, ev) then Some(ev.key) else None
    else None
  }

  /** The named call is still waiting or held (after the eviction a new card may cause). */
  predicate NamesKnownCall(st: Option<Table>, ev: Event) {
    var t := if ev.kind == SubagentEnd && st.Some? then st.value else Current(st, ev);
    Named(st, ev).Some? ==>
      Places(if ev.kind == SubagentStart then Opened(t, ev) else t, Named(st, ev).value) > 0
  }

  /** The queue is capped only where calls enter it, yet calls waiting or held stay bounded. */
  lemma StepKeepsLoad(st: Option<Table>, ev: Event)
    requires Sound(st) && LoadOf(st) <= PENDING_MAX + CARDS_MAX && NamesKnownCall(st, ev)
    ensures LoadOf(Apply(st, ev).table) <= PENDING_MAX + CARDS_MAX
  {
    hide Bind;
    var t := Current(st, ev);
    CurrentSound(st, ev);
    DistinctFromCounts(t.cards);
    if st.Some? { DistinctFromCounts(st.value.cards); }
    match ev.kind
    case State =>
      if ev.launch.Some? {
        assert Load(t) <= LoadOf(st);
        AckLoad(t, ev, ev.launch.value);
        hide Load;
      } else if st.Some? {
        TurnEndCounts(st.value, ev, "");
      }
    case SubagentStart =>
      if ev.signal.Some? && ev.key != "" {
        if ev.signal == Some(Native) {
          NativeStartCounts(t, ev, "");
          HoldingAtMost(t.cards);
          if CardAt(t.cards, ev.key) < |t.cards| { KnownCardLoad(t, ev); }
        } else {
          ToolStartCounts(t, ev, "");
          HoldingAtMost(t.cards);
        }
      }
    case SubagentEnd =>
      if st.Some? {
        NativeEndCounts(st.value, ev, "");
        ToolEndCounts(st.value, ev, "");
      }
    case _ =>
  }

  /** An ack of a child without a card only leaves a hint. */
  lemma AckLoad(t: Table, ev: Event, launch: Launch)
    requires Distinct(t.cards)
    ensures Load(Ack(t, ev, launch).table.value)
            <= Load(t) + One(CardAt(t.cards, launch.agent) < |t.cards| && Places(t, launch.call) == 0)
  {
    AckCounts(t, ev, launch, "");
  }

  lemma KnownCardLoad(t: Table, ev: Event)
    requires CardAt(t.cards, ev.key) < |t.cards|
    ensures Load(NativeStart(t, ev).table.value) == Load(t)
  {
    var k := CardAt(t.cards, ev.key);
    CardSet(t.cards, k, t.cards[k].(working := true), "");
  }

  ghost predicate KnownRun(evs: seq<Event>) {
    evs == [] || (KnownRun(evs[..|evs| - 1]) && NamesKnownCall(Run(None, evs[..|evs| - 1]), evs[|evs| - 1]))
  }

  /** Over every run in which no event binds a call nobody issued, waiting plus held calls stay bounded. */
  lemma {:induction false} LoadStaysBounded(evs: seq<Event>)
    requires KnownRun(evs)
    ensures LoadOf(Run(None, evs)) <= PENDING_MAX + CARDS_MAX
  {
    if evs != [] {
      var before := evs[..|evs| - 1];
      LoadStaysBounded(before);
      RunKeepsSound(before);
      StepKeepsLoad(Run(None, before), evs[|evs| - 1]);
    }
  }

  ghost predicate FreshRun(evs: seq<Event>) {
    evs == [] || (FreshRun(evs[..|evs| - 1]) && FreshCall(Run(None, evs[..|evs| - 1]), evs[|evs| - 1]))
  }

  /** Over every run with fresh tool ids, every call id sits in at most one place. */
  lemma {:induction false} EveryCallHasOnePlace(evs: seq<Event>)
    requires FreshRun(evs)
    ensures SinglePlace(Run(None, evs))
  {
    if evs != [] {
      var before := evs[..|evs| - 1];
      EveryCallHasOnePlace(before);
      RunKeepsSound(before);
      StepKeepsSinglePlace(Run(None, before), evs[|evs| - 1]);
    }
  }

  // ----- releases -----

  /** One more opening of `key`: its card is drawn by a tool call, or started while not working. */
  function Opening(st: Option<Table>, ev: Event, key: string): nat {
    var t := Current(st, ev);
    if ev.kind != SubagentStart || ev.signal.None? || ev.key == "" || key != ev.key then 0
    else if ev.signal == Some(Native) then One(!Working(t, key)) else One(!t.native)
  }

  lemma ReleaseStart(t: Table, ev: Event, key: string)
    requires Sound(Some(t)) && ev.signal.Some?
    ensures var r := if ev.signal == Some(Native) then NativeStart(t, ev) else ToolStart(t, ev);
            Times(r.released, key) + DrawnOf(r.table, key)
            <= Drawn(t, key) + One(key == ev.key && if ev.signal == Some(Native) then !Working(t, key) else !t.native)
  {
    if ev.signal == Some(Native) { NativeStartCounts(t, ev, key); } else { ToolStartCounts(t, ev, key); }
  }

  lemma ReleaseEnd(t: Table, ev: Event, key: string)
    requires Sound(Some(t))
    ensures var r := TurnEnd(Some(t), ev); Times(r.released, key) + DrawnOf(r.table, key) <= Drawn(t, key)
    ensures var r := NativeEnd(Some(t), ev); Times(r.released, key) + DrawnOf(r.table, key) <= Drawn(t, key)
    ensures var r := ToolEnd(Some(t), ev); Times(r.released, key) + DrawnOf(r.table, key) <= Drawn(t, key)
  {
    DistinctFromCounts(t.cards);
    TurnEndCounts(t, ev, key);
    NativeEndCounts(t, ev, key);
    ToolEndCounts(t, ev, key);
  }

  lemma ReleaseStep(st: Option<Table>, ev: Event, key: string)
    requires Sound(st)
    ensures Times(Apply(st, ev).released, key) + DrawnOf(Apply(st, ev).table, key) <= DrawnOf(st, key) + Opening(st, ev, key)
  {
    var t := Current(st, ev);
    CurrentSound(st, ev);
    assert Drawn(t, key) <= DrawnOf(st, key);
    match ev.kind
    case State =>
      if ev.launch.Some? {
        DistinctFromCounts(t.cards);
        AckCounts(t, ev, ev.launch.value, key);
      } else if st.Some? {
        ReleaseEnd(st.value, ev, key);
      }
    case SubagentStart =>
      if ev.signal.Some? && ev.key != "" { ReleaseStart(t, ev, key); }
    case SubagentEnd =>
      if st.Some? { ReleaseEnd(st.value, ev, key); }
    case _ =>
  }

  function Releases(evs: seq<Event>, key: string): nat {
    if evs == [] then 0
    else Releases(evs[..|evs| - 1], key) + Times(Apply(Run(None, evs[..|evs| - 1]), evs[|evs| - 1]).released, key)
  }

  function Openings(evs: seq<Event>, key: string): nat {
    if evs == [] then 0
    else Openings(evs[..|evs| - 1], key) + Opening(Run(None, evs[..|evs| - 1]), evs[|evs| - 1], key)
  }

  /** How many start events of the run name `key`. */
  function Starts(evs: seq<Event>, key: string): nat {
    if evs == [] then 0
    else Starts(evs[..|evs| - 1], key) + One(evs[|evs| - 1].kind == SubagentStart && evs[|evs| - 1].key == key)
  }

  /**
   * Over every run, in every order and across sessions, a key is released at most once for each
   * time it was opened, and a key still drawn has an opening left; so a tool call id that starts
   * once is released at most once.
   */
  lemma {:induction false} ReleasedAtMostOncePerOpening(evs: seq<Event>, key: string)
    ensures Releases(evs, key) + DrawnOf(Run(None, evs), key) <= Openings(evs, key) <= Starts(evs, key)
  {
    if evs != [] {
      var before := evs[..|evs| - 1];
      ReleasedAtMostOncePerOpening(before, key);
      RunKeepsSound(before);
      ReleaseStep(Run(None, before), evs[|evs| - 1], key);
    }
  }
}
