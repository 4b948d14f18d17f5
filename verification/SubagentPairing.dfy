/**
 * Pairing tool calls with children converges: in whatever order tool calls,
 * child starts and acknowledgements arrive, every acknowledged and started
 * child's card ends up with its own call and label, and keeps them.
 */
module SubagentPairing {
  import opened Options
  import opened SubagentRules
  import opened SubagentLedger
  import opened SubagentBounds

  /** Which call each child really is: one to one, ids non-empty. */
  type Truth = map<string, string>

  predicate OneToOne(truth: Truth) {
    && (forall a, b | a in truth && b in truth && truth[a] == truth[b] :: a == b)
    && (forall a | a in truth :: truth[a] != "")
  }

  /** Acks and exact ends name the real pair. */
  predicate Truthful(ev: Event, truth: Truth) {
    && (ev.kind == State && ev.launch.Some? ==>
          ev.launch.value.agent in truth && truth[ev.launch.value.agent] == ev.launch.value.call)
    && (ev.kind == SubagentEnd && ev.signal != Some(Native) && ev.child != "" ==>
          ev.child in truth && truth[ev.child] == ev.key)
  }

  /** The event stays in the session and no table is full. */
  predicate Roomy(st: Option<Table>, ev: Event) {
    var t := Current(st, ev);
    && !(ev.kind == Session && ev.sessionEnd) && (st.Some? ==> !OtherSession(st.value, ev))
    && |t.pending| < PENDING_MAX && |t.cards| < CARDS_MAX && |t.hints| < HINTS_MAX
    && FreshCall(st, ev)
  }

  // ----- what a pairing leaves alone -----

  lemma BindNextCards(t: Table, k: nat)
    requires k < |t.cards|
    ensures var r := BindNext(t, k).table;
            forall j | 0 <= j < |t.cards| :: r.cards[j].agent == t.cards[j].agent && (j != k ==> r.cards[j] == t.cards[j])
  {
  }

  lemma BindFromCardCards(t: Table, k: nat, o: nat, call: string, ev: Event)
    requires k < |t.cards| && o < |t.cards| && k != o
    ensures var r := BindFromCard(t, k, o, call, ev).table;
            && r.cards[k].call == Some(call)
            && (forall j | 0 <= j < |t.cards| :: r.cards[j].agent == t.cards[j].agent)
            && (forall j | 0 <= j < |t.cards| && j != k && j != o :: r.cards[j] == t.cards[j])
  {
    hide BindNext;
    var mine := Take(t.cards[k], Pending(call, t.cards[o].ty, t.cards[o].task, false));
    var bare := t.cards[o].(call := None, task := None);
    BindNextCards(t.(pending := GivenBack(t.cards[k], call) + t.pending, cards := t.cards[k := mine][o := bare]), o);
  }

  lemma BindCards(t: Table, k: nat, call: string, ev: Event)
    requires k < |t.cards| && Distinct(t.cards)
    ensures var r := Bind(t, k, call, ev).table;
            && r.cards[k].call == Some(call)
            && (forall j | 0 <= j < |t.cards| :: r.cards[j].agent == t.cards[j].agent)
            && (forall j | 0 <= j < |t.cards| && j != k && t.cards[j].call != Some(call) :: r.cards[j] == t.cards[j])
  {
    hide BindFromCard;
    var o := OtherHolder(t.cards, call, t.cards[k].agent);
    if o < |t.cards| { BindFromCardCards(t, k, o, call, ev); }
  }

  // ----- every acknowledged child's card holds its own call -----

  ghost predicate OwnCalls(t: Table, truth: Truth, acked: set<string>) {
    && (forall j | 0 <= j < |t.cards| && t.cards[j].agent in acked :: t.cards[j].agent in truth && t.cards[j].call == Some(truth[t.cards[j].agent]))
    && (forall a | a in acked :: a in truth && (AgentCount(t.cards, a) > 0 || HintAt(t.hints, a) < |t.hints|))
    && (forall h | h in t.hints :: h.agent in truth && truth[h.agent] == h.call)
  }

  lemma {:induction false} SameAgents(cards: seq<Card>, cards': seq<Card>, a: string)
    requires |cards'| == |cards| && forall j | 0 <= j < |cards| :: cards'[j].agent == cards[j].agent
    ensures AgentCount(cards', a) == AgentCount(cards, a)
  {
    if cards != [] {
      assert forall j | 0 <= j < |cards[1..]| :: cards'[1..][j].agent == cards[1..][j].agent;
      SameAgents(cards[1..], cards'[1..], a);
    }
  }

  lemma BindOwn(t: Table, k: nat, call: string, ev: Event, truth: Truth, acked: set<string>)
    requires OneToOne(truth) && Distinct(t.cards) && k < |t.cards|
    requires OwnCalls(t, truth, acked - {t.cards[k].agent})
    requires t.cards[k].agent in truth && truth[t.cards[k].agent] == call
    ensures OwnCalls(Bind(t, k, call, ev).table, truth, acked)
  {
    hide Bind, AgentCount, HintAt;
    BindCards(t, k, call, ev);
    var r := Bind(t, k, call, ev).table;
    forall a | a in acked ensures a in truth && (AgentCount(r.cards, a) > 0 || HintAt(r.hints, a) < |r.hints|) {
      SameAgents(t.cards, r.cards, a);
      if a == t.cards[k].agent { CardsAround(t.cards, k, a); }
    }
  }

  lemma AckOwn(t: Table, ev: Event, launch: Launch, truth: Truth, acked: set<string>)
    requires OneToOne(truth) && Sound(Some(t)) && OwnCalls(t, truth, acked) && |t.hints| < HINTS_MAX
    requires launch.agent in truth && truth[launch.agent] == launch.call
    ensures OwnCalls(Ack(t, ev, launch).table.value, truth, acked + {launch.agent})
  {
    var k := CardAt(t.cards, launch.agent);
    AgentIffFound(t.cards, launch.agent);
    DistinctFromCounts(t.cards);
    if k == |t.cards| {
      RememberOwn(t, launch, truth, acked);
    } else if t.cards[k].call != Some(launch.call) {
      BindOwn(t, k, launch.call, ev, truth, acked + {launch.agent});
    }
  }

  lemma RememberOwn(t: Table, launch: Launch, truth: Truth, acked: set<string>)
    requires OwnCalls(t, truth, acked) && |t.hints| < HINTS_MAX && CardAt(t.cards, launch.agent) == |t.cards|
    requires launch.agent in truth && truth[launch.agent] == launch.call
    ensures OwnCalls(t.(hints := Remember(t.hints, launch.agent, launch.call)), truth, acked + {launch.agent})
  {
    var hints := Remember(t.hints, launch.agent, launch.call);
    var i := HintAt(t.hints, launch.agent);
    forall a | a in acked + {launch.agent} && AgentCount(t.cards, a) == 0 ensures HintAt(hints, a) < |hints| {
      var h := if a == launch.agent then i else HintAt(t.hints, a);
      assert hints[h].agent == a;
    }
  }

  lemma NativeStartOwn(t: Table, ev: Event, truth: Truth, acked: set<string>)
    requires OneToOne(truth) && Sound(Some(t)) && OwnCalls(t, truth, acked) && |t.cards| < CARDS_MAX
    requires ev.signal == Some(Native)
    ensures OwnCalls(NativeStart(t, ev).table.value, truth, acked)
  {
    if CardAt(t.cards, ev.key) < |t.cards| { ResumeOwn(t, ev, truth, acked); }
    else if Hinted(t, ev.key) != "" { HintedOwn(t, ev, truth, acked); }
    else { UnhintedOwn(t, ev, truth, acked); }
  }

  lemma ResumeOwn(t: Table, ev: Event, truth: Truth, acked: set<string>)
    requires OwnCalls(t, truth, acked) && CardAt(t.cards, ev.key) < |t.cards|
    ensures OwnCalls(NativeStart(t, ev).table.value, truth, acked)
  {
    hide Opened, Bind, BindNext;
    var r := NativeStart(t, ev).table.value;
    forall a | a in acked ensures AgentCount(r.cards, a) == AgentCount(t.cards, a) { SameAgents(t.cards, r.cards, a); }
  }

  lemma HintedOwn(t: Table, ev: Event, truth: Truth, acked: set<string>)
    requires OneToOne(truth) && Sound(Some(t)) && OwnCalls(t, truth, acked) && |t.cards| < CARDS_MAX
    requires ev.signal == Some(Native) && CardAt(t.cards, ev.key) == |t.cards| && Hinted(t, ev.key) != ""
    ensures OwnCalls(NativeStart(t, ev).table.value, truth, acked)
  {
    OpenedOwn(t, ev, truth, acked);
    OpenedDistinct(t, ev);
    HintsAreTrue(t, ev.key, truth, acked);
    var o := Opened(t, ev);
    hide Opened, Bind, OwnCalls, Sound, Distinct;
    BindOwn(o, |o.cards| - 1, Hinted(t, ev.key), ev, truth, acked);
  }

  lemma HintsAreTrue(t: Table, agent: string, truth: Truth, acked: set<string>)
    requires OwnCalls(t, truth, acked) && Hinted(t, agent) != ""
    ensures agent in truth && truth[agent] == Hinted(t, agent)
  {
    assert t.hints[HintAt(t.hints, agent)] in t.hints;
  }

  lemma UnhintedOwn(t: Table, ev: Event, truth: Truth, acked: set<string>)
    requires OneToOne(truth) && Sound(Some(t)) && OwnCalls(t, truth, acked) && |t.cards| < CARDS_MAX
    requires ev.signal == Some(Native) && CardAt(t.cards, ev.key) == |t.cards| && Hinted(t, ev.key) == ""
    ensures OwnCalls(NativeStart(t, ev).table.value, truth, acked)
  {
    AgentIffFound(t.cards, ev.key);
    NoHintNotAcked(t, ev.key, truth, acked);
    OpenedOwn(t, ev, truth, acked);
    var o := Opened(t, ev);
    var r := BindNext(o, |o.cards| - 1).table;
    BindNextCards(o, |o.cards| - 1);
    hide Opened, Bind, BindNext, Sound;
    assert acked - {ev.key} == acked;
    forall a | a in acked ensures AgentCount(r.cards, a) == AgentCount(o.cards, a) { SameAgents(o.cards, r.cards, a); }
  }

  lemma NoHintNotAcked(t: Table, agent: string, truth: Truth, acked: set<string>)
    requires OneToOne(truth) && OwnCalls(t, truth, acked) && AgentCount(t.cards, agent) == 0 && Hinted(t, agent) == ""
    ensures agent !in acked
  {
    var i := HintAt(t.hints, agent);
    if i < |t.hints| { assert t.hints[i] in t.hints; }
  }

  /** Taking one hint out leaves the others to be found. */
  lemma OtherHintsStay(hints: seq<Hint>, i: nat, a: string)
    requires i < |hints| && hints[i].agent != a && HintAt(hints, a) < |hints|
    ensures HintAt(Without(hints, i), a) < |Without(hints, i)|
  {
    var h := HintAt(hints, a);
    assert Without(hints, i)[if h < i then h else h - 1].agent == a;
  }

  lemma OpenedOwn(t: Table, ev: Event, truth: Truth, acked: set<string>)
    requires Sound(Some(t)) && OwnCalls(t, truth, acked) && |t.cards| < CARDS_MAX
    requires ev.signal == Some(Native) && CardAt(t.cards, ev.key) == |t.cards|
    ensures OwnCalls(Opened(t, ev), truth, acked - {ev.key})
  {
    var card := Card(ev.key, None, ev.ty, None, true);
    var o := Opened(t, ev);
    var i := HintAt(t.hints, ev.key);
    assert o == t.(native := true, cards := t.cards + [card], hints := if i < |t.hints| then Without(t.hints, i) else t.hints);
    if i < |t.hints| { ForgottenHint(t.hints, ev.key); }
    hide Opened, Sound, AgentCount;
    forall a | a in acked - {ev.key} ensures AgentCount(o.cards, a) > 0 || HintAt(o.hints, a) < |o.hints| {
      CardsSplit(t.cards, [card], a);
      if HintAt(t.hints, a) < |t.hints| && i < |t.hints| { OtherHintsStay(t.hints, i, a); }
    }
  }

  /** Ends change nothing that is paired, except an exact end that settles its own pair. */
  lemma ToolEndOwn(t: Table, ev: Event, truth: Truth, acked: set<string>)
    requires OneToOne(truth) && Sound(Some(t)) && OwnCalls(t, truth, acked)
    requires ev.child != "" ==> ev.child in truth && truth[ev.child] == ev.key
    ensures OwnCalls(ToolEnd(Some(t), ev).table.value, truth, acked)
  {
    var k := Ended(t, ev);
    if k < |t.cards| {
      DistinctFromCounts(t.cards);
      var b := if Mispaired(t, ev) then Bind(t, k, ev.key, ev) else Pairing(t, "", [], []);
      if Mispaired(t, ev) { BindOwn(t, k, ev.key, ev, truth, acked); }
      QuietOwn(b.table, b.table.cards[k := b.table.cards[k].(working := false)], b.table.pending, truth, acked);
    } else {
      QuietOwn(t, t.cards, ToolEnd(Some(t), ev).table.value.pending, truth, acked);
    }
  }

  lemma QuietOwn(t: Table, cards: seq<Card>, pending: seq<Pending>, truth: Truth, acked: set<string>)
    requires OwnCalls(t, truth, acked) && |cards| == |t.cards|
    requires forall j | 0 <= j < |cards| :: cards[j].agent == t.cards[j].agent && cards[j].call == t.cards[j].call
    ensures OwnCalls(t.(cards := cards, pending := pending), truth, acked)
  {
    forall a | a in acked ensures AgentCount(cards, a) == AgentCount(t.cards, a) { SameAgents(t.cards, cards, a); }
  }

  lemma {:induction false} SettledSame(cards: seq<Card>, alive: set<string>)
    ensures forall i | 0 <= i < |cards| ::
              Settled(cards, alive)[i] == cards[i].(working := cards[i].working && cards[i].agent in alive)
  {
    if cards != [] { SettledSame(cards[1..], alive); }
  }

  lemma TurnEndOwn(t: Table, ev: Event, truth: Truth, acked: set<string>)
    requires OwnCalls(t, truth, acked)
    ensures OwnCalls(TurnEnd(Some(t), ev).table.value, truth, acked)
    ensures OwnCalls(NativeEnd(Some(t), ev).table.value, truth, acked)
  {
    var alive := if ev.background.Some? then ev.background.value else {};
    SettledSame(t.cards, alive);
    var cards := if ev.background.Some? then Settled(t.cards, alive) else t.cards;
    QuietOwn(t, cards, [], truth, acked);
    var k := CardAt(t.cards, ev.key);
    if k < |t.cards| { QuietOwn(t, t.cards[k := t.cards[k].(working := false)], t.pending, truth, acked); }
  }

  // ----- labels follow their call -----

  /** Wherever `call` sits, it carries `task`. */
  ghost predicate Labelled(t: Table, call: string, task: Option<string>) {
    && (forall p | p in t.pending && p.call == call :: p.task == task)
    && (forall c | c in t.cards && c.call == Some(call) :: c.task == task)
  }

  lemma BindNextLabels(t: Table, k: nat, c: string, task: Option<string>)
    requires k < |t.cards| && Labelled(t, c, task)
    ensures Labelled(BindNext(t, k).table, c, task)
  {
  }

  lemma BindLabels(t: Table, k: nat, call: string, ev: Event, c: string, task: Option<string>)
    requires k < |t.cards| && Distinct(t.cards) && t.cards[k].call != Some(call)
    requires Labelled(t, c, task) && Places(t, c) > 0
    ensures Labelled(Bind(t, k, call, ev).table, c, task)
  {
    var o := OtherHolder(t.cards, call, t.cards[k].agent);
    var i := WaitingAt(t.pending, call);
    assert t.cards[k] in t.cards;
    if o < |t.cards| {
      assert t.cards[o] in t.cards;
      var mine := Take(t.cards[k], Pending(call, t.cards[o].ty, t.cards[o].task, false));
      var bare := t.cards[o].(call := None, task := None);
      BindNextLabels(t.(pending := GivenBack(t.cards[k], call) + t.pending, cards := t.cards[k := mine][o := bare]), o, c, task);
    } else if i < |t.pending| {
      assert t.pending[i] in t.pending;
      assert forall p | p in Without(t.pending, i) :: p in t.pending;
    } else {
      NobodyHolds(t.cards, k, call);
      WaitingIffFound(t.pending, call);
      assert call != c;
    }
  }

  lemma ToolStartLabels(t: Table, ev: Event, c: string, task: Option<string>)
    requires Labelled(t, c, task) && |t.pending| < PENDING_MAX && (c == ev.key ==> ev.task == task)
    ensures Labelled(ToolStart(t, ev).table.value, c, task)
  {
  }

  /** A call that is nowhere is labelled anyhow. */
  lemma NowhereLabelled(t: Table, c: string, task: Option<string>)
    requires Places(t, c) == 0
    ensures Labelled(t, c, task)
  {
    WaitingIffFound(t.pending, c);
    HeldIffFound(t.cards, c);
  }

  lemma NativeStartLabels(t: Table, ev: Event, c: string, task: Option<string>)
    requires Sound(Some(t)) && Labelled(t, c, task) && Places(t, c) > 0 && |t.cards| < CARDS_MAX && ev.signal == Some(Native)
    ensures Labelled(NativeStart(t, ev).table.value, c, task)
  {
    var k := CardAt(t.cards, ev.key);
    if k < |t.cards| {
      assert t.cards[k] in t.cards;
    } else {
      var o := Opened(t, ev);
      OpenedCounts(t, ev, c);
      OpenedDistinct(t, ev);
      assert Labelled(o, c, task);
      if Hinted(t, ev.key) != "" { BindLabels(o, |o.cards| - 1, Hinted(t, ev.key), ev, c, task); }
      else { BindNextLabels(o, |o.cards| - 1, c, task); }
    }
  }

  lemma AckLabels(t: Table, ev: Event, launch: Launch, c: string, task: Option<string>)
    requires Sound(Some(t)) && Labelled(t, c, task) && Places(t, c) > 0
    ensures Labelled(Ack(t, ev, launch).table.value, c, task)
  {
    var k := CardAt(t.cards, launch.agent);
    DistinctFromCounts(t.cards);
    if k < |t.cards| && t.cards[k].call != Some(launch.call) { BindLabels(t, k, launch.call, ev, c, task); }
  }

  lemma EndLabels(t: Table, ev: Event, c: string, task: Option<string>)
    requires Sound(Some(t)) && Labelled(t, c, task) && Places(t, c) > 0
    ensures Labelled(TurnEnd(Some(t), ev).table.value, c, task)
    ensures Labelled(NativeEnd(Some(t), ev).table.value, c, task)
  {
    if ev.background.Some? { SettledSame(t.cards, ev.background.value); }
    var k := CardAt(t.cards, ev.key);
    if k < |t.cards| { assert t.cards[k] in t.cards; }
  }

  lemma ToolEndLabels(t: Table, ev: Event, c: string, task: Option<string>)
    requires Sound(Some(t)) && Labelled(t, c, task) && Places(t, c) > 0
    ensures Labelled(ToolEnd(Some(t), ev).table.value, c, task)
  {
    DistinctFromCounts(t.cards);
    var k := Ended(t, ev);
    if k < |t.cards| {
      var b := if Mispaired(t, ev) then Bind(t, k, ev.key, ev) else Pairing(t, "", [], []);
      if Mispaired(t, ev) { BindLabels(t, k, ev.key, ev, c, task); }
      assert b.table.cards[k] in b.table.cards;
    } else {
      var i := WaitingAt(t.pending, ev.key);
      if i < |t.pending| { assert forall p | p in Without(t.pending, i) :: p in t.pending; }
    }
  }

  // ----- one step of the world -----

  /** The table, the children acknowledged so far, and the label of every call still in the table. */
  datatype World = World(st: Option<Table>, acked: set<string>, told: map<string, Option<string>>)

  function Next(w: World, ev: Event): World {
    var st' := Apply(w.st, ev).table;
    var told := if IsToolStart(ev) then w.told[ev.key := ev.task] else w.told;
    World(st',
          if ev.kind == State && ev.launch.Some? then w.acked + {ev.launch.value.agent} else w.acked,
          map c | c in told && PlacesOf(st', c) > 0 :: told[c])
  }

  /** Each acknowledged child's card holds its own call; each call still here carries its label. */
  ghost predicate Converging(w: World, truth: Truth) {
    && Sound(w.st)
    && (w.st.None? ==> w.acked == {} && w.told == map[])
    && (w.st.Some? ==>
          && OwnCalls(w.st.value, truth, w.acked)
          && (forall c | c in w.told :: Places(w.st.value, c) > 0 && Labelled(w.st.value, c, w.told[c])))
  }

  /** Neither a new table, a session that is filled in nor a waiting call touches cards and hints. */
  lemma CurrentOwn(st: Option<Table>, ev: Event, truth: Truth, acked: set<string>)
    requires Roomy(st, ev) && if st.None? then acked == {} else OwnCalls(st.value, truth, acked)
    ensures OwnCalls(Current(st, ev), truth, acked)
    ensures OwnCalls(ToolStart(Current(st, ev), ev).table.value, truth, acked)
  {
  }

  lemma OwnStep(st: Option<Table>, ev: Event, truth: Truth, acked: set<string>)
    requires OneToOne(truth) && Truthful(ev, truth) && Sound(st) && Roomy(st, ev)
    requires if st.None? then acked == {} else OwnCalls(st.value, truth, acked)
    ensures var acked' := if ev.kind == State && ev.launch.Some? then acked + {ev.launch.value.agent} else acked;
            var st' := Apply(st, ev).table;
            if st'.None? then acked' == {} else OwnCalls(st'.value, truth, acked')
  {
    hide OwnCalls, Bind, BindNext, Opened, Hinted, Ended, Mispaired, Sound, FreshCall;
    var t := Current(st, ev);
    CurrentSound(st, ev);
    CurrentOwn(st, ev, truth, acked);
    match ev.kind
    case State =>
      if ev.launch.Some? { AckOwn(t, ev, ev.launch.value, truth, acked); }
      else if st.Some? { TurnEndOwn(st.value, ev, truth, acked); }
    case SubagentStart =>
      if ev.signal == Some(Native) { NativeStartOwn(t, ev, truth, acked); }
    case SubagentEnd =>
      if st.Some? && ev.signal.Some? {
        if ev.signal == Some(Native) { TurnEndOwn(st.value, ev, truth, acked); }
        else { ToolEndOwn(st.value, ev, truth, acked); }
      }
    case _ =>
  }

  lemma LabelStep(st: Option<Table>, ev: Event, c: string, task: Option<string>)
    requires Sound(st) && Roomy(st, ev)
    requires if IsToolStart(ev) && c == ev.key then task == ev.task
             else st.Some? && Places(st.value, c) > 0 && Labelled(st.value, c, task)
    ensures var st' := Apply(st, ev).table; st'.Some? && Labelled(st'.value, c, task)
  {
    var t := Current(st, ev);
    CurrentSound(st, ev);
    match ev.kind
    case State =>
      if ev.launch.Some? { AckLabels(t, ev, ev.launch.value, c, task); }
      else if st.Some? { EndLabels(st.value, ev, c, task); }
    case SubagentStart =>
      if ev.signal == Some(Native) && ev.key != "" {
        NativeStartLabels(t, ev, c, task);
      } else if ev.signal.Some? && ev.key != "" {
        if c == ev.key { NowhereLabelled(t, c, task); }
        ToolStartLabels(t, ev, c, task);
      }
    case SubagentEnd =>
      if ev.signal.Some? {
        if ev.signal == Some(Native) { EndLabels(st.value, ev, c, task); } else { ToolEndLabels(st.value, ev, c, task); }
      }
    case _ =>
  }

  lemma ConvergingStep(w: World, ev: Event, truth: Truth)
    requires OneToOne(truth) && Truthful(ev, truth) && Roomy(w.st, ev) && Converging(w, truth)
    ensures Converging(Next(w, ev), truth)
  {
    StepKeepsSound(w.st, ev);
    OwnStep(w.st, ev, truth, w.acked);
    var w' := Next(w, ev);
    forall c | c in w'.told ensures w'.st.Some? && Places(w'.st.value, c) > 0 && Labelled(w'.st.value, c, w'.told[c]) {
      LabelStep(w.st, ev, c, w'.told[c]);
    }
  }

  // ----- whole runs -----

  function History(evs: seq<Event>): World {
    if evs == [] then World(None, {}, map[])
    else Next(History(evs[..|evs| - 1]), evs[|evs| - 1])
  }

  /** A run of one session with truthful acks and exact ends, fresh tool ids and room in the tables. */
  ghost predicate TruthfulRun(evs: seq<Event>, truth: Truth) {
    evs == [] ||
    var before := evs[..|evs| - 1];
    TruthfulRun(before, truth) && Truthful(evs[|evs| - 1], truth) && Roomy(History(before).st, evs[|evs| - 1])
  }

  /**
   * Every interleaving converges: at every point of the run, an acknowledged child's card holds its
   * own call, and its own label if that call has never left the table since it was issued. As each
   * prefix of a run is a run, a card once right stays right.
   */
  lemma {:induction false} PairingConverges(evs: seq<Event>, truth: Truth)
    requires OneToOne(truth) && TruthfulRun(evs, truth)
    ensures Converging(History(evs), truth)
    ensures var w := History(evs);
            w.st.Some? ==> forall c | c in w.st.value.cards && c.agent in w.acked ::
                c.agent in truth && c.call == Some(truth[c.agent]) && (truth[c.agent] in w.told ==> c.task == w.told[truth[c.agent]])
  {
    if evs != [] {
      var before := evs[..|evs| - 1];
      PairingConverges(before, truth);
      ConvergingStep(History(before), evs[|evs| - 1], truth);
    }
  }

  /** A turn end the tracker acts on: of a native session, and of no other session. */
  predicate EndsTurn(st: Option<Table>, ev: Event) {
    && ev.kind == State && ev.launch.None? && ev.done && !ev.idle
    && st.Some? && st.value.native && (ev.sessionId == "" || ev.sessionId == st.value.session)
  }

  /** The call's own end, while the call only waits. */
  predicate EndsWaiting(st: Option<Table>, ev: Event, call: string) {
    && ev.kind == SubagentEnd && ev.signal.Some? && ev.signal != Some(Native) && ev.key != "" && ev.key == call
    && st.Some? && Ended(st.value, ev) == |st.value.cards| && WaitingCount(st.value.pending, call) == 1
  }

  /** The events that take a call out of the table: a turn end while no card holds it, or its own end while it waits. */
  predicate TakesOut(st: Option<Table>, ev: Event, call: string) {
    (EndsTurn(st, ev) && HeldCount(st.value.cards, call) == 0) || EndsWaiting(st, ev, call)
  }

  lemma TurnEndTakesOut(t: Table, ev: Event, call: string)
    requires Places(t, call) > 0
    ensures Places(TurnEnd(Some(t), ev).table.value, call) > 0
            <==> !(t.native && (ev.sessionId == "" || ev.sessionId == t.session) && HeldCount(t.cards, call) == 0)
  {
    TurnEndCounts(t, ev, call);
  }

  lemma ToolEndTakesOut(t: Table, ev: Event, call: string)
    requires Distinct(t.cards) && Places(t, call) > 0
    ensures Places(ToolEnd(Some(t), ev).table.value, call) > 0
            <==> !(ev.key == call && Ended(t, ev) == |t.cards| && WaitingCount(t.pending, call) == 1)
  {
    ToolEndCounts(t, ev, call);
    if Ended(t, ev) == |t.cards| {
      HeldIffFound(t.cards, ev.key);
      WaitingIffFound(t.pending, ev.key);
      var i := WaitingAt(t.pending, ev.key);
      if i < |t.pending| { PendingAround(t.pending, i, call); }
    }
  }

  /** A call that is here, or is issued now, is here after the event if and only if the event does not take it out. */
  lemma StaysUnlessTakenOut(st: Option<Table>, ev: Event, call: string)
    requires Sound(st) && Roomy(st, ev)
    requires PlacesOf(st, call) > 0 || (IsToolStart(ev) && ev.key == call)
    ensures PlacesOf(Apply(st, ev).table, call) > 0 <==> !TakesOut(st, ev, call)
  {
    hide Bind, Opened, NativeStart, ToolStart, Ack, ToolEnd, TurnEnd, NativeEnd, Sound, Distinct, Places, EndsTurn, EndsWaiting;
    match ev.kind
    case State => StateStays(st, ev, call);
    case SubagentStart => StartStays(st, ev, call);
    case SubagentEnd => EndStays(st, ev, call);
    case _ => NothingTaken(st, ev, call);
  }

  lemma NothingTaken(st: Option<Table>, ev: Event, call: string)
    requires ev.kind != State && ev.kind != SubagentEnd
    ensures !TakesOut(st, ev, call)
  {
  }

  lemma StateStays(st: Option<Table>, ev: Event, call: string)
    requires Sound(st) && Roomy(st, ev) && ev.kind == State && PlacesOf(st, call) > 0
    ensures PlacesOf(Apply(st, ev).table, call) > 0 <==> !TakesOut(st, ev, call)
  {
    var t := Current(st, ev);
    CurrentSound(st, ev);
    DistinctFromCounts(t.cards);
    if ev.launch.Some? { AckCounts(t, ev, ev.launch.value, call); } else { TurnEndTakesOut(st.value, ev, call); }
    hide Ack, TurnEnd;
  }

  lemma StartStays(st: Option<Table>, ev: Event, call: string)
    requires Sound(st) && Roomy(st, ev) && ev.kind == SubagentStart
    requires PlacesOf(st, call) > 0 || (IsToolStart(ev) && ev.key == call)
    ensures PlacesOf(Apply(st, ev).table, call) > 0 && !TakesOut(st, ev, call)
  {
    hide Opened, Bind, BindNext;
    assert NativeStart(Current(st, ev), ev).table.Some? && ToolStart(Current(st, ev), ev).table.Some?;
    var t := Current(st, ev);
    CurrentSound(st, ev);
    if ev.signal.Some? && ev.key != "" {
      if ev.signal == Some(Native) { NativeStartCounts(t, ev, call); } else { ToolStartCounts(t, ev, call); }
    }
  }

  lemma EndStays(st: Option<Table>, ev: Event, call: string)
    requires Sound(st) && ev.kind == SubagentEnd && PlacesOf(st, call) > 0
    ensures PlacesOf(Apply(st, ev).table, call) > 0 <==> !TakesOut(st, ev, call)
  {
    hide Bind, Places;
    DistinctFromCounts(st.value.cards);
    NativeEndCounts(st.value, ev, call);
    ToolEndTakesOut(st.value, ev, call);
  }

  /**
   * The order a real session keeps: an ack follows its own PreToolUse, and nothing takes an
   * acknowledged child's call out of the table.
   */
  predicate Orderly(w: World, ev: Event, truth: Truth) {
    && (ev.kind == State && ev.launch.Some? ==> ev.launch.value.call in w.told)
    && (forall a | a in w.acked && a in truth :: !TakesOut(w.st, ev, truth[a]))
  }

  ghost predicate OrderlyRun(evs: seq<Event>, truth: Truth) {
    evs == [] ||
    var before := evs[..|evs| - 1];
    OrderlyRun(before, truth) && Orderly(History(before), evs[|evs| - 1], truth)
  }

  lemma {:induction false} AckedCallsStay(evs: seq<Event>, truth: Truth)
    requires OneToOne(truth) && TruthfulRun(evs, truth) && OrderlyRun(evs, truth)
    ensures forall a | a in History(evs).acked :: a in truth && truth[a] in History(evs).told
  {
    if evs != [] {
      var before, ev := evs[..|evs| - 1], evs[|evs| - 1];
      AckedCallsStay(before, truth);
      PairingConverges(before, truth);
      PairingConverges(evs, truth);
      var w := History(before);
      forall a | a in History(evs).acked ensures truth[a] in History(evs).told {
        if a in w.acked {
          StaysUnlessTakenOut(w.st, ev, truth[a]);
        } else {
          AckKeepsCalls(w.st, ev, truth[a]);
        }
      }
    }
  }

  lemma AckKeepsCalls(st: Option<Table>, ev: Event, call: string)
    requires Sound(st) && Roomy(st, ev) && ev.kind == State && ev.launch.Some? && PlacesOf(st, call) > 0
    ensures PlacesOf(Apply(st, ev).table, call) > 0
  {
    StaysUnlessTakenOut(st, ev, call);
  }

  /** In an orderly run every acknowledged and started child shows its own call and its own label. */
  lemma OrderlyRunsPairEverything(evs: seq<Event>, truth: Truth)
    requires OneToOne(truth) && TruthfulRun(evs, truth) && OrderlyRun(evs, truth)
    ensures var w := History(evs);
            w.st.Some? ==> forall c | c in w.st.value.cards && c.agent in w.acked ::
                c.agent in truth && truth[c.agent] in w.told && c.call == Some(truth[c.agent]) && c.task == w.told[truth[c.agent]]
  {
    PairingConverges(evs, truth);
    AckedCallsStay(evs, truth);
  }

  /** A hinted child's first start in a table with room: its card holds the hinted call. */
  lemma HintedStart(t: Table, ev: Event)
    requires ev.signal == Some(Native) && Sound(Some(t)) && CardAt(t.cards, ev.key) == |t.cards| && |t.cards| < CARDS_MAX
    requires Hinted(t, ev.key) != ""
    ensures |NativeStart(t, ev).table.value.cards| == |t.cards| + 1
    ensures var c := NativeStart(t, ev).table.value.cards[|t.cards|];
            && c.agent == ev.key && c.call == Some(Hinted(t, ev.key))
            && (Places(t, Hinted(t, ev.key)) == 0 ==> c.task == None)
  {
    hide Opened, WaitingCount, HeldCount, HoldingCards, AgentCount, Evict, BindFromCard;
    var o := Opened(t, ev);
    var call := Hinted(t, ev.key);
    OpenedCounts(t, ev, call);
    OpenedDistinct(t, ev);
    BindCards(o, |t.cards|, call, ev);
    HeldIffFound(o.cards, call);
    WaitingIffFound(o.pending, call);
  }

  /** Its label is the hinted call's, wherever that call is, and none if it is nowhere. */
  lemma HintedLabel(t: Table, ev: Event, task: Option<string>)
    requires ev.signal == Some(Native) && Sound(Some(t)) && CardAt(t.cards, ev.key) == |t.cards| && |t.cards| < CARDS_MAX
    requires Hinted(t, ev.key) != "" && Labelled(t, Hinted(t, ev.key), task)
    ensures var r := NativeStart(t, ev).table;
            r.Some? && |r.value.cards| == |t.cards| + 1 &&
            var c := r.value.cards[|t.cards|];
            && c.agent == ev.key && c.call == Some(Hinted(t, ev.key))
            && c.task == if Places(t, Hinted(t, ev.key)) > 0 then task else None
  {
    hide Bind, Opened;
    HintedStart(t, ev);
    if Places(t, Hinted(t, ev.key)) > 0 {
      NativeStartLabels(t, ev, Hinted(t, ev.key), task);
      assert NativeStart(t, ev).table.value.cards[|t.cards|] in NativeStart(t, ev).table.value.cards;
    }
  }

  /** What a turn end leaves of a hinted child: its hint, and no card of its own. */
  lemma HintOutlivesTurnEnd(t: Table, stop: Event, agent: string)
    requires Sound(Some(t)) && stop.kind == State && stop.launch.None? && CardAt(t.cards, agent) == |t.cards|
    ensures var c := Apply(Some(t), stop).table;
            && Sound(c) && c.Some? && c.value.session == t.session
            && |c.value.cards| == |t.cards| && Hinted(c.value, agent) == Hinted(t, agent)
            && CardAt(c.value.cards, agent) == |t.cards|
  {
    StepKeepsSound(Some(t), stop);
    var c := TurnEnd(Some(t), stop).table.value;
    TurnEndCounts(t, stop, agent);
    AgentIffFound(t.cards, agent);
    AgentIffFound(c.cards, agent);
  }

  /**
   * The order matters: of the events that end turns, between a child's ack and its start, exactly those
   * that take the acknowledged call out lose its label. The child's card always holds its own call; its
   * label is the waiting one, or none at all.
   */
  lemma TurnEndBetweenAckAndStartLosesLabel(t: Table, stop: Event, start: Event, task: Option<string>)
    requires Sound(Some(t)) && |t.cards| < CARDS_MAX
    requires stop.kind == State && stop.launch.None?
    requires start.kind == SubagentStart && start.signal == Some(Native) && start.key != "" && !OtherSession(t, start)
    requires CardAt(t.cards, start.key) == |t.cards| && Hinted(t, start.key) != ""
    requires Places(t, Hinted(t, start.key)) > 0 && Labelled(t, Hinted(t, start.key), task)
    ensures var call, after := Hinted(t, start.key), Apply(Apply(Some(t), stop).table, start).table;
            after.Some? && |after.value.cards| == |t.cards| + 1 &&
            var c := after.value.cards[|t.cards|];
            c.agent == start.key && c.call == Some(call) && c.task == if TakesOut(Some(t), stop, call) then None else task
  {
    var call := Hinted(t, start.key);
    AfterTurnEnd(t, stop, call, task);
    HintOutlivesTurnEnd(t, stop, start.key);
    var between := Apply(Some(t), stop).table.value;
    hide TakesOut, Labelled, NativeStart, Places, Sound, Hinted, CardAt;
    SameButSession(between, start);
    HintedLabel(Current(Some(between), start), start, task);
    assert Apply(Some(between), start) == NativeStart(Current(Some(between), start), start);
  }

  /** What a turn end does to one call: its label stands wherever it is. */
  lemma AfterTurnEnd(t: Table, stop: Event, call: string, task: Option<string>)
    requires Sound(Some(t)) && stop.kind == State && stop.launch.None?
    requires Places(t, call) > 0 && Labelled(t, call, task)
    ensures var c := Apply(Some(t), stop).table;
            c.Some? && (Places(c.value, call) > 0 <==> !TakesOut(Some(t), stop, call)) && Labelled(c.value, call, task)
  {
    TurnEndTakesOut(t, stop, call);
    EndLabels(t, stop, call, task);
  }

  /** In its own session, an event finds the table as it is, but for a session id filled in. */
  lemma SameButSession(t: Table, ev: Event)
    requires Sound(Some(t)) && !OtherSession(t, ev)
    ensures var c := Current(Some(t), ev);
            && c == t.(session := c.session) && Sound(Some(c))
            && (forall a :: Hinted(c, a) == Hinted(t, a)) && (forall k :: Places(c, k) == Places(t, k))
            && (forall k, task :: Labelled(t, k, task) ==> Labelled(c, k, task))
  {
  }
}
