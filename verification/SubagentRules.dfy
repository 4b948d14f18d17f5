/**
 * The rules of the subagent card tracker for one node, as functions on values:
 * what one normalized event does to the node's table, which events go out in
 * its place, and which card keys are released.
 */
module SubagentRules {
  import opened Options

  datatype Kind = State | SubagentStart | SubagentEnd | Session | OtherKind
  datatype Signal = Native | Tool | Transcript
  datatype Launch = Launch(call: string, agent: string)

  /** A normalized event. An absent string is `""`, which the source treats alike. */
  datatype Event = Event(
    nodeId: string, vendor: string, sessionId: string, verified: Option<bool>,
    kind: Kind, sessionEnd: bool, done: bool, idle: bool,
    key: string, ty: Option<string>, task: Option<string>, signal: Option<Signal>,
    supersedes: string, child: string, launch: Option<Launch>,
    background: Option<set<string>>, stats: int)

  /** A call that waits for its child; `shown` says it is on screen itself. */
  datatype Pending = Pending(call: string, ty: Option<string>, task: Option<string>, shown: bool)
  datatype Card = Card(agent: string, call: Option<string>, ty: Option<string>, task: Option<string>, working: bool)
  /** `agent` was acknowledged as the child of `call` before it started. */
  datatype Hint = Hint(agent: string, call: string)
  /** `cards` and `hints` are insertion-ordered maps keyed by `agent`. */
  datatype Table = Table(session: string, native: bool, pending: seq<Pending>, cards: seq<Card>, hints: seq<Hint>)

  const PENDING_MAX: nat := 64
  const CARDS_MAX: nat := 128
  const HINTS_MAX: nat := 64

  /** What one event does: the table after it, the events handed on, the keys released. */
  datatype Outcome = Outcome(table: Option<Table>, events: seq<Event>, released: seq<string>)
  /** What pairing does: the table, the drawn tool card replaced (`""` for none), corrections. */
  datatype Pairing = Pairing(table: Table, superseded: string, events: seq<Event>, released: seq<string>)

  // ----- lookups -----

  function CardAt(cards: seq<Card>, agent: string): (i: nat)
    ensures i <= |cards|
    ensures i < |cards| ==> cards[i].agent == agent
    ensures forall j | 0 <= j < i :: cards[j].agent != agent
  {
    First(cards, (c: Card) => c.agent == agent)
  }

  function HolderOf(cards: seq<Card>, call: string): (i: nat)
    ensures i <= |cards|
    ensures i < |cards| ==> cards[i].call == Some(call)
    ensures forall j | 0 <= j < i :: cards[j].call != Some(call)
  {
    First(cards, (c: Card) => c.call == Some(call))
  }

  /** The first card other than `agent`'s that holds `call`. */
  function OtherHolder(cards: seq<Card>, call: string, agent: string): (i: nat)
    ensures i <= |cards|
    ensures i < |cards| ==> cards[i].agent != agent && cards[i].call == Some(call)
    ensures forall j | 0 <= j < i :: !(cards[j].agent != agent && cards[j].call == Some(call))
  {
    First(cards, (c: Card) => c.agent != agent && c.call == Some(call))
  }

  function WaitingAt(pending: seq<Pending>, call: string): (i: nat)
    ensures i <= |pending|
    ensures i < |pending| ==> pending[i].call == call
    ensures forall j | 0 <= j < i :: pending[j].call != call
  {
    First(pending, (p: Pending) => p.call == call)
  }

  function HintAt(hints: seq<Hint>, agent: string): (i: nat)
    ensures i <= |hints|
    ensures i < |hints| ==> hints[i].agent == agent
    ensures forall j | 0 <= j < i :: hints[j].agent != agent
  {
    First(hints, (h: Hint) => h.agent == agent)
  }

  predicate Reserved(hints: seq<Hint>, call: string) {
    exists h | h in hints :: h.call == call
  }

  predicate SameType(p: Pending, ty: Option<string>) {
    p.ty.Some? && p.ty == ty
  }

  predicate Untyped(p: Pending, ty: Option<string>) {
    p.ty.None? || ty.None?
  }

  /** The waiting call the next child of type `ty` takes: first in first out by type. */
  function NextFor(pending: seq<Pending>, hints: seq<Hint>, ty: Option<string>): (i: nat)
    ensures i <= |pending|
    ensures i < |pending| ==> !Reserved(hints, pending[i].call)
  {
    var same := First(pending, (p: Pending) => !Reserved(hints, p.call) && SameType(p, ty));
    if same < |pending| then same
    else First(pending, (p: Pending) => !Reserved(hints, p.call) && Untyped(p, ty))
  }

  // ----- events sent out -----

  function StartEvent(ev: Event, card: Card, supersedes: string): Event {
    Event(ev.nodeId, ev.vendor, ev.sessionId, ev.verified, SubagentStart, false, false, false,
          card.agent, card.ty, card.task, Some(Native), supersedes, "", None, None, 0)
  }

  function EndEvent(ev: Event, key: string, ty: Option<string>, signal: Signal): Event {
    Event(ev.nodeId, ev.vendor, ev.sessionId, None, SubagentEnd, false, false, false,
          key, ty, None, Some(signal), "", "", None, None, 0)
  }

  /** A plain end for a replaced tool card, for a consumer that does not know `supersedes`. */
  function SupersededEnd(ev: Event, key: string, ty: Option<string>): seq<Event> {
    if key != "" then [EndEvent(ev, key, ty, Tool)] else []
  }

  // ----- pairing -----

  function Take(card: Card, p: Pending): Card {
    card.(call := Some(p.call), task := p.task, ty := if card.ty.Some? then card.ty else p.ty)
  }

  function Replaced(p: Pending): seq<string> {
    if p.shown then [p.call] else []
  }

  function ReplacedKey(p: Pending): string {
    if p.shown then p.call else ""
  }

  function BindNext(t: Table, k: nat): (r: Pairing)
    requires k < |t.cards|
    ensures |r.table.cards| == |t.cards| && r.table.hints == t.hints
  {
    var i := NextFor(t.pending, t.hints, t.cards[k].ty);
    if i == |t.pending| then Pairing(t, "", [], [])
    else
      var p := t.pending[i];
      Pairing(t.(pending := Without(t.pending, i), cards := t.cards[k := Take(t.cards[k], p)]),
              ReplacedKey(p), [], Replaced(p))
  }

  /** What waits again, first in line, when the card is bound to `call` instead. */
  function GivenBack(card: Card, call: string): seq<Pending> {
    if card.call.Some? && card.call.value != call
    then [Pending(card.call.value, card.ty, card.task, false)]
    else []
  }

  /** The call is on the card at `o`, wrongly: that card then takes the next waiting call. */
  function BindFromCard(t: Table, k: nat, o: nat, call: string, ev: Event): (r: Pairing)
    requires k < |t.cards| && o < |t.cards|
    ensures |r.table.cards| == |t.cards| && r.table.hints == t.hints
  {
    var owner := t.cards[o];
    var mine := Take(t.cards[k], Pending(call, owner.ty, owner.task, false));
    var bare := owner.(call := None, task := None);
    var n := BindNext(t.(pending := GivenBack(t.cards[k], call) + t.pending, cards := t.cards[k := mine][o := bare]), o);
    var owner' := n.table.cards[o];
    Pairing(n.table, "",
            (if owner'.working then [StartEvent(ev, owner', n.superseded)] else [])
            + SupersededEnd(ev, n.superseded, owner'.ty),
            n.released)
  }

  /** The call is waiting at `i`. */
  function BindFromQueue(t: Table, k: nat, i: nat, call: string): (r: Pairing)
    requires k < |t.cards| && i < |t.pending|
    ensures |r.table.cards| == |t.cards| && r.table.hints == t.hints
  {
    var p := t.pending[i];
    Pairing(t.(pending := GivenBack(t.cards[k], call) + Without(t.pending, i), cards := t.cards[k := Take(t.cards[k], p)]),
            ReplacedKey(p), [], Replaced(p))
  }

  /** Nothing is known of the call: the card is marked with it and keeps its label. */
  function BindUnknown(t: Table, k: nat, call: string): (r: Pairing)
    requires k < |t.cards|
    ensures |r.table.cards| == |t.cards| && r.table.hints == t.hints
  {
    Pairing(t.(pending := GivenBack(t.cards[k], call) + t.pending, cards := t.cards[k := t.cards[k].(call := Some(call))]),
            "", [], [])
  }

  function Bind(t: Table, k: nat, call: string, ev: Event): (r: Pairing)
    requires k < |t.cards|
    ensures |r.table.cards| == |t.cards| && r.table.hints == t.hints
  {
    var o := OtherHolder(t.cards, call, t.cards[k].agent);
    var i := WaitingAt(t.pending, call);
    if o < |t.cards| then BindFromCard(t, k, o, call, ev)
    else if i < |t.pending| then BindFromQueue(t, k, i, call)
    else BindUnknown(t, k, call)
  }

  // ----- the table's bounds -----

  /** Idle cards go first, oldest first; when every card works, the oldest card goes. */
  function EvictFrom(cards: seq<Card>, i: nat): seq<Card>
    requires i <= |cards| && |cards| > CARDS_MAX
    decreases |cards| - i
  {
    if i == |cards| then cards[1..]
    else if cards[i].working then EvictFrom(cards, i + 1)
    else
      var rest := Without(cards, i);
      if |rest| <= CARDS_MAX then rest else EvictFrom(rest, i)
  }

  function Evict(cards: seq<Card>): seq<Card> {
    if |cards| <= CARDS_MAX then cards else EvictFrom(cards, 0)
  }

  function Remember(hints: seq<Hint>, agent: string, call: string): seq<Hint> {
    var i := HintAt(hints, agent);
    var set' := if i < |hints| then hints[i := Hint(agent, call)] else hints + [Hint(agent, call)];
    if |set'| > HINTS_MAX then set'[1..] else set'
  }

  // ----- the rules -----

  predicate OtherSession(t: Table, ev: Event) {
    ev.sessionId != "" && t.session != "" && t.session != ev.sessionId
  }

  /** The node's table for this event: a different session starts an empty one. */
  function Current(st: Option<Table>, ev: Event): Table {
    if st.None? || OtherSession(st.value, ev) then Table(ev.sessionId, false, [], [], [])
    else if st.value.session == "" then st.value.(session := ev.sessionId)
    else st.value
  }

  function ToolStart(t: Table, ev: Event): Outcome {
    var shown := !t.native;
    var pushed := t.pending + [Pending(ev.key, ev.ty, ev.task, shown)];
    var kept := if |pushed| > PENDING_MAX then pushed[1..] else pushed;
    Outcome(Some(t.(pending := kept)), if shown then [ev] else [], [])
  }

  /** The table with a new card for `ev.key`, the last of the cards. */
  function Opened(t: Table, ev: Event): (r: Table)
    ensures |r.cards| > 0
    ensures r.cards[|r.cards| - 1] == Card(ev.key, None, ev.ty, None, true)
  {
    var card := Card(ev.key, None, ev.ty, None, true);
    EvictKeepsLast(t.cards + [card]);
    var i := HintAt(t.hints, ev.key);
    t.(native := true, cards := Evict(t.cards + [card]),
       hints := if i < |t.hints| then Without(t.hints, i) else t.hints)
  }

  function NativeStart(t: Table, ev: Event): Outcome {
    var k := CardAt(t.cards, ev.key);
    if k < |t.cards| then
      var known := t.cards[k].(working := true);
      Outcome(Some(t.(native := true, cards := t.cards[k := known])), [StartEvent(ev, known, "")], [])
    else
      var hint := HintAt(t.hints, ev.key);
      var hinted := if hint < |t.hints| then t.hints[hint].call else "";
      var o := Opened(t, ev);
      var last := |o.cards| - 1;
      var b := if hinted != "" then Bind(o, last, hinted, ev) else BindNext(o, last);
      var card := b.table.cards[last];
      Outcome(Some(b.table),
              [StartEvent(ev, card, b.superseded)] + SupersededEnd(ev, b.superseded, card.ty) + b.events,
              b.released)
  }

  function Ack(t: Table, ev: Event, launch: Launch): Outcome {
    var k := CardAt(t.cards, launch.agent);
    if k == |t.cards| then
      Outcome(Some(t.(hints := Remember(t.hints, launch.agent, launch.call))), [ev], [])
    else if t.cards[k].call == Some(launch.call) then
      Outcome(Some(t), [ev], [])
    else
      var b := Bind(t, k, launch.call, ev);
      var card := b.table.cards[k];
      Outcome(Some(b.table),
              [ev] + (if card.working then [StartEvent(ev, card, b.superseded)] else [])
              + SupersededEnd(ev, b.superseded, card.ty) + b.events,
              b.released)
  }

  function NativeEnd(st: Option<Table>, ev: Event): Outcome {
    if st.None? || (ev.sessionId != "" && st.value.session != ev.sessionId) then Outcome(st, [], [])
    else
      var t := st.value;
      var k := CardAt(t.cards, ev.key);
      if k == |t.cards| then Outcome(st, [], [])
      else
        var card := t.cards[k];
        Outcome(Some(t.(cards := t.cards[k := card.(working := false)])),
                [ev.(ty := if ev.ty.Some? then ev.ty else card.ty)],
                if card.working then [ev.key] else [])
  }

  /** The card a tool-path end is about: the child it names, else the holder of its call. */
  function Ended(t: Table, ev: Event): (k: nat)
    ensures k <= |t.cards|
  {
    var exact := if ev.child != "" then CardAt(t.cards, ev.child) else |t.cards|;
    if exact < |t.cards| then exact else HolderOf(t.cards, ev.key)
  }

  predicate Mispaired(t: Table, ev: Event) {
    ev.child != "" && CardAt(t.cards, ev.child) < |t.cards|
    && t.cards[CardAt(t.cards, ev.child)].call != Some(ev.key)
  }

  function ToolEnd(st: Option<Table>, ev: Event): Outcome {
    if st.None? then Outcome(st, [ev], [])
    else
      var t := st.value;
      var k := Ended(t, ev);
      if k < |t.cards| then
        var b := if Mispaired(t, ev) then Bind(t, k, ev.key, ev) else Pairing(t, "", [], []);
        var card := b.table.cards[k];
        Outcome(Some(b.table.(cards := b.table.cards[k := card.(working := false)])),
                [ev.(key := card.agent)] + b.events + SupersededEnd(ev, b.superseded, card.ty),
                b.released + (if card.working then [card.agent] else []))
      else
        var i := WaitingAt(t.pending, ev.key);
        if i < |t.pending| then
          Outcome(Some(t.(pending := Without(t.pending, i))), if t.pending[i].shown then [ev] else [], [])
        else Outcome(st, [ev], [])
  }

  /** The working cards that the inventory `alive` no longer lists. */
  function Gone(cards: seq<Card>, alive: set<string>): seq<Card> {
    if cards == [] then []
    else (if cards[0].working && cards[0].agent !in alive then [cards[0]] else []) + Gone(cards[1..], alive)
  }

  function Settled(cards: seq<Card>, alive: set<string>): (r: seq<Card>)
    ensures |r| == |cards|
  {
    if cards == [] then []
    else [cards[0].(working := cards[0].working && cards[0].agent in alive)] + Settled(cards[1..], alive)
  }

  function CardEnds(ev: Event, cards: seq<Card>): seq<Event> {
    if cards == [] then [] else [EndEvent(ev, cards[0].agent, cards[0].ty, Native)] + CardEnds(ev, cards[1..])
  }

  function CardKeys(cards: seq<Card>): seq<string> {
    if cards == [] then [] else [cards[0].agent] + CardKeys(cards[1..])
  }

  function CallEnds(ev: Event, pending: seq<Pending>): seq<Event> {
    if pending == [] then []
    else (if pending[0].shown then [EndEvent(ev, pending[0].call, pending[0].ty, Tool)] else []) + CallEnds(ev, pending[1..])
  }

  function ShownCalls(pending: seq<Pending>): seq<string> {
    if pending == [] then [] else Replaced(pending[0]) + ShownCalls(pending[1..])
  }

  function TurnEnd(st: Option<Table>, ev: Event): Outcome {
    if st.None? || !st.value.native || (ev.sessionId != "" && st.value.session != ev.sessionId)
    then Outcome(st, [ev], [])
    else
      var t := st.value;
      var gone := if ev.background.Some? then Gone(t.cards, ev.background.value) else [];
      var cards := if ev.background.Some? then Settled(t.cards, ev.background.value) else t.cards;
      Outcome(Some(t.(cards := cards, pending := [])),
              [ev] + CardEnds(ev, gone) + CallEnds(ev, t.pending),
              CardKeys(gone) + ShownCalls(t.pending))
  }

  /** One event of a node, from whichever signal path. */
  function Apply(st: Option<Table>, ev: Event): Outcome {
    if ev.kind == Session && ev.sessionEnd then Outcome(None, [ev], [])
    else if ev.kind == State then
      if ev.launch.Some? then Ack(Current(st, ev), ev, ev.launch.value)
      else if ev.done && !ev.idle then TurnEnd(st, ev)
      else Outcome(st, [ev], [])
    else if ev.signal.None? || ev.key == "" then Outcome(st, [ev], [])
    else if ev.kind == SubagentStart then
      if ev.signal == Some(Native) then NativeStart(Current(st, ev), ev) else ToolStart(Current(st, ev), ev)
    else if ev.kind == SubagentEnd then
      if ev.signal == Some(Native) then NativeEnd(st, ev) else ToolEnd(st, ev)
    else Outcome(st, [ev], [])
  }

  // ----- eviction -----

  /** Eviction never takes the card just added: it is last, works, and is not alone. */
  lemma {:induction false} EvictFromKeepsLast(cards: seq<Card>, i: nat)
    requires i <= |cards| && |cards| > CARDS_MAX
    requires cards[|cards| - 1].working
    ensures var r := EvictFrom(cards, i); |r| > 0 && r[|r| - 1] == cards[|cards| - 1]
    decreases |cards| - i
  {
    if i == |cards| {
    } else if cards[i].working {
      EvictFromKeepsLast(cards, i + 1);
    } else {
      var rest := Without(cards, i);
      assert rest[|rest| - 1] == cards[|cards| - 1];
      if |rest| > CARDS_MAX { EvictFromKeepsLast(rest, i); }
    }
  }

  lemma EvictKeepsLast(cards: seq<Card>)
    requires |cards| > 0 && cards[|cards| - 1].working
    ensures var r := Evict(cards); |r| > 0 && r[|r| - 1] == cards[|cards| - 1]
  {
    if |cards| > CARDS_MAX { EvictFromKeepsLast(cards, 0); }
  }
}
