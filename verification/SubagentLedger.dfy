/**
 * Bookkeeping of the card table: in how many places a tool call sits, and how
 * often a key is drawn. Pairing moves calls and keys without losing or doubling
 * one; ownership, bounds and release counts follow from that.
 */
module SubagentLedger {
  import opened Options
  import opened SubagentRules

  // ----- counts -----

  function One(b: bool): nat {
    if b then 1 else 0
  }

  function WaitingCount(pending: seq<Pending>, call: string): nat {
    if pending == [] then 0 else One(pending[0].call == call) + WaitingCount(pending[1..], call)
  }

  function HeldCount(cards: seq<Card>, call: string): nat {
    if cards == [] then 0 else One(cards[0].call == Some(call)) + HeldCount(cards[1..], call)
  }

  /** In how many places `call` sits: waiting, or on a card. */
  function Places(t: Table, call: string): nat {
    WaitingCount(t.pending, call) + HeldCount(t.cards, call)
  }

  function HoldingCards(cards: seq<Card>): nat {
    if cards == [] then 0 else One(cards[0].call.Some?) + HoldingCards(cards[1..])
  }

  /** How many calls are waiting or held, counting places. */
  function Load(t: Table): nat {
    |t.pending| + HoldingCards(t.cards)
  }

  function AgentCount(cards: seq<Card>, agent: string): nat {
    if cards == [] then 0 else One(cards[0].agent == agent) + AgentCount(cards[1..], agent)
  }

  predicate DrawnCard(c: Card, key: string) {
    c.working && c.agent == key
  }

  function WorkingCount(cards: seq<Card>, key: string): nat {
    if cards == [] then 0 else One(DrawnCard(cards[0], key)) + WorkingCount(cards[1..], key)
  }

  predicate DrawnCall(p: Pending, key: string) {
    p.shown && p.call == key
  }

  function ShownCount(pending: seq<Pending>, key: string): nat {
    if pending == [] then 0 else One(DrawnCall(pending[0], key)) + ShownCount(pending[1..], key)
  }

  /** How often `key` is drawn: as a working card, or as a waiting call drawn before the latch. */
  function Drawn(t: Table, key: string): nat {
    WorkingCount(t.cards, key) + ShownCount(t.pending, key)
  }

  function Times(keys: seq<string>, key: string): nat {
    if keys == [] then 0 else One(keys[0] == key) + Times(keys[1..], key)
  }

  function PlacesOf(st: Option<Table>, call: string): nat {
    if st.None? then 0 else Places(st.value, call)
  }

  function DrawnOf(st: Option<Table>, key: string): nat {
    if st.None? then 0 else Drawn(st.value, key)
  }

  // ----- counts over concatenation -----

  lemma {:induction false} PendingSplit(a: seq<Pending>, b: seq<Pending>, k: string)
    ensures WaitingCount(a + b, k) == WaitingCount(a, k) + WaitingCount(b, k)
    ensures ShownCount(a + b, k) == ShownCount(a, k) + ShownCount(b, k)
  {
    if a == [] {
      assert a + b == b;
    } else {
      PendingSplit(a[1..], b, k);
      assert (a + b)[1..] == a[1..] + b;
    }
  }

  lemma {:induction false} CardsSplit(a: seq<Card>, b: seq<Card>, k: string)
    ensures HeldCount(a + b, k) == HeldCount(a, k) + HeldCount(b, k)
    ensures AgentCount(a + b, k) == AgentCount(a, k) + AgentCount(b, k)
    ensures WorkingCount(a + b, k) == WorkingCount(a, k) + WorkingCount(b, k)
    ensures HoldingCards(a + b) == HoldingCards(a) + HoldingCards(b)
  {
    if a == [] {
      assert a + b == b;
    } else {
      CardsSplit(a[1..], b, k);
      assert (a + b)[1..] == a[1..] + b;
    }
  }

  lemma {:induction false} TimesSplit(a: seq<string>, b: seq<string>, k: string)
    ensures Times(a + b, k) == Times(a, k) + Times(b, k)
  {
    if a == [] {
      assert a + b == b;
    } else {
      TimesSplit(a[1..], b, k);
      assert (a + b)[1..] == a[1..] + b;
    }
  }

  lemma PendingAround(pending: seq<Pending>, i: nat, k: string)
    requires i < |pending|
    ensures WaitingCount(pending, k) == WaitingCount(Without(pending, i), k) + One(pending[i].call == k)
    ensures ShownCount(pending, k) == ShownCount(Without(pending, i), k) + One(DrawnCall(pending[i], k))
  {
    var a, p, b := pending[..i], pending[i], pending[i + 1..];
    assert pending == a + ([p] + b);
    PendingSplit(a, [p] + b, k);
    assert ([p] + b)[1..] == b;
    PendingSplit(a, b, k);
  }

  lemma CardsAround(cards: seq<Card>, i: nat, k: string)
    requires i < |cards|
    ensures HeldCount(cards, k) == HeldCount(Without(cards, i), k) + One(cards[i].call == Some(k))
    ensures AgentCount(cards, k) == AgentCount(Without(cards, i), k) + One(cards[i].agent == k)
    ensures WorkingCount(cards, k) == WorkingCount(Without(cards, i), k) + One(DrawnCard(cards[i], k))
    ensures HoldingCards(cards) == HoldingCards(Without(cards, i)) + One(cards[i].call.Some?)
  {
    var a, c, b := cards[..i], cards[i], cards[i + 1..];
    assert cards == a + ([c] + b);
    CardsSplit(a, [c] + b, k);
    assert ([c] + b)[1..] == b;
    CardsSplit(a, b, k);
  }

  /** Replacing one card changes each count by exactly that card's share. */
  lemma CardSet(cards: seq<Card>, i: nat, c: Card, k: string)
    requires i < |cards|
    ensures HeldCount(cards[i := c], k) == HeldCount(cards, k) - One(cards[i].call == Some(k)) + One(c.call == Some(k))
    ensures AgentCount(cards[i := c], k) == AgentCount(cards, k) - One(cards[i].agent == k) + One(c.agent == k)
    ensures WorkingCount(cards[i := c], k) == WorkingCount(cards, k) - One(DrawnCard(cards[i], k)) + One(DrawnCard(c, k))
    ensures HoldingCards(cards[i := c]) == HoldingCards(cards) - One(cards[i].call.Some?) + One(c.call.Some?)
  {
    CardsAround(cards, i, k);
    CardsAround(cards[i := c], i, k);
    assert Without(cards[i := c], i) == Without(cards, i);
  }

  lemma {:induction false} WaitingIffFound(pending: seq<Pending>, call: string)
    ensures WaitingCount(pending, call) > 0 <==> WaitingAt(pending, call) < |pending|
  {
    var i := WaitingAt(pending, call);
    if i < |pending| {
      PendingAround(pending, i, call);
    } else if pending != [] {
      assert forall j | 0 <= j < |pending[1..]| :: pending[1..][j] == pending[j + 1];
      WaitingIffFound(pending[1..], call);
    }
  }

  lemma {:induction false} HeldIffFound(cards: seq<Card>, call: string)
    ensures HeldCount(cards, call) > 0 <==> HolderOf(cards, call) < |cards|
  {
    var i := HolderOf(cards, call);
    if i < |cards| {
      CardsAround(cards, i, call);
    } else if cards != [] {
      assert forall j | 0 <= j < |cards[1..]| :: cards[1..][j] == cards[j + 1];
      HeldIffFound(cards[1..], call);
    }
  }

  lemma {:induction false} AgentIffFound(cards: seq<Card>, agent: string)
    ensures AgentCount(cards, agent) > 0 <==> CardAt(cards, agent) < |cards|
  {
    var i := CardAt(cards, agent);
    if i < |cards| {
      CardsAround(cards, i, agent);
    } else if cards != [] {
      assert forall j | 0 <= j < |cards[1..]| :: cards[1..][j] == cards[j + 1];
      AgentIffFound(cards[1..], agent);
    }
  }

  lemma {:induction false} WorkingAreAgents(cards: seq<Card>, k: string)
    ensures WorkingCount(cards, k) <= AgentCount(cards, k)
  {
    if cards != [] { WorkingAreAgents(cards[1..], k); }
  }

  lemma {:induction false} ShownAreWaiting(pending: seq<Pending>, k: string)
    ensures ShownCount(pending, k) <= WaitingCount(pending, k)
  {
    if pending != [] { ShownAreWaiting(pending[1..], k); }
  }

  lemma {:induction false} HoldingAtMost(cards: seq<Card>)
    ensures HoldingCards(cards) <= |cards|
  {
    if cards != [] { HoldingAtMost(cards[1..]); }
  }

  /** Two cards of one agent would count twice. */
  lemma TwoCards(cards: seq<Card>, i: nat, j: nat)
    requires i < j < |cards| && cards[i].agent == cards[j].agent
    ensures AgentCount(cards, cards[i].agent) >= 2
  {
    var k := cards[i].agent;
    CardsAround(cards, j, k);
    var rest := Without(cards, j);
    CardsAround(rest, i, k);
  }

  // ----- pairing conserves calls and keys -----

  /** Taking the next waiting call moves it: no count changes but the released key's. */
  lemma BindNextConserves(t: Table, k: nat, key: string)
    requires k < |t.cards| && t.cards[k].call.None?
    ensures var r := BindNext(t, k);
            && Places(r.table, key) == Places(t, key)
            && Load(r.table) == Load(t)
            && Drawn(t, key) == Drawn(r.table, key) + Times(r.released, key)
            && AgentCount(r.table.cards, key) == AgentCount(t.cards, key)
  {
    var i := NextFor(t.pending, t.hints, t.cards[k].ty);
    if i < |t.pending| {
      PendingAround(t.pending, i, key);
      CardSet(t.cards, k, Take(t.cards[k], t.pending[i]), key);
    }
  }

  lemma GivenBackCounts(card: Card, call: string, key: string)
    requires card.call != Some(call)
    ensures WaitingCount(GivenBack(card, call), key) == One(card.call == Some(key))
    ensures ShownCount(GivenBack(card, call), key) == 0
    ensures |GivenBack(card, call)| == One(card.call.Some?)
  {
  }

  /** The card's agent has only this card, so another holder is exactly a card other than `k`. */
  predicate Distinct(cards: seq<Card>) {
    forall i, j | 0 <= i < j < |cards| :: cards[i].agent != cards[j].agent
  }

  lemma NobodyHolds(cards: seq<Card>, k: nat, call: string)
    requires Distinct(cards) && k < |cards| && cards[k].call != Some(call)
    requires OtherHolder(cards, call, cards[k].agent) == |cards|
    ensures HeldCount(cards, call) == 0
  {
    HeldIffFound(cards, call);
  }

  /** The table between taking the call from card `o` and card `o` taking its next one. */
  function Moved(t: Table, k: nat, o: nat, call: string): Table
    requires k < |t.cards| && o < |t.cards|
  {
    var mine := Take(t.cards[k], Pending(call, t.cards[o].ty, t.cards[o].task, false));
    t.(pending := GivenBack(t.cards[k], call) + t.pending, cards := t.cards[k := mine][o := t.cards[o].(call := None, task := None)])
  }

  /** The move itself: the call changes cards, and the card's own call waits again. */
  lemma MovedConserves(t: Table, k: nat, o: nat, call: string, key: string)
    requires k < |t.cards| && o < |t.cards| && k != o
    requires t.cards[k].call != Some(call) && t.cards[o].call == Some(call)
    ensures var m := Moved(t, k, o, call);
            && m.cards[o].call.None?
            && Places(m, key) == Places(t, key) && Load(m) == Load(t) && Drawn(m, key) == Drawn(t, key)
            && AgentCount(m.cards, key) == AgentCount(t.cards, key)
  {
    var back := GivenBack(t.cards[k], call);
    var mine := Take(t.cards[k], Pending(call, t.cards[o].ty, t.cards[o].task, false));
    GivenBackCounts(t.cards[k], call, key);
    CardSet(t.cards, k, mine, key);
    CardSet(t.cards[k := mine], o, t.cards[o].(call := None, task := None), key);
    PendingSplit(back, t.pending, key);
    hide WaitingCount, ShownCount, HeldCount, WorkingCount, AgentCount, HoldingCards, GivenBack;
  }

  lemma BindFromCardConserves(t: Table, k: nat, o: nat, call: string, ev: Event, key: string)
    requires k < |t.cards| && o < |t.cards| && k != o
    requires t.cards[k].call != Some(call) && t.cards[o].call == Some(call)
    ensures var r := BindFromCard(t, k, o, call, ev);
            && Places(r.table, key) == Places(t, key)
            && Load(r.table) == Load(t)
            && Drawn(t, key) == Drawn(r.table, key) + Times(r.released, key)
            && AgentCount(r.table.cards, key) == AgentCount(t.cards, key)
  {
    hide Places, Load, Drawn, AgentCount, Times, BindNext;
    MovedConserves(t, k, o, call, key);
    BindNextConserves(Moved(t, k, o, call), o, key);
  }

  lemma BindFromQueueConserves(t: Table, k: nat, i: nat, call: string, key: string)
    requires k < |t.cards| && i < |t.pending|
    requires t.cards[k].call != Some(call) && t.pending[i].call == call
    ensures var r := BindFromQueue(t, k, i, call);
            && Places(r.table, key) == Places(t, key)
            && Load(r.table) == Load(t)
            && Drawn(t, key) == Drawn(r.table, key) + Times(r.released, key)
            && AgentCount(r.table.cards, key) == AgentCount(t.cards, key)
  {
    GivenBackCounts(t.cards[k], call, key);
    PendingAround(t.pending, i, key);
    PendingSplit(GivenBack(t.cards[k], call), Without(t.pending, i), key);
    CardSet(t.cards, k, Take(t.cards[k], t.pending[i]), key);
  }

  lemma BindUnknownConserves(t: Table, k: nat, call: string, key: string)
    requires k < |t.cards| && t.cards[k].call != Some(call)
    ensures var r := BindUnknown(t, k, call);
            && Places(r.table, key) == Places(t, key) + One(key == call)
            && Load(r.table) == Load(t) + 1
            && Drawn(t, key) == Drawn(r.table, key) + Times(r.released, key)
            && AgentCount(r.table.cards, key) == AgentCount(t.cards, key)
  {
    GivenBackCounts(t.cards[k], call, key);
    PendingSplit(GivenBack(t.cards[k], call), t.pending, key);
    CardSet(t.cards, k, t.cards[k].(call := Some(call)), key);
  }

  /**
   * Binding moves `call` onto the card from wherever it waits or is held, and the card's own call
   * back to the queue. No call is lost and none doubled; only an unknown call is new.
   */
  lemma BindConserves(t: Table, k: nat, call: string, ev: Event, key: string)
    requires Distinct(t.cards) && k < |t.cards| && t.cards[k].call != Some(call)
    ensures var r := Bind(t, k, call, ev);
            && Places(r.table, key) == Places(t, key) + One(key == call && Places(t, call) == 0)
            && Load(r.table) == Load(t) + One(Places(t, call) == 0)
            && Drawn(t, key) == Drawn(r.table, key) + Times(r.released, key)
            && AgentCount(r.table.cards, key) == AgentCount(t.cards, key)
  {
    var o := OtherHolder(t.cards, call, t.cards[k].agent);
    var i := WaitingAt(t.pending, call);
    WaitingIffFound(t.pending, call);
    if o < |t.cards| {
      CardsAround(t.cards, o, call);
      BindFromCardConserves(t, k, o, call, ev, key);
    } else {
      NobodyHolds(t.cards, k, call);
      if i < |t.pending| {
        BindFromQueueConserves(t, k, i, call, key);
      } else {
        BindUnknownConserves(t, k, call, key);
      }
    }
  }
}
