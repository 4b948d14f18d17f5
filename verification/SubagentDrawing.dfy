/**
 * What the cards say: a consumer that keeps the type and label of every start it
 * is handed always shows each drawn card under the type and label the tracker
 * holds for it, and each start names exactly the drawn call its card has taken.
 */
module SubagentDrawing {
  import opened Options
  import opened SubagentRules
  import opened SubagentLedger
  import opened SubagentBounds
  import opened SubagentView

  // ----- the consumer -----

  datatype Label = Label(ty: Option<string>, task: Option<string>)

  /** A start draws its key under its type and label, in place of what it supersedes if `knows`; an end removes it. */
  function Draw(view: map<string, Label>, e: Event, knows: bool): map<string, Label> {
    if e.key == "" then view
    else if e.kind == SubagentStart then (if knows then view - {e.supersedes} else view)[e.key := Label(e.ty, e.task)]
    else if e.kind == SubagentEnd then view - {e.key}
    else view
  }

  function DrawAll(view: map<string, Label>, evs: seq<Event>, knows: bool): map<string, Label> {
    if evs == [] then view else Draw(DrawAll(view, evs[..|evs| - 1], knows), evs[|evs| - 1], knows)
  }

  /** The newest start of `key` among the events. */
  function LastStart(evs: seq<Event>, key: string): Option<Event> {
    if evs == [] then None
    else
      var e := evs[|evs| - 1];
      if e.kind == SubagentStart && e.key == key then Some(e) else LastStart(evs[..|evs| - 1], key)
  }

  /** It shows the same keys as the consumer that keeps keys only. */
  lemma {:induction false} DrawnKeys(view: map<string, Label>, evs: seq<Event>, knows: bool)
    ensures DrawAll(view, evs, knows).Keys == Fold(view.Keys, evs, knows)
  {
    if evs != [] {
      var before, e := evs[..|evs| - 1], evs[|evs| - 1];
      DrawnKeys(view, before, knows);
      FoldSplit(view.Keys, before, [e], knows);
      assert before + [e] == evs;
      DrawKeys(DrawAll(view, before, knows), e, knows);
    }
  }

  lemma DrawKeys(view: map<string, Label>, e: Event, knows: bool)
    ensures Draw(view, e, knows).Keys == Fold(view.Keys, [e], knows)
  {
    assert Fold(view.Keys, [e], knows) == Consume(view.Keys, e, knows) by { assert [e][1..] == []; }
  }

  /** What a key shows comes from its newest start, or was there before. */
  lemma {:induction false} DrawnLabel(view: map<string, Label>, evs: seq<Event>, knows: bool, key: string)
    requires key in DrawAll(view, evs, knows) && key != ""
    ensures var shown, last := DrawAll(view, evs, knows)[key], LastStart(evs, key);
            if last.Some? then shown == Label(last.value.ty, last.value.task) else key in view && shown == view[key]
  {
    if evs != [] {
      var before, e := evs[..|evs| - 1], evs[|evs| - 1];
      if !(e.kind == SubagentStart && e.key == key) { DrawnLabel(view, before, knows, key); }
    }
  }

  lemma {:induction false} LastStartSplit(a: seq<Event>, b: seq<Event>, key: string)
    ensures LastStart(a + b, key) == if LastStart(b, key).Some? then LastStart(b, key) else LastStart(a, key)
  {
    if b == [] {
      assert a + b == a;
    } else {
      assert (a + b)[..|a + b| - 1] == a + b[..|b| - 1];
      LastStartSplit(a, b[..|b| - 1], key);
    }
  }

  lemma {:induction false} NoStart(evs: seq<Event>, key: string)
    requires forall e | e in evs :: e.kind != SubagentStart || e.key != key
    ensures LastStart(evs, key) == None
  {
    if evs != [] {
      assert evs[|evs| - 1] in evs && forall e | e in evs[..|evs| - 1] :: e in evs;
      NoStart(evs[..|evs| - 1], key);
    }
  }

  // ----- what the events say of the table after them -----

  /** The drawn waiting call that `call` names, `""` if none. */
  function DrawnWaiting(t: Table, call: Option<string>): string {
    if call.Some? && ShownCount(t.pending, call.value) > 0 then call.value else ""
  }

  /** A working card was told as it now is, superseding the drawn call it took; or nothing was said, and it is as it was. */
  predicate CardTold(t: Table, evs: seq<Event>, c: Card) {
    var last := LastStart(evs, c.agent);
    if last.Some? then
      && last.value.ty == c.ty && last.value.task == c.task
      && last.value.supersedes == DrawnWaiting(t, c.call)
    else c in t.cards
  }

  predicate CallTold(t: Table, evs: seq<Event>, p: Pending) {
    var last := LastStart(evs, p.call);
    if last.Some? then last.value.ty == p.ty && last.value.task == p.task else p in t.pending
  }

  /** Everything drawn in `after` is explained by the events or stood in `t` already. */
  predicate Explained(t: Table, evs: seq<Event>, after: Table) {
    && (forall c | c in after.cards && c.working :: CardTold(t, evs, c))
    && (forall p | p in after.pending && p.shown :: CallTold(t, evs, p))
  }

  /** The caller's own start and superseded end around a binding of card `k`. */
  function Around(ev: Event, b: Pairing, k: nat, starts: bool): seq<Event>
    requires k < |b.table.cards|
  {
    var card := b.table.cards[k];
    (if starts then [StartEvent(ev, card, b.superseded)] else []) + SupersededEnd(ev, b.superseded, card.ty)
  }

  lemma AroundStarts(ev: Event, b: Pairing, k: nat, starts: bool, key: string)
    requires k < |b.table.cards|
    ensures LastStart(Around(ev, b, k, starts), key)
            == if starts && key == b.table.cards[k].agent then Some(StartEvent(ev, b.table.cards[k], b.superseded)) else None
  {
    var card := b.table.cards[k];
    var start := if starts then [StartEvent(ev, card, b.superseded)] else [];
    LastStartSplit(start, SupersededEnd(ev, b.superseded, card.ty), key);
    NoStart(SupersededEnd(ev, b.superseded, card.ty), key);
    if starts && key == card.agent { assert LastStart(start, key) == Some(start[0]); } else { NoStart(start, key); }
  }

  /** A call that waits once is drawn exactly as its place in the queue says. */
  lemma TakenIsDrawn(t: Table, i: nat)
    requires i < |t.pending| && WaitingCount(t.pending, t.pending[i].call) <= 1 && t.pending[i].call != ""
    ensures ReplacedKey(t.pending[i]) == DrawnWaiting(t, Some(t.pending[i].call))
  {
    PendingAround(t.pending, i, t.pending[i].call);
    ShownAreWaiting(Without(t.pending, i), t.pending[i].call);
  }

  lemma HeldIsNotDrawn(t: Table, j: nat)
    requires j < |t.cards| && t.cards[j].call.Some? && Places(t, t.cards[j].call.value) <= 1
    ensures DrawnWaiting(t, t.cards[j].call) == ""
  {
    CardsAround(t.cards, j, t.cards[j].call.value);
    ShownAreWaiting(t.pending, t.cards[j].call.value);
  }

  /** What a binding needs of the table: its names and one place for every call. */
  ghost predicate Tidy(t: Table, n: Names) {
    n.Valid() && SubagentView.Named(t, n) && Distinct(t.cards) && forall call :: Places(t, call) <= 1
  }

  /** The next waiting call, taken by the card at `k`: what it replaces is what was drawn of it. */
  lemma NextTold(t: Table, k: nat, n: Names)
    requires Tidy(t, n) && k < |t.cards|
    ensures var b := BindNext(t, k);
            && b.events == [] && (forall j | 0 <= j < |t.cards| && j != k :: b.table.cards[j] == t.cards[j])
            && b.table.cards[k].agent == t.cards[k].agent && b.table.cards[k].working == t.cards[k].working
            && (forall p | p in b.table.pending :: p in t.pending)
            && (t.cards[k].call.None? ==> b.superseded == DrawnWaiting(t, b.table.cards[k].call))
  {
    var i := NextFor(t.pending, t.hints, t.cards[k].ty);
    if i < |t.pending| {
      assert t.pending[i] in t.pending;
      assert Places(t, t.pending[i].call) <= 1;
      TakenIsDrawn(t, i);
    }
  }

  /** Binding to a call nobody else holds. */
  lemma LooseTold(t: Table, k: nat, call: string, ev: Event, n: Names)
    requires Tidy(t, n) && k < |t.cards| && call in n.calls && OtherHolder(t.cards, call, t.cards[k].agent) == |t.cards|
    ensures var b := Bind(t, k, call, ev);
            && b.events == [] && (forall j | 0 <= j < |t.cards| && j != k :: b.table.cards[j] == t.cards[j])
            && b.table.cards[k].agent == t.cards[k].agent && b.table.cards[k].working == t.cards[k].working
            && (forall p | p in b.table.pending && p.shown :: p in t.pending)
            && b.superseded == DrawnWaiting(t, b.table.cards[k].call)
  {
    var i := WaitingAt(t.pending, call);
    if i < |t.pending| {
      assert t.pending[i] in t.pending;
      assert Places(t, call) <= 1;
      TakenIsDrawn(t, i);
    } else {
      WaitingIffFound(t.pending, call);
      ShownAreWaiting(t.pending, call);
    }
  }

  lemma MovedDrawn(t: Table, k: nat, o: nat, call: string, c: string)
    requires k < |t.cards| && o < |t.cards|
    ensures ShownCount(Moved(t, k, o, call).pending, c) == ShownCount(t.pending, c)
  {
    PendingSplit(GivenBack(t.cards[k], call), t.pending, c);
  }

  lemma SameDrawn(t: Table, k: nat, o: nat, call: string, c: Option<string>)
    requires k < |t.cards| && o < |t.cards|
    ensures DrawnWaiting(Moved(t, k, o, call), c) == DrawnWaiting(t, c)
  {
    if c.Some? { MovedDrawn(t, k, o, call, c.value); }
  }

  lemma TidyPlaces(t: Table, n: Names, call: string)
    requires Tidy(t, n)
    ensures Places(t, call) <= 1
  {
  }

  /** Binding to a call another card holds: that card too is told, if it works. */
  lemma {:induction false} FromCardTold(t: Table, k: nat, o: nat, call: string, ev: Event, n: Names)
    requires Tidy(t, n) && k < |t.cards| && o < |t.cards| && k != o && call in n.calls
    requires t.cards[o].call == Some(call) && t.cards[k].call != Some(call)
    requires o == OtherHolder(t.cards, call, t.cards[k].agent)
    ensures var b := BindFromCard(t, k, o, call, ev);
            var owner := b.table.cards[o];
            && b.superseded == "" && b.table.cards[k].call == Some(call) && DrawnWaiting(t, Some(call)) == ""
            && (forall j | 0 <= j < |t.cards| && j != k && j != o :: b.table.cards[j] == t.cards[j])
            && (forall j | 0 <= j < |t.cards| :: b.table.cards[j].agent == t.cards[j].agent && b.table.cards[j].working == t.cards[j].working)
            && (forall p | p in b.table.pending && p.shown :: p in t.pending)
            && exists sup :: sup == DrawnWaiting(t, owner.call)
                             && b.events == (if owner.working then [StartEvent(ev, owner, sup)] else []) + SupersededEnd(ev, sup, owner.ty)
  {
    hide Tidy, DrawnWaiting, NextFor, SupersededEnd, StartEvent;
    var moved := Moved(t, k, o, call);
    MovedTidy(t, k, o, call, ev, n);
    assert Places(t, call) <= 1 by { TidyPlaces(t, n, call); }
    HeldIsNotDrawn(t, o);
    NextTold(moved, o, n);
    var nx := BindNext(moved, o);
    var owner := nx.table.cards[o];
    SameDrawn(t, k, o, call, owner.call);
    assert nx.superseded == DrawnWaiting(t, owner.call);
    var b := BindFromCard(t, k, o, call, ev);
    assert b.table == nx.table;
    assert b.events == (if owner.working then [StartEvent(ev, owner, nx.superseded)] else []) + SupersededEnd(ev, nx.superseded, owner.ty);
  }

  lemma MovedTidy(t: Table, k: nat, o: nat, call: string, ev: Event, n: Names)
    requires Tidy(t, n) && k < |t.cards| && o < |t.cards| && k != o && call in n.calls
    requires t.cards[o].call == Some(call) && t.cards[k].call != Some(call)
    ensures Tidy(Moved(t, k, o, call), n)
  {
    var moved := Moved(t, k, o, call);
    forall c ensures Places(moved, c) <= 1 {
      assert Places(t, c) <= 1;
      MovedConserves(t, k, o, call, c);
    }
    assert forall j | 0 <= j < |t.cards| :: moved.cards[j].agent == t.cards[j].agent;
    assert t.cards[k] in t.cards && t.cards[o] in t.cards;
  }

  // ----- a binding and the events around it -----

  /** Everything but card `k`, which the caller may leave untold if it does not start it. */
  ghost predicate BindExplained(t: Table, b: Pairing, k: nat, evs: seq<Event>, starts: bool, n: Names)
    requires k < |t.cards| && |b.table.cards| == |t.cards|
  {
    && b.table.cards[k].agent == t.cards[k].agent && b.table.cards[k].working == t.cards[k].working
    && (forall j | 0 <= j < |t.cards| && j != k && b.table.cards[j].working ::
          (LastStart(evs, t.cards[j].agent).None? && b.table.cards[j] == t.cards[j]) || CardStarted(t, evs, b.table.cards[j]))
    && (starts ==> CardStarted(t, evs, b.table.cards[k]))
    && (forall p | p in b.table.pending && p.shown :: p in t.pending)
    && (forall key | key !in n.agents :: LastStart(evs, key).None?)
  }

  /** The newest start of the card tells what it is and what it took. */
  predicate CardStarted(t: Table, evs: seq<Event>, c: Card) {
    var last := LastStart(evs, c.agent);
    last.Some? && last.value.ty == c.ty && last.value.task == c.task && last.value.supersedes == DrawnWaiting(t, c.call)
  }

  lemma BindTold(t: Table, k: nat, call: string, ev: Event, starts: bool, n: Names)
    requires Tidy(t, n) && k < |t.cards| && call in n.calls && t.cards[k].call != Some(call)
    ensures var b := Bind(t, k, call, ev); BindExplained(t, b, k, Around(ev, b, k, starts) + b.events, starts, n)
  {
    hide Tidy, DrawnWaiting, Around, BindFromCard, BindFromQueue, BindUnknown, LastStart, SupersededEnd;
    var b := Bind(t, k, call, ev);
    var evs := Around(ev, b, k, starts) + b.events;
    AgentsApart(t, n);
    var o := OtherHolder(t.cards, call, t.cards[k].agent);
    forall key ensures LastStart(evs, key) == if LastStart(b.events, key).Some? then LastStart(b.events, key) else LastStart(Around(ev, b, k, starts), key) {
      LastStartSplit(Around(ev, b, k, starts), b.events, key);
    }
    forall key ensures LastStart(Around(ev, b, k, starts), key) == if starts && key == b.table.cards[k].agent then Some(StartEvent(ev, b.table.cards[k], b.superseded)) else None {
      AroundStarts(ev, b, k, starts, key);
    }
    if o == |t.cards| {
      LooseTold(t, k, call, ev, n);
      forall key ensures LastStart(b.events, key) == None { NoStart(b.events, key); }
    } else {
      FromCardTold(t, k, o, call, ev, n);
      var owner := b.table.cards[o];
      var sup :| sup == DrawnWaiting(t, owner.call)
                 && b.events == (if owner.working then [StartEvent(ev, owner, sup)] else []) + SupersededEnd(ev, sup, owner.ty);
      forall key ensures LastStart(b.events, key) == if owner.working && key == owner.agent then Some(StartEvent(ev, owner, sup)) else None {
        AroundStarts(ev, b.(superseded := sup), o, owner.working, key);
        AroundIs(ev, b.(superseded := sup), o, owner.working);
      }
    }
  }

  lemma AroundIs(ev: Event, b: Pairing, k: nat, starts: bool)
    requires k < |b.table.cards|
    ensures Around(ev, b, k, starts)
            == (if starts then [StartEvent(ev, b.table.cards[k], b.superseded)] else []) + SupersededEnd(ev, b.superseded, b.table.cards[k].ty)
  {
  }

  lemma AgentsApart(t: Table, n: Names)
    requires Tidy(t, n)
    ensures forall i, j | 0 <= i < |t.cards| && 0 <= j < |t.cards| && i != j :: t.cards[i].agent != t.cards[j].agent
    ensures forall i | 0 <= i < |t.cards| :: t.cards[i].agent in n.agents && t.cards[i] in t.cards
  {
  }

  // ----- each event -----

  lemma GoodIsTidy(t: Table, n: Names)
    requires Good(Some(t), n)
    ensures Tidy(t, n)
  {
    DistinctFromCounts(t.cards);
    forall call ensures Places(t, call) <= 1 { assert PlacesOf(Some(t), call) <= 1; }
  }

  lemma OpenedTidy(t: Table, ev: Event, n: Names)
    requires Good(Some(t), n) && ev.signal == Some(Native) && ev.key in n.agents && CardAt(t.cards, ev.key) == |t.cards|
    ensures var o := Opened(t, ev);
            && Tidy(o, n) && o.pending == t.pending
            && forall j | 0 <= j < |o.cards| - 1 :: o.cards[j] in t.cards
  {
    var o := Opened(t, ev);
    OpenedNamed(t, ev, n);
    OpenedDistinct(t, ev);
    forall call ensures Places(o, call) <= 1 {
      OpenedCounts(t, ev, call);
      assert PlacesOf(Some(t), call) <= 1;
    }
    OpenedCounts(t, ev, "");
    forall j | 0 <= j < |o.cards| - 1 ensures o.cards[j] in t.cards { assert o.cards[j] in o.cards; }
  }

  /** From the table a child's card was just added to, back to the table before it. */
  lemma OpenedExplained(t: Table, ev: Event, b: Pairing, evs: seq<Event>, n: Names)
    requires Good(Some(t), n) && ev.signal == Some(Native) && ev.key in n.agents && CardAt(t.cards, ev.key) == |t.cards|
    requires var o := Opened(t, ev); |b.table.cards| == |o.cards| && BindExplained(o, b, |o.cards| - 1, evs, true, n)
    ensures Explained(t, evs, b.table)
  {
    hide Opened, LastStart;
    var o := Opened(t, ev);
    OpenedTidy(t, ev, n);
    forall c | c in b.table.cards && c.working ensures CardTold(t, evs, c) {
      var j :| 0 <= j < |b.table.cards| && b.table.cards[j] == c;
      if CardStarted(o, evs, c) { assert DrawnWaiting(o, c.call) == DrawnWaiting(t, c.call); }
    }
    CallsUntold(t, b.table, evs, n);
  }

  /** Drawn calls that only stayed are not started again. */
  lemma CallsUntold(t: Table, after: Table, evs: seq<Event>, n: Names)
    requires n.Valid() && SubagentView.Named(t, n)
    requires forall p | p in after.pending && p.shown :: p in t.pending
    requires forall key | key !in n.agents :: LastStart(evs, key).None?
    ensures forall p | p in after.pending && p.shown :: CallTold(t, evs, p)
  {
    forall p | p in after.pending && p.shown ensures CallTold(t, evs, p) { assert p.call in n.calls; }
  }

  lemma NextExplained(o: Table, ev: Event, n: Names)
    requires Tidy(o, n) && o.cards != [] && o.cards[|o.cards| - 1].call.None?
    ensures var k, b := |o.cards| - 1, BindNext(o, |o.cards| - 1);
            b.events == [] && BindExplained(o, b, k, Around(ev, b, k, true), true, n)
  {
    hide LastStart, Around, DrawnWaiting;
    var k := |o.cards| - 1;
    var b := BindNext(o, k);
    AgentsApart(o, n);
    NextTold(o, k, n);
    forall key ensures LastStart(Around(ev, b, k, true), key) == if key == b.table.cards[k].agent then Some(StartEvent(ev, b.table.cards[k], b.superseded)) else None {
      AroundStarts(ev, b, k, true, key);
    }
  }

  lemma NativeStartExplained(t: Table, ev: Event, n: Names)
    requires Good(Some(t), n) && ev.signal == Some(Native) && ev.key in n.agents
    ensures var r := NativeStart(t, ev); r.table.Some? && Explained(t, r.events, r.table.value)
  {
    hide StartEvent, SupersededEnd;
    var k := CardAt(t.cards, ev.key);
    if k < |t.cards| {
      ResumedExplained(t, ev, n);
    } else {
      hide Explained, BindExplained, Bind, BindNext, Opened, Tidy, Good, LastStart;
      OpenedTidy(t, ev, n);
      var o, call := Opened(t, ev), Hinted(t, ev.key);
      var last := |o.cards| - 1;
      if call != "" {
        HintsAreNamed(t, ev.key, n);
        BindTold(o, last, call, ev, true, n);
        var b := Bind(o, last, call, ev);
        AroundIs(ev, b, last, true);
        OpenedExplained(t, ev, b, Around(ev, b, last, true) + b.events, n);
      } else {
        NextExplained(o, ev, n);
        var b := BindNext(o, last);
        AroundIs(ev, b, last, true);
        assert Around(ev, b, last, true) + b.events == Around(ev, b, last, true);
        OpenedExplained(t, ev, b, Around(ev, b, last, true), n);
      }
    }
  }

  lemma HintsAreNamed(t: Table, agent: string, n: Names)
    requires Good(Some(t), n) && Hinted(t, agent) != ""
    ensures Hinted(t, agent) in n.calls
  {
    assert t.hints[HintAt(t.hints, agent)] in t.hints;
  }

  lemma ResumedExplained(t: Table, ev: Event, n: Names)
    requires Good(Some(t), n) && ev.signal == Some(Native) && ev.key in n.agents && CardAt(t.cards, ev.key) < |t.cards|
    ensures var r := NativeStart(t, ev); r.table.Some? && Explained(t, r.events, r.table.value)
  {
    var k := CardAt(t.cards, ev.key);
    var r := NativeStart(t, ev);
    GoodIsTidy(t, n);
    if t.cards[k].call.Some? { HeldIsNotDrawn(t, k); }
    forall key ensures LastStart(r.events, key) == if key == ev.key then Some(r.events[0]) else None {
      assert r.events[..0] == [];
    }
    CallsUntold(t, r.table.value, r.events, n);
  }

  lemma AckExplained(t: Table, ev: Event, launch: Launch, n: Names)
    requires Good(Some(t), n) && ev.kind == State && launch.call in n.calls
    ensures var r := Ack(t, ev, launch); r.table.Some? && Explained(t, r.events, r.table.value)
  {
    hide Tidy, Good, Bind, LastStart, Remember, Around;
    GoodIsTidy(t, n);
    var k := CardAt(t.cards, launch.agent);
    forall key ensures LastStart([ev], key) == None { NoStart([ev], key); }
    if k < |t.cards| && t.cards[k].call != Some(launch.call) {
      var b := Bind(t, k, launch.call, ev);
      var starts := b.table.cards[k].working;
      BindTold(t, k, launch.call, ev, starts, n);
      AroundIs(ev, b, k, starts);
      var evs := Around(ev, b, k, starts) + b.events;
      assert Ack(t, ev, launch).events == [ev] + evs;
      forall key ensures LastStart([ev] + evs, key) == LastStart(evs, key) { LastStartSplit([ev], evs, key); }
      TidyNamed(t, n);
      BoundExplained(t, b, k, evs, [ev] + evs, starts, n);
    } else {
      Unchanged(t, Ack(t, ev, launch).table.value, [ev]);
    }
  }

  lemma TidyNamed(t: Table, n: Names)
    requires Tidy(t, n)
    ensures n.Valid() && SubagentView.Named(t, n)
  {
  }

  /** A binding explained is a table explained, if the bound card is told or does not work. */
  lemma BoundExplained(t: Table, b: Pairing, k: nat, evs: seq<Event>, all: seq<Event>, starts: bool, n: Names)
    requires n.Valid() && SubagentView.Named(t, n) && k < |t.cards| && |b.table.cards| == |t.cards|
    requires BindExplained(t, b, k, evs, starts, n) && (starts || !b.table.cards[k].working)
    requires forall key :: LastStart(all, key) == LastStart(evs, key)
    ensures Explained(t, all, b.table)
  {
    hide LastStart, DrawnWaiting;
    forall c | c in b.table.cards && c.working ensures CardTold(t, all, c) {
      var j :| 0 <= j < |b.table.cards| && b.table.cards[j] == c;
      assert t.cards[j] in t.cards;
    }
    CallsUntold(t, b.table, all, n);
  }

  /** Where nothing is started and whatever is drawn was there, there is nothing to tell. */
  lemma Unchanged(t: Table, after: Table, evs: seq<Event>)
    requires forall key :: LastStart(evs, key).None?
    requires forall c | c in after.cards && c.working :: c in t.cards
    requires forall p | p in after.pending && p.shown :: p in t.pending
    ensures Explained(t, evs, after)
  {
  }

  lemma ToolStartExplained(t: Table, ev: Event, n: Names)
    requires Good(Some(t), n) && ev.kind == SubagentStart && ev.key in n.calls && Places(t, ev.key) == 0
    ensures var r := ToolStart(t, ev); r.table.Some? && Explained(t, r.events, r.table.value)
  {
    var r := ToolStart(t, ev);
    forall key ensures LastStart(r.events, key) == if !t.native && key == ev.key then Some(ev) else None {
      assert [ev][..0] == [];
    }
    WaitingIffFound(t.pending, ev.key);
    hide LastStart;
    forall p | p in r.table.value.pending && p.shown ensures CallTold(t, r.events, p) {
      assert p in t.pending || p == Pending(ev.key, ev.ty, ev.task, !t.native);
    }
  }

  lemma NativeEndExplained(t: Table, ev: Event)
    requires ev.kind == SubagentEnd
    ensures var r := NativeEnd(Some(t), ev); r.table.Some? && Explained(t, r.events, r.table.value)
  {
    var r := NativeEnd(Some(t), ev);
    forall key ensures LastStart(r.events, key) == None { NoStart(r.events, key); }
    Unchanged(t, r.table.value, r.events);
  }

  lemma {:induction false} EndsAreNoStarts(ev: Event, cards: seq<Card>, pending: seq<Pending>)
    ensures forall e | e in CardEnds(ev, cards) :: e.kind == SubagentEnd
    ensures forall e | e in CallEnds(ev, pending) :: e.kind == SubagentEnd
    decreases |cards| + |pending|
  {
    if cards != [] { EndsAreNoStarts(ev, cards[1..], pending); }
    if pending != [] { EndsAreNoStarts(ev, cards, pending[1..]); }
  }

  lemma {:induction false} SettledWork(cards: seq<Card>, alive: set<string>)
    ensures forall c | c in Settled(cards, alive) && c.working :: c in cards
  {
    if cards != [] { SettledWork(cards[1..], alive); }
  }

  lemma TurnEndExplained(t: Table, ev: Event)
    requires ev.kind == State
    ensures var r := TurnEnd(Some(t), ev); r.table.Some? && Explained(t, r.events, r.table.value)
  {
    hide CardEnds, CallEnds, Gone, LastStart, Explained;
    var r := TurnEnd(Some(t), ev);
    if ev.background.Some? {
      EndsAreNoStarts(ev, Gone(t.cards, ev.background.value), t.pending);
      SettledWork(t.cards, ev.background.value);
    } else {
      EndsAreNoStarts(ev, [], t.pending);
    }
    forall key ensures LastStart(r.events, key) == None { NoStart(r.events, key); }
    Unchanged(t, r.table.value, r.events);
  }

  /** An end bound to its own call first: the ended card says nothing, the card it takes the call from is told. */
  lemma CorrectedExplained(t: Table, ev: Event, n: Names)
    requires Good(Some(t), n) && ev.kind == SubagentEnd && ev.key in n.calls && Ended(t, ev) < |t.cards| && Mispaired(t, ev)
    ensures var r := ToolEnd(Some(t), ev); r.table.Some? && Explained(t, r.events, r.table.value)
  {
    hide Good, Tidy, Bind, Around, LastStart;
    var k := Ended(t, ev);
    GoodIsTidy(t, n);
    TidyNamed(t, n);
    BindTold(t, k, ev.key, ev, false, n);
    var b := Bind(t, k, ev.key, ev);
    var r := ToolEnd(Some(t), ev);
    AroundIs(ev, b, k, false);
    CorrectingEndShape(t, ev);
    var first, evs := [ev.(key := b.table.cards[k].agent)], Around(ev, b, k, false) + b.events;
    assert r.events == first + evs;
    forall key ensures LastStart(r.events, key) == LastStart(evs, key) {
      LastStartSplit(first, evs, key);
      NoStart(first, key);
    }
    StoppedExplained(t, b, k, evs, r.events, n);
  }

  lemma StoppedExplained(t: Table, b: Pairing, k: nat, evs: seq<Event>, all: seq<Event>, n: Names)
    requires n.Valid() && SubagentView.Named(t, n) && k < |t.cards| && |b.table.cards| == |t.cards|
    requires BindExplained(t, b, k, evs, false, n)
    requires forall key :: LastStart(all, key) == LastStart(evs, key)
    ensures Explained(t, all, b.table.(cards := b.table.cards[k := b.table.cards[k].(working := false)]))
  {
    hide LastStart, DrawnWaiting;
    var after := b.table.(cards := b.table.cards[k := b.table.cards[k].(working := false)]);
    forall c | c in after.cards && c.working ensures CardTold(t, all, c) {
      var j :| 0 <= j < |after.cards| && after.cards[j] == c;
      assert t.cards[j] in t.cards;
    }
    CallsUntold(t, after, all, n);
  }

  lemma ToolEndExplained(t: Table, ev: Event, n: Names)
    requires Good(Some(t), n) && ev.kind == SubagentEnd && ev.key in n.calls
    ensures var r := ToolEnd(Some(t), ev); r.table.Some? && Explained(t, r.events, r.table.value)
  {
    hide Good, LastStart;
    if Ended(t, ev) < |t.cards| && Mispaired(t, ev) {
      CorrectedExplained(t, ev, n);
    } else {
      var r := ToolEnd(Some(t), ev);
      forall key ensures LastStart(r.events, key) == None { NoStart(r.events, key); }
      Unchanged(t, r.table.value, r.events);
    }
  }

  /**
   * One event: each start that goes out says the type and label of its card and names exactly the drawn
   * call the card took with it, and whatever is drawn afterwards was told so, now or before.
   */
  lemma StepExplained(st: Option<Table>, ev: Event, n: Names)
    requires Good(st, n) && Proper(st, ev, n)
    ensures var r := Apply(st, ev); r.table.Some? ==> Explained(Current(st, ev), r.events, r.table.value)
  {
    var t := Current(st, ev);
    CurrentGood(st, ev, n);
    hide Good, Explained, LastStart;
    if ev.kind == State && ev.launch.Some? {
      AckExplained(t, ev, ev.launch.value, n);
    } else if ev.kind == SubagentStart {
      if ev.signal == Some(Native) {
        NativeStartExplained(t, ev, n);
      } else {
        assert Places(t, ev.key) == 0;
        ToolStartExplained(t, ev, n);
      }
    } else if st.Some? {
      SameCalls(st.value, ev);
      GoodOne(st, n);
      if ev.kind == State && ev.done && !ev.idle {
        TurnEndExplained(st.value, ev);
      } else if ev.kind == SubagentEnd {
        if ev.signal == Some(Native) { NativeEndExplained(st.value, ev); } else { ToolEndExplained(st.value, ev, n); }
      } else {
        forall key ensures LastStart([ev], key) == None { NoStart([ev], key); }
        Unchanged(st.value, st.value, [ev]);
      }
    }
  }

  lemma GoodOne(st: Option<Table>, n: Names)
    requires Good(st, n) && st.Some?
    ensures Good(Some(st.value), n)
  {
  }

  /** A session id filled in changes nothing that is told. */
  lemma SameCalls(t: Table, ev: Event)
    requires !OtherSession(t, ev)
    ensures forall evs, after: Table :: Explained(t, evs, after) <==> Explained(Current(Some(t), ev), evs, after)
  {
    var t' := Current(Some(t), ev);
    forall evs, after: Table ensures Explained(t, evs, after) <==> Explained(t', evs, after) {
      assert forall c :: CardTold(t, evs, c) <==> CardTold(t', evs, c);
      assert forall p :: CallTold(t, evs, p) <==> CallTold(t', evs, p);
    }
  }

  // ----- whole runs -----

  /** Every working card and every drawn waiting call is shown under its own type and label. */
  ghost predicate Labels(view: map<string, Label>, st: Option<Table>) {
    st.Some? ==>
      && (forall c | c in st.value.cards && c.working && c.agent in view :: view[c.agent] == Label(c.ty, c.task))
      && (forall p | p in st.value.pending && p.shown && p.call in view :: view[p.call] == Label(p.ty, p.task))
  }

  lemma StepLabels(st: Option<Table>, ev: Event, n: Names, view: map<string, Label>, knows: bool)
    requires Good(st, n) && Proper(st, ev, n) && Labels(view, st)
    ensures Labels(DrawAll(view, Apply(st, ev).events, knows), Apply(st, ev).table)
  {
    var r, t := Apply(st, ev), Current(st, ev);
    var view' := DrawAll(view, r.events, knows);
    StepExplained(st, ev, n);
    StepGood(st, ev, n);
    hide LastStart, DrawAll, Apply;
    if r.table.Some? {
      var after := r.table.value;
      forall c | c in after.cards && c.working && c.agent in view' ensures view'[c.agent] == Label(c.ty, c.task) {
        DrawnLabel(view, r.events, knows, c.agent);
      }
      forall p | p in after.pending && p.shown && p.call in view' ensures view'[p.call] == Label(p.ty, p.task) {
        DrawnLabel(view, r.events, knows, p.call);
      }
    }
  }

  /** The cards after a run: every batch of emitted events drawn in order. */
  function Cards(evs: seq<Event>, knows: bool): map<string, Label> {
    if evs == [] then map[]
    else
      var before := evs[..|evs| - 1];
      DrawAll(Cards(before, knows), Apply(Run(None, before), evs[|evs| - 1]).events, knows)
  }

  lemma {:induction false} CardsAreTheScreen(evs: seq<Event>, n: Names, knows: bool)
    requires n.Valid() && ProperRun(evs, n)
    ensures Cards(evs, knows).Keys == Screen(evs, knows) && Labels(Cards(evs, knows), Run(None, evs))
  {
    if evs != [] {
      var before, ev := evs[..|evs| - 1], evs[|evs| - 1];
      CardsAreTheScreen(before, n, knows);
      ScreenIsExact(before, n, knows);
      DrawnKeys(Cards(before, knows), Apply(Run(None, before), ev).events, knows);
      StepLabels(Run(None, before), ev, n, Cards(before, knows), knows);
    }
  }

  /**
   * After every event of every such run, either consumer shows each working card under that card's type
   * and label, each drawn waiting call under that call's, and nothing else.
   */
  lemma LabelsAreExact(evs: seq<Event>, n: Names, knows: bool)
    requires n.Valid() && ProperRun(evs, n)
    ensures var view, st := Cards(evs, knows), Run(None, evs);
            && (forall key :: key in view <==> DrawnOf(st, key) > 0)
            && (st.Some? ==>
                  && (forall c | c in st.value.cards && c.working :: c.agent in view && view[c.agent] == Label(c.ty, c.task))
                  && (forall p | p in st.value.pending && p.shown :: p.call in view && view[p.call] == Label(p.ty, p.task)))
  {
    var view, st := Cards(evs, knows), Run(None, evs);
    CardsAreTheScreen(evs, n, knows);
    ScreenIsExact(evs, n, knows);
    hide Cards, Screen, Run;
    forall key ensures key in view <==> DrawnOf(st, key) > 0 { assert key in view <==> key in view.Keys; }
    if st.Some? {
      forall c | c in st.value.cards && c.working ensures c.agent in view {
        var j :| 0 <= j < |st.value.cards| && st.value.cards[j] == c;
        WorkingIsDrawn(st.value, j);
        assert DrawnOf(st, c.agent) > 0;
      }
      forall p | p in st.value.pending && p.shown ensures p.call in view {
        var j :| 0 <= j < |st.value.pending| && st.value.pending[j] == p;
        PendingAround(st.value.pending, j, p.call);
        assert DrawnOf(st, p.call) > 0;
      }
    }
  }

  // ----- whose events they are -----

  /** An end on the tool path says the type of the card that took the call, or the waiting call's own. */
  predicate SaysType(t: Table, after: seq<Card>, e: Event) {
    || (exists c | c in after :: c.call == Some(e.key) && c.ty == e.ty)
    || (exists p | p in t.pending :: p.shown && p.call == e.key && p.ty == e.ty)
  }

  /**
   * The event is of the same node, vendor and session. Starts carry the proof of the event they answer;
   * a child's key goes with the native signal, a call's with the tool path, but for a call's own end
   * re-keyed onto the child; and an end says its card's type where the event says none.
   */
  predicate Sent(t: Table, after: seq<Card>, ev: Event, e: Event, n: Names) {
    && e.nodeId == ev.nodeId && e.vendor == ev.vendor && e.sessionId == ev.sessionId
    && (e.kind == SubagentStart ==> e.verified == ev.verified && (e.signal == Some(Native) <==> e.key in n.agents))
    && (e.kind == SubagentEnd ==>
          if e.signal != Some(Native) then
            e == ev.(key := e.key) || (e.key in n.calls && e.signal == Some(Tool) && SaysType(t, after, e))
          else
            e.key in n.agents && CardAt(t.cards, e.key) < |t.cards|
            && e.ty == if ev.kind == SubagentEnd && ev.ty.Some? then ev.ty else t.cards[CardAt(t.cards, e.key)].ty)
  }

  /** The starts and superseded ends of a pairing, of the cards it leaves. */
  predicate Pairs(cards: seq<Card>, ev: Event, e: Event, n: Names) {
    && e.nodeId == ev.nodeId && e.vendor == ev.vendor && e.sessionId == ev.sessionId
    && if e.kind == SubagentStart then e.verified == ev.verified && e.signal == Some(Native) && e.key in n.agents
       else e.kind == SubagentEnd && e.signal == Some(Tool) && e.key in n.calls && exists c | c in cards :: c.call == Some(e.key) && c.ty == e.ty
  }

  lemma AroundPairs(ev: Event, b: Pairing, k: nat, starts: bool, n: Names)
    requires k < |b.table.cards| && b.table.cards[k].agent in n.agents
    requires b.superseded != "" ==> b.superseded in n.calls && b.table.cards[k].call == Some(b.superseded)
    ensures forall e | e in Around(ev, b, k, starts) :: Pairs(b.table.cards, ev, e, n)
  {
  }

  lemma BindPairs(t: Table, k: nat, call: string, ev: Event, starts: bool, n: Names)
    requires Tidy(t, n) && k < |t.cards| && call in n.calls && t.cards[k].call != Some(call)
    ensures var b := Bind(t, k, call, ev); forall e | e in Around(ev, b, k, starts) + b.events :: Pairs(b.table.cards, ev, e, n)
  {
    hide BindFromCard, BindFromQueue, BindUnknown, Around, Pairs;
    var b := Bind(t, k, call, ev);
    assert t.cards[k].agent in n.agents by { assert t.cards[k] in t.cards; }
    var o := OtherHolder(t.cards, call, t.cards[k].agent);
    if o == |t.cards| {
      LooseTold(t, k, call, ev, n);
      DrawnIsCall(t, b.table.cards[k].call, n);
      AroundPairs(ev, b, k, starts, n);
    } else {
      FromCardTold(t, k, o, call, ev, n);
      var owner := b.table.cards[o];
      var sup :| sup == DrawnWaiting(t, owner.call)
                 && b.events == (if owner.working then [StartEvent(ev, owner, sup)] else []) + SupersededEnd(ev, sup, owner.ty);
      DrawnIsCall(t, owner.call, n);
      assert t.cards[o] in t.cards;
      AroundPairs(ev, b, k, starts, n);
      AroundPairs(ev, b.(superseded := sup), o, owner.working, n);
      AroundIs(ev, b.(superseded := sup), o, owner.working);
    }
  }

  lemma DrawnIsCall(t: Table, call: Option<string>, n: Names)
    requires SubagentView.Named(t, n)
    ensures var d := DrawnWaiting(t, call); d != "" ==> d in n.calls && call == Some(d)
  {
    if DrawnWaiting(t, call) != "" {
      ShownAreWaiting(t.pending, call.value);
      WaitingIffFound(t.pending, call.value);
      assert t.pending[WaitingAt(t.pending, call.value)] in t.pending;
    }
  }

  lemma PairsAreSent(t: Table, cards: seq<Card>, after: seq<Card>, ev: Event, evs: seq<Event>, n: Names)
    requires n.Valid() && forall e | e in evs :: Pairs(cards, ev, e, n)
    requires |cards| == |after| && forall j | 0 <= j < |cards| :: after[j].call == cards[j].call && after[j].ty == cards[j].ty
    ensures forall e | e in evs :: Sent(t, after, ev, e, n)
  {
    forall e | e in evs && e.kind == SubagentEnd ensures SaysType(t, after, e) {
      var c :| c in cards && c.call == Some(e.key) && c.ty == e.ty;
      var j :| 0 <= j < |cards| && cards[j] == c;
      assert after[j] in after;
    }
  }

  lemma NativeStartSent(t: Table, ev: Event, n: Names)
    requires Good(Some(t), n) && ev.signal == Some(Native) && ev.key in n.agents
    ensures var r := NativeStart(t, ev); r.table.Some? && forall e | e in r.events :: Sent(t, r.table.value.cards, ev, e, n)
  {
    hide Sent, Bind, BindNext, Opened, Pairs;
    var k := CardAt(t.cards, ev.key);
    var r := NativeStart(t, ev);
    var cards := r.table.value.cards;
    if k < |t.cards| {
      StartPairs(cards, ev, t.cards[k].(working := true), n);
      PairsAreSent(t, cards, cards, ev, r.events, n);
    } else {
      OpenedTidy(t, ev, n);
      var o, call := Opened(t, ev), Hinted(t, ev.key);
      var last := |o.cards| - 1;
      assert o.cards[last] in o.cards;
      if call != "" {
        HintsAreNamed(t, ev.key, n);
        BindPairs(o, last, call, ev, true, n);
        AroundIs(ev, Bind(o, last, call, ev), last, true);
      } else {
        var b := BindNext(o, last);
        NextTold(o, last, n);
        DrawnIsCall(o, b.table.cards[last].call, n);
        AroundPairs(ev, b, last, true, n);
        AroundIs(ev, b, last, true);
      }
      PairsAreSent(t, cards, cards, ev, r.events, n);
    }
  }

  lemma StartPairs(cards: seq<Card>, ev: Event, card: Card, n: Names)
    requires card.agent in n.agents
    ensures Pairs(cards, ev, StartEvent(ev, card, ""), n)
  {
  }

  lemma AckSent(t: Table, ev: Event, launch: Launch, n: Names)
    requires Good(Some(t), n) && ev.kind == State && launch.call in n.calls
    ensures var r := Ack(t, ev, launch); r.table.Some? && forall e | e in r.events :: Sent(t, r.table.value.cards, ev, e, n)
  {
    hide Bind, Pairs, Tidy;
    var k := CardAt(t.cards, launch.agent);
    if k < |t.cards| && t.cards[k].call != Some(launch.call) {
      GoodIsTidy(t, n);
      var b := Bind(t, k, launch.call, ev);
      BindPairs(t, k, launch.call, ev, b.table.cards[k].working, n);
      AroundIs(ev, b, k, b.table.cards[k].working);
      var evs := Around(ev, b, k, b.table.cards[k].working) + b.events;
      assert Ack(t, ev, launch).events == [ev] + evs;
      PairsAreSent(t, b.table.cards, b.table.cards, ev, evs, n);
    }
  }

  lemma ToolEndSent(t: Table, ev: Event, n: Names)
    requires Good(Some(t), n) && ev.kind == SubagentEnd && ev.key in n.calls && ev.signal.Some? && ev.signal != Some(Native)
    ensures var r := ToolEnd(Some(t), ev); r.table.Some? && forall e | e in r.events :: Sent(t, r.table.value.cards, ev, e, n)
  {
    hide Bind, Pairs, Tidy;
    if Ended(t, ev) < |t.cards| && Mispaired(t, ev) {
      var k := Ended(t, ev);
      GoodIsTidy(t, n);
      BindPairs(t, k, ev.key, ev, false, n);
      var b := Bind(t, k, ev.key, ev);
      AroundIs(ev, b, k, false);
      CorrectingEndShape(t, ev);
      PairsAreSent(t, b.table.cards, ToolEnd(Some(t), ev).table.value.cards, ev, Around(ev, b, k, false) + b.events, n);
    }
  }

  lemma {:induction false} CardEndsSent(t: Table, ev: Event, cards: seq<Card>, n: Names)
    requires n.Valid() && Distinct(t.cards) && ev.kind == State && forall c | c in cards :: c in t.cards && c.agent in n.agents
    ensures forall after, e | e in CardEnds(ev, cards) :: Sent(t, after, ev, e, n)
    decreases cards
  {
    if cards != [] {
      CardEndsSent(t, ev, cards[1..], n);
      var j :| 0 <= j < |t.cards| && t.cards[j] == cards[0];
      assert CardAt(t.cards, cards[0].agent) == j;
    }
  }

  lemma {:induction false} CallEndsSent(t: Table, after: seq<Card>, ev: Event, pending: seq<Pending>, n: Names)
    requires n.Valid() && forall p | p in pending :: p.call in n.calls && p in t.pending
    ensures forall e | e in CallEnds(ev, pending) :: Sent(t, after, ev, e, n)
    decreases pending
  {
    if pending != [] {
      CallEndsSent(t, after, ev, pending[1..], n);
      assert pending[0] in t.pending;
    }
  }

  lemma TurnEndSent(t: Table, ev: Event, n: Names)
    requires Good(Some(t), n) && ev.kind == State
    ensures var r := TurnEnd(Some(t), ev); r.table.Some? && forall e | e in r.events :: Sent(t, r.table.value.cards, ev, e, n)
  {
    hide Gone, CardEnds, CallEnds;
    DistinctFromCounts(t.cards);
    CallEndsSent(t, TurnEnd(Some(t), ev).table.value.cards, ev, t.pending, n);
    if ev.background.Some? {
      GoneAreCards(t.cards, ev.background.value);
      CardEndsSent(t, ev, Gone(t.cards, ev.background.value), n);
    } else {
      CardEndsSent(t, ev, [], n);
    }
  }

  lemma NativeEndSent(t: Table, ev: Event, n: Names)
    requires Good(Some(t), n) && ev.kind == SubagentEnd && ev.key in n.agents && ev.signal == Some(Native)
    ensures var r := NativeEnd(Some(t), ev); r.table.Some? && forall e | e in r.events :: Sent(t, r.table.value.cards, ev, e, n)
  {
  }

  /** Every event handed on is of the same node and session, with the signal its key calls for. */
  lemma StepSent(st: Option<Table>, ev: Event, n: Names)
    requires Good(st, n) && Proper(st, ev, n)
    ensures var r := Apply(st, ev); forall e | e in r.events :: Sent(Current(st, ev), if r.table.Some? then r.table.value.cards else [], ev, e, n)
  {
    var t := Current(st, ev);
    CurrentGood(st, ev, n);
    hide Good, Sent, Ack, NativeStart, ToolStart, TurnEnd, NativeEnd, ToolEnd;
    if ev.kind == State && ev.launch.Some? {
      AckSent(t, ev, ev.launch.value, n);
    } else if ev.kind == SubagentStart {
      if ev.signal == Some(Native) { NativeStartSent(t, ev, n); } else { ToolStartSent(t, ev, n); }
    } else if st.Some? && ev.kind == State && ev.done && !ev.idle {
      GoodOne(st, n);
      TurnEndSent(st.value, ev, n);
      SameCards(st.value, ev, n);
    } else if st.Some? && ev.kind == SubagentEnd {
      GoodOne(st, n);
      if ev.signal == Some(Native) { NativeEndSent(st.value, ev, n); } else { ToolEndSent(st.value, ev, n); }
      SameCards(st.value, ev, n);
    } else {
      if !(ev.kind == SubagentEnd && ev.signal == Some(Native)) { PassedSent(t, if st.Some? then st.value.cards else [], ev, n); }
      if st.None? { NothingTracked(ev); }
    }
  }

  /** A session id filled in changes nothing that is sent. */
  lemma SameCards(t: Table, ev: Event, n: Names)
    requires !OtherSession(t, ev)
    ensures forall after, e :: Sent(t, after, ev, e, n) <==> Sent(Current(Some(t), ev), after, ev, e, n)
  {
  }

  lemma PassedSent(t: Table, after: seq<Card>, ev: Event, n: Names)
    requires ev.kind != SubagentStart && (ev.kind == SubagentEnd ==> ev.signal.Some? && ev.signal != Some(Native))
    ensures Sent(t, after, ev, ev, n)
  {
  }

  lemma ToolStartSent(t: Table, ev: Event, n: Names)
    requires n.Valid() && ev.kind == SubagentStart && ev.signal.Some? && ev.signal != Some(Native) && ev.key in n.calls
    ensures var r := ToolStart(t, ev); r.table.Some? && forall e | e in r.events :: Sent(t, r.table.value.cards, ev, e, n)
  {
  }

  /** Of a node that is not tracked, an event that starts nothing is passed on, or is a child's end and dropped. */
  lemma NothingTracked(ev: Event)
    requires ev.kind != SubagentStart && !(ev.kind == State && ev.launch.Some?)
    ensures Apply(None, ev).table.None?
    ensures Apply(None, ev).events == if ev.kind == SubagentEnd && ev.signal == Some(Native) && ev.key != "" then [] else [ev]
  {
  }
}
