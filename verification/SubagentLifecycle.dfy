/**
 * The tracker itself: one table per node, updated in place by every event.
 * Each method is proved against the rules, and the rules carry the theorems.
 */
module SubagentLifecycle {
  import opened Options
  import opened Rules = SubagentRules

  /** What is held for one node. */
  class NodeState {
    var session: string
    var native: bool
    var pending: seq<Pending>
    var cards: seq<Card>
    var ackHints: seq<Hint>

    constructor (session: string)
      ensures View() == Table(session, false, [], [], [])
    {
      this.session, native, pending, cards, ackHints := session, false, [], [], [];
    }

    function View(): Table
      reads this
    {
      Table(session, native, pending, cards, ackHints)
    }
  }

  class ClaudeSubagentLifecycle {
    var nodes: map<string, NodeState>
    /** Every key `onRelease` was called with, in order. */
    var released: seq<string>

    constructor ()
      ensures Valid() && Tables() == map[] && released == []
    {
      nodes, released := map[], [];
    }

    /** No two nodes share a state. */
    ghost predicate Valid()
      reads this
    {
      forall a, b | a in nodes && b in nodes && a != b :: nodes[a] != nodes[b]
    }

    ghost function States(): set<object>
      reads this
    {
      set id | id in nodes :: nodes[id]
    }

    ghost function Tables(): map<string, Table>
      reads this, States()
    {
      map id | id in nodes :: nodes[id].View()
    }

    static function Lookup(tables: map<string, Table>, id: string): Option<Table> {
      if id in tables then Some(tables[id]) else None
    }

    method OnRelease(key: string)
      modifies this`released
      ensures released == old(released) + [key]
    {
      released := released + [key];
    }

    // ----- lookups -----

    method FindCard(cards: seq<Card>, agent: string) returns (i: nat)
      ensures i == CardAt(cards, agent)
    {
      i := 0;
      while i < |cards| && cards[i].agent != agent
        invariant i <= |cards| && forall j | 0 <= j < i :: cards[j].agent != agent
      {
        i := i + 1;
      }
    }

    method FindHolder(cards: seq<Card>, call: string) returns (i: nat)
      ensures i == HolderOf(cards, call)
    {
      i := 0;
      while i < |cards| && cards[i].call != Some(call)
        invariant i <= |cards| && forall j | 0 <= j < i :: cards[j].call != Some(call)
      {
        i := i + 1;
      }
    }

    method FindOtherHolder(cards: seq<Card>, call: string, agent: string) returns (i: nat)
      ensures i == OtherHolder(cards, call, agent)
    {
      i := 0;
      while i < |cards| && !(cards[i].agent != agent && cards[i].call == Some(call))
        invariant i <= |cards| && forall j | 0 <= j < i :: !(cards[j].agent != agent && cards[j].call == Some(call))
      {
        i := i + 1;
      }
    }

    method FindWaiting(pending: seq<Pending>, call: string) returns (i: nat)
      ensures i == WaitingAt(pending, call)
    {
      i := 0;
      while i < |pending| && pending[i].call != call
        invariant i <= |pending| && forall j | 0 <= j < i :: pending[j].call != call
      {
        i := i + 1;
      }
    }

    /** Two searches of the queue: by equal types, then where a type is missing. */
    method FindNext(pending: seq<Pending>, hints: seq<Hint>, ty: Option<string>) returns (i: nat)
      ensures i == NextFor(pending, hints, ty)
    {
      var reserved := set h | h in hints :: h.call;
      i := 0;
      while i < |pending| && !(pending[i].call !in reserved && SameType(pending[i], ty))
        invariant i <= |pending| && forall j | 0 <= j < i :: !(pending[j].call !in reserved && SameType(pending[j], ty))
      {
        i := i + 1;
      }
      if i < |pending| { return; }
      i := 0;
      while i < |pending| && !(pending[i].call !in reserved && Untyped(pending[i], ty))
        invariant i <= |pending| && forall j | 0 <= j < i :: !(pending[j].call !in reserved && Untyped(pending[j], ty))
      {
        i := i + 1;
      }
    }

    // ----- pairing -----

    /** If the call had a card of its own on screen, that key is let go here. */
    method Replace(p: Pending) returns (superseded: string)
      modifies this`released
      ensures superseded == ReplacedKey(p) && released == old(released) + Replaced(p)
    {
      if !p.shown { return ""; }
      OnRelease(p.call);
      return p.call;
    }

    method BindNext(st: NodeState, k: nat) returns (superseded: string)
      requires k < |st.cards|
      modifies st, this`released
      ensures var r := Rules.BindNext(old(st.View()), k);
              st.View() == r.table && superseded == r.superseded && released == old(released) + r.released
    {
      var i := FindNext(st.pending, st.ackHints, st.cards[k].ty);
      if i == |st.pending| { return ""; }
      var p := st.pending[i];
      st.pending := Without(st.pending, i);
      st.cards := st.cards[k := Take(st.cards[k], p)];
      superseded := Replace(p);
    }

    /** A card that lost its call gets another if one waits, and its consumers hear of it. */
    method Refill(st: NodeState, o: nat, ev: Event) returns (out: seq<Event>)
      requires o < |st.cards|
      modifies st, this`released
      ensures var n := Rules.BindNext(old(st.View()), o);
              var owner := n.table.cards[o];
              && st.View() == n.table && released == old(released) + n.released
              && out == (if owner.working then [StartEvent(ev, owner, n.superseded)] else [])
                        + SupersededEnd(ev, n.superseded, owner.ty)
    {
      var superseded := BindNext(st, o);
      var owner := st.cards[o];
      out := if owner.working then [StartEvent(ev, owner, superseded)] else [];
      out := out + SupersededEnd(ev, superseded, owner.ty);
    }

    /** Give card `k` exactly `call`, from wherever it is. */
    method Bind(st: NodeState, k: nat, call: string, ev: Event) returns (superseded: string, out: seq<Event>)
      requires k < |st.cards|
      modifies st, this`released
      ensures var r := Rules.Bind(old(st.View()), k, call, ev);
              && st.View() == r.table && superseded == r.superseded
              && out == r.events && released == old(released) + r.released
    {
      superseded, out := "", [];
      var card := st.cards[k];
      var previous := GivenBack(card, call);
      var o := FindOtherHolder(st.cards, call, card.agent);
      var i := FindWaiting(st.pending, call);
      if o < |st.cards| {
        var owner := st.cards[o];
        st.cards := st.cards[k := Take(card, Pending(call, owner.ty, owner.task, false))];
        st.cards := st.cards[o := owner.(call := None, task := None)];
        st.pending := previous + st.pending;
        out := Refill(st, o, ev);
        assert Rules.Bind(old(st.View()), k, call, ev) == BindFromCard(old(st.View()), k, o, call, ev);
      } else if i < |st.pending| {
        var p := st.pending[i];
        st.pending := previous + Without(st.pending, i);
        st.cards := st.cards[k := Take(card, p)];
        superseded := Replace(p);
        assert Rules.Bind(old(st.View()), k, call, ev) == BindFromQueue(old(st.View()), k, i, call);
      } else {
        st.pending := previous + st.pending;
        st.cards := st.cards[k := card.(call := Some(call))];
        assert Rules.Bind(old(st.View()), k, call, ev) == BindUnknown(old(st.View()), k, call);
      }
    }

    method Evict(st: NodeState)
      modifies st`cards
      ensures st.cards == Rules.Evict(old(st.cards))
    {
      if |st.cards| <= CARDS_MAX { return; }
      var i := 0;
      while i < |st.cards|
        invariant i <= |st.cards| && |st.cards| > CARDS_MAX
        invariant EvictFrom(st.cards, i) == EvictFrom(old(st.cards), 0)
        decreases |st.cards| - i
      {
        if !st.cards[i].working {
          st.cards := Without(st.cards, i);
          if |st.cards| <= CARDS_MAX { return; }
        } else {
          i := i + 1;
        }
      }
      st.cards := st.cards[1..];
    }

    // ----- the rules -----

    /** The node's state for this event; a different session starts over. */
    method State(ev: Event) returns (st: NodeState)
      requires Valid()
      modifies this`nodes, States()
      ensures Valid() && ev.nodeId in nodes && st == nodes[ev.nodeId] && (st in old(States()) || fresh(st))
      ensures st.View() == Current(Lookup(old(Tables()), ev.nodeId), ev)
      ensures Tables() == old(Tables())[ev.nodeId := st.View()]
    {
      if ev.nodeId !in nodes || OtherSession(nodes[ev.nodeId].View(), ev) {
        st := new NodeState(ev.sessionId);
        nodes := nodes[ev.nodeId := st];
      } else {
        st := nodes[ev.nodeId];
        if st.session == "" { st.session := ev.sessionId; }
      }
    }

    method ToolStart(st: NodeState, ev: Event) returns (out: seq<Event>)
      modifies st`pending
      ensures var r := Rules.ToolStart(old(st.View()), ev); Some(st.View()) == r.table && out == r.events && r.released == []
    {
      var shown := !st.native;
      st.pending := st.pending + [Pending(ev.key, ev.ty, ev.task, shown)];
      if |st.pending| > PENDING_MAX { st.pending := st.pending[1..]; }
      out := if shown then [ev] else [];
    }

    method NativeStart(st: NodeState, ev: Event) returns (out: seq<Event>)
      modifies st, this`released
      ensures var r := Rules.NativeStart(old(st.View()), ev);
              Some(st.View()) == r.table && out == r.events && released == old(released) + r.released
    {
      st.native := true;
      var k := FindCard(st.cards, ev.key);
      if k < |st.cards| {
        st.cards := st.cards[k := st.cards[k].(working := true)];
        return [StartEvent(ev, st.cards[k], "")];
      }
      EvictKeepsLast(st.cards + [Card(ev.key, None, ev.ty, None, true)]);
      st.cards := st.cards + [Card(ev.key, None, ev.ty, None, true)];
      Evict(st);
      var last := |st.cards| - 1;
      var h := HintAt(st.ackHints, ev.key);
      var hinted := "";
      if h < |st.ackHints| {
        hinted := st.ackHints[h].call;
        st.ackHints := Without(st.ackHints, h);
      }
      assert st.View() == Opened(old(st.View()), ev);
      var superseded;
      if hinted != "" {
        superseded, out := Bind(st, last, hinted, ev);
      } else {
        superseded := BindNext(st, last);
        out := [];
      }
      out := [StartEvent(ev, st.cards[last], superseded)] + SupersededEnd(ev, superseded, st.cards[last].ty) + out;
    }

    method Ack(st: NodeState, ev: Event, launch: Launch) returns (out: seq<Event>)
      modifies st, this`released
      ensures var r := Rules.Ack(old(st.View()), ev, launch);
              Some(st.View()) == r.table && out == r.events && released == old(released) + r.released
    {
      var k := FindCard(st.cards, launch.agent);
      if k == |st.cards| {
        var h := HintAt(st.ackHints, launch.agent);
        var hint := Hint(launch.agent, launch.call);
        st.ackHints := if h < |st.ackHints| then st.ackHints[h := hint] else st.ackHints + [hint];
        if |st.ackHints| > HINTS_MAX { st.ackHints := st.ackHints[1..]; }
        return [ev];
      }
      if st.cards[k].call == Some(launch.call) { return [ev]; }
      var superseded, corrections := Bind(st, k, launch.call, ev);
      var card := st.cards[k];
      out := [ev] + (if card.working then [StartEvent(ev, card, superseded)] else [])
        + SupersededEnd(ev, superseded, card.ty) + corrections;
    }

    method NativeEnd(st: NodeState, ev: Event) returns (out: seq<Event>)
      modifies st`cards, this`released
      ensures var r := Rules.NativeEnd(Some(old(st.View())), ev);
              Some(st.View()) == r.table && out == r.events && released == old(released) + r.released
    {
      var k := FindCard(st.cards, ev.key);
      if (ev.sessionId != "" && st.session != ev.sessionId) || k == |st.cards| { return []; }
      var card := st.cards[k];
      st.cards := st.cards[k := card.(working := false)];
      if card.working { OnRelease(ev.key); }
      return [ev.(ty := if ev.ty.Some? then ev.ty else card.ty)];
    }

    /** An end that names card `k` while it holds another call first gives it its own. */
    method Settle(st: NodeState, k: nat, ev: Event) returns (fixes: seq<Event>)
      requires k < |st.cards| && k == Ended(st.View(), ev)
      modifies st, this`released
      ensures var t := old(st.View());
              var b := if Mispaired(t, ev) then Rules.Bind(t, k, ev.key, ev) else Pairing(t, "", [], []);
              && st.View() == b.table && released == old(released) + b.released
              && fixes == b.events + SupersededEnd(ev, b.superseded, b.table.cards[k].ty)
    {
      if Mispaired(st.View(), ev) {
        var superseded, corrections := Bind(st, k, ev.key, ev);
        fixes := corrections + SupersededEnd(ev, superseded, st.cards[k].ty);
      } else {
        fixes := [];
      }
    }

    method ToolEnd(st: NodeState, ev: Event) returns (out: seq<Event>)
      modifies st, this`released
      ensures var r := Rules.ToolEnd(Some(old(st.View())), ev);
              Some(st.View()) == r.table && out == r.events && released == old(released) + r.released
    {
      hide Rules.Bind, Rules.Mispaired, Rules.SupersededEnd, Rules.CardAt, Rules.HolderOf, Rules.WaitingAt;
      var k := |st.cards|;
      if ev.child != "" { k := FindCard(st.cards, ev.child); }
      if k == |st.cards| { k := FindHolder(st.cards, ev.key); }
      if k < |st.cards| {
        var fixes := Settle(st, k, ev);
        var card := st.cards[k];
        if card.working { OnRelease(card.agent); }
        st.cards := st.cards[k := card.(working := false)];
        out := [ev.(key := card.agent)] + fixes;
        return;
      }
      var i := FindWaiting(st.pending, ev.key);
      if i < |st.pending| {
        var p := st.pending[i];
        st.pending := Without(st.pending, i);
        return if p.shown then [ev] else [];
      }
      return [ev];
    }

    /** One card more, left in the table. */
    static lemma {:induction false} SettledPush(cards: seq<Card>, c: Card, alive: set<string>)
      ensures Settled(cards + [c], alive) == Settled(cards, alive) + [c.(working := c.working && c.agent in alive)]
    {
      if cards == [] {
        assert cards + [c] == [c] && [c][1..] == [];
      } else {
        assert (cards + [c])[1..] == cards[1..] + [c] && (cards + [c])[0] == cards[0];
        SettledPush(cards[1..], c, alive);
      }
    }

    /** One card more, ended or not. */
    static lemma {:induction false} GonePush(cards: seq<Card>, c: Card, alive: set<string>)
      ensures Gone(cards + [c], alive) == Gone(cards, alive) + if c.working && c.agent !in alive then [c] else []
    {
      if cards == [] {
        assert cards + [c] == [c] && [c][1..] == [];
      } else {
        assert (cards + [c])[1..] == cards[1..] + [c] && (cards + [c])[0] == cards[0];
        GonePush(cards[1..], c, alive);
        var first := if cards[0].working && cards[0].agent !in alive then [cards[0]] else [];
        var last := if c.working && c.agent !in alive then [c] else [];
        assert Gone(cards + [c], alive) == first + Gone(cards[1..] + [c], alive);
        assert Gone(cards, alive) == first + Gone(cards[1..], alive);
        assert (first + Gone(cards[1..], alive)) + last == first + (Gone(cards[1..], alive) + last);
      }
    }

    static lemma {:induction false} EndsPush(cards: seq<Card>, c: Card, ev: Event)
      ensures CardEnds(ev, cards + [c]) == CardEnds(ev, cards) + [EndEvent(ev, c.agent, c.ty, Native)]
      ensures CardKeys(cards + [c]) == CardKeys(cards) + [c.agent]
    {
      if cards == [] {
        assert cards + [c] == [c] && [c][1..] == [];
      } else {
        assert (cards + [c])[1..] == cards[1..] + [c] && (cards + [c])[0] == cards[0];
        EndsPush(cards[1..], c, ev);
      }
    }

    /** One card more of the table, ended or left. */
    static lemma EndedSoFar(cards: seq<Card>, i: nat, ev: Event, alive: set<string>)
      requires i < |cards|
      ensures var c := cards[i];
              var ends := c.working && c.agent !in alive;
              && Settled(cards[..i + 1], alive) == Settled(cards[..i], alive) + [c.(working := c.working && c.agent in alive)]
              && CardEnds(ev, Gone(cards[..i + 1], alive)) == CardEnds(ev, Gone(cards[..i], alive)) + (if ends then [EndEvent(ev, c.agent, c.ty, Native)] else [])
              && CardKeys(Gone(cards[..i + 1], alive)) == CardKeys(Gone(cards[..i], alive)) + (if ends then [c.agent] else [])
    {
      hide *;
      assert cards[..i + 1] == cards[..i] + [cards[i]];
      GonePush(cards[..i], cards[i], alive);
      SettledPush(cards[..i], cards[i], alive);
      EndsPush(Gone(cards[..i], alive), cards[i], ev);
      assert Gone(cards[..i], alive) + [] == Gone(cards[..i], alive);
    }

    static lemma Regroup<T>(a: seq<T>, b: seq<T>, c: seq<T>)
      ensures (a + b) + c == a + (b + c)
    {
    }

    static lemma ReplaceNext<T>(done: seq<T>, all: seq<T>, i: nat, x: T)
      requires |done| == i < |all|
      ensures (done + all[i..])[i := x] == (done + [x]) + all[i + 1..]
    {
    }

    /** End card `i` if it works and the inventory no longer lists it. */
    method EndIfGone(st: NodeState, i: nat, ev: Event, alive: set<string>) returns (out: seq<Event>)
      requires i < |st.cards|
      modifies st`cards, this`released
      ensures var c := old(st.cards[i]);
              var ends := c.working && c.agent !in alive;
              && st.cards == old(st.cards)[i := c.(working := c.working && c.agent in alive)]
              && out == (if ends then [EndEvent(ev, c.agent, c.ty, Native)] else [])
              && released == old(released) + (if ends then [c.agent] else [])
    {
      out := [];
      var card := st.cards[i];
      st.cards := st.cards[i := card.(working := card.working && card.agent in alive)];
      if card.working && card.agent !in alive {
        OnRelease(card.agent);
        out := [EndEvent(ev, card.agent, card.ty, Native)];
      }
    }

    /** End the working cards the inventory no longer lists. */
    method EndGone(st: NodeState, ev: Event, alive: set<string>) returns (out: seq<Event>)
      modifies st`cards, this`released
      ensures st.cards == Settled(old(st.cards), alive)
      ensures out == CardEnds(ev, Gone(old(st.cards), alive))
      ensures released == old(released) + CardKeys(Gone(old(st.cards), alive))
    {
      out := [];
      ghost var cards, start := st.cards, released;
      for i := 0 to |st.cards|
        invariant st.cards == Settled(cards[..i], alive) + cards[i..]
        invariant out == CardEnds(ev, Gone(cards[..i], alive))
        invariant released == start + CardKeys(Gone(cards[..i], alive))
      {
        hide *;
        ghost var settled, keys := Settled(cards[..i], alive), CardKeys(Gone(cards[..i], alive));
        var card := st.cards[i];
        assert card == cards[i];
        EndedSoFar(cards, i, ev, alive);
        var ended := EndIfGone(st, i, ev, alive);
        out := out + ended;
        ReplaceNext(settled, cards, i, st.cards[i]);
        Regroup(start, keys, if card.working && card.agent !in alive then [card.agent] else []);
      }
      assert cards[..|cards|] == cards && cards[|cards|..] == [];
    }

    static lemma {:induction false} CallsPush(pending: seq<Pending>, p: Pending, ev: Event)
      ensures CallEnds(ev, pending + [p]) == CallEnds(ev, pending) + if p.shown then [EndEvent(ev, p.call, p.ty, Tool)] else []
      ensures ShownCalls(pending + [p]) == ShownCalls(pending) + if p.shown then [p.call] else []
    {
      if pending == [] {
        assert pending + [p] == [p] && [p][1..] == [];
      } else {
        var rest := pending[1..];
        assert (pending + [p])[1..] == rest + [p] && (pending + [p])[0] == pending[0];
        CallsPush(rest, p, ev);
        var first := if pending[0].shown then [EndEvent(ev, pending[0].call, pending[0].ty, Tool)] else [];
        var last := if p.shown then [EndEvent(ev, p.call, p.ty, Tool)] else [];
        assert (first + CallEnds(ev, rest)) + last == first + (CallEnds(ev, rest) + last);
        var firstKey, lastKey := Replaced(pending[0]), if p.shown then [p.call] else [];
        assert (firstKey + ShownCalls(rest)) + lastKey == firstKey + (ShownCalls(rest) + lastKey);
      }
    }

    /** End the cards drawn for calls whose child never started. */
    method EndWaiting(st: NodeState, ev: Event) returns (out: seq<Event>)
      modifies this`released
      ensures out == CallEnds(ev, st.pending) && released == old(released) + ShownCalls(st.pending)
    {
      out := [];
      for i := 0 to |st.pending|
        invariant out == CallEnds(ev, st.pending[..i])
        invariant released == old(released) + ShownCalls(st.pending[..i])
      {
        hide *;
        var p := st.pending[i];
        assert st.pending[..i + 1] == st.pending[..i] + [p];
        CallsPush(st.pending[..i], p, ev);
        if p.shown {
          OnRelease(p.call);
          out := out + [EndEvent(ev, p.call, p.ty, Tool)];
        }
      }
      assert st.pending[..|st.pending|] == st.pending;
    }

    method TurnEnd(st: NodeState, ev: Event) returns (out: seq<Event>)
      modifies st, this`released
      ensures var r := Rules.TurnEnd(Some(old(st.View())), ev);
              Some(st.View()) == r.table && out == r.events && released == old(released) + r.released
    {
      if !st.native || (ev.sessionId != "" && st.session != ev.sessionId) { return [ev]; }
      out := [ev];
      if ev.background.Some? {
        var ends := EndGone(st, ev, ev.background.value);
        out := out + ends;
      }
      var ends := EndWaiting(st, ev);
      out := out + ends;
      st.pending := [];
    }

    /** The tables are as `r` says for node `id`, and untouched for every other node. */
    ghost predicate Now(before: map<string, Table>, id: string, r: Outcome)
      reads this, States()
    {
      Tables() == if r.table.Some? then before[id := r.table.value] else before - {id}
    }

    /** Ends for a node that is not tracked. */
    static lemma Untracked(ev: Event)
      ensures Rules.TurnEnd(None, ev) == Outcome(None, [ev], [])
      ensures Rules.NativeEnd(None, ev) == Outcome(None, [], [])
      ensures Rules.ToolEnd(None, ev) == Outcome(None, [ev], [])
    {
    }

    method ApplyState(ev: Event) returns (out: seq<Event>)
      requires Valid() && ev.kind == Kind.State
      modifies this, States()
      ensures Valid()
      ensures var r := Rules.Apply(Lookup(old(Tables()), ev.nodeId), ev);
              out == r.events && released == old(released) + r.released && Now(old(Tables()), ev.nodeId, r)
    {
      hide Rules.Ack, Rules.TurnEnd, Rules.NativeStart, Rules.ToolStart, Rules.NativeEnd, Rules.ToolEnd;
      Untracked(ev);
      if ev.launch.Some? {
        var st := State(ev);
        out := Ack(st, ev, ev.launch.value);
      } else if ev.done && !ev.idle && ev.nodeId in nodes {
        out := TurnEnd(nodes[ev.nodeId], ev);
      } else {
        out := [ev];
      }
    }

    static lemma StartRule(st: Option<Table>, ev: Event)
      requires ev.kind == SubagentStart && ev.signal.Some? && ev.key != ""
      ensures Rules.Apply(st, ev) == if ev.signal == Some(Native) then Rules.NativeStart(Current(st, ev), ev) else Rules.ToolStart(Current(st, ev), ev)
    {
    }

    method ApplyStart(ev: Event) returns (out: seq<Event>)
      requires Valid() && ev.kind == SubagentStart && ev.signal.Some? && ev.key != ""
      modifies this, States()
      ensures Valid()
      ensures var r := Rules.Apply(Lookup(old(Tables()), ev.nodeId), ev);
              out == r.events && released == old(released) + r.released && Now(old(Tables()), ev.nodeId, r)
    {
      hide Rules.Apply, Rules.Current, Rules.NativeStart, Rules.ToolStart, Lookup;
      StartRule(Lookup(Tables(), ev.nodeId), ev);
      var st := State(ev);
      ghost var mid, first := Tables(), st.View();
      assert forall a | a in nodes && a != ev.nodeId :: nodes[a] != st && mid[a] == nodes[a].View();
      out := Start(st, ev);
      OneChanged(mid, ev.nodeId);
      hide *;
      Overwrite(old(Tables()), ev.nodeId, first, st.View());
      assert Tables() == old(Tables())[ev.nodeId := st.View()];
      NowIs(old(Tables()), ev.nodeId, Rules.Apply(Lookup(old(Tables()), ev.nodeId), ev));
    }

    static lemma Overwrite(m: map<string, Table>, id: string, a: Table, b: Table)
      ensures m[id := a][id := b] == m[id := b]
    {
    }

    lemma NowIs(before: map<string, Table>, id: string, r: Outcome)
      requires r.table.Some? && Tables() == before[id := r.table.value]
      ensures Now(before, id, r)
    {
    }

    /** Only one node's table moved. */
    lemma OneChanged(before: map<string, Table>, id: string)
      requires nodes.Keys == before.Keys && id in nodes
      requires forall a | a in nodes && a != id :: nodes[a].View() == before[a]
      ensures Tables() == before[id := nodes[id].View()]
    {
    }

    method Start(st: NodeState, ev: Event) returns (out: seq<Event>)
      modifies st, this`released
      ensures var r := if ev.signal == Some(Native) then Rules.NativeStart(old(st.View()), ev) else Rules.ToolStart(old(st.View()), ev);
              Some(st.View()) == r.table && out == r.events && released == old(released) + r.released
    {
      hide Rules.NativeStart, Rules.ToolStart;
      if ev.signal == Some(Native) { out := NativeStart(st, ev); } else { out := ToolStart(st, ev); }
    }

    method ApplyEnd(ev: Event) returns (out: seq<Event>)
      requires Valid() && ev.kind == SubagentEnd && ev.signal.Some? && ev.key != ""
      modifies this, States()
      ensures Valid()
      ensures var r := Rules.Apply(Lookup(old(Tables()), ev.nodeId), ev);
              out == r.events && released == old(released) + r.released && Now(old(Tables()), ev.nodeId, r)
    {
      hide Rules.Ack, Rules.TurnEnd, Rules.NativeStart, Rules.ToolStart, Rules.NativeEnd, Rules.ToolEnd;
      Untracked(ev);
      if ev.nodeId !in nodes {
        out := if ev.signal == Some(Native) then [] else [ev];
      } else if ev.signal == Some(Native) {
        out := NativeEnd(nodes[ev.nodeId], ev);
      } else {
        out := ToolEnd(nodes[ev.nodeId], ev);
      }
    }

    /** The entry point: one event in, the events for the consumers out. */
    method Apply(ev: Event) returns (out: seq<Event>)
      requires Valid()
      modifies this, States()
      ensures Valid()
      ensures ev.nodeId == "" ==> out == [ev] && Tables() == old(Tables()) && released == old(released)
      ensures ev.nodeId != "" ==>
                var r := Rules.Apply(Lookup(old(Tables()), ev.nodeId), ev);
                out == r.events && released == old(released) + r.released && Now(old(Tables()), ev.nodeId, r)
    {
      if ev.nodeId == "" { return [ev]; }
      if ev.kind == Kind.Session && ev.sessionEnd {
        nodes := nodes - {ev.nodeId};
        return [ev];
      }
      if ev.kind == Kind.State {
        out := ApplyState(ev);
      } else if ev.signal.None? || ev.key == "" {
        out := [ev];
      } else if ev.kind == SubagentStart {
        out := ApplyStart(ev);
      } else if ev.kind == SubagentEnd {
        out := ApplyEnd(ev);
      } else {
        out := [ev];
      }
    }
  }
}
