/**
 * The cap on the queue of waiting calls holds where calls are issued, not where
 * pairing puts them back: exactly when one event passes it, and a run that does.
 */
module SubagentQueue {
  import opened Options
  import opened SubagentRules
  import opened SubagentLedger
  import opened SubagentBounds

  /**
   * Binding card `k` to `call` makes the queue one longer: the card holds another call, and no waiting
   * call leaves for it, neither `call` itself nor one for the card `call` is taken from.
   */
  predicate PutsBackOneMore(t: Table, k: nat, call: string)
    requires k < |t.cards|
  {
    && GivenBack(t.cards[k], call) != []
    && var o, queue := OtherHolder(t.cards, call, t.cards[k].agent), GivenBack(t.cards[k], call) + t.pending;
       if o < |t.cards| then NextFor(queue, t.hints, t.cards[o].ty) == |queue|
       else WaitingAt(t.pending, call) == |t.pending|
  }

  /** The event is an ack, or an exact end of a mispaired card, that puts back one call more than it takes. */
  predicate Overfills(t: Table, ev: Event) {
    if ev.kind == State && ev.launch.Some? then
      !OtherSession(t, ev) &&
      var k := CardAt(t.cards, ev.launch.value.agent);
      k < |t.cards| && PutsBackOneMore(t, k, ev.launch.value.call)
    else
      ev.kind == SubagentEnd && ev.signal.Some? && ev.signal != Some(Native) && ev.key != "" && Mispaired(t, ev)
      && PutsBackOneMore(t, CardAt(t.cards, ev.child), ev.key)
  }

  lemma BindQueue(t: Table, k: nat, call: string, ev: Event)
    requires k < |t.cards|
    ensures |Bind(t, k, call, ev).table.pending| <= |t.pending| + One(PutsBackOneMore(t, k, call))
    ensures PutsBackOneMore(t, k, call) ==> |Bind(t, k, call, ev).table.pending| == |t.pending| + 1
  {
    var o := OtherHolder(t.cards, call, t.cards[k].agent);
    if o < |t.cards| {
      var mine := Take(t.cards[k], Pending(call, t.cards[o].ty, t.cards[o].task, false));
      var bare := t.cards[o].(call := None, task := None);
      assert t.cards[k := mine][o := bare][o].ty == t.cards[o].ty;
    }
  }

  /** A card without a call puts nothing back. */
  lemma NativeStartQueue(t: Table, ev: Event)
    requires ev.signal == Some(Native)
    ensures |NativeStart(t, ev).table.value.pending| <= |t.pending|
  {
    hide Bind;
    if CardAt(t.cards, ev.key) == |t.cards| {
      var o := Opened(t, ev);
      BindQueue(o, |o.cards| - 1, Hinted(t, ev.key), ev);
    }
  }

  function Waiting(st: Option<Table>): seq<Pending> {
    if st.Some? then st.value.pending else []
  }

  /** One event takes the queue past its cap if and only if it finds the queue full and overfills it. */
  lemma QueuePassesItsCapExactlyWhen(st: Option<Table>, ev: Event)
    requires |Waiting(st)| <= PENDING_MAX
    ensures |Waiting(Apply(st, ev).table)| > PENDING_MAX
            <==> st.Some? && |st.value.pending| == PENDING_MAX && Overfills(st.value, ev)
    ensures |Waiting(Apply(st, ev).table)| <= PENDING_MAX + 1
  {
    hide Bind, NativeStart, PutsBackOneMore;
    var t := Current(st, ev);
    if ev.kind == State && ev.launch.Some? {
      var k := CardAt(t.cards, ev.launch.value.agent);
      if k < |t.cards| {
        BindQueue(t, k, ev.launch.value.call, ev);
        HeldAlready(t, k, ev.launch.value.call);
        if st.Some? && !OtherSession(st.value, ev) { SameQueueRule(st.value, t, k, ev.launch.value.call); }
      }
    } else if ev.kind == SubagentStart && ev.signal == Some(Native) {
      NativeStartQueue(t, ev);
    } else if ev.kind == SubagentEnd && st.Some? && Mispaired(st.value, ev) {
      BindQueue(st.value, CardAt(st.value.cards, ev.child), ev.key, ev);
    }
  }

  lemma HeldAlready(t: Table, k: nat, call: string)
    requires k < |t.cards|
    ensures t.cards[k].call == Some(call) ==> !PutsBackOneMore(t, k, call)
  {
  }

  /** Filling in the session id changes nothing about the queue. */
  lemma SameQueueRule(t: Table, t': Table, k: nat, call: string)
    requires t' == t.(session := t'.session) && k < |t.cards|
    ensures PutsBackOneMore(t, k, call) == PutsBackOneMore(t', k, call)
  {
  }

  // ----- a run that passes the cap -----

  function Call(id: string, ty: string): Event {
    Event("node", "claude", "", None, SubagentStart, false, false, false, id, Some(ty), None, Some(Tool), "", "", None, None, 0)
  }

  function Child(id: string, ty: string): Event {
    Call(id, ty).(signal := Some(Native))
  }

  function AckOf(call: string, agent: string): Event {
    Event("node", "claude", "", None, State, false, false, false, "", None, None, None, "", "", Some(Launch(call, agent)), None, 0)
  }

  function Id(n: nat): string {
    seq(n + 2, _ => 'b')
  }

  function Calls(n: nat): seq<Event> {
    if n == 0 then [] else Calls(n - 1) + [Call(Id(n - 1), "B")]
  }

  function Queue(n: nat): seq<Pending> {
    seq(n, i requires 0 <= i => Pending(Id(i), Some("B"), None, false))
  }

  /** Two paired children and `n` calls of another type waiting. */
  function Filled(n: nat): Table {
    Table("", true, Queue(n), [Card("c1", Some("x"), Some("A"), None, true), Card("c2", Some("y"), Some("C"), None, true)], [])
  }

  /** Two calls and their children, then `n` calls whose children have not started. */
  function Issued(n: nat): seq<Event> {
    [Call("x", "A"), Child("c1", "A"), Call("y", "C"), Child("c2", "C")] + Calls(n)
  }

  lemma RunPush(evs: seq<Event>, ev: Event)
    ensures Run(None, evs + [ev]) == Apply(Run(None, evs), ev).table
    ensures KnownRun(evs + [ev]) <==> KnownRun(evs) && NamesKnownCall(Run(None, evs), ev)
    ensures FreshRun(evs + [ev]) <==> FreshRun(evs) && FreshCall(Run(None, evs), ev)
  {
    assert (evs + [ev])[..|evs|] == evs;
  }

  lemma QueueIds(n: nat, call: string)
    requires forall i | 0 <= i < n :: Id(i) != call
    ensures WaitingCount(Queue(n), call) == 0
  {
    WaitingIffFound(Queue(n), call);
  }

  lemma IdsDiffer(i: nat, n: nat)
    requires i != n
    ensures Id(i) != Id(n)
  {
    assert |Id(i)| == i + 2 && |Id(n)| == n + 2;
  }

  /** A good step of a good run. */
  lemma RunStep(evs: seq<Event>, st: Option<Table>, ev: Event, st': Option<Table>)
    requires Run(None, evs) == st && KnownRun(evs) && FreshRun(evs)
    requires Apply(st, ev).table == st' && NamesKnownCall(st, ev) && FreshCall(st, ev)
    ensures Run(None, evs + [ev]) == st' && KnownRun(evs + [ev]) && FreshRun(evs + [ev])
  {
    RunPush(evs, ev);
  }

  function Told(call: string, ty: string, native: bool, cards: seq<Card>): Table {
    Table("", native, [Pending(call, Some(ty), None, !native)], cards, [])
  }

  function CardOf(agent: string, call: string, ty: string): Card {
    Card(agent, Some(call), Some(ty), None, true)
  }

  /** Nobody waits, so a call told now is the whole queue. */
  lemma Tell(st: Option<Table>, call: string, ty: string)
    requires call != ""
    requires st.Some? ==> st.value == Table("", true, [], st.value.cards, []) && HeldCount(st.value.cards, call) == 0
    ensures var ev := Call(call, ty);
            && Apply(st, ev).table == Some(Told(call, ty, st.Some?, if st.Some? then st.value.cards else []))
            && NamesKnownCall(st, ev) && FreshCall(st, ev)
  {
    var p := Pending(call, Some(ty), None, st.None?);
    assert [] + [p] == [p];
  }

  /** A child of the only waiting call's type takes it. */
  lemma Start(call: string, agent: string, ty: string, native: bool, cards: seq<Card>)
    requires agent != "" && |cards| < CARDS_MAX && forall c | c in cards :: c.agent != agent
    ensures var told, ev := Told(call, ty, native, cards), Child(agent, ty);
            && Apply(Some(told), ev).table == Some(Table("", true, [], cards + [CardOf(agent, call, ty)], []))
            && NamesKnownCall(Some(told), ev) && FreshCall(Some(told), ev)
  {
    hide Opened, BindNext, Bind, Evict;
    var told, ev := Told(call, ty, native, cards), Child(agent, ty);
    var o := Opened(told, ev);
    OpensOne(told, ev);
    TakesTheOnlyCall(o, cards, call, agent, ty);
    assert Apply(Some(told), ev) == NativeStart(told, ev) by { assert Current(Some(told), ev) == told; }
    assert Hinted(told, agent) == "";
  }

  lemma OpensOne(t: Table, ev: Event)
    requires |t.cards| < CARDS_MAX && t.hints == []
    ensures Opened(t, ev) == t.(native := true, cards := t.cards + [Card(ev.key, None, ev.ty, None, true)])
  {
  }

  lemma TakesTheOnlyCall(o: Table, cards: seq<Card>, call: string, agent: string, ty: string)
    requires o == Table("", true, o.pending, cards + [Card(agent, None, Some(ty), None, true)], [])
    requires |o.pending| == 1 && o.pending[0].call == call && o.pending[0].ty == Some(ty) && o.pending[0].task == None
    ensures BindNext(o, |cards|).table == Table("", true, [], cards + [CardOf(agent, call, ty)], [])
  {
    FirstOfItsType(o.pending, Some(ty));
    assert Without(o.pending, 0) == [];
    assert o.cards[|cards| := CardOf(agent, call, ty)] == cards + [CardOf(agent, call, ty)];
  }

  lemma FirstOfItsType(pending: seq<Pending>, ty: Option<string>)
    requires |pending| == 1 && SameType(pending[0], ty)
    ensures NextFor(pending, [], ty) == 0
  {
    assert !Reserved([], pending[0].call);
  }

  lemma TwoChildren()
    ensures Run(None, Issued(0)) == Some(Filled(0)) && KnownRun(Issued(0)) && FreshRun(Issued(0))
  {
    hide Apply, NamesKnownCall, FreshCall;
    var e1, e2, e3, e4 := Call("x", "A"), Child("c1", "A"), Call("y", "C"), Child("c2", "C");
    var one := [CardOf("c1", "x", "A")];
    var paired := Some(Table("", true, [], one, []));
    Tell(None, "x", "A");
    Start("x", "c1", "A", false, []);
    assert [] + one == one;
    HeldIffFound(one, "y");
    Tell(paired, "y", "C");
    Start("y", "c2", "C", true, one);
    RunStep([], None, e1, Some(Told("x", "A", false, [])));
    RunStep([e1], Some(Told("x", "A", false, [])), e2, paired);
    RunStep([e1, e2], paired, e3, Some(Told("y", "C", true, one)));
    assert [] + [e1] == [e1] && [e1] + [e2] == [e1, e2] && [e1, e2] + [e3] == [e1, e2, e3];
    assert one + [CardOf("c2", "y", "C")] == Filled(0).cards && Queue(0) == [];
    RunStep([e1, e2, e3], Some(Told("y", "C", true, one)), e4, Some(Filled(0)));
    assert Issued(0) == [e1, e2, e3] + [e4];
  }

  /** One more call of the third type joins the queue. */
  lemma FillStep(n: nat)
    requires n < PENDING_MAX
    ensures var st, ev := Some(Filled(n)), Call(Id(n), "B");
            Apply(st, ev).table == Some(Filled(n + 1)) && NamesKnownCall(st, ev) && FreshCall(st, ev)
  {
    forall i | 0 <= i < n ensures Id(i) != Id(n) { IdsDiffer(i, n); }
    QueueIds(n, Id(n));
    assert |Id(n)| >= 2;
    HeldIffFound(Filled(n).cards, Id(n));
    assert Queue(n) + [Pending(Id(n), Some("B"), None, false)] == Queue(n + 1);
  }

  lemma IssueOneMore(n: nat)
    requires n > 0
    ensures Issued(n) == Issued(n - 1) + [Call(Id(n - 1), "B")]
  {
  }

  lemma {:induction false} Fill(n: nat)
    requires n <= PENDING_MAX
    ensures Run(None, Issued(n)) == Some(Filled(n)) && KnownRun(Issued(n)) && FreshRun(Issued(n))
  {
    hide *;
    if n == 0 {
      TwoChildren();
    } else {
      IssueOneMore(n);
      Fill(n - 1);
      FillStep(n - 1);
      RunStep(Issued(n - 1), Some(Filled(n - 1)), Call(Id(n - 1), "B"), Some(Filled(n)));
    }
  }

  /**
   * A run from nothing, with fresh ids and every named call still waiting or held, passes the cap: 64
   * calls wait when an ack shows that two children hold each other's calls the wrong way round.
   */
  lemma QueueCanPassItsCap()
    ensures exists evs :: KnownRun(evs) && FreshRun(evs) && |Waiting(Run(None, evs))| == 65
  {
    hide *;
    Fill(PENDING_MAX);
    var evs, ev := Issued(PENDING_MAX), AckOf("y", "c1");
    RunPush(evs, ev);
    FullAndMispaired(Filled(PENDING_MAX), ev);
    PassesNow(Filled(PENDING_MAX), ev);
    assert KnownRun(evs + [ev]);
  }

  lemma PassesNow(t: Table, ev: Event)
    requires |t.pending| == PENDING_MAX && Overfills(t, ev)
    ensures |Waiting(Apply(Some(t), ev).table)| == 65 && FreshCall(Some(t), ev)
  {
    hide Apply, PutsBackOneMore;
    QueuePassesItsCapExactlyWhen(Some(t), ev);
  }

  lemma FullAndMispaired(t: Table, ev: Event)
    requires t == Filled(PENDING_MAX) && ev == AckOf("y", "c1")
    ensures Overfills(t, ev) && |t.pending| == PENDING_MAX && NamesKnownCall(Some(t), ev)
  {
    assert CardAt(t.cards, "c1") == 0;
    assert OtherHolder(t.cards, "y", "c1") == 1;
    var queue := GivenBack(t.cards[0], "y") + t.pending;
    assert forall p | p in queue :: p.ty != Some("C") && p.ty.Some?;
    assert HeldCount(t.cards, "y") > 0 by { HeldIffFound(t.cards, "y"); }
  }
}
