/**
 * A run of one session in which every ack is truthful and every table has room,
 * and a child is left without its label all the same: the parent's turn ends
 * between the child's ack and its start.
 */
module SubagentLabels {
  import opened Options
  import opened SubagentRules
  import opened SubagentLedger
  import opened SubagentBounds
  import opened SubagentPairing
  import opened SubagentQueue

  function TurnOver(): Event {
    Event("node", "claude", "", None, State, false, true, false, "", None, None, None, "", "", None, None, 0)
  }

  const TRUTH: Truth := map["c1" := "x"]
  const OTHER: Card := Card("c0", None, Some("B"), None, true)

  /** Another child has started: the node is native, and nothing waits. */
  function Alone(): Table {
    Table("", true, [], [OTHER], [])
  }

  /** A call labelled `words` waits, acknowledged as the child `c1`'s or not yet. */
  function Waits(words: string, hints: seq<Hint>): Table {
    Alone().(pending := [Pending("x", Some("A"), Some(words), false)], hints := hints)
  }

  function Issue(words: string): Event {
    Call("x", "A").(task := Some(words))
  }

  /** Another child's start, the call, its ack, the end of the turn. */
  function UpToTurnEnd(words: string): (evs: seq<Event>)
    ensures |evs| == 4
  {
    [Child("c0", "B"), Issue(words), AckOf("x", "c1"), TurnOver()]
  }

  /** And then the child's start. */
  function LosingRun(words: string): (evs: seq<Event>)
    ensures |evs| == 5 && evs[..4] == UpToTurnEnd(words) && evs[..3] == UpToTurnEnd(words)[..3]
  {
    UpToTurnEnd(words) + [Child("c1", "A")]
  }

  lemma HistoryPush(evs: seq<Event>, ev: Event, truth: Truth)
    ensures History(evs + [ev]) == Next(History(evs), ev)
    ensures TruthfulRun(evs + [ev], truth) <==> TruthfulRun(evs, truth) && Truthful(ev, truth) && Roomy(History(evs).st, ev)
  {
    assert (evs + [ev])[..|evs|] == evs;
  }

  lemma OtherStarts()
    ensures var ev := Child("c0", "B");
            && Next(World(None, {}, map[]), ev) == World(Some(Alone()), {}, map[]) && Roomy(None, ev)
  {
    hide Opened, Evict, NextFor;
    var ev := Child("c0", "B");
    var t := Current(None, ev);
    OpensOne(t, ev);
    assert Opened(t, ev) == Alone();
    assert BindNext(Alone(), 0).table == Alone();
    assert Apply(None, ev) == NativeStart(t, ev);
  }

  lemma CallIsIssued(words: string)
    ensures var w, ev := World(Some(Alone()), {}, map[]), Issue(words);
            && Next(w, ev) == World(Some(Waits(words, [])), {}, map["x" := Some(words)]) && Roomy(w.st, ev)
  {
    var st, ev := Some(Alone()), Issue(words);
    assert Alone().pending + [Pending("x", Some("A"), Some(words), false)] == Waits(words, []).pending;
    assert Apply(st, ev).table == Some(Waits(words, []));
    OneWaits(words, []);
  }

  lemma OneWaits(words: string, hints: seq<Hint>)
    ensures Places(Waits(words, hints), "x") > 0 && HeldCount([OTHER], "x") == 0
    ensures Labelled(Waits(words, hints), "x", Some(words))
  {
    WaitingIffFound(Waits(words, hints).pending, "x");
    HeldIffFound([OTHER], "x");
  }

  lemma CallIsAcknowledged(words: string)
    ensures var w, ev := World(Some(Waits(words, [])), {}, map["x" := Some(words)]), AckOf("x", "c1");
            && Next(w, ev) == World(Some(Waits(words, [Hint("c1", "x")])), {"c1"}, map["x" := Some(words)]) && Roomy(w.st, ev)
  {
    var st, ev := Some(Waits(words, [])), AckOf("x", "c1");
    assert CardAt([OTHER], "c1") == 1;
    assert Remember([], "c1", "x") == [Hint("c1", "x")];
    assert Apply(st, ev).table == Some(Waits(words, [Hint("c1", "x")]));
    OneWaits(words, [Hint("c1", "x")]);
  }

  lemma TurnEnds(words: string)
    ensures var w, ev := World(Some(Waits(words, [Hint("c1", "x")])), {"c1"}, map["x" := Some(words)]), TurnOver();
            && Next(w, ev).st == Some(Alone().(hints := [Hint("c1", "x")])) && Next(w, ev).acked == {"c1"}
            && Roomy(w.st, ev) && TakesOut(w.st, ev, "x")
  {
    OneWaits(words, [Hint("c1", "x")]);
  }

  /** The run up to the turn end, and the tables on its way. */
  lemma ToTheTurnEnd(words: string)
    ensures var evs := UpToTurnEnd(words);
            && TruthfulRun(evs[..3], TRUTH) && TruthfulRun(evs, TRUTH)
            && History(evs[..3]) == World(Some(Waits(words, [Hint("c1", "x")])), {"c1"}, map["x" := Some(words)])
            && History(evs).st == Apply(History(evs[..3]).st, TurnOver()).table
            && History(evs).st == Some(Alone().(hints := [Hint("c1", "x")])) && History(evs).acked == {"c1"}
            && TakesOut(History(evs[..3]).st, TurnOver(), "x")
  {
    hide Apply, Roomy, TakesOut;
    var e1, e2, e3, e4 := Child("c0", "B"), Issue(words), AckOf("x", "c1"), TurnOver();
    OtherStarts();
    CallIsIssued(words);
    CallIsAcknowledged(words);
    TurnEnds(words);
    HistoryPush([], e1, TRUTH);
    HistoryPush([e1], e2, TRUTH);
    HistoryPush([e1, e2], e3, TRUTH);
    HistoryPush([e1, e2, e3], e4, TRUTH);
    assert [] + [e1] == [e1] && [e1] + [e2] == [e1, e2] && [e1, e2] + [e3] == [e1, e2, e3];
    assert [e1, e2, e3] + [e4] == UpToTurnEnd(words) && UpToTurnEnd(words)[..3] == [e1, e2, e3];
  }

  /**
   * Whatever the label, the acknowledged child's card ends with its own call and no label, though acks
   * are truthful, ids fresh and no table full; of what an orderly run asks, only the turn end fails.
   */
  lemma LabelCanBeLost(words: string)
    ensures var evs := LosingRun(words);
            && OneToOne(TRUTH) && TruthfulRun(evs, TRUTH)
            && History(evs[..3]).told == map["x" := Some(words)] && OrderlyRun(evs[..3], TRUTH) && !OrderlyRun(evs[..4], TRUTH)
            && var w := History(evs);
               && "c1" in w.acked && w.st.Some? && |w.st.value.cards| == 2
               && var c := w.st.value.cards[1]; c.agent == "c1" && c.call == Some("x") && c.task == None
  {
    hide Apply, Next, TruthfulRun, OrderlyRun, UpToTurnEnd;
    ToTheTurnEnd(words);
    HistoryPush(UpToTurnEnd(words), Child("c1", "A"), TRUTH);
    StartsWithoutLabel(words);
    AfterStart(History(UpToTurnEnd(words)));
    OrderlyUpToTheAck(words);
    NotOrderly(words);
  }

  /** What a native start does to the acknowledged children. */
  lemma AfterStart(w: World)
    ensures var ev := Child("c1", "A"); Next(w, ev).acked == w.acked && Next(w, ev).st == Apply(w.st, ev).table && Truthful(ev, TRUTH)
  {
  }

  lemma StartsWithoutLabel(words: string)
    ensures var st := Some(Alone().(hints := [Hint("c1", "x")]));
            var after := Apply(st, Child("c1", "A")).table;
            && Roomy(st, Child("c1", "A")) && after.Some? && |after.value.cards| == 2
            && var c := after.value.cards[1]; c.agent == "c1" && c.call == Some("x") && c.task == None
  {
    hide Apply, Labelled, Places, Next, UpToTurnEnd, TruthfulRun;
    var t := Waits(words, [Hint("c1", "x")]);
    ToTheTurnEnd(words);
    PairingConverges(UpToTurnEnd(words)[..3], TRUTH);
    OneWaits(words, [Hint("c1", "x")]);
    assert Hinted(t, "c1") == "x" && CardAt(t.cards, "c1") == 1;
    hide TakesOut, Sound, Hinted;
    TurnEndBetweenAckAndStartLosesLabel(t, TurnOver(), Child("c1", "A"), Some(words));
  }

  lemma OrderlyPush(evs: seq<Event>, ev: Event)
    ensures OrderlyRun(evs + [ev], TRUTH) <==> OrderlyRun(evs, TRUTH) && Orderly(History(evs), ev, TRUTH)
  {
    assert (evs + [ev])[..|evs|] == evs;
  }

  lemma OrderlyUpToTheAck(words: string)
    ensures OrderlyRun(UpToTurnEnd(words)[..3], TRUTH)
  {
    hide Apply, Roomy, TakesOut, Next;
    var e1, e2, e3 := Child("c0", "B"), Issue(words), AckOf("x", "c1");
    OtherStarts();
    CallIsIssued(words);
    HistoryPush([], e1, TRUTH);
    HistoryPush([e1], e2, TRUTH);
    OrderlyPush([], e1);
    OrderlyPush([e1], e2);
    OrderlyPush([e1, e2], e3);
    assert [] + [e1] == [e1] && [e1] + [e2] == [e1, e2] && [e1, e2] + [e3] == UpToTurnEnd(words)[..3];
  }

  lemma NotOrderly(words: string)
    ensures !OrderlyRun(UpToTurnEnd(words), TRUTH)
  {
    hide Apply, TakesOut;
    ToTheTurnEnd(words);
    assert "c1" in History(UpToTurnEnd(words)[..3]).acked && TRUTH["c1"] == "x";
  }
}
