/**
 * Rollout records as chat messages. The parser reads forward, keeps a table of
 * tool calls, and fills results in place; the specification reads backward and
 * hands each call the newest later output that names it.
 */
module CodexRecords {
  import opened Options

  /** What one line holds. A missing or unusable call id, and an empty summary, are `""`. */
  datatype Line =
    | Says(role: string, text: string)             // renders as one message
    | Call(id: string, name: string, arg: string)  // a tool call
    | Output(callId: string, summary: string)      // a tool output
    | Turn(model: Option<string>, effort: Option<string>)  // the settings of a turn; renders nothing
    | Silent                                       // renders nothing
    | Blank                                        // no record at all

  /** A decoded line: when it was written, if it says so, and what it holds. */
  datatype Decoded = Decoded(at: Option<int>, line: Line)

  datatype Record = Record(offset: nat, at: Option<int>, line: Line)

  function RecordAt(offset: nat, d: Decoded): Record {
    Record(offset, d.at, d.line)
  }

  datatype Body = Text(role: string, text: string) | Tool(id: string, name: string, arg: string, result: Option<string>)
  /** A message; its key is where its line starts in the file. */
  datatype Message = Message(key: nat, at: Option<int>, body: Body)

  /** Outputs by call id. */
  type Results = map<string, string>

  function ResultFor(id: string, later: Results): Option<string> {
    if id != "" && id in later then Some(later[id]) else None
  }

  /** What one record leaves of the outputs `later` than it, for the records before it. */
  function Before(r: Record, later: Results): Results {
    match r.line
    case Output(id, s) => if id != "" && s != "" && id !in later then later[id := s] else later
    case Call(id, _, _) => if id != "" then later - {id} else later
    case _ => later
  }

  function Shown(r: Record, later: Results): seq<Message> {
    match r.line
    case Says(role, text) => [Message(r.offset, r.at, Text(role, text))]
    case Call(id, name, arg) => [Message(r.offset, r.at, Tool(id, name, arg, ResultFor(id, later)))]
    case _ => []
  }

  /** The messages of `records`, given the outputs that come after them. */
  function Render(records: seq<Record>, later: Results): seq<Message> {
    if records == [] then []
    else
      var r := records[|records| - 1];
      Render(records[..|records| - 1], Before(r, later)) + Shown(r, later)
  }

  /** The outputs left over for calls before `records`. */
  function Left(records: seq<Record>, later: Results): Results {
    if records == [] then later
    else Left(records[..|records| - 1], Before(records[|records| - 1], later))
  }

  /** Reading in two parts: the older part is read with what the newer part leaves over. */
  lemma {:induction false} Compose(a: seq<Record>, b: seq<Record>, later: Results)
    ensures Render(a + b, later) == Render(a, Left(b, later)) + Render(b, later)
    ensures Left(a + b, later) == Left(a, Left(b, later))
  {
    if b == [] {
      assert a + b == a;
    } else {
      var r := b[|b| - 1];
      assert (a + b)[..|a + b| - 1] == a + b[..|b| - 1];
      Compose(a, b[..|b| - 1], Before(r, later));
    }
  }

  // ----- the forward parser -----

  /** Where the last call of `id` stands among the messages. */
  function LastCall(records: seq<Record>, id: string): Option<nat> {
    if records == [] then None
    else
      var r := records[|records| - 1];
      var before := records[..|records| - 1];
      if r.line.Call? && r.line.id == id then Some(|Render(before, map[])|) else LastCall(before, id)
  }

  function WithResult(m: Message, s: string): Message {
    if m.body.Tool? then m.(body := m.body.(result := Some(s))) else m
  }

  lemma {:induction false} SameLength(records: seq<Record>, a: Results, b: Results)
    ensures |Render(records, a)| == |Render(records, b)|
  {
    if records != [] {
      var r := records[|records| - 1];
      SameLength(records[..|records| - 1], Before(r, a), Before(r, b));
    }
  }

  lemma {:induction false} LastCallIsTool(records: seq<Record>, id: string, later: Results)
    requires LastCall(records, id).Some?
    ensures var k, ms := LastCall(records, id).value, Render(records, later); k < |ms| && ms[k].body.Tool? && ms[k].body.id == id
  {
    var before, r := records[..|records| - 1], records[|records| - 1];
    if r.line.Call? && r.line.id == id {
      SameLength(before, Before(r, later), map[]);
    } else {
      LastCallIsTool(before, id, Before(r, later));
    }
  }

  lemma {:induction false} OneMoreLeft(records: seq<Record>, later: Results, id: string, s: string)
    requires id != ""
    ensures Left(records, later[id := s])
            == if LastCall(records, id).Some? then Left(records, later) else Left(records, later)[id := s]
  {
    if records != [] {
      var before, r := records[..|records| - 1], records[|records| - 1];
      if r.line.Call? && r.line.id == id {
        assert later[id := s] - {id} == later - {id};
      } else {
        assert Before(r, later[id := s]) == Before(r, later)[id := s];
        OneMoreLeft(before, Before(r, later), id, s);
      }
    }
  }

  /** With no call of `id` among them, an output of it changes none of the messages. */
  lemma {:induction false} UncalledOutput(records: seq<Record>, later: Results, id: string, s: string)
    requires id != "" && LastCall(records, id).None?
    ensures Render(records, later[id := s]) == Render(records, later)
  {
    if records != [] {
      var before, r := records[..|records| - 1], records[|records| - 1];
      assert Before(r, later[id := s]) == Before(r, later)[id := s];
      assert Shown(r, later[id := s]) == Shown(r, later);
      UncalledOutput(before, Before(r, later), id, s);
    }
  }

  /** The last call of `id` takes one more output of it, and nothing else changes. */
  lemma {:induction false} CalledOutput(records: seq<Record>, later: Results, id: string, s: string)
    requires id != "" && LastCall(records, id).Some?
    ensures var k, was := LastCall(records, id).value, Render(records, later);
            k < |was| && Render(records, later[id := s]) == was[k := WithResult(was[k], s)]
  {
    var k := LastCall(records, id).value;
    LastCallIsTool(records, id, later);
    var before, r := records[..|records| - 1], records[|records| - 1];
    var older := Render(before, Before(r, later));
    if r.line.Call? && r.line.id == id {
      assert later[id := s] - {id} == later - {id};
      SameLength(before, later - {id}, map[]);
      assert Render(records, later) == older + Shown(r, later) && k == |older|;
      assert Render(records, later[id := s]) == older + Shown(r, later[id := s]);
    } else {
      assert Before(r, later[id := s]) == Before(r, later)[id := s];
      assert Shown(r, later[id := s]) == Shown(r, later);
      LastCallIsTool(before, id, Before(r, later));
      CalledOutput(before, Before(r, later), id, s);
      assert Render(records, later) == older + Shown(r, later);
    }
  }

  datatype Settings = Settings(model: Option<string>, effort: Option<string>)

  /** The settings of the last turn stated, both from that one record. */
  function LastTurn(records: seq<Record>): Settings {
    if records == [] then Settings(None, None)
    else
      var r := records[|records| - 1];
      if r.line.Turn? then Settings(r.line.model, r.line.effort) else LastTurn(records[..|records| - 1])
  }

  /** The newest part that states a turn decides. */
  lemma {:induction false} NewestTurnDecides(a: seq<Record>, b: seq<Record>)
    ensures LastTurn(a + b) == if exists r | r in b :: r.line.Turn? then LastTurn(b) else LastTurn(a)
  {
    if b == [] {
      assert a + b == a;
    } else {
      var before, r := b[..|b| - 1], b[|b| - 1];
      assert (a + b)[..|a + b| - 1] == a + before;
      assert r in b && forall x | x in b :: x in before || x == r;
      NewestTurnDecides(a, before);
    }
  }

  /** The record shows: as a message, as the output of a call before it, or as an output to carry. */
  predicate Counted(before: seq<Record>, r: Record) {
    match r.line
    case Output(id, s) => id != "" && (s != "" || LastCall(before, id).Some?)
    case Turn(_, _) => false
    case Silent => false
    case _ => true
  }

  /** How many records show nothing. */
  function Skipped(records: seq<Record>): nat {
    if records == [] then 0
    else
      var before, r := records[..|records| - 1], records[|records| - 1];
      Skipped(before) + if Counted(before, r) then 0 else 1
  }

  // ----- what the messages say -----

  predicate Renders(r: Record) {
    r.line.Says? || r.line.Call?
  }

  /** Record `j` is an output of `id` that comes before any call of that id. */
  predicate Awaits(records: seq<Record>, id: string, j: nat)
    requires j < |records|
  {
    && id != "" && records[j].line.Output? && records[j].line.callId == id && records[j].line.summary != ""
    && forall m | 0 <= m < j && records[m].line.Call? :: records[m].line.id != id
  }

  /** Record `j` answers the call at `i`: an output of it, later, with no other call of that id between. */
  predicate AnswersCall(records: seq<Record>, i: nat, j: nat)
    requires i < |records| && records[i].line.Call?
  {
    i < j < |records| && Awaits(records[i + 1..], records[i].line.id, j - i - 1)
  }

  /** The message of record `i`: its offset and time, and its words, or its call with the newest answer to it. */
  ghost predicate Tells(records: seq<Record>, i: nat, m: Message)
    requires i < |records| && Renders(records[i])
  {
    && m.key == records[i].offset && m.at == records[i].at
    && match records[i].line
       case Says(role, text) => m.body.Text? && m.body.role == role && m.body.text == text
       case Call(id, name, arg) =>
         && m.body.Tool? && m.body.id == id && m.body.name == name && m.body.arg == arg
         && (m.body.result.Some? <==> exists j: nat :: AnswersCall(records, i, j))
         && forall j: nat | AnswersCall(records, i, j) && forall n: nat | n > j :: !AnswersCall(records, i, n) ::
              m.body.result == Some(records[j].line.summary)
  }

  /** One message for each record that says or calls something, in their order, and no other. */
  ghost predicate TellsAll(records: seq<Record>, messages: seq<Message>, at: seq<nat>) {
    && |at| == |messages| && (forall k, l | 0 <= k < l < |at| :: at[k] < at[l])
    && (forall i | 0 <= i < |records| :: Renders(records[i]) <==> i in at)
    && forall k | 0 <= k < |at| :: at[k] < |records| && Renders(records[at[k]]) && Tells(records, at[k], messages[k])
  }

  /** What is carried on is, for each id, the newest of the outputs that come before any call of it. */
  ghost predicate CarriesAll(records: seq<Record>, carried: Results) {
    && (forall id :: id in carried <==> exists j :: 0 <= j < |records| && Awaits(records, id, j))
    && forall id, j | 0 <= j < |records| && Awaits(records, id, j) && (forall n | j < n < |records| :: !Awaits(records, id, n)) ::
         id in carried && carried[id] == records[j].line.summary
  }

  predicate Calls(records: seq<Record>, id: string) {
    exists i :: 0 <= i < |records| && records[i].line.Call? && records[i].line.id == id
  }

  /** What is left over of an id: what was handed in, unless called; else its newest output that waits. */
  lemma {:induction false} LeftIs(records: seq<Record>, later: Results, id: string)
    requires id in later ==> id != ""
    ensures var left := Left(records, later);
            if id in later && !Calls(records, id) then id in left && left[id] == later[id]
            else
              && (id in left <==> exists j :: 0 <= j < |records| && Awaits(records, id, j))
              && forall j | 0 <= j < |records| && Awaits(records, id, j) && (forall n | j < n < |records| :: !Awaits(records, id, n)) ::
                   id in left && left[id] == records[j].line.summary
  {
    if records != [] {
      var before, r := records[..|records| - 1], records[|records| - 1];
      var last, later' := |before|, Before(r, later);
      LeftIs(before, later', id);
      assert before + [r] == records;
      CallsPush(before, r, id);
      AwaitsPush(before, r, id);
      hide Awaits, Calls;
      if !Calls(before, id) && r.line.Output? && r.line.callId == id && id != "" && r.line.summary != "" && id !in later {
        assert Awaits(records, id, last);
      } else {
        assert Awaits(records, id, last) ==> id in later && !Calls(records, id);
        if !(id in later && !Calls(records, id)) {
          assert forall j | 0 <= j < |records| && Awaits(records, id, j) :: j < last;
          assert (exists j :: 0 <= j < |records| && Awaits(records, id, j)) <==> exists j :: 0 <= j < |before| && Awaits(before, id, j);
        }
      }
    }
  }

  lemma AwaitsPush(before: seq<Record>, r: Record, id: string)
    ensures forall j | 0 <= j < |before| :: Awaits(before + [r], id, j) <==> Awaits(before, id, j)
    ensures Awaits(before + [r], id, |before|)
            <==> id != "" && r.line.Output? && r.line.callId == id && r.line.summary != "" && !Calls(before, id)
  {
    var all := before + [r];
    assert all[|before|] == r && forall i | 0 <= i < |before| :: all[i] == before[i];
  }

  lemma CallsPush(before: seq<Record>, r: Record, id: string)
    ensures Calls(before + [r], id) <==> Calls(before, id) || (r.line.Call? && r.line.id == id)
  {
    var all := before + [r];
    assert all[|before|] == r && forall i | 0 <= i < |before| :: all[i] == before[i];
  }

  /** The records that render, by their places. */
  function Rendering(records: seq<Record>): seq<nat> {
    if records == [] then []
    else
      Rendering(records[..|records| - 1]) + if Renders(records[|records| - 1]) then [|records| - 1] else []
  }

  lemma {:induction false} RenderingPlaces(records: seq<Record>)
    ensures var at := Rendering(records);
            && (forall k | 0 <= k < |at| :: at[k] < |records|) && (forall k, l | 0 <= k < l < |at| :: at[k] < at[l])
            && forall i | 0 <= i < |records| :: Renders(records[i]) <==> i in at
  {
    if records != [] {
      var before := records[..|records| - 1];
      RenderingPlaces(before);
      hide Renders;
    }
  }

  lemma {:induction false} RenderingSize(records: seq<Record>, later: Results)
    ensures |Rendering(records)| == |Render(records, later)|
  {
    if records != [] {
      RenderingSize(records[..|records| - 1], Before(records[|records| - 1], later));
    }
  }

  lemma {:induction false} RenderingPrefix(records: seq<Record>, k: nat)
    requires k < |Rendering(records)|
    ensures Rendering(records)[k] < |records| && |Rendering(records[..Rendering(records)[k]])| == k
  {
    var before := records[..|records| - 1];
    if k < |Rendering(before)| {
      RenderingPrefix(before, k);
      SamePrefix(records, Rendering(before)[k]);
    }
  }

  lemma SamePrefix(records: seq<Record>, k: nat)
    requires k < |records|
    ensures records[..|records| - 1][..k] == records[..k]
  {
  }

  /** The message at a record's place is what that record shows, given what later ones leave over. */
  lemma MessageAt(records: seq<Record>, i: nat, later: Results)
    requires i < |records| && Renders(records[i])
    ensures var k := |Render(records[..i], map[])|;
            k < |Render(records, later)| && Render(records, later)[k] == Shown(records[i], Left(records[i + 1..], later))[0]
  {
    var a, r, c := records[..i], records[i], records[i + 1..];
    assert records == a + ([r] + c);
    Compose(a, [r] + c, later);
    Compose([r], c, later);
    SameLength(a, Left([r] + c, later), map[]);
    OneRecord(r, Left(c, later));
  }

  lemma OneRecord(r: Record, later: Results)
    ensures Render([r], later) == Shown(r, later)
  {
    assert [r][..0] == [] && Render([r][..0], Before(r, later)) == [];
    assert [] + Shown(r, later) == Shown(r, later);
  }

  lemma TellsItsRecord(records: seq<Record>, i: nat)
    requires i < |records| && Renders(records[i])
    ensures Tells(records, i, Shown(records[i], Left(records[i + 1..], map[]))[0])
  {
    var r, c := records[i], records[i + 1..];
    if r.line.Call? {
      LeftIs(c, map[], r.line.id);
      hide Awaits, Left;
      var m := Shown(r, Left(c, map[]))[0];
      forall j | 0 <= j < |c| ensures AnswersCall(records, i, i + 1 + j) <==> Awaits(c, r.line.id, j) {
        assert i + 1 + j - i - 1 == j;
      }
      NothingAwaitsNoId(c);
      forall j: nat | AnswersCall(records, i, j) && forall n: nat | n > j :: !AnswersCall(records, i, n)
        ensures m.body.result == Some(records[j].line.summary)
      {
        assert c[j - i - 1] == records[j];
        forall n | j - i - 1 < n < |c| ensures !Awaits(c, r.line.id, n) { assert !AnswersCall(records, i, i + 1 + n); }
      }
      if m.body.result.Some? {
        var j :| 0 <= j < |c| && Awaits(c, r.line.id, j);
        assert AnswersCall(records, i, i + 1 + j);
      }
    }
  }

  lemma NothingAwaitsNoId(records: seq<Record>)
    ensures forall j | 0 <= j < |records| :: !Awaits(records, "", j)
  {
  }

  /** Rendered messages stand for their records, and what is left over for the outputs that wait. */
  lemma RenderTells(records: seq<Record>)
    ensures TellsAll(records, Render(records, map[]), Rendering(records)) && CarriesAll(records, Left(records, map[]))
  {
    hide Tells, Shown, Awaits, Left;
    var at := Rendering(records);
    RenderingPlaces(records);
    RenderingSize(records, map[]);
    LeftCarries(records);
    forall k | 0 <= k < |at| ensures Tells(records, at[k], Render(records, map[])[k]) {
      assert Renders(records[at[k]]) by { assert at[k] in at; }
      RenderingPrefix(records, k);
      RenderingSize(records[..at[k]], map[]);
      MessageAt(records, at[k], map[]);
      TellsItsRecord(records, at[k]);
    }
  }

  lemma LeftCarries(records: seq<Record>)
    ensures CarriesAll(records, Left(records, map[]))
  {
    hide Left;
    forall id ensures id in Left(records, map[]) <==> exists j :: 0 <= j < |records| && Awaits(records, id, j) {
      LeftIs(records, map[], id);
    }
    forall id, j | 0 <= j < |records| && Awaits(records, id, j) && (forall n | j < n < |records| :: !Awaits(records, id, n))
      ensures id in Left(records, map[]) && Left(records, map[])[id] == records[j].line.summary
    {
      LeftIs(records, map[], id);
    }
  }

  /** Model and effort are stated by the last turn, if there is one. */
  ghost predicate Settled(records: seq<Record>, s: Settings) {
    && ((forall i | 0 <= i < |records| :: !records[i].line.Turn?) ==> s == Settings(None, None))
    && forall i | 0 <= i < |records| && records[i].line.Turn? && (forall n | i < n < |records| :: !records[n].line.Turn?) ::
         s.model == records[i].line.model && s.effort == records[i].line.effort
  }

  lemma {:induction false} LastTurnSettles(records: seq<Record>)
    ensures Settled(records, LastTurn(records))
  {
    if records != [] {
      var before, r := records[..|records| - 1], records[|records| - 1];
      LastTurnSettles(before);
      assert forall i | 0 <= i < |before| :: before[i] == records[i];
      assert records[|before|] == r;
    }
  }

  /** The record shows nothing: no line at all is none; an output shows if a call before it can take it, or it can be carried. */
  predicate ShowsNothing(records: seq<Record>, i: nat)
    requires i < |records|
  {
    match records[i].line
    case Says(_, _) => false
    case Call(_, _, _) => false
    case Blank => false
    case Output(id, s) => id == "" || (s == "" && forall j | 0 <= j < i && records[j].line.Call? :: records[j].line.id != id)
    case Turn(_, _) => true
    case Silent => true
  }

  lemma {:induction false} LastCallIff(records: seq<Record>, id: string)
    ensures LastCall(records, id).None? <==> forall j | 0 <= j < |records| && records[j].line.Call? :: records[j].line.id != id
  {
    if records != [] {
      var before := records[..|records| - 1];
      LastCallIff(before, id);
      assert forall j | 0 <= j < |before| :: before[j] == records[j];
    }
  }

  /** The records that show nothing, by their places. */
  ghost function Silents(records: seq<Record>): set<nat> {
    set i | 0 <= i < |records| && ShowsNothing(records, i)
  }

  lemma NoSilents()
    ensures Silents([]) == {}
  {
  }

  /** What is skipped is counted once each. */
  lemma {:induction false} SkippedCounts(records: seq<Record>)
    ensures Skipped(records) == |Silents(records)|
  {
    if records == [] {
      NoSilents();
    } else {
      var before, r := records[..|records| - 1], records[|records| - 1];
      var n := |before|;
      SkippedCounts(before);
      forall i | 0 <= i < n ensures ShowsNothing(before, i) <==> ShowsNothing(records, i) { SameShow(records, i); }
      if r.line.Output? { LastCallIff(before, r.line.callId); }
      assert Counted(before, r) <==> !ShowsNothing(records, n) by { assert forall j | 0 <= j < n :: before[j] == records[j]; }
      assert Silents(records) == Silents(before) + if ShowsNothing(records, n) then {n} else {};
    }
  }

  lemma SameShow(records: seq<Record>, i: nat)
    requires i < |records| - 1
    ensures ShowsNothing(records[..|records| - 1], i) <==> ShowsNothing(records, i)
  {
    assert forall j | 0 <= j <= i :: records[..|records| - 1][j] == records[j];
  }

  /** Render the records of one window: forward, with a table of calls and results set in place. */
  method ParseCodexChatRecords(records: seq<Record>)
    returns (messages: seq<Message>, unmatched: Results, model: Option<string>, effort: Option<string>, skipped: nat)
    ensures messages == Render(records, map[]) && unmatched == Left(records, map[])
    ensures Settings(model, effort) == LastTurn(records) && skipped == Skipped(records)
    ensures (exists at :: TellsAll(records, messages, at)) && CarriesAll(records, unmatched) && Settled(records, Settings(model, effort))
    ensures skipped == |Silents(records)|
  {
    messages, unmatched := [], map[];
    model, effort, skipped := None, None, 0;
    var toolById: map<string, nat> := map[];
    for i := 0 to |records|
      invariant messages == Render(records[..i], map[]) && unmatched == Left(records[..i], map[])
      invariant Settings(model, effort) == LastTurn(records[..i]) && skipped == Skipped(records[..i])
      invariant forall id | id != "" :: LastCall(records[..i], id) == if id in toolById then Some(toolById[id]) else None
    {
      var r := records[i];
      assert records[..i + 1][..i] == records[..i];
      ghost var before := records[..i];
      match r.line {
        case Says(role, text) =>
          messages := messages + [Message(r.offset, r.at, Text(role, text))];
        case Call(id, name, arg) =>
          ghost var none: Results := map[];
          assert none - {id} == none;
          if id != "" { toolById := toolById[id := |messages|]; }
          messages := messages + [Message(r.offset, r.at, Tool(id, name, arg, None))];
        case Output(id, s) =>
          if id == "" || (s == "" && id !in toolById) { skipped := skipped + 1; }
          if id != "" && s != "" {
            OneMoreLeft(before, map[], id, s);
            if id in toolById {
              CalledOutput(before, map[], id, s);
              messages := messages[toolById[id] := WithResult(messages[toolById[id]], s)];
            } else {
              UncalledOutput(before, map[], id, s);
              unmatched := unmatched[id := s];
            }
          }
        case Turn(m, e) =>
          model, effort, skipped := m, e, skipped + 1;
        case Silent =>
          skipped := skipped + 1;
        case Blank =>
      }
    }
    assert records[..|records|] == records;
    RenderTells(records);
    LastTurnSettles(records);
    SkippedCounts(records);
  }

  // ----- carrying outputs to older pages -----

  /** The ids called in `records`. */
  function Called(records: seq<Record>): set<string> {
    set r | r in records && r.line.Call? && r.line.id != "" :: r.line.id
  }

  /** Every call id is used by one call. */
  predicate OneCallEach(records: seq<Record>) {
    forall i, j | 0 <= i < j < |records| && records[i].line.Call? && records[j].line.Call? && records[i].line.id != "" ::
      records[i].line.id != records[j].line.id
  }

  /** The carried result of a tool replaces whatever it had. */
  function Laid(m: Message, carried: Results): Message {
    if m.body.Tool? && m.body.id != "" && m.body.id in carried then WithResult(m, carried[m.body.id]) else m
  }

  /** Carried results laid over a page already rendered on its own: the newer one wins. */
  function Overlay(messages: seq<Message>, carried: Results): seq<Message> {
    if messages == [] then []
    else
      var m := messages[|messages| - 1];
      Overlay(messages[..|messages| - 1], carried)
      + [Laid(m, carried)]
  }

  lemma OverlayPush(messages: seq<Message>, m: Message, carried: Results)
    ensures Overlay(messages + [m], carried)
            == Overlay(messages, carried) + [Laid(m, carried)]
  {
  }

  lemma OverlayShown(before: seq<Record>, r: Record, later: Results, carried: Results)
    ensures Overlay(Render(before, Before(r, later)) + Shown(r, later), carried)
            == Overlay(Render(before, Before(r, later)), carried) + Overlay(Shown(r, later), carried)
  {
    var older, shown := Render(before, Before(r, later)), Shown(r, later);
    if shown == [] {
      assert older + shown == older;
    } else {
      OverlayPush(older, shown[0], carried);
      OverlayPush([], shown[0], carried);
      assert [] + [shown[0]] == shown && older + [shown[0]] == older + shown;
    }
  }

  lemma ShownAgrees(r: Record, later: Results, a: Results, b: Results)
    requires r.line.Call? && r.line.id != "" ==> (r.line.id in a <==> r.line.id in b) && (r.line.id in a ==> a[r.line.id] == b[r.line.id])
    ensures Overlay(Shown(r, later), a) == Overlay(Shown(r, later), b)
  {
  }

  /** Only the results of ids called in the page matter to it. */
  lemma {:induction false} OverlayAgrees(records: seq<Record>, later: Results, a: Results, b: Results)
    requires forall id | id in Called(records) :: (id in a <==> id in b) && (id in a ==> a[id] == b[id])
    ensures Overlay(Render(records, later), a) == Overlay(Render(records, later), b)
  {
    hide Overlay, Shown, Before;
    if records == [] {
      assert Render(records, later) == [];
      NothingLaid(a);
      NothingLaid(b);
    } else {
      var before, r := records[..|records| - 1], records[|records| - 1];
      assert forall x | x in before :: x in records;
      assert r in records;
      OverlayAgrees(before, Before(r, later), a, b);
      ShownAgrees(r, later, a, b);
      OverlayShown(before, r, later, a);
      OverlayShown(before, r, later, b);
    }
  }

  lemma NothingLaid(carried: Results)
    ensures Overlay([], carried) == []
  {
  }

  /** What is carried past a record: its own call claims its output. */
  function Past(r: Record, carried: Results): Results {
    if r.line.Call? && r.line.id != "" then carried - {r.line.id} else carried
  }

  lemma BeforeMerge(r: Record, own: Results, carried: Results)
    ensures Before(r, own + carried) == Before(r, own) + Past(r, carried)
  {
  }

  lemma ShownMerge(r: Record, own: Results, carried: Results)
    ensures Shown(r, own + carried) == Overlay(Shown(r, own), carried)
  {
  }

  /** An id called by the last record is called by no earlier one. */
  lemma NotCalledBefore(before: seq<Record>, r: Record)
    requires OneCallEach(before + [r])
    ensures OneCallEach(before)
    ensures r.line.Call? && r.line.id != "" ==> r.line.id !in Called(before)
  {
    var all := before + [r];
    assert forall i | 0 <= i < |before| :: before[i] == all[i];
    forall x | x in before ensures r.line.Call? && r.line.id != "" && x.line.Call? ==> x.line.id != r.line.id {
      var i :| 0 <= i < |before| && before[i] == x;
      assert all[i] == x && all[|before|] == r;
    }
  }

  /**
   * Rendering a page with newer outputs in hand is rendering it alone and laying those outputs over
   * it, for call ids used by one call each; what is left over for older pages is the page's own
   * left-overs and the newer ones nobody in it called.
   */
  lemma {:induction false} CarryIsOverlay(records: seq<Record>, own: Results, carried: Results)
    requires OneCallEach(records)
    ensures Render(records, own + carried) == Overlay(Render(records, own), carried)
  {
    if records != [] {
      var before, r := records[..|records| - 1], records[|records| - 1];
      assert before + [r] == records;
      NotCalledBefore(before, r);
      BeforeMerge(r, own, carried);
      ShownMerge(r, own, carried);
      CarryIsOverlay(before, Before(r, own), Past(r, carried));
      OverlayAgrees(before, Before(r, own), Past(r, carried), carried);
      OverlayShown(before, r, own, carried);
    }
  }

  lemma {:induction false} CarriedOn(records: seq<Record>, own: Results, carried: Results)
    ensures Left(records, own + carried) == Left(records, own) + (carried - Called(records))
  {
    hide Called, Before;
    if records == [] {
      assert Called([]) == {} by { NoneCalled(); }
      assert carried - Called(records) == carried;
    } else {
      var before, r := records[..|records| - 1], records[|records| - 1];
      BeforeMerge(r, own, carried);
      CarriedOn(before, Before(r, own), Past(r, carried));
      CalledPush(before, r);
      assert before + [r] == records;
      assert Past(r, carried) - Called(before) == carried - Called(records);
    }
  }

  lemma NoneCalled()
    ensures Called([]) == {}
  {
  }

  lemma CalledPush(before: seq<Record>, r: Record)
    ensures Called(before + [r]) == Called(before) + (if r.line.Call? && r.line.id != "" then {r.line.id} else {})
  {
  }
}
