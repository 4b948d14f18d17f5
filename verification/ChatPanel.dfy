/**
 * The chat panel's own merge of older pages (claim, then keep what is unclaimed), against the
 * specification's: exactly when the two show the same, page by page and for whole files.
 */
module ChatPanel {
  import opened Options
  import opened CodexRecords
  import opened CodexPaging

  /** Results go to the first tool that names them and has none yet, and are then spent. */
  function Attach(messages: seq<Message>, pending: Results): Thread
    decreases messages
  {
    if messages == [] then Thread([], pending)
    else
      var m := messages[0];
      var claims := Claims(m, pending);
      var rest := Attach(messages[1..], if claims then pending - {m.body.id} else pending);
      Thread([if claims then WithResult(m, pending[m.body.id]) else m] + rest.messages, rest.pending)
  }

  predicate Claims(m: Message, pending: Results) {
    m.body.Tool? && m.body.id != "" && m.body.result.None? && m.body.id in pending
  }

  function ToolIds(messages: seq<Message>): set<string> {
    set m | m in messages && m.body.Tool? && m.body.id != "" :: m.body.id
  }

  /** The panel's older page: its own left-overs join the held outputs, and override them, before they attach. */
  function ApplyOlder(page: seq<Record>, t: Thread): Thread {
    var own := Render(page, map[]);
    var attached := Attach(own, t.pending + Left(page, map[]));
    Thread(attached.messages + t.messages, attached.pending - ToolIds(own))
  }

  /** No output in the page comes before a call of its id there. */
  predicate OutputsFollow(page: seq<Record>) {
    Left(page, map[]).Keys !! Called(page)
  }

  lemma {:induction false} RenderedTools(records: seq<Record>, later: Results)
    ensures ToolIds(Render(records, later)) == Called(records)
  {
    if records == [] {
    } else {
      var before, r := records[..|records| - 1], records[|records| - 1];
      RenderedTools(before, Before(r, later));
      assert records == before + [r];
      var older, shown := Render(before, Before(r, later)), Shown(r, later);
      assert Called(records) == Called(before) + Called([r]);
      assert ToolIds(older + shown) == ToolIds(older) + ToolIds(shown);
    }
  }

  predicate OneToolEach(messages: seq<Message>) {
    forall i, j | 0 <= i < j < |messages| && messages[i].body.Tool? && messages[j].body.Tool? && messages[i].body.id != "" ::
      messages[i].body.id != messages[j].body.id
  }

  lemma {:induction false} OverlayPointwise(messages: seq<Message>, carried: Results)
    ensures |Overlay(messages, carried)| == |messages|
    ensures forall k | 0 <= k < |messages| :: Overlay(messages, carried)[k] == Laid(messages[k], carried)
  {
    if messages != [] { OverlayPointwise(messages[..|messages| - 1], carried); }
  }

  lemma ToolIdsCons(messages: seq<Message>)
    requires messages != []
    ensures var m := messages[0];
            ToolIds(messages) == (if m.body.Tool? && m.body.id != "" then {m.body.id} else {}) + ToolIds(messages[1..])
  {
  }

  lemma {:induction false} OneToolEachOf(records: seq<Record>, later: Results)
    requires OneCallEach(records)
    ensures OneToolEach(Render(records, later))
  {
    if records != [] {
      var before, r := records[..|records| - 1], records[|records| - 1];
      assert before + [r] == records;
      NotCalledBefore(before, r);
      OneToolEachOf(before, Before(r, later));
      RenderedTools(before, Before(r, later));
      var older, shown := Render(before, Before(r, later)), Shown(r, later);
      var all: seq<Message> := older + shown;
      forall i, j | 0 <= i < j < |all| && all[i].body.Tool? && all[j].body.Tool? && all[i].body.id != ""
        ensures all[i].body.id != all[j].body.id
      {
        if j >= |older| {
          assert older[i] in older;
          assert older[i].body.id in ToolIds(older);
        }
      }
    }
  }

  /** The held result a tool without one takes. */
  function Claimed(m: Message, pending: Results): Message {
    if Claims(m, pending) then WithResult(m, pending[m.body.id]) else m
  }

  /** Where no two tools share an id, every tool claims from all that is held. */
  lemma {:induction false} AttachClaims(messages: seq<Message>, pending: Results)
    requires OneToolEach(messages)
    ensures var t := Attach(messages, pending);
            |t.messages| == |messages| && forall k | 0 <= k < |messages| :: t.messages[k] == Claimed(messages[k], pending)
    decreases messages
  {
    if messages != [] {
      var m, rest := messages[0], messages[1..];
      var left := if Claims(m, pending) then pending - {m.body.id} else pending;
      assert forall i | 0 <= i < |rest| :: rest[i] == messages[i + 1];
      AttachClaims(rest, left);
      forall k | 0 <= k < |rest| ensures Claimed(rest[k], left) == Claimed(rest[k], pending) {
        assert rest[k] == messages[k + 1] && m == messages[0];
      }
      hide Claims, OneToolEach;
      var t := Attach(messages, pending);
      assert t.messages == [Claimed(m, pending)] + Attach(rest, left).messages;
    }
  }

  /** Only ids of the page's own tools are spent on it. */
  lemma {:induction false} AttachSpends(messages: seq<Message>, pending: Results)
    ensures Attach(messages, pending).pending - ToolIds(messages) == pending - ToolIds(messages)
    ensures |Attach(messages, pending).messages| == |messages|
    decreases messages
  {
    if messages != [] {
      var m, rest := messages[0], messages[1..];
      var left := if Claims(m, pending) then pending - {m.body.id} else pending;
      AttachSpends(rest, left);
      ToolIdsCons(messages);
      hide ToolIds;
      var after := Attach(rest, left).pending;
      assert after - ToolIds(messages) == (after - ToolIds(rest)) - ToolIds(messages);
      assert left - ToolIds(messages) == (left - ToolIds(rest)) - ToolIds(messages);
    }
  }

  lemma PanelHolds(page: seq<Record>, t: Thread)
    ensures ApplyOlder(page, t).pending == (t.pending + Left(page, map[])) - Called(page)
  {
    var none: Results := map[];
    RenderedTools(page, none);
    AttachSpends(Render(page, none), t.pending + Left(page, none));
  }

  // ----- one page -----

  /**
   * Claiming from `held` gives the tool what `due`, which overrides, gives it: a result that is due is
   * its own already, or is held while it has none; with nothing due, it has its own or nothing is held.
   */
  predicate Agrees(m: Message, held: Results, due: Results) {
    m.body.Tool? && m.body.id != "" ==>
      if m.body.id in due then
        if m.body.result.Some? then m.body.result.value == due[m.body.id] else m.body.id in held && held[m.body.id] == due[m.body.id]
      else m.body.result.Some? || m.body.id !in held
  }

  lemma AgreesIff(m: Message, held: Results, due: Results)
    ensures Agrees(m, held, due) <==> Claimed(m, held) == Laid(m, due)
  {
  }

  /** For a page of one call an id, the panel shows what the specification shows exactly when every tool agrees. */
  lemma PanelPrependsExactlyWhen(page: seq<Record>, held: Results, due: Results)
    requires OneCallEach(page)
    ensures Attach(Render(page, map[]), held).messages == Overlay(Render(page, map[]), due)
            <==> forall k | 0 <= k < |Render(page, map[])| :: Agrees(Render(page, map[])[k], held, due)
  {
    var own := Render(page, map[]);
    OneToolEachOf(page, map[]);
    AttachClaims(own, held);
    OverlayPointwise(own, due);
    forall k | 0 <= k < |own| ensures Agrees(own[k], held, due) <==> Attach(own, held).messages[k] == Overlay(own, due)[k] {
      AgreesIff(own[k], held, due);
    }
    SameEverywhere(Attach(own, held).messages, Overlay(own, due));
  }

  lemma SameEverywhere(a: seq<Message>, b: seq<Message>)
    requires |a| == |b|
    ensures a == b <==> forall k | 0 <= k < |a| :: a[k] == b[k]
  {
  }

  /**
   * With no output before its call, an older page is shown as the specification shows it if and only if
   * every tool of it whose result is held has none of its own, or that same one.
   */
  lemma PanelPrepends(page: seq<Record>, t: Thread)
    requires OneCallEach(page) && OutputsFollow(page)
    ensures ApplyOlder(page, t).messages == Prepend(page, t).messages
            <==> forall m | m in Render(page, map[]) && m.body.Tool? && m.body.id != "" && m.body.id in t.pending ::
                   m.body.result.None? || m.body.result.value == t.pending[m.body.id]
  {
    var none: Results := map[];
    var own, left := Render(page, none), Left(page, none);
    RenderedTools(page, none);
    forall k | 0 <= k < |own|
      ensures Agrees(own[k], t.pending + left, t.pending)
              <==> (own[k].body.Tool? && own[k].body.id != "" && own[k].body.id in t.pending ==>
                      own[k].body.result.None? || own[k].body.result.value == t.pending[own[k].body.id])
    {
      assert own[k] in own;
      if own[k].body.Tool? && own[k].body.id != "" { assert own[k].body.id in ToolIds(own); }
    }
    PanelPrependsExactlyWhen(page, t.pending + left, t.pending);
    AttachSpends(own, t.pending + left);
    OverlayPointwise(own, t.pending);
    SamePrefix(Attach(own, t.pending + left).messages, Overlay(own, t.pending), t.messages, t.messages);
  }

  lemma SamePrefix<T>(a: seq<T>, b: seq<T>, c: seq<T>, d: seq<T>)
    requires |a| == |b|
    ensures a + c == b + d <==> a == b && c == d
  {
    if a + c == b + d {
      assert a == (a + c)[..|a|] && b == (b + d)[..|b|];
      assert c == (a + c)[|a|..] && d == (b + d)[|b|..];
    }
  }

  // ----- the panel over a whole file -----

  /** The first read: the newest page is shown as it is parsed, and what it leaves over is held. */
  function OpenAt(page: seq<Record>): Thread {
    Thread(Render(page, map[]), Left(page, map[]))
  }

  /** Older pages are put before it one after the other. */
  function LoadOlder(pages: seq<seq<Record>>, t: Thread): Thread
    decreases pages
  {
    if pages == [] then t else LoadOlder(pages[1..], ApplyOlder(pages[0], t))
  }

  /** The panel over these pages, newest first. */
  function LoadPanel(pages: seq<seq<Record>>): Thread {
    if pages == [] then Thread([], map[]) else LoadOlder(pages[1..], OpenAt(pages[0]))
  }

  /** What the panel holds once it has read these pages: the older page's left-overs override. */
  function Kept(pages: seq<seq<Record>>): Results {
    if pages == [] then map[]
    else if |pages| == 1 then Left(pages[0], map[])
    else
      var last := pages[|pages| - 1];
      (Kept(pages[..|pages| - 1]) + Left(last, map[])) - Called(last)
  }

  /** Page `i` agrees: its tools, with what newer pages left to the panel, and what they leave over to be due. */
  predicate PageAgrees(pages: seq<seq<Record>>, i: nat)
    requires i < |pages|
  {
    var page, newer := pages[i], pages[..i];
    forall k | 0 <= k < |Render(page, map[])| ::
      Agrees(Render(page, map[])[k], Kept(newer) + Left(page, map[]), Left(Concat(newer), map[]))
  }

  lemma {:induction false} ConcatPush(pages: seq<seq<Record>>, page: seq<Record>)
    ensures Concat(pages + [page]) == page + Concat(pages)
  {
    if pages == [] {
      assert pages + [page] == [page] && [page][1..] == [];
      assert Concat([page]) == [] + page;
    } else {
      assert (pages + [page])[1..] == pages[1..] + [page];
      ConcatPush(pages[1..], page);
    }
  }

  /** One page further, on both sides. */
  lemma PanelStep(pages: seq<seq<Record>>, i: nat, panel: Thread, spec: Thread)
    requires 0 < i < |pages| && OneCallEach(pages[i])
    requires panel.pending == Kept(pages[..i]) && Holds(spec, Concat(pages[..i]))
    ensures var panel', spec' := ApplyOlder(pages[i], panel), Prepend(pages[i], spec);
            && panel'.pending == Kept(pages[..i + 1]) && Holds(spec', Concat(pages[..i + 1]))
            && (panel'.messages == spec'.messages <==> panel.messages == spec.messages && PageAgrees(pages, i))
  {
    var page, none: Results := pages[i], map[];
    var own := Render(page, none);
    assert pages[..i + 1] == pages[..i] + [page] && pages[..i + 1][..i] == pages[..i];
    PanelHolds(page, panel);
    PrependHolds(page, spec, Concat(pages[..i]));
    ConcatPush(pages[..i], page);
    PanelPrependsExactlyWhen(page, panel.pending + Left(page, none), spec.pending);
    AttachSpends(own, panel.pending + Left(page, none));
    OverlayPointwise(own, spec.pending);
    SamePrefix(Attach(own, panel.pending + Left(page, none)).messages, Overlay(own, spec.pending), panel.messages, spec.messages);
  }

  lemma {:induction false} PanelRun(pages: seq<seq<Record>>, i: nat, panel: Thread, spec: Thread)
    requires 0 < i <= |pages| && forall p | p in pages :: OneCallEach(p)
    requires panel.pending == Kept(pages[..i]) && Holds(spec, Concat(pages[..i]))
    ensures LoadOlder(pages[i..], panel).messages == Load(pages[i..], spec).messages
            <==> panel.messages == spec.messages && forall j | i <= j < |pages| :: PageAgrees(pages, j)
    decreases |pages| - i
  {
    hide ApplyOlder, Prepend, PageAgrees, Holds, Kept, Concat;
    if i < |pages| {
      PanelStep(pages, i, panel, spec);
      assert pages[i..][1..] == pages[i + 1..] && pages[i..][0] == pages[i];
      PanelRun(pages, i + 1, ApplyOlder(pages[i], panel), Prepend(pages[i], spec));
    }
  }

  /**
   * For every file and chain of windows, call ids used by one call each, the panel's own merge shows the
   * whole file if and only if every page but the newest agrees.
   */
  lemma PanelIsWholeFileExactlyWhen(file: Bytes, starts: seq<nat>, decode: Decode)
    requires Chain(file, |file|, starts, decode) && OneCallEach(FileRecords(file, 0, |file|, decode))
    ensures var pages := Pages(file, |file|, starts, decode);
            LoadPanel(pages).messages == PageOf(file, 0, decode).messages
            <==> forall i | 1 <= i < |pages| :: PageAgrees(pages, i)
  {
    var pages := Pages(file, |file|, starts, decode);
    PagesAreTheFile(file, |file|, starts, decode);
    PagesKeepOneCall(pages);
    PagingIsWholeFileParsing(file, starts, decode);
    if pages != [] {
      OpensAsSpecified(pages[0]);
      assert pages[..1] == [pages[0]] && Concat([pages[0]]) == pages[0] by { assert [pages[0]][1..] == []; }
      PanelRun(pages, 1, OpenAt(pages[0]), OpenAt(pages[0]));
    }
  }

  /** On the newest page the panel and the specification are one. */
  lemma OpensAsSpecified(page: seq<Record>)
    ensures Prepend(page, Thread([], map[])) == OpenAt(page) && Holds(OpenAt(page), page)
  {
    var none: Results := map[];
    OverlayPointwise(Render(page, none), none);
    assert Overlay(Render(page, none), none) == Render(page, none);
    assert Left(page, none) + (none - Called(page)) == Left(page, none);
  }

  // ----- in terms of answers -----

  predicate Answers(r: Record) {
    r.line.Output? && r.line.callId != "" && r.line.summary != ""
  }

  function Answered(records: seq<Record>): set<string> {
    set r | r in records && Answers(r) :: r.line.callId
  }

  /** No answer stands before a call of its id. */
  predicate AnswersFollow(records: seq<Record>) {
    forall i, j | 0 <= i < j < |records| && Answers(records[i]) && records[j].line.Call? :: records[i].line.callId != records[j].line.id
  }

  /** The last answer to `id` among the records. */
  function LastAnswer(records: seq<Record>, id: string): Option<string> {
    if records == [] then None
    else
      var r := records[|records| - 1];
      if Answers(r) && r.line.callId == id then Some(r.line.summary) else LastAnswer(records[..|records| - 1], id)
  }

  /** The last answer in the oldest of these pages (newest first) that answers `id` at all. */
  function OldestAnswer(pages: seq<seq<Record>>, id: string): Option<string> {
    if pages == [] then None
    else
      var a := LastAnswer(pages[|pages| - 1], id);
      if a.Some? then a else OldestAnswer(pages[..|pages| - 1], id)
  }

  lemma {:induction false} LastAnswerAdd(a: seq<Record>, b: seq<Record>, id: string)
    ensures LastAnswer(a + b, id) == if LastAnswer(b, id).Some? then LastAnswer(b, id) else LastAnswer(a, id)
  {
    if b == [] {
      assert a + b == a;
    } else {
      assert (a + b)[..|a + b| - 1] == a + b[..|b| - 1];
      LastAnswerAdd(a, b[..|b| - 1], id);
    }
  }

  lemma FollowParts(a: seq<Record>, b: seq<Record>)
    requires AnswersFollow(a + b)
    ensures AnswersFollow(a) && AnswersFollow(b)
    ensures forall x, y | x in a && y in b && Answers(x) && y.line.Call? :: x.line.callId != y.line.id
  {
    var all := a + b;
    assert forall i | 0 <= i < |a| :: all[i] == a[i];
    assert forall i | 0 <= i < |b| :: all[|a| + i] == b[i];
    forall x, y | x in a && y in b && Answers(x) && y.line.Call? ensures x.line.callId != y.line.id {
      var i :| 0 <= i < |a| && a[i] == x;
      var j :| 0 <= j < |b| && b[j] == y;
      assert all[i] == x && all[|a| + j] == y;
    }
    forall i, j | 0 <= i < j < |b| && Answers(b[i]) && b[j].line.Call? ensures b[i].line.callId != b[j].line.id {
      assert all[|a| + i] == b[i] && all[|a| + j] == b[j];
    }
  }

  lemma {:induction false} NoAnswers(records: seq<Record>, id: string)
    requires forall r | r in records && Answers(r) :: r.line.callId != id
    ensures LastAnswer(records, id) == None
  {
    if records != [] {
      assert records[|records| - 1] in records && forall x | x in records[..|records| - 1] :: x in records;
      NoAnswers(records[..|records| - 1], id);
    }
  }

  /** What an uncalled id leaves over is its last answer. */
  lemma {:induction false} LeftIsLastAnswer(records: seq<Record>, later: Results, id: string)
    requires id != "" && id !in Called(records)
    ensures var left := Left(records, later);
            (if id in left then Some(left[id]) else None) == if id in later then Some(later[id]) else LastAnswer(records, id)
  {
    if records != [] {
      var before, r := records[..|records| - 1], records[|records| - 1];
      assert before + [r] == records;
      CalledPush(before, r);
      hide Called;
      LeftIsLastAnswer(before, Before(r, later), id);
    }
  }

  /** With no answer before its call, a tool shows the result handed to the page, or the last answer in it. */
  lemma {:induction false} ToolsShowLastAnswer(records: seq<Record>, later: Results)
    requires AnswersFollow(records) && OneCallEach(records)
    ensures forall m | m in Render(records, later) && m.body.Tool? && m.body.id != "" ::
              m.body.result == if m.body.id in later then Some(later[m.body.id]) else LastAnswer(records, m.body.id)
  {
    if records != [] {
      var before, r := records[..|records| - 1], records[|records| - 1];
      assert before + [r] == records;
      FollowParts(before, [r]);
      NotCalledBefore(before, r);
      RenderedTools(before, Before(r, later));
      ToolsShowLastAnswer(before, Before(r, later));
      if r.line.Call? {
        assert r in [r];
        NoAnswers(before, r.line.id);
      }
      forall m | m in Render(before, Before(r, later)) && m.body.Tool? && m.body.id != ""
        ensures m.body.result == if m.body.id in later then Some(later[m.body.id]) else LastAnswer(records, m.body.id)
      {
        assert m.body.id in ToolIds(Render(before, Before(r, later)));
      }
    }
  }

  /** What the panel holds of an uncalled id is its answer in the oldest page that has one. */
  lemma {:induction false} KeptIsOldestAnswer(pages: seq<seq<Record>>, id: string)
    requires id != "" && id !in Called(Concat(pages))
    ensures var kept := Kept(pages); (if id in kept then Some(kept[id]) else None) == OldestAnswer(pages, id)
  {
    if |pages| == 1 {
      assert Concat(pages) == pages[0] && OldestAnswer(pages[..0], id) == None by { assert pages[1..] == []; }
      LeftIsLastAnswer(pages[0], map[], id);
    } else if pages != [] {
      var before, last := pages[..|pages| - 1], pages[|pages| - 1];
      assert before + [last] == pages;
      ConcatPush(before, last);
      assert Called(Concat(pages)) == Called(last) + Called(Concat(before)) by { CalledAdd(last, Concat(before)); }
      KeptIsOldestAnswer(before, id);
      LeftIsLastAnswer(last, map[], id);
    }
  }

  lemma CalledAdd(a: seq<Record>, b: seq<Record>)
    ensures Called(a + b) == Called(a) + Called(b)
  {
  }

  /** Oldest-page and last answers are missing together. */
  lemma {:induction false} AnsweredTogether(pages: seq<seq<Record>>, id: string)
    ensures OldestAnswer(pages, id).None? <==> LastAnswer(Concat(pages), id).None?
  {
    if pages != [] {
      var before, last := pages[..|pages| - 1], pages[|pages| - 1];
      assert before + [last] == pages;
      ConcatPush(before, last);
      LastAnswerAdd(last, Concat(before), id);
      AnsweredTogether(before, id);
    }
  }

  /** One page's tools agree exactly when, as far as it, each of its calls' oldest-page answer is its last. */
  lemma AgreesInAnswers(pages: seq<seq<Record>>, i: nat, m: Message)
    requires i < |pages| && m in Render(pages[i], map[]) && m.body.Tool? && m.body.id != ""
    requires OneCallEach(Concat(pages[..i + 1])) && AnswersFollow(Concat(pages[..i + 1]))
    ensures Agrees(m, Kept(pages[..i]) + Left(pages[i], map[]), Left(Concat(pages[..i]), map[]))
            <==> OldestAnswer(pages[..i + 1], m.body.id) == LastAnswer(Concat(pages[..i + 1]), m.body.id)
  {
    hide AnswersFollow, OneCallEach, Render, Left, Kept, LastAnswer;
    var page, newer, id, none: Results := pages[i], pages[..i], m.body.id, map[];
    assert pages[..i + 1] == newer + [page] && (newer + [page])[..i] == newer;
    ConcatPush(newer, page);
    FollowParts(page, Concat(newer));
    RenderedTools(page, none);
    assert id in Called(page) by { assert id in ToolIds(Render(page, none)); }
    CalledOnce(page, Concat(newer), id);
    OneCallPrefix(page, Concat(newer));
    ToolsShowLastAnswer(page, none);
    FollowsLeft(page, none);
    KeptIsOldestAnswer(newer, id);
    LeftIsLastAnswer(Concat(newer), none, id);
    AnsweredTogether(newer, id);
    LastAnswerAdd(page, Concat(newer), id);
  }

  lemma OneCallPrefix(a: seq<Record>, b: seq<Record>)
    requires OneCallEach(a + b)
    ensures OneCallEach(a)
  {
    assert forall i | 0 <= i < |a| :: (a + b)[i] == a[i];
  }

  lemma CalledOnce(a: seq<Record>, b: seq<Record>, id: string)
    requires OneCallEach(a + b) && id in Called(a)
    ensures id !in Called(b)
  {
    forall x | x in b && x.line.Call? ensures x.line.id != id {
      var y :| y in a && y.line.Call? && y.line.id != "" && y.line.id == id;
      var i :| 0 <= i < |a| && a[i] == y;
      var j :| 0 <= j < |b| && b[j] == x;
      assert (a + b)[i] == y && (a + b)[|a| + j] == x;
    }
  }

  /** With no answer before its call, nothing is left over of what the page calls. */
  lemma {:induction false} FollowsLeft(records: seq<Record>, later: Results)
    requires AnswersFollow(records)
    ensures Left(records, later).Keys !! Called(records)
  {
    if records != [] {
      var before, r := records[..|records| - 1], records[|records| - 1];
      assert records == before + [r];
      FollowParts(before, [r]);
      assert r in [r];
      FollowsLeft(before, Before(r, later));
      LeftComesFromOutputs(before, Before(r, later));
      CalledPush(before, r);
    }
  }

  lemma {:induction false} LeftComesFromOutputs(records: seq<Record>, later: Results)
    ensures Left(records, later).Keys <= later.Keys + Answered(records)
  {
    if records != [] {
      var before, r := records[..|records| - 1], records[|records| - 1];
      LeftComesFromOutputs(before, Before(r, later));
      assert r in records && forall x | x in before :: x in records;
    }
  }

  lemma PageAgreesInAnswers(pages: seq<seq<Record>>, i: nat)
    requires i < |pages| && OneCallEach(Concat(pages[..i + 1])) && AnswersFollow(Concat(pages[..i + 1]))
    ensures PageAgrees(pages, i)
            <==> forall id | id in Called(pages[i]) :: OldestAnswer(pages[..i + 1], id) == LastAnswer(Concat(pages[..i + 1]), id)
  {
    var own := Render(pages[i], map[]);
    RenderedTools(pages[i], map[]);
    forall m | m in own && m.body.Tool? && m.body.id != ""
      ensures Agrees(m, Kept(pages[..i]) + Left(pages[i], map[]), Left(Concat(pages[..i]), map[]))
              <==> OldestAnswer(pages[..i + 1], m.body.id) == LastAnswer(Concat(pages[..i + 1]), m.body.id)
    {
      AgreesInAnswers(pages, i, m);
    }
    hide Agrees, Render, Left, Kept, OldestAnswer, LastAnswer, Called, Concat;
    if PageAgrees(pages, i) {
      forall id | id in Called(pages[i]) ensures OldestAnswer(pages[..i + 1], id) == LastAnswer(Concat(pages[..i + 1]), id) {
        var m :| m in own && m.body.Tool? && m.body.id != "" && m.body.id == id;
        var k :| 0 <= k < |own| && own[k] == m;
      }
    }
    if forall id | id in Called(pages[i]) :: OldestAnswer(pages[..i + 1], id) == LastAnswer(Concat(pages[..i + 1]), id) {
      forall k | 0 <= k < |own| ensures Agrees(own[k], Kept(pages[..i]) + Left(pages[i], map[]), Left(Concat(pages[..i]), map[])) {
        assert own[k] in own;
        if own[k].body.Tool? && own[k].body.id != "" { assert own[k].body.id in ToolIds(own); }
        else { NothingToAgree(own[k], Kept(pages[..i]) + Left(pages[i], map[]), Left(Concat(pages[..i]), map[])); }
      }
    }
  }

  lemma NothingToAgree(m: Message, held: Results, due: Results)
    requires !(m.body.Tool? && m.body.id != "")
    ensures Agrees(m, held, due)
  {
  }

  // ----- whole files, in terms of answers -----

  lemma {:induction false} ConcatSplit(a: seq<seq<Record>>, b: seq<seq<Record>>)
    ensures Concat(a + b) == Concat(b) + Concat(a)
  {
    if a == [] {
      assert a + b == b && Concat(b) + [] == Concat(b);
    } else {
      assert (a + b)[1..] == a[1..] + b;
      ConcatSplit(a[1..], b);
      assert (Concat(b) + Concat(a[1..])) + a[0] == Concat(b) + (Concat(a[1..]) + a[0]);
    }
  }

  lemma {:induction false} OldestAnswerAdd(a: seq<seq<Record>>, b: seq<seq<Record>>, id: string)
    ensures OldestAnswer(a + b, id) == if OldestAnswer(b, id).Some? then OldestAnswer(b, id) else OldestAnswer(a, id)
  {
    if b == [] {
      assert a + b == a;
    } else {
      assert (a + b)[..|a + b| - 1] == a + b[..|b| - 1];
      OldestAnswerAdd(a, b[..|b| - 1], id);
    }
  }

  /** Pages older than a call have no answer to it, so they change neither answer. */
  lemma OlderPagesAddNothing(pages: seq<seq<Record>>, i: nat, id: string)
    requires i < |pages| && id in Called(pages[i]) && AnswersFollow(Concat(pages))
    ensures OldestAnswer(pages, id) == OldestAnswer(pages[..i + 1], id)
    ensures LastAnswer(Concat(pages), id) == LastAnswer(Concat(pages[..i + 1]), id)
  {
    var newer, older := pages[..i + 1], pages[i + 1..];
    assert pages == newer + older && newer == pages[..i] + [pages[i]];
    ConcatSplit(newer, older);
    ConcatPush(pages[..i], pages[i]);
    FollowParts(Concat(older), Concat(newer));
    var call :| call in pages[i] && call.line.Call? && call.line.id == id;
    assert call in Concat(newer);
    NoAnswers(Concat(older), id);
    AnsweredTogether(older, id);
    OldestAnswerAdd(newer, older, id);
    LastAnswerAdd(Concat(older), Concat(newer), id);
  }

  lemma PrefixKeeps(pages: seq<seq<Record>>, i: nat)
    requires i <= |pages| && OneCallEach(Concat(pages)) && AnswersFollow(Concat(pages))
    ensures OneCallEach(Concat(pages[..i])) && AnswersFollow(Concat(pages[..i]))
  {
    assert pages == pages[..i] + pages[i..];
    ConcatSplit(pages[..i], pages[i..]);
    FollowParts(Concat(pages[i..]), Concat(pages[..i]));
    OneCallSuffix(Concat(pages[i..]), Concat(pages[..i]));
  }

  lemma OneCallSuffix(a: seq<Record>, b: seq<Record>)
    requires OneCallEach(a + b)
    ensures OneCallEach(b)
  {
    forall i, j | 0 <= i < j < |b| && b[i].line.Call? && b[j].line.Call? && b[i].line.id != "" ensures b[i].line.id != b[j].line.id {
      assert (a + b)[|a| + i] == b[i] && (a + b)[|a| + j] == b[j];
    }
  }

  lemma {:induction false} CalledIn(pages: seq<seq<Record>>, id: string)
    ensures id in Called(Concat(pages)) <==> exists i :: 0 <= i < |pages| && id in Called(pages[i])
  {
    if pages != [] {
      CalledAdd(Concat(pages[1..]), pages[0]);
      CalledIn(pages[1..], id);
      assert forall i | 0 < i < |pages| :: pages[i] == pages[1..][i - 1];
      forall i | 0 <= i < |pages[1..]| && id in Called(pages[1..][i]) ensures id in Called(pages[i + 1]) {}
    }
  }

  /**
   * For every file and chain of windows, call ids used by one call each and answered only after it, the
   * panel shows the whole file if and only if, for every call, the oldest page that answers it ends on
   * the same answer as the file.
   */
  lemma PanelShowsLastAnswersExactlyWhen(file: Bytes, starts: seq<nat>, decode: Decode)
    requires Chain(file, |file|, starts, decode)
    requires var all := FileRecords(file, 0, |file|, decode); OneCallEach(all) && AnswersFollow(all)
    ensures var pages, all := Pages(file, |file|, starts, decode), FileRecords(file, 0, |file|, decode);
            LoadPanel(pages).messages == PageOf(file, 0, decode).messages
            <==> forall id | id in Called(all) :: OldestAnswer(pages, id) == LastAnswer(all, id)
  {
    hide LoadPanel, PageOf, Chain, PageAgrees, OneCallEach, AnswersFollow, FileRecords;
    var pages := Pages(file, |file|, starts, decode);
    PagesAreTheFile(file, |file|, starts, decode);
    PanelIsWholeFileExactlyWhen(file, starts, decode);
    PagesAgreeInAnswers(pages);
  }

  /** The panel's answer to `id` is the file's. */
  predicate SameAnswer(pages: seq<seq<Record>>, id: string) {
    OldestAnswer(pages, id) == LastAnswer(Concat(pages), id)
  }

  lemma PageIsSame(pages: seq<seq<Record>>, i: nat)
    requires i < |pages| && OneCallEach(Concat(pages)) && AnswersFollow(Concat(pages))
    ensures PageAgrees(pages, i) <==> forall id | id in Called(pages[i]) :: SameAnswer(pages, id)
  {
    PrefixKeeps(pages, i + 1);
    PageAgreesInAnswers(pages, i);
    hide PageAgrees, Called, Concat, OldestAnswer, LastAnswer;
    forall id | id in Called(pages[i])
      ensures SameAnswer(pages, id) <==> OldestAnswer(pages[..i + 1], id) == LastAnswer(Concat(pages[..i + 1]), id)
    {
      OlderPagesAddNothing(pages, i, id);
    }
  }

  /** With no answer before its call, claiming on the newest page would change nothing either. */
  lemma NewestAgrees(pages: seq<seq<Record>>)
    requires pages != [] && AnswersFollow(Concat(pages))
    ensures PageAgrees(pages, 0)
  {
    var page, none: Results := pages[0], map[];
    var own := Render(page, none);
    FollowParts(Concat(pages[1..]), page);
    FollowsLeft(page, none);
    RenderedTools(page, none);
    forall k | 0 <= k < |own| ensures Agrees(own[k], none + Left(page, none), none) {
      assert own[k] in own;
      if own[k].body.Tool? && own[k].body.id != "" { assert own[k].body.id in ToolIds(own); }
    }
    assert Kept(pages[..0]) == none && Left(Concat(pages[..0]), none) == none;
  }

  lemma PagesAgreeInAnswers(pages: seq<seq<Record>>)
    requires OneCallEach(Concat(pages)) && AnswersFollow(Concat(pages))
    ensures (forall i | 1 <= i < |pages| :: PageAgrees(pages, i)) <==> forall id | id in Called(Concat(pages)) :: SameAnswer(pages, id)
  {
    hide *;
    if pages != [] { NewestAgrees(pages); }
    if forall i | 1 <= i < |pages| :: PageAgrees(pages, i) {
      forall id | id in Called(Concat(pages)) ensures SameAnswer(pages, id) {
        CalledIn(pages, id);
        var i :| 0 <= i < |pages| && id in Called(pages[i]);
        assert PageAgrees(pages, i);
        PageIsSame(pages, i);
      }
    }
    if forall id | id in Called(Concat(pages)) :: SameAnswer(pages, id) {
      forall i | 1 <= i < |pages| ensures PageAgrees(pages, i) {
        PageIsSame(pages, i);
        forall id | id in Called(pages[i]) ensures SameAnswer(pages, id) { CalledIn(pages, id); }
      }
    }
  }

  /** No call is answered twice. */
  predicate AnsweredOnce(records: seq<Record>) {
    forall i, j | 0 <= i < j < |records| && Answers(records[i]) && Answers(records[j]) :: records[i].line.callId != records[j].line.callId
  }

  lemma {:induction false} LastAnswerIsThere(records: seq<Record>, id: string)
    ensures LastAnswer(records, id).Some? ==>
              exists r :: r in records && Answers(r) && r.line.callId == id && r.line.summary == LastAnswer(records, id).value
  {
    if records != [] {
      var before, r := records[..|records| - 1], records[|records| - 1];
      assert r in records && forall x | x in before :: x in records;
      LastAnswerIsThere(before, id);
    }
  }

  lemma {:induction false} OldestAnswerIsThere(pages: seq<seq<Record>>, id: string)
    ensures OldestAnswer(pages, id).Some? ==>
              exists r :: r in Concat(pages) && Answers(r) && r.line.callId == id && r.line.summary == OldestAnswer(pages, id).value
  {
    if pages != [] {
      var before, last := pages[..|pages| - 1], pages[|pages| - 1];
      assert before + [last] == pages;
      ConcatPush(before, last);
      LastAnswerIsThere(last, id);
      OldestAnswerIsThere(before, id);
    }
  }

  lemma OneAnswer(pages: seq<seq<Record>>, id: string)
    requires AnsweredOnce(Concat(pages))
    ensures OldestAnswer(pages, id) == LastAnswer(Concat(pages), id)
  {
    var all := Concat(pages);
    AnsweredTogether(pages, id);
    LastAnswerIsThere(all, id);
    OldestAnswerIsThere(pages, id);
    if LastAnswer(all, id).Some? {
      var x :| x in all && Answers(x) && x.line.callId == id && x.line.summary == LastAnswer(all, id).value;
      var y :| y in all && Answers(y) && y.line.callId == id && y.line.summary == OldestAnswer(pages, id).value;
      var i :| 0 <= i < |all| && all[i] == x;
      var j :| 0 <= j < |all| && all[j] == y;
    }
  }

  /** In particular where every call is answered at most once, after it. */
  lemma PanelIsWholeFileParsing(file: Bytes, starts: seq<nat>, decode: Decode)
    requires Chain(file, |file|, starts, decode)
    requires var all := FileRecords(file, 0, |file|, decode); OneCallEach(all) && AnswersFollow(all) && AnsweredOnce(all)
    ensures LoadPanel(Pages(file, |file|, starts, decode)).messages == PageOf(file, 0, decode).messages
  {
    var pages := Pages(file, |file|, starts, decode);
    PagesAreTheFile(file, |file|, starts, decode);
    PanelShowsLastAnswersExactlyWhen(file, starts, decode);
    forall id | id in Called(Concat(pages)) ensures OldestAnswer(pages, id) == LastAnswer(Concat(pages), id) {
      OneAnswer(pages, id);
    }
  }

  // ----- a file the panel shows otherwise -----

  /** Three lines: a call, an answer `s` to it, and another answer `s'`. */
  function ThreeLines(s: string, s': string): Decode {
    (line: Bytes) => Decoded(None, if line == [1] then Call("c", "n", "a") else if line == [2] then Output("c", s) else Output("c", s'))
  }

  const THREE_LINES: Bytes := [1, NEWLINE, 2, NEWLINE, 3, NEWLINE]

  lemma WholeThree(s: string, s': string)
    ensures FileRecords(THREE_LINES, 0, 6, ThreeLines(s, s'))
            == [Record(0, None, Call("c", "n", "a")), Record(2, None, Output("c", s)), Record(4, None, Output("c", s'))]
  {
    var f, d := THREE_LINES, ThreeLines(s, s');
    assert f[..6] == f && IndexOf(f, 4) == 5 && IndexOf(f, 2) == 3 && IndexOf(f, 0) == 1;
    assert f[0..1] == [1] && f[2..3] == [2] && f[4..5] == [3];
    hide Lines;
    LinesStep(f, 0, 0, d);
    LinesStep(f, 2, 0, d);
    LinesStep(f, 4, 0, d);
    NoLines(f, 6, 0, d);
  }

  lemma NewestOfThree(s: string, s': string)
    ensures WindowOf(THREE_LINES[3..6], 3, ThreeLines(s, s')) == Window(Some(4), [Record(4, None, Output("c", s'))])
  {
    var buf, d := THREE_LINES[3..6], ThreeLines(s, s');
    assert buf == [NEWLINE, 3, NEWLINE] && IndexOf(buf, 0) == 0 && IndexOf(buf, 1) == 2 && buf[1..2] == [3];
    hide Lines;
    LinesStep(buf, 1, 3, d);
    NoLines(buf, 3, 3, d);
  }

  lemma OldestOfThree(s: string, s': string)
    ensures WindowOf(THREE_LINES[0..4], 0, ThreeLines(s, s')) == Window(None, [Record(0, None, Call("c", "n", "a")), Record(2, None, Output("c", s))])
  {
    var buf, d := THREE_LINES[0..4], ThreeLines(s, s');
    assert buf == [1, NEWLINE, 2, NEWLINE] && IndexOf(buf, 2) == 3 && IndexOf(buf, 0) == 1;
    assert buf[0..1] == [1] && buf[2..3] == [2];
    hide Lines;
    LinesStep(buf, 0, 0, d);
    LinesStep(buf, 2, 0, d);
    NoLines(buf, 4, 0, d);
  }

  lemma ThreeRecords(s: string, s': string)
    ensures var call, first, second := Record(0, None, Call("c", "n", "a")), Record(2, None, Output("c", s)), Record(4, None, Output("c", s'));
            var f, d := THREE_LINES, ThreeLines(s, s');
            && FileRecords(f, 0, 6, d) == [call, first, second]
            && Chain(f, 6, [3, 0], d) && Pages(f, 6, [3, 0], d) == [[second], [call, first]]
  {
    var f, d := THREE_LINES, ThreeLines(s, s');
    WholeThree(s, s');
    NewestOfThree(s, s');
    OldestOfThree(s, s');
    hide WindowOf, FileRecords;
    var starts: seq<nat> := [3, 0];
    assert starts[1..] == [0] && |f| == 6;
    var two := WindowOf(f[0..4], 0, d);
    assert Chain(f, 4, [0], d) && Pages(f, 4, [0], d) == [two.records] + [];
    assert Pages(f, 6, starts, d) == [WindowOf(f[3..6], 3, d).records] + Pages(f, 4, [0], d);
  }

  /**
   * A call answered twice, its window boundary between the two answers: the oldest page that answers it
   * ends on the first answer and the file on the second, so the panel does not show the whole file.
   */
  lemma OlderAnswerWinsOnThePanel(s: string, s': string)
    requires s != "" && s' != "" && s != s'
    ensures var f, d := THREE_LINES, ThreeLines(s, s');
            && Chain(f, |f|, [3, 0], d) && OneCallEach(FileRecords(f, 0, |f|, d)) && AnswersFollow(FileRecords(f, 0, |f|, d))
            && LoadPanel(Pages(f, |f|, [3, 0], d)).messages != PageOf(f, 0, d).messages
  {
    var f, d := THREE_LINES, ThreeLines(s, s');
    ThreeRecords(s, s');
    PanelShowsLastAnswersExactlyWhen(f, [3, 0], d);
    var pages, all := Pages(f, 6, [3, 0], d), FileRecords(f, 0, 6, d);
    assert all[0] in all && "c" in Called(all);
    assert LastAnswer(all, "c") == Some(s');
    assert pages[1][..1] == [pages[1][0]];
    assert LastAnswer(pages[1], "c") == Some(s);
    assert OldestAnswer(pages, "c") == Some(s);
  }
}
