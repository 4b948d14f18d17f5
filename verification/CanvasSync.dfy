/**
 * The reflector: it gives every accepted mutation its place in one total order,
 * tells the authority, and hands all clients, its author too, a copy.
 */
module CanvasSync {
  import opened Options

  /** What a sender may put in `seen`: nothing, something unusable, or an integer. */
  datatype Seen = NoSeen | BadSeen | Seen(at: int)

  /** A mutation: its content, a held launch, and the stamp fields. `vouched` is `origin: 'core'`. */
  datatype Mutation<B> = Mutation(body: B, launch: Option<string>, place: int, src: Option<string>, seen: Seen, vouched: bool)

  datatype Sent<B> = Sent(project: string, m: Mutation<B>)

  const REF_MAX_LEN: nat := 128

  predicate IsRefId(s: string) {
    0 < |s| <= REF_MAX_LEN
  }

  /** The shape guard and the repair of a cast's content; `None` refuses it. */
  type Guard<!B> = B -> Option<B>

  function Sanitize<B>(guard: Guard<B>, m: Mutation<B>, keepLaunch: bool): Option<Mutation<B>> {
    var body := guard(m.body);
    if body.None? then None
    else Some(m.(body := body.value, launch := if keepLaunch then m.launch else None))
  }

  /** Anything but the launch. */
  function Strip<B>(m: Mutation<B>): Mutation<B> {
    m.(launch := None)
  }

  /** The mutation at its place in the order, its client-supplied stamp fields bounded. */
  function Stamp<B>(m: Mutation<B>, place: nat): Mutation<B> {
    m.(place := place,
       src := if m.src.Some? && IsRefId(m.src.value) then m.src else None,
       seen := if !m.seen.Seen? || m.seen.at < 0 then NoSeen else if m.seen.at >= place then Seen(place - 1) else m.seen,
       vouched := false)
  }

  /** What one client gets of a stamped op. */
  function Copy<B>(stamped: Mutation<B>, trusted: bool, owner: bool): Mutation<B> {
    if trusted && owner then stamped.(vouched := true) else Strip(stamped)
  }

  /** A sender had not seen the remove ordered at `remove`: the delete wins over its upsert. */
  predicate BlindTo<B>(m: Mutation<B>, remove: nat) {
    m.seen.Seen? && 0 <= m.seen.at < remove
  }

  /** Bounding `seen` is hygiene: against every remove ordered before the op the verdict is the same. */
  lemma ClampKeepsVerdicts<B>(m: Mutation<B>, place: nat, remove: nat)
    requires remove < place
    ensures BlindTo(Stamp(m, place), remove) <==> BlindTo(m, remove)
  {
  }

  /** The reflector and everything it has sent. */
  datatype Bus<B> = Bus(count: nat, heard: seq<Sent<B>>, inboxes: map<nat, seq<Sent<B>>>, owners: set<nat>)

  /** One accepted cast: stamped once, told to the listener, delivered to every attached client. */
  function Cast<B>(guard: Guard<B>, b: Bus<B>, project: string, m: Mutation<B>, trusted: bool): Bus<B> {
    var clean := Sanitize(guard, m, trusted);
    if !IsRefId(project) || clean.None? then b
    else
      var stamped := Stamp(clean.value, b.count + 1);
      Bus(b.count + 1, b.heard + [Sent(project, Strip(stamped))],
          map id | id in b.inboxes :: b.inboxes[id] + [Sent(project, Copy(stamped, trusted, id in b.owners))],
          b.owners)
  }

  datatype Input<B> = Input(project: string, m: Mutation<B>, trusted: bool)

  function CastAll<B>(guard: Guard<B>, b: Bus<B>, ins: seq<Input<B>>): Bus<B> {
    if ins == [] then b
    else
      var last := ins[|ins| - 1];
      Cast(guard, CastAll(guard, b, ins[..|ins| - 1]), last.project, last.m, last.trusted)
  }

  predicate Rising<B>(sent: seq<Sent<B>>, upTo: int) {
    && (forall i, j | 0 <= i < j < |sent| :: sent[i].m.place < sent[j].m.place)
    && (forall i | 0 <= i < |sent| :: sent[i].m.place <= upTo)
  }

  /** Same ops at the same places, whatever launches or vouching the copies carry. */
  ghost predicate SameOps<B>(a: seq<Sent<B>>, b: seq<Sent<B>>) {
    |a| == |b| && forall i | 0 <= i < |a| ::
      a[i].project == b[i].project && Strip(a[i].m).(vouched := false) == Strip(b[i].m).(vouched := false)
  }

  /** The listener heard each op once, in strictly rising order, with no launch and no voucher. */
  ghost predicate Heard<B>(heard: seq<Sent<B>>, count: nat) {
    count == |heard| && Rising(heard, count) && (forall i | 0 <= i < |heard| :: heard[i].m.place == i + 1) && forall s | s in heard :: s.m.launch.None? && !s.m.vouched
  }

  /** A client got the listener's ops, in its order; only an owner gets launches, and only vouched ones. */
  ghost predicate Delivered<B>(inbox: seq<Sent<B>>, heard: seq<Sent<B>>, owner: bool) {
    SameOps(inbox, heard) && forall s | s in inbox :: (s.m.launch.Some? ==> s.m.vouched) && (s.m.vouched ==> owner)
  }

  /** What every run of casts keeps. */
  ghost predicate OneOrder<B>(b: Bus<B>, clients: set<nat>, owners: set<nat>) {
    && b.inboxes.Keys == clients && b.owners == owners && Heard(b.heard, b.count)
    && forall id | id in clients :: Delivered(b.inboxes[id], b.heard, id in owners)
  }

  lemma HeardPush<B>(heard: seq<Sent<B>>, count: nat, project: string, stamped: Mutation<B>)
    requires Heard(heard, count) && !stamped.vouched && stamped.place == count + 1
    ensures Heard(heard + [Sent(project, Strip(stamped))], count + 1)
  {
  }

  lemma DeliveredPush<B>(inbox: seq<Sent<B>>, heard: seq<Sent<B>>, owner: bool, project: string, stamped: Mutation<B>, trusted: bool)
    requires Delivered(inbox, heard, owner) && !stamped.vouched
    ensures Delivered(inbox + [Sent(project, Copy(stamped, trusted, owner))], heard + [Sent(project, Strip(stamped))], owner)
  {
  }

  lemma {:induction false} CastKeepsOrder<B>(guard: Guard<B>, b: Bus<B>, project: string, m: Mutation<B>, trusted: bool, clients: set<nat>, owners: set<nat>)
    requires OneOrder(b, clients, owners)
    ensures OneOrder(Cast(guard, b, project, m, trusted), clients, owners)
  {
    hide Heard, Delivered, Stamp, Sanitize, Copy, Strip;
    var clean := Sanitize(guard, m, trusted);
    if IsRefId(project) && clean.Some? {
      var stamped := Stamp(clean.value, b.count + 1);
      StampShape(guard, m, trusted, b.count + 1);
      HeardPush(b.heard, b.count, project, stamped);
      forall id | id in clients
        ensures Delivered(b.inboxes[id] + [Sent(project, Copy(stamped, trusted, id in owners))], b.heard + [Sent(project, Strip(stamped))], id in owners)
      {
        DeliveredPush(b.inboxes[id], b.heard, id in owners, project, stamped, trusted);
      }
    }
  }

  lemma StampShape<B>(guard: Guard<B>, m: Mutation<B>, trusted: bool, place: nat)
    requires Sanitize(guard, m, trusted).Some?
    ensures var s := Stamp(Sanitize(guard, m, trusted).value, place);
            !s.vouched && s.place == place
  {
  }

  /**
   * Over every run of casts, trusted or not: the listener hears each op once, in strictly rising
   * order; every client receives exactly the same ops in the same order; and no op carries a launch
   * or the core's voucher to the listener, or to a client that is not an owner.
   */
  lemma {:induction false} OneOrderForEveryone<B>(guard: Guard<B>, clients: set<nat>, owners: set<nat>, ins: seq<Input<B>>)
    ensures OneOrder(CastAll(guard, Bus(0, [], map id | id in clients :: [], owners), ins), clients, owners)
  {
    if ins != [] {
      var before, last := ins[..|ins| - 1], ins[|ins| - 1];
      OneOrderForEveryone(guard, clients, owners, before);
      hide OneOrder, Cast;
      CastKeepsOrder(guard, CastAll(guard, Bus(0, [], map id | id in clients :: [], owners), before), last.project, last.m, last.trusted, clients, owners);
    }
  }

  // ----- what every copy carries -----

  /** The casts that are not refused, in order. */
  function Accepted<B>(guard: Guard<B>, ins: seq<Input<B>>): seq<Input<B>> {
    if ins == [] then []
    else
      var last := ins[|ins| - 1];
      Accepted(guard, ins[..|ins| - 1]) + if IsRefId(last.project) && guard(last.m.body).Some? then [last] else []
  }

  /** The bounded stamp fields: a usable tag, and a position before the op's own. */
  predicate Bounded<B>(given: Mutation<B>, sent: Mutation<B>) {
    && sent.src == (if given.src.Some? && 0 < |given.src.value| <= 128 then given.src else None)
    && sent.seen == if given.seen.Seen? && given.seen.at >= 0 then Seen(Lesser(given.seen.at, sent.place - 1)) else NoSeen
  }

  function Lesser(a: int, b: int): int {
    if a <= b then a else b
  }

  /** The copy of cast `i` with the place `place`: its project, its repaired body, its bounded stamp. */
  ghost predicate CopyOf<B>(guard: Guard<B>, i: Input<B>, sent: Sent<B>, place: nat) {
    && sent.project == i.project && guard(i.m.body) == Some(sent.m.body) && sent.m.place == place && Bounded(i.m, sent.m)
  }

  /** A trusted cast reaches an owner with its launch, vouched for; and nobody else gets either. */
  predicate Vouches<B>(i: Input<B>, sent: Sent<B>, owner: bool) {
    && (sent.m.vouched <==> i.trusted && owner)
    && sent.m.launch == if i.trusted && owner then i.m.launch else None
  }

  ghost predicate CopiesOf<B>(guard: Guard<B>, accepted: seq<Input<B>>, sent: seq<Sent<B>>, owner: bool) {
    |sent| == |accepted| && forall k | 0 <= k < |sent| :: CopyOf(guard, accepted[k], sent[k], k + 1) && Vouches(accepted[k], sent[k], owner)
  }

  /** The listener is sent what a client that is no owner is. */
  ghost predicate Faithful<B>(guard: Guard<B>, b: Bus<B>, accepted: seq<Input<B>>, clients: set<nat>, owners: set<nat>) {
    && b.inboxes.Keys == clients && b.owners == owners && b.count == |accepted|
    && CopiesOf(guard, accepted, b.heard, false)
    && forall id | id in clients :: CopiesOf(guard, accepted, b.inboxes[id], id in owners)
  }

  lemma StampIsCopy<B>(guard: Guard<B>, i: Input<B>, place: nat, owner: bool)
    requires place > 0 && guard(i.m.body).Some?
    ensures Sanitize(guard, i.m, i.trusted).Some?
    ensures var stamped := Stamp(Sanitize(guard, i.m, i.trusted).value, place);
            && CopyOf(guard, i, Sent(i.project, Copy(stamped, i.trusted, owner)), place)
            && Vouches(i, Sent(i.project, Copy(stamped, i.trusted, owner)), owner)
            && CopyOf(guard, i, Sent(i.project, Strip(stamped)), place)
            && Vouches(i, Sent(i.project, Strip(stamped)), false)
  {
  }

  lemma CopiesPush<B>(guard: Guard<B>, accepted: seq<Input<B>>, sent: seq<Sent<B>>, owner: bool, i: Input<B>, s: Sent<B>)
    requires CopiesOf(guard, accepted, sent, owner) && CopyOf(guard, i, s, |sent| + 1) && Vouches(i, s, owner)
    ensures CopiesOf(guard, accepted + [i], sent + [s], owner)
  {
    hide CopyOf, Vouches;
  }

  lemma CastIsFaithful<B>(guard: Guard<B>, b: Bus<B>, i: Input<B>, accepted: seq<Input<B>>, clients: set<nat>, owners: set<nat>)
    requires Faithful(guard, b, accepted, clients, owners)
    ensures var after := accepted + if IsRefId(i.project) && guard(i.m.body).Some? then [i] else [];
            Faithful(guard, Cast(guard, b, i.project, i.m, i.trusted), after, clients, owners)
  {
    hide CopiesOf, CopyOf, Vouches, Stamp, Copy, Strip;
    if IsRefId(i.project) && guard(i.m.body).Some? {
      StampIsCopy(guard, i, b.count + 1, false);
      CopiesMatch(guard, accepted, b.heard, false);
      var stamped := Stamp(Sanitize(guard, i.m, i.trusted).value, b.count + 1);
      CopiesPush(guard, accepted, b.heard, false, i, Sent(i.project, Strip(stamped)));
      forall id | id in clients
        ensures CopiesOf(guard, accepted + [i], b.inboxes[id] + [Sent(i.project, Copy(stamped, i.trusted, id in owners))], id in owners)
      {
        StampIsCopy(guard, i, b.count + 1, id in owners);
        CopiesMatch(guard, accepted, b.inboxes[id], id in owners);
        CopiesPush(guard, accepted, b.inboxes[id], id in owners, i, Sent(i.project, Copy(stamped, i.trusted, id in owners)));
      }
    } else {
      assert accepted + [] == accepted;
      assert Cast(guard, b, i.project, i.m, i.trusted) == b;
    }
  }

  lemma CopiesMatch<B>(guard: Guard<B>, accepted: seq<Input<B>>, sent: seq<Sent<B>>, owner: bool)
    requires CopiesOf(guard, accepted, sent, owner)
    ensures |sent| == |accepted|
  {
  }

  /**
   * Over every run of casts, the k-th op anyone is sent is the k-th accepted cast: its project, its
   * repaired body, the place k, its tag and position bounded. An owner gets a trusted cast with its launch
   * and the voucher; the listener, every other client, and owners of an untrusted cast get neither.
   */
  lemma {:induction false} EveryCopyIsItsCast<B>(guard: Guard<B>, clients: set<nat>, owners: set<nat>, ins: seq<Input<B>>)
    ensures var b := CastAll(guard, Bus(0, [], map id | id in clients :: [], owners), ins);
            Faithful(guard, b, Accepted(guard, ins), clients, owners)
  {
    if ins != [] {
      var before, last := ins[..|ins| - 1], ins[|ins| - 1];
      EveryCopyIsItsCast(guard, clients, owners, before);
      hide Faithful, Cast;
      CastIsFaithful(guard, CastAll(guard, Bus(0, [], map id | id in clients :: [], owners), before), last, Accepted(guard, before), clients, owners);
    }
  }

  /** The reflector with its counter, its listener's log and its clients' inboxes. */
  class Reflector<B> {
    const guard: Guard<B>
    var count: nat
    var heard: seq<Sent<B>>
    const clients: seq<nat>
    const owners: set<nat>
    var inboxes: map<nat, seq<Sent<B>>>

    constructor (guard: Guard<B>, clients: seq<nat>, owners: set<nat>)
      requires forall i, j | 0 <= i < j < |clients| :: clients[i] != clients[j]
      ensures this.guard == guard && Valid()
      ensures View() == Bus(0, [], map id | id in clients :: [], owners)
    {
      this.guard, this.clients, this.owners := guard, clients, owners;
      count, heard := 0, [];
      inboxes := map id | id in clients :: [];
    }

    ghost predicate Valid()
      reads this
    {
      && (forall i, j | 0 <= i < j < |clients| :: clients[i] != clients[j])
      && (forall id :: id in clients <==> id in inboxes)
    }

    function View(): Bus<B>
      reads this
    {
      Bus(count, heard, inboxes, owners)
    }

    method SendTo(id: nat, s: Sent<B>)
      requires id in inboxes
      modifies this`inboxes
      ensures inboxes == old(inboxes)[id := old(inboxes)[id] + [s]]
    {
      inboxes := inboxes[id := inboxes[id] + [s]];
    }

    /** All clients get a copy; whether it carries a launch depends on who they are. */
    method FanOut(project: string, stamped: Mutation<B>, trusted: bool)
      requires Valid()
      modifies this`inboxes
      ensures Valid()
      ensures inboxes == map id | id in old(inboxes) :: old(inboxes)[id] + [Sent(project, Copy(stamped, trusted, id in owners))]
    {
      for i := 0 to |clients|
        invariant inboxes.Keys == old(inboxes).Keys
        invariant forall id | id in inboxes ::
                    inboxes[id] == if id in clients[..i] then old(inboxes)[id] + [Sent(project, Copy(stamped, trusted, id in owners))]
                                   else old(inboxes)[id]
      {
        var id := clients[i];
        assert clients[..i + 1] == clients[..i] + [id] && id !in clients[..i];
        var owner := id in owners;
        SendTo(id, Sent(project, if trusted && owner then stamped.(vouched := true) else Strip(stamped)));
      }
      assert clients[..|clients|] == clients;
    }

    /** A client's cast, or the core's own publication: stamped, told to the listener, fanned out. */
    method Ingest(project: string, m: Mutation<B>, trusted: bool) returns (published: bool)
      requires Valid()
      modifies this`count, this`heard, this`inboxes
      ensures Valid() && View() == Cast(guard, old(View()), project, m, trusted)
      ensures published <==> IsRefId(project) && Sanitize(guard, m, trusted).Some?
    {
      if !IsRefId(project) { return false; }
      var clean := Sanitize(guard, m, trusted);
      if clean.None? { return false; }
      count := count + 1;
      var stamped := Stamp(clean.value, count);
      heard := heard + [Sent(project, Strip(stamped))];
      FanOut(project, stamped, trusted);
      return true;
    }
  }
}
