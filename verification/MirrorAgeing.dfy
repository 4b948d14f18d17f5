/**
 * Ageing of mirror entries, the mirror file, and reloading it. Ageing commutes
 * with itself over time, with saving, and with a restart.
 */
module MirrorAgeing {
  import opened Options
  import opened MirrorEntry

  const EXPIRE_MS: int := 6 * 60 * 60_000
  const IDENTITY_EXPIRE_MS: int := 30 * 24 * 60 * 60_000

  /** The node ids known to exist, or `None` when that cannot be known. */
  type Live = Option<set<string>>

  /** A valid shape for an account label read back from a file that may be hand-edited. */
  type Accepts = string -> bool

  predicate HasIdentity(e: Entry) {
    e.who.agentId != "" || e.who.sessionId != ""
  }

  /** Who the node is, and nothing that came with its state. */
  function IdentityOnly(e: Entry): Option<Entry> {
    if !HasIdentity(e) then None
    else Some(Entry(e.who, Evidence(None, e.status.updatedAt, false, None, None, e.status.restored, false, None, true),
                    [], None, false, "", false))
  }

  /** The entry while its state is fresh, its identity past that, and nothing past the identity horizon. */
  function Age(id: string, e: Entry, now: int, live: Live): Option<Entry> {
    if e.hibernated || now - e.status.updatedAt <= EXPIRE_MS then Some(e)
    else if now - e.status.updatedAt > IDENTITY_EXPIRE_MS then None
    else if live.Some? && id !in live.value then None
    else if e.status.stateExpired then Some(e)
    else IdentityOnly(e)
  }

  function AgeAll(nodes: map<string, Entry>, now: int, live: Live): map<string, Entry> {
    map id | id in nodes && Age(id, nodes[id], now, live).Some? :: Age(id, nodes[id], now, live).value
  }

  /** What one node looks like in the mirror file: never any proof, only the negative `restored`. */
  datatype FileNode = FileNode(state: Option<State>, who: Identity, hibernated: bool, restored: bool, updatedAt: int)

  function ToFile(e: Entry): FileNode {
    FileNode(e.status.state, e.who, e.hibernated, e.status.restored, e.status.updatedAt)
  }

  function FileOf(nodes: map<string, Entry>, now: int, live: Live): map<string, FileNode> {
    map id | id in nodes && Age(id, nodes[id], now, live).Some? :: ToFile(Age(id, nodes[id], now, live).value)
  }

  /** Reload one node: its identity past the state horizon, its state before, marked and unverified. */
  function Restore(f: FileNode, now: int, accepts: Accepts): Option<Entry> {
    var expired := now - f.updatedAt > EXPIRE_MS && !f.hibernated;
    if expired && (now - f.updatedAt > IDENTITY_EXPIRE_MS || (f.who.agentId == "" && f.who.sessionId == "")) then None
    else
      var account := if accepts(f.who.account) then f.who.account else "";
      Some(Entry(f.who.(account := account),
                 Evidence(if expired then None else f.state, f.updatedAt, false, None, None, true, false, None, expired),
                 [], None, false, "", f.hibernated))
  }

  function RestoreAll(file: map<string, FileNode>, now: int, accepts: Accepts): map<string, Entry> {
    map id | id in file && Restore(file[id], now, accepts).Some? :: Restore(file[id], now, accepts).value
  }

  // ----- ageing commutes -----

  /** Ageing at `t` and again at `t'` is ageing at `t'`. */
  lemma AgeTwice(id: string, e: Entry, t: int, t': int, live: Live)
    requires t <= t'
    ensures var a := Age(id, e, t, live);
            (if a.Some? then Age(id, a.value, t', live) else None) == Age(id, e, t', live)
  {
  }

  lemma {:induction false} AgeAllTwice(nodes: map<string, Entry>, t: int, t': int, live: Live)
    requires t <= t'
    ensures AgeAll(AgeAll(nodes, t, live), t', live) == AgeAll(nodes, t', live)
    ensures FileOf(AgeAll(nodes, t, live), t', live) == FileOf(nodes, t', live)
  {
    forall id | id in nodes
      ensures var a := Age(id, nodes[id], t, live);
              (if a.Some? then Age(id, a.value, t', live) else None) == Age(id, nodes[id], t', live)
    {
      AgeTwice(id, nodes[id], t, t', live);
    }
  }

  /** Which nodes exist is only asked when some entry is past its state horizon: before, it changes nothing. */
  lemma LiveSetIsOnlyForTheExpired(nodes: map<string, Entry>, now: int, live: Live)
    requires forall id | id in nodes :: nodes[id].hibernated || now - nodes[id].status.updatedAt <= EXPIRE_MS
    ensures AgeAll(nodes, now, live) == nodes
    ensures FileOf(nodes, now, live) == FileOf(nodes, now, None)
  {
  }

  // ----- a restart -----

  function Marked(file: map<string, FileNode>): map<string, FileNode> {
    map id | id in file :: file[id].(restored := true)
  }

  lemma RestartOne(id: string, e: Entry, t: int, t': int, accepts: Accepts)
    requires t <= t' && Evident(e) && (accepts(e.who.account) || e.who.account == "")
    ensures var saved := Age(id, e, t, None);
            var loaded := if saved.Some? then Restore(ToFile(saved.value), t', accepts) else None;
            var again := if loaded.Some? then Age(id, loaded.value, t', None) else None;
            var direct := Age(id, e, t', None);
            again.Some? == direct.Some? && (again.Some? ==> ToFile(again.value) == ToFile(direct.value).(restored := true))
  {
  }

  /**
   * Saving at `t`, reloading at `t'` and saving again gives the nodes a direct save at `t'` would
   * have given, apart from the added `restored` mark.
   */
  lemma RestartIsTransparent(nodes: map<string, Entry>, t: int, t': int, accepts: Accepts)
    requires t <= t' && forall id | id in nodes :: Evident(nodes[id]) && (accepts(nodes[id].who.account) || nodes[id].who.account == "")
    ensures FileOf(RestoreAll(FileOf(nodes, t, None), t', accepts), t', None) == Marked(FileOf(nodes, t', None))
  {
    forall id | id in nodes {
      RestartOne(id, nodes[id], t, t', accepts);
    }
    var file := FileOf(nodes, t, None);
    var loaded := RestoreAll(file, t', accepts);
    forall id ensures id in FileOf(loaded, t', None) <==> id in FileOf(nodes, t', None) {
      if id in nodes { RestartOne(id, nodes[id], t, t', accepts); }
    }
  }

  /** Nothing reloaded is ever evidence: no restored entry is verified, whatever the file said. */
  lemma RestoredIsNeverProof(file: map<string, FileNode>, now: int, accepts: Accepts, id: string)
    requires id in RestoreAll(file, now, accepts)
    ensures var e := RestoreAll(file, now, accepts)[id]; e.status.restored && !e.status.stateVerified && Evident(e) && Attentive(e)
  {
  }

  /** Six hours and thirty days. Ageing keeps who a node is, its clock and its marks; it takes the whole of an expired state or nothing of a fresh one. */
  lemma AgedKeeps(id: string, e: Entry, now: int, live: Live)
    ensures var a, over := Age(id, e, now, live), !e.hibernated && now - e.status.updatedAt > 21_600_000;
            && (a.None? <==> over && (now - e.status.updatedAt > 2_592_000_000 || (live.Some? && id !in live.value)
                                      || (!e.status.stateExpired && e.who.agentId == "" && e.who.sessionId == "")))
            && (a.Some? ==>
                  && a.value.who == e.who && a.value.hibernated == e.hibernated
                  && a.value.status.updatedAt == e.status.updatedAt && a.value.status.restored == e.status.restored
                  && (a.value == e <== !over)
                  && (over && !e.status.stateExpired ==>
                        a.value.status.state.None? && a.value.status.stateExpired && !a.value.status.stateVerified
                        && a.value.question.None? && a.value.approvals == [] && !a.value.awaitingInput))
  {
  }

  /**
   * A node saved and loaded again is who it was, but for an account label that is no longer accepted, hibernated or not as it was, under the same clock, with
   * the state it had while that is fresh at the load or it is hibernated, and with none after that; it is
   * lost exactly when nobody could have known it, or too long ago.
   */
  lemma LoadedKeeps(id: string, e: Entry, t: int, t': int, accepts: Accepts)
    requires t <= t' && Evident(e)
    ensures var saved := Age(id, e, t, None);
            var loaded := if saved.Some? then Restore(ToFile(saved.value), t', accepts) else None;
            var young := e.hibernated || t' - e.status.updatedAt <= 21_600_000;
            && (loaded.Some? <==> young || (t' - e.status.updatedAt <= 2_592_000_000 && HasIdentity(e)))
            && (loaded.Some? ==>
                  && loaded.value.who == e.who.(account := if accepts(e.who.account) then e.who.account else "")
                  && loaded.value.hibernated == e.hibernated
                  && loaded.value.status.updatedAt == e.status.updatedAt
                  && loaded.value.status.state == (if young then e.status.state else None)
                  && loaded.value.status.stateExpired == !young && loaded.value.status.restored && !loaded.value.status.stateVerified)
  {
  }

  /** The same for every node of the file. */
  lemma RestartKeepsNodes(nodes: map<string, Entry>, t: int, t': int, accepts: Accepts)
    requires t <= t' && forall id | id in nodes :: Evident(nodes[id])
    ensures var loaded := RestoreAll(FileOf(nodes, t, None), t', accepts);
            forall id :: id in loaded <==>
              && id in nodes
              && (nodes[id].hibernated || t' - nodes[id].status.updatedAt <= 21_600_000
                  || (t' - nodes[id].status.updatedAt <= 2_592_000_000 && HasIdentity(nodes[id])))
    ensures var loaded := RestoreAll(FileOf(nodes, t, None), t', accepts);
            forall id | id in loaded && id in nodes ::
              var e, young := nodes[id], nodes[id].hibernated || t' - nodes[id].status.updatedAt <= 21_600_000;
              && loaded[id].who == e.who.(account := if accepts(e.who.account) then e.who.account else "") && loaded[id].hibernated == e.hibernated
              && loaded[id].status.updatedAt == e.status.updatedAt && loaded[id].status.state == if young then e.status.state else None
  {
    forall id | id in nodes { LoadedKeeps(id, nodes[id], t, t', accepts); }
    var loaded := RestoreAll(FileOf(nodes, t, None), t', accepts);
    forall id ensures id in loaded ==> id in nodes {}
    hide Age, Restore;
  }
}
