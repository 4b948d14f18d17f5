/**
 * The canvas authority: one record per governed project, updated in place by
 * every op, timer, read and write. Each method is proved against the project
 * rules, and leaves every other project alone.
 */
module CanvasAuthority {
  import opened Options
  import opened Rules = CanvasModel

  /** An adopted project. A timer field says whether that timer is pending. */
  class Governed<C, M> {
    var content: C
    var unflushed: seq<M>
    var dirty: bool
    var quietTimer: bool
    var maxTimer: bool
    var retryTimer: bool
    var attempt: nat
    var flushing: Option<Flight<C>>

    constructor (content: C)
      ensures View() == Adopted(content)
    {
      this.content, unflushed, dirty := content, [], false;
      quietTimer, maxTimer, retryTimer := false, false, false;
      attempt, flushing := 0, None;
    }

    function View(): Held<C, M>
      reads this
    {
      Held(content, unflushed, dirty, quietTimer, maxTimer, retryTimer, attempt, flushing)
    }

    method ClearTimers()
      modifies this`quietTimer, this`maxTimer, this`retryTimer
      ensures View() == Rules.ClearTimers(old(View()))
    {
      quietTimer, maxTimer, retryTimer := false, false, false;
    }

    /** Arm the flush timers, unless stopping or backing off. */
    method Schedule(stopped: bool)
      modifies this`quietTimer, this`maxTimer
      ensures View() == Rules.Schedule(old(View()), stopped)
    {
      if stopped || retryTimer { return; }
      quietTimer := true;
      if !maxTimer { maxTimer := true; }
    }

    method MarkDirty(stopped: bool)
      modifies this`dirty, this`quietTimer, this`maxTimer
      ensures View() == Rules.MarkDirty(old(View()), stopped)
    {
      dirty := true;
      Schedule(stopped);
    }

    /** Apply one op; an op the reducer leaves unchanged is not logged and marks nothing dirty. */
    method ApplyTo(apply: Reducer<C, M>, m: M, stopped: bool)
      modifies this`content, this`unflushed, this`dirty, this`quietTimer, this`maxTimer
      ensures View() == Rules.ApplyTo(apply, old(View()), m, stopped)
    {
      var next := apply(content, m);
      if next.None? { return; }
      content := next.value;
      unflushed := unflushed + [m];
      MarkDirty(stopped);
    }

    /** The queued ops, in order, over content just read. */
    method ApplyQueued(apply: Reducer<C, M>, pending: seq<M>, stopped: bool)
      modifies this
      ensures View() == ApplyAll(apply, old(View()), pending, stopped)
    {
      for i := 0 to |pending|
        invariant View() == ApplyAll(apply, old(View()), pending[..i], stopped)
      {
        assert pending[..i + 1][..i] == pending[..i];
        ApplyTo(apply, pending[i], stopped);
      }
      assert pending[..|pending|] == pending;
    }

    method WriteLanded()
      requires flushing.Some?
      modifies this`flushing, this`unflushed, this`attempt
      ensures View() == Rules.Written(old(View()))
    {
      var written := flushing.value.written;
      flushing := None;
      unflushed := unflushed[if written <= |unflushed| then written else |unflushed|..];
      attempt := 0;
    }

    method WriteFailed(stopped: bool)
      modifies this
      ensures View() == Rules.Failed(old(View()), stopped)
    {
      flushing := None;
      dirty := true;
      ClearTimers();
      attempt := attempt + 1;
      if !stopped { retryTimer := true; }
    }

    /** Move onto edited content, with the unwritten ops over it. */
    method Rebase(apply: Reducer<C, M>, edit: C)
      modifies this`content
      ensures View() == old(View()).(content := Fold(apply, edit, old(unflushed)))
    {
      var after := edit;
      for i := 0 to |unflushed|
        invariant after == Fold(apply, edit, unflushed[..i])
      {
        var r := apply(after, unflushed[i]);
        assert unflushed[..i + 1][..i] == unflushed[..i];
        after := if r.Some? then r.value else after;
      }
      assert unflushed[..|unflushed|] == unflushed;
      content := after;
    }
  }

  class CanvasAuthority<C, M> {
    const apply: Reducer<C, M>
    /** The ids governed at present. */
    var shared: set<string>
    var governed: map<string, Governed<C, M>>
    /** Adoptions waiting on their read. */
    var adopting: set<string>
    /** What arrived, oldest first, while a first read is pending. */
    var queued: map<string, seq<M>>
    var stopped: bool

    constructor (apply: Reducer<C, M>, shared: set<string>)
      ensures Valid() && this.apply == apply
      ensures forall id :: View(id) == Project(id in shared, false, false, [], None)
    {
      this.apply, this.shared := apply, shared;
      governed, adopting, queued, stopped := map[], {}, map[], false;
    }

    ghost predicate Valid()
      reads this
    {
      forall a, b | a in governed && b in governed && a != b :: governed[a] != governed[b]
    }

    ghost function Records(): set<object>
      reads this
    {
      set id | id in governed :: governed[id]
    }

    ghost function View(id: string): Project<C, M>
      reads this, Records()
    {
      Project(id in shared, stopped, id in adopting, if id in queued then queued[id] else [],
              if id in governed then Some(governed[id].View()) else None)
    }

    // ----- the private steps -----

    /** Let an unshared project go, if it owes the file nothing. */
    method Release(id: string)
      requires Valid() && id in governed
      modifies this`governed, governed[id]
      ensures Valid() && View(id) == Rules.Release(old(View(id)))
      ensures forall other | other != id :: View(other) == old(View(other))
      ensures governed.Keys <= old(governed.Keys) && Records() <= old(Records())
    {
      var g := governed[id];
      if id in shared || g.dirty || g.flushing.Some? { return; }
      g.ClearTimers();
      governed := governed - {id};
    }

    method Install(id: string, content: Option<C>)
      requires Valid()
      modifies this`governed, this`queued
      ensures Valid() && View(id) == Rules.Install(apply, old(View(id)), content)
      ensures forall other | other != id :: View(other) == old(View(other))
      ensures fresh(Records() - old(Records()))
    {
      var pending := if id in queued then queued[id] else [];
      queued := queued - {id};
      if id !in shared || content.None? { return; }
      var g := new Governed<C, M>(content.value);
      governed := governed[id := g];
      g.ApplyQueued(apply, pending, stopped);
    }

    /** Adopt on first contact: a load's result is used as it is, anything else starts a read. */
    method Adopt(id: string, seed: Option<C>)
      requires Valid()
      modifies this`governed, this`queued, this`adopting
      ensures Valid() && View(id) == Rules.Adopt(apply, old(View(id)), seed)
      ensures forall other | other != id :: View(other) == old(View(other))
      ensures fresh(Records() - old(Records()))
    {
      if id in governed || id in adopting { return; }
      if seed.Some? {
        Install(id, seed);
      } else {
        adopting := adopting + {id};
      }
    }

    /** Start a write of everything unwritten, unless one is in flight or nothing is owed. */
    method Flush(id: string)
      requires Valid()
      modifies this`governed, Records()
      ensures Valid() && View(id) == Rules.Flush(old(View(id)))
      ensures forall other | other != id :: View(other) == old(View(other))
      ensures governed.Keys <= old(governed.Keys) && Records() <= old(Records())
    {
      if id !in governed { return; }
      var g := governed[id];
      if g.flushing.Some? { return; }
      if !g.dirty {
        Release(id);
        return;
      }
      g.ClearTimers();
      g.dirty := false;
      g.flushing := Some(Flight(g.content, |g.unflushed|));
    }

    // ----- what the environment does -----

    /** The adoption read finished (`None`: it could not be read). */
    method ReadDone(id: string, content: Option<C>)
      requires Valid() && id in adopting
      modifies this`governed, this`queued, this`adopting
      ensures Valid() && View(id) == Next(apply, old(View(id)), Step.ReadDone(content))
      ensures forall other | other != id :: View(other) == old(View(other))
    {
      adopting := adopting - {id};
      Install(id, content);
    }

    method QuietFired(id: string)
      requires Valid() && id in governed && governed[id].quietTimer
      modifies this`governed, Records()
      ensures Valid() && View(id) == Next(apply, old(View(id)), Step.QuietFired)
      ensures forall other | other != id :: View(other) == old(View(other))
    {
      governed[id].quietTimer := false;
      Flush(id);
    }

    method MaxFired(id: string)
      requires Valid() && id in governed && governed[id].maxTimer
      modifies this`governed, Records()
      ensures Valid() && View(id) == Next(apply, old(View(id)), Step.MaxFired)
      ensures forall other | other != id :: View(other) == old(View(other))
    {
      governed[id].maxTimer := false;
      Flush(id);
    }

    method RetryFired(id: string)
      requires Valid() && id in governed && governed[id].retryTimer
      modifies this`governed, Records()
      ensures Valid() && View(id) == Next(apply, old(View(id)), Step.RetryFired)
      ensures forall other | other != id :: View(other) == old(View(other))
    {
      governed[id].retryTimer := false;
      Flush(id);
    }

    /** The write in flight landed, or failed and wrote nothing. */
    method WriteDone(id: string, ok: bool)
      requires Valid() && id in governed && governed[id].flushing.Some?
      modifies this`governed, Records()
      ensures Valid() && View(id) == Next(apply, old(View(id)), Step.WriteDone(ok))
      ensures forall other | other != id :: View(other) == old(View(other))
    {
      var g := governed[id];
      if !ok {
        g.WriteFailed(stopped);
        return;
      }
      g.WriteLanded();
      if g.dirty { g.Schedule(stopped); } else { Release(id); }
    }

    // ----- the interface -----

    /** A stamped op arrives; `accepted` is what the order says of it. */
    method OnReflected(id: string, m: M, accepted: bool)
      requires Valid()
      modifies this`governed, this`queued, this`adopting, Records()
      ensures Valid() && View(id) == Reflected(apply, old(View(id)), m, accepted)
      ensures forall other | other != id :: View(other) == old(View(other))
      ensures fresh(Records() - old(Records()))
      ensures old(id in governed) ==> id in governed && governed[id] == old(governed[id])
      ensures stopped == old(stopped) && shared == old(shared)
    {
      if stopped || id !in shared || !accepted { return; }
      if id in governed {
        governed[id].ApplyTo(apply, m, stopped);
        return;
      }
      queued := queued[id := (if id in queued then queued[id] else []) + [m]];
      Adopt(id, None);
    }

    method MarkDirty(id: string)
      requires Valid() && id in governed
      modifies governed[id]
      ensures Valid() && View(id) == old(View(id)).(held := Some(Rules.MarkDirty(old(View(id)).held.value, stopped)))
      ensures forall other | other != id :: View(other) == old(View(other))
    {
      governed[id].MarkDirty(stopped);
    }

    /** Cast the edit's difference: each op comes straight back through the reflector. */
    method Publish(id: string, echoes: seq<Echo<M>>)
      requires Valid() && id in governed
      modifies this`governed, this`queued, this`adopting, Records()
      ensures Valid() && id in governed && governed[id] == old(governed[id])
      ensures View(id) == ReflectAll(apply, old(View(id)), echoes)
      ensures forall other | other != id :: View(other) == old(View(other))
      ensures stopped == old(stopped) && shared == old(shared) && fresh(Records() - old(Records()))
    {
      hide Reflected;
      for i := 0 to |echoes|
        invariant Valid() && id in governed && governed[id] == old(governed[id])
        invariant stopped == old(stopped) && shared == old(shared) && fresh(Records() - old(Records()))
        invariant View(id) == ReflectAll(apply, old(View(id)), echoes[..i])
        invariant forall other | other != id :: View(other) == old(View(other))
      {
        OnReflected(id, echoes[i].op, echoes[i].accepted);
        assert echoes[..i + 1][..i] == echoes[..i];
      }
      assert echoes[..|echoes|] == echoes;
    }

    /** Someone else changed the file: take that over, our unwritten ops on top, and publish what differs. */
    method AdoptOutsideEdit(id: string, edit: C, echoes: seq<Echo<M>>)
      requires Valid()
      modifies this`governed, this`queued, this`adopting, Records()
      ensures Valid() && View(id) == Next(apply, old(View(id)), OutsideEdit(edit, echoes))
      ensures forall other | other != id :: View(other) == old(View(other))
    {
      hide ReflectAll, Fold;
      if stopped || id !in shared { return; }
      if id !in governed {
        Adopt(id, None);
        return;
      }
      var g := governed[id];
      g.Rebase(apply, edit);
      Publish(id, echoes);
      assert forall other | other in governed && other != id :: governed[other] != g;
      assert forall other | other != id :: View(other) == old(View(other));
      if g.unflushed != [] { MarkDirty(id); }
    }

    /** Flush each of `left`. */
    method FlushLeft(left: set<string>)
      requires Valid()
      modifies this`governed, Records()
      ensures Valid() && Records() <= old(Records())
      ensures forall id :: View(id) == if id in left then Rules.Flush(old(View(id))) else old(View(id))
    {
      hide Rules.Flush;
      var todo := left;
      while todo != {}
        invariant Valid() && todo <= left && Records() <= old(Records())
        invariant forall id :: View(id) == if id in left - todo then Rules.Flush(old(View(id))) else old(View(id))
        decreases |todo|
      {
        var id :| id in todo;
        todo := todo - {id};
        Flush(id);
      }
    }

    /** Contact each of `now`. */
    method AdoptJoined(now: set<string>)
      requires Valid()
      modifies this`governed, this`queued, this`adopting
      ensures Valid()
      ensures forall id :: View(id) == if id in now then Rules.Adopt(apply, old(View(id)), None) else old(View(id))
    {
      hide Rules.Adopt;
      var todo := now;
      while todo != {}
        invariant Valid() && todo <= now
        invariant forall id :: View(id) == if id in now - todo then Rules.Adopt(apply, old(View(id)), None) else old(View(id))
        decreases |todo|
      {
        var id :| id in todo;
        todo := todo - {id};
        Adopt(id, None);
      }
    }

    /** `now` is shared from here on: every other held project is flushed, every new one adopted. */
    method SharedChanged(now: set<string>)
      requires Valid()
      modifies this`shared, this`governed, this`queued, this`adopting, Records()
      ensures Valid()
      ensures forall id :: View(id) == Shared(apply, old(View(id)), id in now)
    {
      shared := now;
      if stopped { return; }
      FlushLeft(governed.Keys - now);
      AdoptJoined(now);
    }
  }
}
