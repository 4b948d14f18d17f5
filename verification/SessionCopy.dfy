/**
 * Moving a session's transcript between accounts. Two files are compared in chunks through two
 * reused buffers; a target the source does not continue is left alone.
 */
module SessionCopy {
  import opened Options

  newtype byte = x: int | 0 <= x < 256
  type Bytes = seq<byte>

  datatype PrefixState = Absent | Identical | Prefix | Diverged

  /** The rule: how a target stands to a source. */
  function StateOf(target: Option<Bytes>, source: Bytes): PrefixState {
    if target.None? then Absent
    else if target.value == source then Identical
    else if target.value <= source then Prefix
    else Diverged
  }

  // ----- the chunked comparison -----

  /** An open file: the size it had when it was measured, and the bytes reads find in it. */
  datatype Handle = Handle(size: nat, bytes: Bytes)

  function Min(a: nat, b: nat): nat {
    if a <= b then a else b
  }

  /** The measured span of the target, byte for byte in both files. */
  predicate Agree(t: Handle, s: Handle, upTo: nat) {
    upTo <= |t.bytes| && upTo <= |s.bytes| && t.bytes[..upTo] == s.bytes[..upTo]
  }

  /** Read up to `len` bytes at `pos` into the front of `buffer`, as many as the file has. */
  method ReadAt(file: Bytes, buffer: array<byte>, len: nat, pos: nat) returns (bytesRead: nat)
    requires len <= buffer.Length
    modifies buffer
    ensures bytesRead == if pos <= |file| then Min(len, |file| - pos) else 0
    ensures bytesRead > 0 ==> buffer[..bytesRead] == file[pos..pos + bytesRead]
    ensures buffer[bytesRead..] == old(buffer[bytesRead..])
  {
    bytesRead := 0;
    while bytesRead < len && pos + bytesRead < |file|
      invariant bytesRead <= len && (bytesRead > 0 ==> pos + bytesRead <= |file|)
      invariant forall k | 0 <= k < bytesRead :: buffer[k] == file[pos + k]
      invariant forall k | bytesRead <= k < buffer.Length :: buffer[k] == old(buffer[k])
    {
      buffer[bytesRead] := file[pos + bytesRead];
      bytesRead := bytesRead + 1;
    }
    if bytesRead > 0 {
      assert forall k | 0 <= k < bytesRead :: buffer[..bytesRead][k] == file[pos..pos + bytesRead][k];
    }
  }

  /** Two buffers, one chunk at a time, whatever the chunk size. */
  method ComparePrefix(t: Handle, s: Handle, chunk: nat) returns (r: PrefixState)
    requires chunk > 0
    ensures r == if t.size <= s.size && Agree(t, s, t.size) then if t.size == s.size then Identical else Prefix else Diverged
  {
    if t.size > s.size { return Diverged; }
    var tb, sb := new byte[chunk], new byte[chunk];
    var pos: nat := 0;
    while pos < t.size
      invariant pos <= t.size && Agree(t, s, pos)
      decreases t.size - pos
    {
      var len := Min(chunk, t.size - pos);
      var a := ReadAt(t.bytes, tb, len, pos);
      var b := ReadAt(s.bytes, sb, len, pos);
      if a != len || b != len { return Diverged; }
      var same := Equal(tb, sb, len);
      ChunkDecides(t, s, pos, len);
      if !same { return Diverged; }
      pos := pos + len;
    }
    return if t.size == s.size then Identical else Prefix;
  }

  method Equal(a: array<byte>, b: array<byte>, len: nat) returns (same: bool)
    requires len <= a.Length && len <= b.Length
    ensures same <==> a[..len] == b[..len]
  {
    for i := 0 to len
      invariant a[..i] == b[..i]
    {
      if a[i] != b[i] {
        assert a[..len][i] != b[..len][i];
        return false;
      }
    }
    return true;
  }

  lemma ChunkDecides(t: Handle, s: Handle, pos: nat, len: nat)
    requires Agree(t, s, pos)
    requires pos + len <= |t.bytes| && pos + len <= |s.bytes|
    ensures Agree(t, s, pos + len) <==> t.bytes[pos..pos + len] == s.bytes[pos..pos + len]
  {
  }

  /** Of two files that hold still, the loop answers by the rule. */
  method PrefixStateOf(target: Option<Bytes>, source: Bytes, chunk: nat) returns (r: PrefixState)
    requires chunk > 0
    ensures r == StateOf(target, source)
  {
    if target.None? { return Absent; }
    var t, s := Handle(|target.value|, target.value), Handle(|source|, source);
    r := ComparePrefix(t, s, chunk);
    assert t.bytes[..t.size] == target.value;
    assert t.size <= |source| ==> (target.value <= source <==> target.value == source[..t.size]);
    assert t.size == |source| ==> source[..t.size] == source;
  }

  // ----- accounts -----

  /** One session's transcript under each account that has one. */
  type Files = map<string, Bytes>

  datatype Outcome = Copied(copied: bool) | RefusedDiverged | Failed

  /** What one account holds of the session. */
  function Held(files: Files, account: string): Option<Bytes> {
    if account in files then Some(files[account]) else None
  }

  datatype Step =
    | Grow(account: string, more: Bytes)                 // the CLI appends to the transcript under this account
    | Switch(from: string, to: string, lands: bool)      // copy on a switch of accounts; the copy may fail before its rename

  function AnswerOf(files: Files, from: string, to: string, lands: bool): Outcome {
    if from == to then Copied(false)
    else if from !in files then Failed
    else
      match StateOf(Held(files, to), files[from])
      case Diverged => RefusedDiverged
      case Identical => Copied(false)
      case _ => if lands then Copied(true) else Failed
  }

  function Next(files: Files, step: Step): Files {
    match step
    case Grow(a, more) => files[a := (if a in files then files[a] else []) + more]
    case Switch(from, to, lands) => if AnswerOf(files, from, to, lands) == Copied(true) then files[to := files[from]] else files
  }

  function Run(files: Files, steps: seq<Step>): Files {
    if steps == [] then files else Next(Run(files, steps[..|steps| - 1]), steps[|steps| - 1])
  }

  class Accounts {
    var files: Files

    /** Copy the session from one account to another. */
    method CopyClaudeSession(from: string, to: string, lands: bool, chunk: nat) returns (outcome: Outcome)
      requires chunk > 0
      modifies this
      ensures outcome == AnswerOf(old(files), from, to, lands)
      ensures files == Next(old(files), Switch(from, to, lands))
      ensures outcome.Copied? && from in old(files) ==> to in files && files[to] == old(files)[from]
      ensures !outcome.Copied? ==> files == old(files)
    {
      if from == to { return Copied(false); }
      var copied := false;
      if from !in files { return Failed; }
      var state := PrefixStateOf(Held(files, to), files[from], chunk);
      if state == Diverged { return RefusedDiverged; }
      if state != Identical {
        if !lands { return Failed; }
        files := files[to := files[from]];
        copied := true;
      }
      return Copied(copied);
    }

    /** The CLI appends to its own transcript. */
    method Append(account: string, more: Bytes)
      modifies this
      ensures files == Next(old(files), Grow(account, more))
    {
      files := files[account := (if account in files then files[account] else []) + more];
    }
  }

  // ----- histories -----

  /** What every account held is a prefix of what it holds. */
  predicate Extends(before: Files, after: Files) {
    forall a | a in before :: a in after && before[a] <= after[a]
  }

  lemma StepExtends(files: Files, step: Step)
    ensures Extends(files, Next(files, step))
  {
  }

  lemma {:induction false} RunExtends(files: Files, steps: seq<Step>)
    ensures Extends(files, Run(files, steps))
  {
    if steps != [] {
      var before := Run(files, steps[..|steps| - 1]);
      RunExtends(files, steps[..|steps| - 1]);
      StepExtends(before, steps[|steps| - 1]);
      forall a | a in files ensures a in Run(files, steps) && files[a] <= Run(files, steps)[a] {
        PrefixTrans(files[a], before[a], Run(files, steps)[a]);
      }
    }
  }

  lemma PrefixTrans(a: Bytes, b: Bytes, c: Bytes)
    requires a <= b <= c
    ensures a <= c
  {
  }

  lemma {:induction false} RunJoins(files: Files, first: seq<Step>, second: seq<Step>)
    ensures Run(files, first + second) == Run(Run(files, first), second)
  {
    if second == [] {
      assert first + second == first;
    } else {
      assert (first + second)[..|first + second| - 1] == first + second[..|second| - 1];
      RunJoins(files, first, second[..|second| - 1]);
    }
  }

  /**
   * In every run of appends and switches, landed, failed or refused, what an account held after the
   * earlier part is a prefix of what it holds after the whole.
   */
  lemma HistoryIsNeverLost(files: Files, earlier: seq<Step>, later: seq<Step>)
    ensures Extends(Run(files, earlier), Run(files, earlier + later))
  {
    RunJoins(files, earlier, later);
    RunExtends(Run(files, earlier), later);
  }

  /** Neither history continues the other. */
  predicate Parted(files: Files, a: string, b: string) {
    a in files && b in files && !(files[a] <= files[b]) && !(files[b] <= files[a])
  }

  /** Where both histories already reach, and differ. */
  lemma PartedAt(a: Bytes, b: Bytes) returns (k: nat)
    requires !(a <= b) && !(b <= a)
    ensures k < |a| && k < |b| && a[k] != b[k]
  {
    if |a| <= |b| {
      assert a != b[..|a|];
      k :| 0 <= k < |a| && a[k] != b[k];
    } else {
      assert b != a[..|b|];
      k :| 0 <= k < |b| && a[k] != b[k];
    }
  }

  /** Histories that have parted stay parted, so no later switch between the two accounts goes through. */
  lemma {:induction false} PartedForGood(files: Files, a: string, b: string, steps: seq<Step>, lands: bool)
    requires Parted(files, a, b)
    ensures Parted(Run(files, steps), a, b)
    ensures AnswerOf(Run(files, steps), a, b, lands) == RefusedDiverged
    ensures AnswerOf(Run(files, steps), b, a, lands) == RefusedDiverged
  {
    var k := PartedAt(files[a], files[b]);
    RunExtends(files, steps);
    var now := Run(files, steps);
    assert now[a][k] == files[a][k] && now[b][k] == files[b][k];
  }

  /**
   * A switch is refused exactly when the target holds bytes the source does not continue; one that goes
   * through leaves the target able to resume everything the source held.
   */
  lemma SwitchIsRefusedOnlyToKeepHistory(files: Files, from: string, to: string)
    requires from in files && from != to
    ensures AnswerOf(files, from, to, true) == RefusedDiverged <==> to in files && !(files[to] <= files[from])
    ensures AnswerOf(files, from, to, true).Copied? <==> Held(Next(files, Switch(from, to, true)), to) == Some(files[from])
  {
  }

  /**
   * A switch says it copied exactly where the target has nothing or less of the same history, and the copy
   * lands; that there was nothing to copy exactly where the accounts are one or hold the same; and that it
   * failed exactly where there is nothing to copy from or the copy did not land.
   */
  lemma SwitchAnswers(files: Files, from: string, to: string, lands: bool)
    ensures var a := AnswerOf(files, from, to, lands);
            && (a == Copied(true) <==> from != to && from in files && lands && (to in files ==> files[to] <= files[from] && |files[to]| < |files[from]|))
            && (a == Copied(false) <==> from == to || (from in files && to in files && files[to] == files[from]))
            && (a == Failed <==> from != to && (from !in files || (!lands && (to in files ==> files[to] <= files[from] && |files[to]| < |files[from]|))))
            && (a == RefusedDiverged <==> from != to && from in files && to in files && !(files[to] <= files[from]))
  {
    if from in files && to in files && files[to] <= files[from] && |files[to]| == |files[from]| {
      assert files[from][..|files[to]|] == files[from];
    }
  }

  /**
   * There and back: an account switched away from and back to, with only the second account used in
   * between, ends with the same longer history under both, and no other account changes.
   */
  lemma ThereAndBack(files: Files, a: string, b: string, more: Bytes)
    requires a in files && a != b
    requires AnswerOf(files, a, b, true).Copied?
    ensures var end := Run(files, [Switch(a, b, true), Grow(b, more), Switch(b, a, true)]);
            end == files[a := files[a] + more][b := files[a] + more]
  {
    var s1, s2, s3 := Switch(a, b, true), Grow(b, more), Switch(b, a, true);
    assert [s1, s2, s3][..2] == [s1, s2] && [s1, s2][..1] == [s1] && [s1][..0] == [];
    var f1 := Next(files, s1);
    assert f1[b] == files[a];
    var f2 := Next(f1, s2);
    assert f2[a] == files[a] && f2[b] == files[a] + more;
    assert f2[a] <= f2[b];
    assert Run(files, [s1, s2, s3]) == Next(f2, s3) by {
      assert Run(files, [s1]) == f1;
      assert Run(files, [s1, s2]) == f2;
    }
    assert more == [] ==> files[a] + more == files[a];
  }
}
