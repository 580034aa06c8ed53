/**
 No-clobber staging of an authenticated artifact: the bytes are copied to a temporary file, checked, and only then
 hard-linked to their final name. Any number of stagers share one private directory, and any of them may crash.
 */
module Staging {
  import opened Options
  import opened Bytes

  const CHUNK_SIZE: nat := 1024 * 1024

  datatype Code =
    | ArtifactTooLarge | ArtifactTruncated | ArtifactDigestMismatch | DestinationConflict | UnsafePath | StagingError

  predicate Fits(sha256: Digest, content: Bytes, size: nat, digest: string) {
    |content| == size && sha256(content) == digest
  }

  // ---------------------------------------------------------------- copying a stream

  /** A byte stream whose reads may be short, but are empty only at its end. */
  class Stream {
    var rest: Bytes

    constructor (content: Bytes)
      ensures rest == content
    {
      rest := content;
    }

    method Read(limit: nat) returns (chunk: Bytes)
      modifies this
      ensures |chunk| <= limit && old(rest) == chunk + rest
      ensures chunk == [] <==> limit == 0 || old(rest) == []
    {
      if limit == 0 || rest == [] {
        return [];
      }
      var n: nat :| 1 <= n <= limit && n <= |rest|;
      chunk := rest[..n];
      rest := rest[n..];
    }
  }

  /**
   The copy loop of `stage_artifact`: it succeeds exactly on a stream of the authenticated size and digest, copies
   that stream byte for byte, tells the three failures apart, and never reads more than one byte too many.
   */
  method CopyStream(sha256: Digest, stream: Stream, size: nat, digest: string) returns (r: Result<Bytes, Code>)
    modifies stream
    ensures r.Ok? <==> Fits(sha256, old(stream.rest), size, digest)
    ensures r.Ok? ==> r.value == old(stream.rest)
    ensures r == Err(ArtifactTooLarge) <==> |old(stream.rest)| > size
    ensures r == Err(ArtifactTruncated) <==> |old(stream.rest)| < size
    ensures r.Err? && |old(stream.rest)| == size ==> r.error == ArtifactDigestMismatch
    ensures |old(stream.rest)| - |stream.rest| <= size + 1
  {
    var output: Bytes := [];
    var count := 0;
    while count <= size
      invariant count == |output| <= size
      invariant old(stream.rest) == output + stream.rest
      decreases size - count
    {
      var before := stream.rest;
      var chunk := stream.Read(if CHUNK_SIZE < size - count + 1 then CHUNK_SIZE else size - count + 1);
      if chunk == [] {
        break;
      }
      assert output + (chunk + stream.rest) == (output + chunk) + stream.rest;
      count := count + |chunk|;
      if count > size {
        return Err(ArtifactTooLarge);
      }
      output := output + chunk;
    }
    assert output == old(stream.rest);
    if count != size {
      return Err(ArtifactTruncated);
    }
    if sha256(output) != digest {
      return Err(ArtifactDigestMismatch);
    }
    return Ok(output);
  }

  /** The reading loop of `_matches`, on a file whose reported size is `reported`. */
  method Matches(sha256: Digest, stream: Stream, reported: nat, size: nat, digest: string) returns (matches: bool)
    modifies stream
    ensures matches <==> reported == size && Fits(sha256, old(stream.rest), size, digest)
  {
    if reported != size {
      return false;
    }
    var seen: Bytes := [];
    var chunk := stream.Read(if CHUNK_SIZE < size + 1 then CHUNK_SIZE else size + 1);
    while chunk != []
      invariant |seen| <= size && old(stream.rest) == seen + (chunk + stream.rest)
      invariant chunk == [] ==> stream.rest == []
      decreases |chunk| + |stream.rest|
    {
      if |seen| + |chunk| > size {
        return false;
      }
      assert seen + (chunk + stream.rest) == (seen + chunk) + stream.rest;
      seen := seen + chunk;
      var limit := size - |seen| + 1;
      chunk := stream.Read(if CHUNK_SIZE < limit then CHUNK_SIZE else limit);
    }
    assert seen == old(stream.rest);
    return |seen| == size && sha256(seen) == digest;
  }

  // ---------------------------------------------------------------- the shared directory

  type Pid = nat

  datatype Artifact = Artifact(filename: string, size: nat, sha256: string)

  /** Temporary names are unique to their creator. */
  datatype Name = Target(filename: string) | Temporary(pid: Pid)

  datatype Inode = Own(pid: Pid) | Foreign(n: nat)

  datatype Phase =
    | Check
    | Create
    | Copy
    | Verify
    | Link
    | Unlink
    | Sync
    | Cleanup(error: Code)
    | Verified
    | AlreadyVerified
    | Failed(reason: Code)
    | Crashed

  /** `consumed` counts the bytes taken from the stream; `linked` remembers a successful promotion. */
  datatype Stager = Stager(artifact: Artifact, phase: Phase, consumed: nat, linked: bool)

  datatype State = State(names: map<Name, Inode>, contents: map<Inode, Bytes>, stagers: map<Pid, Stager>)

  /** `succeeds` is the outcome a system call reports where it may fail; `End` is an empty read. */
  datatype Action =
    | Begin(pid: Pid, artifact: Artifact)
    | Receive(pid: Pid, chunk: Bytes)
    | End(pid: Pid)
    | Step(pid: Pid, succeeds: bool)
    | Crash(pid: Pid)

  predicate Running(x: Stager) {
    !x.phase.Verified? && !x.phase.AlreadyVerified? && !x.phase.Failed? && !x.phase.Crashed?
  }

  /** Every existing name leads to a file. */
  predicate Rooted(s: State) { forall n :: n in s.names ==> s.names[n] in s.contents }

  predicate Enabled(s: State, a: Action) {
    match a
    case Begin(p, _) => p !in s.stagers
    case Receive(p, chunk) =>
      && p in s.stagers && s.stagers[p].phase.Copy? && Own(p) in s.contents
      && 1 <= |chunk| <= CHUNK_SIZE && |chunk| <= s.stagers[p].artifact.size - |s.contents[Own(p)]| + 1
    case End(p) => p in s.stagers && s.stagers[p].phase.Copy? && Own(p) in s.contents
    case Step(p, _) => p in s.stagers && Running(s.stagers[p])
    case Crash(p) => p in s.stagers && Running(s.stagers[p])
  }

  function Move(s: State, p: Pid, x: Stager): State { s.(stagers := s.stagers[p := x]) }

  predicate FitsAt(sha256: Digest, s: State, n: Name, a: Artifact) {
    n in s.names && s.names[n] in s.contents && Fits(sha256, s.contents[s.names[n]], a.size, a.sha256)
  }

  function DoReceive(s: State, p: Pid, chunk: Bytes): State
    requires p in s.stagers && Own(p) in s.contents
  {
    var x := s.stagers[p];
    var received := s.contents[Own(p)] + chunk;
    if |received| > x.artifact.size then
      Move(s, p, x.(phase := Cleanup(ArtifactTooLarge), consumed := x.consumed + |chunk|))
    else
      s.(contents := s.contents[Own(p) := received], stagers := s.stagers[p := x.(consumed := x.consumed + |chunk|)])
  }

  function DoEnd(sha256: Digest, s: State, p: Pid): State
    requires p in s.stagers && Own(p) in s.contents
  {
    var x := s.stagers[p];
    var received := s.contents[Own(p)];
    Move(s, p, x.(phase :=
      if |received| != x.artifact.size then Cleanup(ArtifactTruncated)
      else if sha256(received) != x.artifact.sha256 then Cleanup(ArtifactDigestMismatch)
      else Verify))
  }

  /** One system call of one stager outside the copy loop, or a failing read inside it. */
  function DoStep(sha256: Digest, s: State, p: Pid, succeeds: bool): State
    requires p in s.stagers
  {
    var x := s.stagers[p];
    var target := Target(x.artifact.filename);
    match x.phase
    case Check =>
      Move(s, p, x.(phase :=
        if target !in s.names then Create
        else if succeeds && FitsAt(sha256, s, target, x.artifact) then AlreadyVerified
        else Failed(DestinationConflict)))
    case Create =>
      if !succeeds then Move(s, p, x.(phase := Failed(StagingError)))
      else State(s.names[Temporary(p) := Own(p)], s.contents[Own(p) := []], s.stagers[p := x.(phase := Copy)])
    case Copy => Move(s, p, x.(phase := Cleanup(StagingError)))
    case Verify =>
      Move(s, p, x.(phase :=
        if succeeds && FitsAt(sha256, s, Temporary(p), x.artifact) then Link else Cleanup(UnsafePath)))
    case Link =>
      if target in s.names then Move(s, p, x.(phase := Cleanup(DestinationConflict)))
      else if !succeeds || Temporary(p) !in s.names then Move(s, p, x.(phase := Cleanup(StagingError)))
      else
        s.(names := s.names[target := s.names[Temporary(p)]],
           stagers := s.stagers[p := x.(phase := Unlink, linked := true)])
    case Unlink =>
      if succeeds then s.(names := s.names - {Temporary(p)}, stagers := s.stagers[p := x.(phase := Sync)])
      else Move(s, p, x.(phase := Cleanup(StagingError)))
    case Sync => Move(s, p, x.(phase := if succeeds then Verified else Failed(StagingError)))
    case Cleanup(error) =>
      s.(names := if succeeds then s.names - {Temporary(p)} else s.names,
         stagers := s.stagers[p := x.(phase := Failed(if succeeds then error else StagingError))])
    case _ => s
  }

  function Apply(sha256: Digest, s: State, a: Action): State
    requires Enabled(s, a)
  {
    match a
    case Begin(p, artifact) => Move(s, p, Stager(artifact, Check, 0, false))
    case Receive(p, chunk) => DoReceive(s, p, chunk)
    case End(p) => DoEnd(sha256, s, p)
    case Step(p, succeeds) => DoStep(sha256, s, p, succeeds)
    case Crash(p) => Move(s, p, s.stagers[p].(phase := Crashed))
  }

  /** A private directory before any stager: final names only, leading to files of others. */
  predicate Fresh(s: State) {
    && s.stagers == map[] && Rooted(s)
    && (forall n :: n in s.names ==> n.Target? && s.names[n].Foreign?)
  }

  function Exec(sha256: Digest, start: State, run: seq<Action>): Option<State> {
    if run == [] then Some(start)
    else
      var before := Exec(sha256, start, run[..|run| - 1]);
      var a := run[|run| - 1];
      if before.Some? && Enabled(before.value, a) then Some(Apply(sha256, before.value, a)) else None
  }

  // ---------------------------------------------------------------- invariant

  predicate Promoting(x: Stager) {
    x.phase.Unlink? || x.phase.Sync? || x.phase.Verified?
  }

  predicate BeforeLink(x: Stager) {
    x.phase.Check? || x.phase.Create? || x.phase.Copy? || x.phase.Verify? || x.phase.Link?
  }

  /** What one stager knows about itself, its temporary file and its target. */
  predicate Sound(sha256: Digest, s: State, p: Pid, x: Stager) {
    && (BeforeLink(x) ==> !x.linked) && (Promoting(x) ==> x.linked)
    && x.consumed <= x.artifact.size + 1
    && (x.phase.Check? || x.phase.Create? ==> x.consumed == 0)
    && (x.phase.Copy? ==> Own(p) in s.contents && |s.contents[Own(p)]| == x.consumed <= x.artifact.size)
    && (x.phase.Verify? || x.phase.Link? || x.linked ==>
          Own(p) in s.contents && Fits(sha256, s.contents[Own(p)], x.artifact.size, x.artifact.sha256))
    && (x.linked ==> Target(x.artifact.filename) in s.names && s.names[Target(x.artifact.filename)] == Own(p))
    && (x.phase.AlreadyVerified? ==> FitsAt(sha256, s, Target(x.artifact.filename), x.artifact))
  }

  /** A final name leads to a file of others or to one its creator has promoted. */
  predicate Owned(s: State, n: Name) requires n in s.names {
    var i := s.names[n];
    match n
    case Target(f) =>
      i.Own? ==> i.pid in s.stagers && s.stagers[i.pid].linked && s.stagers[i.pid].artifact.filename == f
    case Temporary(p) => i == Own(p) && p in s.stagers
  }

  ghost predicate Inv(sha256: Digest, s: State) {
    && Rooted(s)
    && (forall n :: n in s.names ==> Owned(s, n))
    && (forall p :: p in s.stagers ==> Sound(sha256, s, p, s.stagers[p]))
  }

  /** Every destination of `s` is still there in `t`, the same file with the same bytes; new ones are stagers' own. */
  ghost predicate Preserved(s: State, t: State) {
    && (forall f :: Target(f) in s.names && s.names[Target(f)] in s.contents ==>
          Target(f) in t.names && t.names[Target(f)] == s.names[Target(f)]
          && s.names[Target(f)] in t.contents && t.contents[s.names[Target(f)]] == s.contents[s.names[Target(f)]])
    && (forall f :: Target(f) in t.names && Target(f) !in s.names ==> t.names[Target(f)].Own?)
  }

  /** Steps of `p` leave the files, records and claims of all others alone. */
  ghost predicate OnlyBy(s: State, t: State, p: Pid) {
    && p in t.stagers && t.stagers == s.stagers[p := t.stagers[p]]
    && (forall i :: i in s.contents ==> i in t.contents)
    && (forall i :: i in s.contents && i != Own(p) ==> t.contents[i] == s.contents[i])
    && (p in s.stagers && s.stagers[p].linked ==> t.stagers[p].linked && t.stagers[p].artifact == s.stagers[p].artifact)
  }

  lemma OthersSound(sha256: Digest, s: State, t: State, p: Pid, q: Pid)
    requires Inv(sha256, s) && OnlyBy(s, t, p) && Preserved(s, t) && q in s.stagers && q != p
    ensures q in t.stagers && Sound(sha256, t, q, t.stagers[q])
  {
    assert Sound(sha256, s, q, s.stagers[q]);
    assert Own(q) in s.contents ==> t.contents[Own(q)] == s.contents[Own(q)];
  }

  /** What remains to be shown of a step by `p`. */
  ghost predicate Moved(sha256: Digest, s: State, t: State, p: Pid) {
    && OnlyBy(s, t, p) && Preserved(s, t) && Rooted(t)
    && (forall n :: n in t.names ==> Owned(t, n))
    && Sound(sha256, t, p, t.stagers[p])
  }

  lemma MovedKeeps(sha256: Digest, s: State, t: State, p: Pid)
    requires Inv(sha256, s) && Moved(sha256, s, t, p)
    ensures Inv(sha256, t)
  {
    forall q | q in t.stagers ensures Sound(sha256, t, q, t.stagers[q]) {
      if q != p { OthersSound(sha256, s, t, p, q); }
    }
  }

  /** A stager moves on without touching the directory. */
  lemma PhaseMoves(sha256: Digest, s: State, p: Pid, x: Stager)
    requires Inv(sha256, s)
             && (p in s.stagers ==> (s.stagers[p].linked ==> x.linked) && x.artifact == s.stagers[p].artifact)
    requires Sound(sha256, s, p, x)
    ensures Moved(sha256, s, Move(s, p, x), p)
  {
    var t := Move(s, p, x);
    hide Fits;
    forall n | n in t.names ensures Owned(t, n) { assert Owned(s, n); }
  }

  lemma ReceiveMoves(sha256: Digest, s: State, p: Pid, chunk: Bytes)
    requires Inv(sha256, s) && Enabled(s, Receive(p, chunk))
    ensures Moved(sha256, s, DoReceive(s, p, chunk), p)
  {
    var t := DoReceive(s, p, chunk);
    hide Fits;
    assert Sound(sha256, s, p, s.stagers[p]);
    forall n | n in t.names ensures Owned(t, n) { assert Owned(s, n); }
    forall f | Target(f) in s.names ensures s.names[Target(f)] != Own(p) { assert Owned(s, Target(f)); }
  }

  lemma EndMoves(sha256: Digest, s: State, p: Pid)
    requires Inv(sha256, s) && Enabled(s, End(p))
    ensures Moved(sha256, s, DoEnd(sha256, s, p), p)
  {
    assert Sound(sha256, s, p, s.stagers[p]);
    PhaseMoves(sha256, s, p, DoEnd(sha256, s, p).stagers[p]);
  }

  lemma CreateMoves(sha256: Digest, s: State, p: Pid)
    requires Inv(sha256, s) && p in s.stagers && s.stagers[p].phase.Create?
    ensures Moved(sha256, s, DoStep(sha256, s, p, true), p)
  {
    var t := DoStep(sha256, s, p, true);
    hide Fits;
    assert Sound(sha256, s, p, s.stagers[p]);
    forall n | n in t.names ensures Owned(t, n) { assert n in s.names ==> Owned(s, n); }
    forall f | Target(f) in s.names ensures s.names[Target(f)] != Own(p) { assert Owned(s, Target(f)); }
  }

  lemma LinkMoves(sha256: Digest, s: State, p: Pid)
    requires Inv(sha256, s) && p in s.stagers && s.stagers[p].phase.Link?
    requires Target(s.stagers[p].artifact.filename) !in s.names && Temporary(p) in s.names
    ensures Moved(sha256, s, DoStep(sha256, s, p, true), p)
  {
    var t := DoStep(sha256, s, p, true);
    hide Fits;
    assert Sound(sha256, s, p, s.stagers[p]) && Owned(s, Temporary(p));
    forall n | n in t.names ensures Owned(t, n) { assert n in s.names ==> Owned(s, n); }
  }

  lemma UnlinkMoves(sha256: Digest, s: State, p: Pid)
    requires Inv(sha256, s) && p in s.stagers && (s.stagers[p].phase.Unlink? || s.stagers[p].phase.Cleanup?)
    ensures Moved(sha256, s, DoStep(sha256, s, p, true), p)
  {
    var t := DoStep(sha256, s, p, true);
    hide Fits;
    assert Sound(sha256, s, p, s.stagers[p]);
    forall n | n in t.names ensures Owned(t, n) { assert Owned(s, n); }
  }

  lemma StepMoves(sha256: Digest, s: State, p: Pid, succeeds: bool)
    requires Inv(sha256, s) && p in s.stagers && Running(s.stagers[p])
    ensures Moved(sha256, s, DoStep(sha256, s, p, succeeds), p)
  {
    var x := s.stagers[p];
    assert Sound(sha256, s, p, x);
    if x.phase.Create? && succeeds { CreateMoves(sha256, s, p); }
    else if x.phase.Link? && succeeds && Target(x.artifact.filename) !in s.names && Temporary(p) in s.names {
      LinkMoves(sha256, s, p);
    }
    else if (x.phase.Unlink? || x.phase.Cleanup?) && succeeds { UnlinkMoves(sha256, s, p); }
    else {
      hide Moved, Rooted;
      var t := DoStep(sha256, s, p, succeeds);
      assert t == Move(s, p, t.stagers[p]);
      PhaseMoves(sha256, s, p, t.stagers[p]);
    }
  }

  lemma ApplyMoves(sha256: Digest, s: State, a: Action)
    requires Inv(sha256, s) && Enabled(s, a)
    ensures Moved(sha256, s, Apply(sha256, s, a), a.pid) && Inv(sha256, Apply(sha256, s, a))
  {
    match a {
      case Begin(p, artifact) => PhaseMoves(sha256, s, p, Stager(artifact, Check, 0, false));
      case Receive(p, chunk) => ReceiveMoves(sha256, s, p, chunk);
      case End(p) => EndMoves(sha256, s, p);
      case Step(p, succeeds) => StepMoves(sha256, s, p, succeeds);
      case Crash(p) =>
        assert Sound(sha256, s, p, s.stagers[p]);
        PhaseMoves(sha256, s, p, s.stagers[p].(phase := Crashed));
    }
    MovedKeeps(sha256, s, Apply(sha256, s, a), a.pid);
  }

  // ---------------------------------------------------------------- the results

  /** A stager keeps its artifact, and a promotion is not forgotten. */
  ghost predicate Remembered(s: State, t: State) {
    forall p :: p in s.stagers && s.stagers[p].linked ==>
      p in t.stagers && t.stagers[p].linked && t.stagers[p].artifact == s.stagers[p].artifact
  }

  lemma {:induction false} RunKeeps(sha256: Digest, start: State, run: seq<Action>)
    requires Fresh(start) && Exec(sha256, start, run).Some?
    ensures Inv(sha256, Exec(sha256, start, run).value)
  {
    if run != [] {
      RunKeeps(sha256, start, run[..|run| - 1]);
      ApplyMoves(sha256, Exec(sha256, start, run[..|run| - 1]).value, run[|run| - 1]);
    }
  }

  /**
   Once a destination exists, whoever created it, it is never changed by any stager: the name leads to the same
   file with the same bytes from then on, whatever runs or crashes.
   */
  lemma {:induction false} DestinationsNeverChange(sha256: Digest, start: State, run: seq<Action>, n: nat)
    requires Fresh(start) && n <= |run| && Exec(sha256, start, run).Some?
    ensures Exec(sha256, start, run[..n]).Some?
    ensures Preserved(Exec(sha256, start, run[..n]).value, Exec(sha256, start, run).value)
    ensures Remembered(Exec(sha256, start, run[..n]).value, Exec(sha256, start, run).value)
  {
    if n == |run| {
      assert run[..n] == run;
    } else {
      var prefix := run[..|run| - 1];
      DestinationsNeverChange(sha256, start, prefix, n);
      assert prefix[..n] == run[..n];
      RunKeeps(sha256, start, prefix);
      RunKeeps(sha256, start, run[..n]);
      ApplyMoves(sha256, Exec(sha256, start, prefix).value, run[|run| - 1]);
      Chained(Exec(sha256, start, run[..n]).value, Exec(sha256, start, prefix).value, Exec(sha256, start, run).value,
          run[|run| - 1].pid);
    }
  }

  lemma Chained(s: State, t: State, u: State, p: Pid)
    requires Rooted(s) && Rooted(t) && Preserved(s, t) && Remembered(s, t)
    requires Preserved(t, u) && OnlyBy(t, u, p)
    ensures Preserved(s, u) && Remembered(s, u)
  {
  }

  /** A destination that was not there at the start has exactly the size and digest its creator was told to expect. */
  lemma StagedFilesAreAuthentic(sha256: Digest, start: State, run: seq<Action>, f: string)
    requires Fresh(start) && Exec(sha256, start, run).Some?
    requires Target(f) in Exec(sha256, start, run).value.names && Target(f) !in start.names
    ensures var s := Exec(sha256, start, run).value;
      var i := s.names[Target(f)];
      && i.Own? && i.pid in s.stagers && s.stagers[i.pid].artifact.filename == f
      && FitsAt(sha256, s, Target(f), s.stagers[i.pid].artifact)
  {
    RunKeeps(sha256, start, run);
    DestinationsNeverChange(sha256, start, run, 0);
    var s := Exec(sha256, start, run).value;
    assert Owned(s, Target(f));
    assert Sound(sha256, s, s.names[Target(f)].pid, s.stagers[s.names[Target(f)].pid]);
  }

  /** No stager ever takes more than one byte beyond the authenticated size from its stream. */
  lemma ReadsAreBounded(sha256: Digest, start: State, run: seq<Action>, p: Pid)
    requires Fresh(start) && Exec(sha256, start, run).Some? && p in Exec(sha256, start, run).value.stagers
    ensures var x := Exec(sha256, start, run).value.stagers[p]; x.consumed <= x.artifact.size + 1
  {
    RunKeeps(sha256, start, run);
    assert Sound(sha256, Exec(sha256, start, run).value, p, Exec(sha256, start, run).value.stagers[p]);
  }

  /**
   If a stager got past its link, even if it crashed right there, every later run for the same artifact whose
   check is not disturbed by the system ends as already verified instead of downloading again.
   */
  lemma RerunIsNoop(sha256: Digest, start: State, run: seq<Action>, n: nat, p: Pid, q: Pid)
    requires Fresh(start) && n <= |run| && Exec(sha256, start, run).Some? && Exec(sha256, start, run[..n]).Some?
    requires var early := Exec(sha256, start, run[..n]).value; p in early.stagers && early.stagers[p].linked
    requires var late := Exec(sha256, start, run).value;
      q in late.stagers && late.stagers[q].phase.Check?
      && late.stagers[q].artifact == Exec(sha256, start, run[..n]).value.stagers[p].artifact
    ensures var end := Exec(sha256, start, run + [Step(q, true)]);
      end.Some? && q in end.value.stagers && end.value.stagers[q].phase.AlreadyVerified?
  {
    RunKeeps(sha256, start, run);
    DestinationsNeverChange(sha256, start, run, n);
    var late := Exec(sha256, start, run).value;
    assert p in late.stagers && Sound(sha256, late, p, late.stagers[p]);
    var again := run + [Step(q, true)];
    assert again[..|again| - 1] == run;
  }

  /** A reported success is true and stays true: the destination holds the authenticated bytes from then on. */
  lemma SuccessLasts(sha256: Digest, start: State, run: seq<Action>, n: nat, p: Pid)
    requires Fresh(start) && n <= |run| && Exec(sha256, start, run).Some? && Exec(sha256, start, run[..n]).Some?
    requires var early := Exec(sha256, start, run[..n]).value;
      p in early.stagers && (early.stagers[p].phase.Verified? || early.stagers[p].phase.AlreadyVerified?)
    ensures var a := Exec(sha256, start, run[..n]).value.stagers[p].artifact;
      FitsAt(sha256, Exec(sha256, start, run).value, Target(a.filename), a)
  {
    RunKeeps(sha256, start, run[..n]);
    DestinationsNeverChange(sha256, start, run, n);
    var early := Exec(sha256, start, run[..n]).value;
    assert Sound(sha256, early, p, early.stagers[p]);
  }

  // ---------------------------------------------------------------- why a stager fails

  /** The temporary file is there from its creation until it is unlinked. */
  ghost predicate TemporariesThere(s: State) {
    forall p :: p in s.stagers && NeedsTemporary(s.stagers[p]) ==>
      Temporary(p) in s.names && s.names[Temporary(p)] == Own(p)
  }

  predicate NeedsTemporary(x: Stager) { x.phase.Copy? || x.phase.Verify? || x.phase.Link? || x.phase.Unlink? }

  lemma TemporaryKept(sha256: Digest, s: State, a: Action)
    requires TemporariesThere(s) && Enabled(s, a)
    ensures TemporariesThere(Apply(sha256, s, a))
  {
    hide Fits, FitsAt;
    var t := Apply(sha256, s, a);
    forall p | p in t.stagers && NeedsTemporary(t.stagers[p])
      ensures Temporary(p) in t.names && t.names[Temporary(p)] == Own(p)
    {
      if p != a.pid { assert p in s.stagers && NeedsTemporary(s.stagers[p]); }
    }
  }

  lemma {:induction false} RunKeepsTemporaries(sha256: Digest, start: State, run: seq<Action>)
    requires Fresh(start) && Exec(sha256, start, run).Some?
    ensures TemporariesThere(Exec(sha256, start, run).value)
  {
    if run != [] {
      RunKeepsTemporaries(sha256, start, run[..|run| - 1]);
      TemporaryKept(sha256, Exec(sha256, start, run[..|run| - 1]).value, run[|run| - 1]);
    }
  }

  /** A temporary file is left only while it is used, by a crash, or by a failure to remove it. */
  ghost predicate TemporariesUsed(s: State) {
    forall p :: Temporary(p) in s.names ==>
      && p in s.stagers
      && var phase := s.stagers[p].phase;
         NeedsTemporary(s.stagers[p]) || phase.Cleanup? || phase.Crashed? || phase == Failed(StagingError)
  }

  lemma {:induction false} NoTemporaryLeft(sha256: Digest, start: State, run: seq<Action>)
    requires Fresh(start) && Exec(sha256, start, run).Some?
    ensures TemporariesUsed(Exec(sha256, start, run).value)
  {
    hide Fits, FitsAt;
    if run != [] {
      NoTemporaryLeft(sha256, start, run[..|run| - 1]);
      UseKept(sha256, Exec(sha256, start, run[..|run| - 1]).value, run[|run| - 1]);
    }
  }

  lemma UseKept(sha256: Digest, s: State, a: Action)
    requires TemporariesUsed(s) && Enabled(s, a)
    ensures TemporariesUsed(Apply(sha256, s, a))
  {
    hide Fits, FitsAt;
  }

  function ReasonOf(x: Stager): Option<Code> {
    match x.phase
    case Cleanup(error) => Some(error)
    case Failed(reason) => Some(reason)
    case _ => None
  }

  /** The action is what the stager fails for: what the stream was, who has the name, or a call that failed. */
  ghost predicate Explains(sha256: Digest, s: State, a: Action, p: Pid, reason: Code) {
    && a.pid == p && p in s.stagers
    && var x := s.stagers[p];
       var received := if Own(p) in s.contents then s.contents[Own(p)] else [];
       match reason
       case ArtifactTooLarge => a.Receive? && |received + a.chunk| > x.artifact.size
       case ArtifactTruncated => a.End? && |received| < x.artifact.size
       case ArtifactDigestMismatch => a.End? && |received| == x.artifact.size && sha256(received) != x.artifact.sha256
       case DestinationConflict =>
         && a.Step? && Target(x.artifact.filename) in s.names
         && (x.phase.Link?
             || (x.phase.Check? && (!a.succeeds || !FitsAt(sha256, s, Target(x.artifact.filename), x.artifact))))
       case UnsafePath => a == Step(p, false) && x.phase.Verify?
       case StagingError => a.Step? && (!a.succeeds || x.phase.Copy?)
  }

  lemma FailureExplained(sha256: Digest, s: State, a: Action, p: Pid, reason: Code)
    requires Inv(sha256, s) && TemporariesThere(s) && Enabled(s, a) && p in Apply(sha256, s, a).stagers
    requires ReasonOf(Apply(sha256, s, a).stagers[p]) == Some(reason)
    ensures (p in s.stagers && ReasonOf(s.stagers[p]) == Some(reason)) || Explains(sha256, s, a, p, reason)
  {
    hide FitsAt;
    if a.Step? && a.pid == p {
      StepExplained(sha256, s, p, a.succeeds, reason);
    } else {
      hide DoStep, Explains;
      if a.pid == p && (a.Receive? || a.End?) { StreamExplained(sha256, s, a, p, reason); }
      if a.Step? { StepIsOwn(sha256, s, a, p); }
    }
  }

  lemma StepIsOwn(sha256: Digest, s: State, a: Action, p: Pid)
    requires a.Step? && Enabled(s, a) && a.pid != p && p in Apply(sha256, s, a).stagers
    ensures p in s.stagers && Apply(sha256, s, a).stagers[p] == s.stagers[p]
  {
    hide FitsAt;
  }

  lemma StreamExplained(sha256: Digest, s: State, a: Action, p: Pid, reason: Code)
    requires Inv(sha256, s) && Enabled(s, a) && a.pid == p && (a.Receive? || a.End?)
    requires ReasonOf(Apply(sha256, s, a).stagers[p]) == Some(reason)
    ensures Explains(sha256, s, a, p, reason)
  {
    hide FitsAt, DoStep;
    assert Sound(sha256, s, p, s.stagers[p]);
  }

  lemma StepExplained(sha256: Digest, s: State, p: Pid, succeeds: bool, reason: Code)
    requires Inv(sha256, s) && TemporariesThere(s) && Enabled(s, Step(p, succeeds))
    requires ReasonOf(DoStep(sha256, s, p, succeeds).stagers[p]) == Some(reason)
    ensures ReasonOf(s.stagers[p]) == Some(reason) || Explains(sha256, s, Step(p, succeeds), p, reason)
  {
    assert Sound(sha256, s, p, s.stagers[p]);
    if s.stagers[p].phase.Verify? {
      assert FitsAt(sha256, s, Temporary(p), s.stagers[p].artifact);
    }
    hide FitsAt, Fits;
  }

  /** In every run a stager that fails, and what it reports, is explained by one of its own actions. */
  lemma {:induction false} FailuresAreExplained(sha256: Digest, start: State, run: seq<Action>, p: Pid, reason: Code)
    requires Fresh(start) && Exec(sha256, start, run).Some? && p in Exec(sha256, start, run).value.stagers
    requires ReasonOf(Exec(sha256, start, run).value.stagers[p]) == Some(reason)
    ensures exists i :: ExplainedAt(sha256, start, run, p, reason, i)
  {
    hide ReasonOf, Explains, Apply;
    if run != [] {
      var n := |run| - 1;
      var s := Exec(sha256, start, run[..n]).value;
      RunKeeps(sha256, start, run[..n]);
      RunKeepsTemporaries(sha256, start, run[..n]);
      FailureExplained(sha256, s, run[n], p, reason);
      if p in s.stagers && ReasonOf(s.stagers[p]) == Some(reason) {
        FailuresAreExplained(sha256, start, run[..n], p, reason);
        var i :| ExplainedAt(sha256, start, run[..n], p, reason, i);
        assert run[..n][..i] == run[..i];
        assert ExplainedAt(sha256, start, run, p, reason, i);
      } else {
        assert ExplainedAt(sha256, start, run, p, reason, n);
      }
    }
  }

  ghost predicate ExplainedAt(sha256: Digest, start: State, run: seq<Action>, p: Pid, reason: Code, i: int) {
    && 0 <= i < |run| && Exec(sha256, start, run[..i]).Some?
    && Explains(sha256, Exec(sha256, start, run[..i]).value, run[i], p, reason)
  }

  // ---------------------------------------------------------------- when a stager succeeds

  /** An action of `p` that reports no failure. */
  predicate Undisturbed(a: Action, p: Pid) { a.pid == p && !a.Crash? && (a.Step? ==> a.succeeds) }

  ghost predicate AllUndisturbed(run: seq<Action>, p: Pid) { forall i :: 0 <= i < |run| ==> Undisturbed(run[i], p) }

  /** The stager is on the way from its creation to success: what it has is the beginning of `content`. */
  ghost predicate OnTrack(sha256: Digest, s: State, p: Pid, artifact: Artifact, content: Bytes) {
    && Fits(sha256, content, artifact.size, artifact.sha256) && p in s.stagers && s.stagers[p].artifact == artifact
    && var phase := s.stagers[p].phase;
       && (phase.Check? || phase.Create? || phase.Copy? || phase.Verify? || phase.Link? ==>
             Target(artifact.filename) !in s.names)
       && (phase.Copy? ==> Own(p) in s.contents && s.contents[Own(p)] <= content)
       && (phase.Verify? || phase.Link? || phase.Unlink? || phase.Sync? || phase.Verified? ==>
             Own(p) in s.contents && s.contents[Own(p)] == content)
       && (phase.Check? || phase.Create? || phase.Copy? || phase.Verify? || phase.Link? || phase.Unlink? || phase.Sync?
           || phase.Verified?)
  }

  /** What the stager does next when nothing disturbs it. */
  function Next(s: State, p: Pid, content: Bytes): Action
    requires p in s.stagers
  {
    if !s.stagers[p].phase.Copy? || Own(p) !in s.contents then Step(p, true)
    else
      var n := |s.contents[Own(p)]|;
      if n >= |content| then End(p) else Receive(p, content[n..n + 1])
  }

  function Left(s: State, p: Pid, content: Bytes): nat
    requires p in s.stagers
  {
    match s.stagers[p].phase
    case Check => |content| + 8
    case Create => |content| + 7
    case Copy =>
      if Own(p) in s.contents && |s.contents[Own(p)]| <= |content| then |content| - |s.contents[Own(p)]| + 6 else 6
    case Verify => 4
    case Link => 3
    case Unlink => 2
    case Sync => 1
    case _ => 0
  }

  lemma TrackGoesOn(sha256: Digest, s: State, p: Pid, artifact: Artifact, content: Bytes)
    requires Inv(sha256, s) && TemporariesThere(s) && OnTrack(sha256, s, p, artifact, content)
    requires !s.stagers[p].phase.Verified?
    ensures Enabled(s, Next(s, p, content)) && Undisturbed(Next(s, p, content), p)
    ensures OnTrack(sha256, Apply(sha256, s, Next(s, p, content)), p, artifact, content)
    ensures Left(Apply(sha256, s, Next(s, p, content)), p, content) < Left(s, p, content)
  {
    assert Sound(sha256, s, p, s.stagers[p]);
    if s.stagers[p].phase.Copy? {
      CopyGoesOn(sha256, s, p, artifact, content);
    } else {
      assert NeedsTemporary(s.stagers[p]) ==> Temporary(p) in s.names;
    }
  }

  lemma CopyGoesOn(sha256: Digest, s: State, p: Pid, artifact: Artifact, content: Bytes)
    requires OnTrack(sha256, s, p, artifact, content) && s.stagers[p].phase.Copy?
    ensures Enabled(s, Next(s, p, content)) && Undisturbed(Next(s, p, content), p)
    ensures OnTrack(sha256, Apply(sha256, s, Next(s, p, content)), p, artifact, content)
    ensures Left(Apply(sha256, s, Next(s, p, content)), p, content) < Left(s, p, content)
  {
    var n := |s.contents[Own(p)]|;
    if n < |content| {
      assert s.contents[Own(p)] == content[..n];
      assert content[..n] + content[n..n + 1] == content[..n + 1];
    } else {
      assert s.contents[Own(p)] == content;
    }
  }

  lemma StepsTo(sha256: Digest, start: State, run: seq<Action>, a: Action)
    requires Exec(sha256, start, run).Some? && Enabled(Exec(sha256, start, run).value, a)
    ensures Exec(sha256, start, run + [a]) == Some(Apply(sha256, Exec(sha256, start, run).value, a))
  {
    hide Enabled, Apply;
    assert (run + [a])[..|run|] == run;
  }

  lemma {:induction false} UndisturbedSucceeds(sha256: Digest, start: State, run: seq<Action>, p: Pid,
                                               artifact: Artifact, content: Bytes)
    returns (more: seq<Action>)
    requires Fresh(start) && Exec(sha256, start, run).Some?
    requires OnTrack(sha256, Exec(sha256, start, run).value, p, artifact, content)
    ensures AllUndisturbed(more, p) && Exec(sha256, start, run + more).Some?
    ensures var t := Exec(sha256, start, run + more).value;
      p in t.stagers && t.stagers[p].phase.Verified? && OnTrack(sha256, t, p, artifact, content)
    decreases Left(Exec(sha256, start, run).value, p, content)
  {
    hide Exec, OnTrack, Left, Apply, Next;
    var s := Exec(sha256, start, run).value;
    TrackHasStager(sha256, s, p, artifact, content);
    if s.stagers[p].phase.Verified? {
      more := [];
      assert run + more == run;
    } else {
      RunKeeps(sha256, start, run);
      RunKeepsTemporaries(sha256, start, run);
      TrackGoesOn(sha256, s, p, artifact, content);
      var go := Next(s, p, content);
      StepsTo(sha256, start, run, go);
      var rest := UndisturbedSucceeds(sha256, start, run + [go], p, artifact, content);
      more := [go] + rest;
      assert run + more == (run + [go]) + rest;
    }
  }

  lemma TrackHasStager(sha256: Digest, s: State, p: Pid, artifact: Artifact, content: Bytes)
    requires OnTrack(sha256, s, p, artifact, content)
    ensures p in s.stagers
  {
  }

  /**
   From every reachable state in which the destination is free, a stager whose stream has the authenticated size and
   digest and that is left alone ends verified, with exactly those bytes at the destination.
   */
  lemma FreeTargetIsStaged(sha256: Digest, start: State, run: seq<Action>, p: Pid, artifact: Artifact, content: Bytes)
    returns (more: seq<Action>)
    requires Fresh(start) && Exec(sha256, start, run).Some? && p !in Exec(sha256, start, run).value.stagers
    requires Target(artifact.filename) !in Exec(sha256, start, run).value.names
    requires |content| == artifact.size && sha256(content) == artifact.sha256
    ensures AllUndisturbed(more, p) && Exec(sha256, start, run + more).Some?
    ensures var t := Exec(sha256, start, run + more).value;
      && p in t.stagers && t.stagers[p].artifact == artifact && t.stagers[p].phase.Verified?
      && Target(artifact.filename) in t.names && t.names[Target(artifact.filename)] in t.contents
      && t.contents[t.names[Target(artifact.filename)]] == content
  {
    hide Exec;
    var begin := Begin(p, artifact);
    StepsTo(sha256, start, run, begin);
    var rest := UndisturbedSucceeds(sha256, start, run + [begin], p, artifact, content);
    more := [begin] + rest;
    assert run + more == (run + [begin]) + rest;
    var t := Exec(sha256, start, run + more).value;
    RunKeeps(sha256, start, run + more);
    assert Sound(sha256, t, p, t.stagers[p]);
  }
}
