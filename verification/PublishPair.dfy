/**
 Publishing a signature and its descriptor together: each is staged in a temporary file and hard-linked to its
 final name; a failure rolls the links back. Any number of publishers race for the same two names.
 */
module PublishPair {
  import opened Options
  import opened Bytes

  type Pid = nat

  /** Output 0 is the signature, output 1 the descriptor; temporary names are unique to their creator. */
  datatype Name = Output(k: nat) | Temporary(pid: Pid, k: nat)

  datatype Inode = Own(pid: Pid, k: nat) | Foreign(n: nat)

  datatype Phase =
    | Check(k: nat)
    | Create(k: nat)
    | Fill(k: nat)
    | Link(k: nat)
    | Sync
    | Rollback
    | Cleanup(k: nat, ok: bool)
    | Done(ok: bool)
    | Crashed

  /** `staged` and `linked` are the lengths of the two lists; `unlinked` counts the rolled-back links. */
  datatype Publisher = Publisher(payload: seq<Bytes>, phase: Phase, staged: nat, linked: nat, unlinked: nat)

  datatype State = State(names: map<Name, Inode>, inodes: map<Inode, Bytes>, publishers: map<Pid, Publisher>)

  /** `succeeds` is the outcome the system call reports where it may fail. */
  datatype Action =
    | Begin(pid: Pid, signature: Bytes, descriptor: Bytes)
    | Step(pid: Pid, succeeds: bool)
    | FillSome(pid: Pid, content: Bytes)
    | Crash(pid: Pid)

  predicate Running(p: Publisher) { !p.phase.Done? && !p.phase.Crashed? }

  predicate Enabled(s: State, a: Action) {
    match a
    case Begin(p, _, _) => p !in s.publishers
    case Step(p, _) => p in s.publishers && Running(s.publishers[p])
    case FillSome(p, _) => p in s.publishers && s.publishers[p].phase.Fill?
    case Crash(p) => p in s.publishers && Running(s.publishers[p])
  }

  function Put(s: State, p: Pid, x: Publisher): State { s.(publishers := s.publishers[p := x]) }

  /** One system call of one publisher. */
  function DoStep(s: State, p: Pid, succeeds: bool): State
    requires p in s.publishers && Running(s.publishers[p])
  {
    var x := s.publishers[p];
    match x.phase
    case Check(k) =>
      Put(s, p, x.(phase := if Output(k) in s.names then Done(false) else if k == 0 then Check(1) else Create(0)))
    case Create(k) =>
      if !succeeds then Put(s, p, x.(phase := Rollback))
      else
        State(s.names[Temporary(p, k) := Own(p, k)], s.inodes[Own(p, k) := []],
              s.publishers[p := x.(phase := Fill(k), staged := k + 1)])
    case Fill(k) =>
      if !succeeds || k >= |x.payload| then Put(s, p, x.(phase := Rollback))
      else
        s.(inodes := s.inodes[Own(p, k) := x.payload[k]],
           publishers := s.publishers[p := x.(phase := if k == 0 then Create(1) else Link(0))])
    case Link(k) =>
      if !succeeds || Output(k) in s.names || Temporary(p, k) !in s.names then Put(s, p, x.(phase := Rollback))
      else
        s.(names := s.names[Output(k) := s.names[Temporary(p, k)]],
           publishers := s.publishers[p := x.(phase := if k == 0 then Link(1) else Sync, linked := k + 1)])
    case Sync => Put(s, p, x.(phase := if succeeds then Cleanup(0, true) else Rollback))
    case Rollback =>
      if x.unlinked < x.linked then
        s.(names := s.names - {Output(x.unlinked)}, publishers := s.publishers[p := x.(unlinked := x.unlinked + 1)])
      else Put(s, p, x.(phase := Cleanup(0, false)))
    case Cleanup(k, ok) =>
      if k < x.staged then
        s.(names := s.names - {Temporary(p, k)}, publishers := s.publishers[p := x.(phase := Cleanup(k + 1, ok))])
      else Put(s, p, x.(phase := Done(ok)))
  }

  function Apply(s: State, a: Action): State
    requires Enabled(s, a)
  {
    match a
    case Begin(p, signature, descriptor) => Put(s, p, Publisher([signature, descriptor], Check(0), 0, 0, 0))
    case Step(p, succeeds) => DoStep(s, p, succeeds)
    case FillSome(p, content) => s.(inodes := s.inodes[Own(p, s.publishers[p].phase.k) := content])
    case Crash(p) => Put(s, p, s.publishers[p].(phase := Crashed))
  }

  /** A directory that may already hold files of others under the two names. */
  predicate Foreigners(names: map<Name, Inode>) {
    forall n :: n in names ==> n.Output? && names[n].Foreign?
  }

  function Exec(names: map<Name, Inode>, inodes: map<Inode, Bytes>, run: seq<Action>): Option<State> {
    if run == [] then Some(State(names, inodes, map[]))
    else
      var before := Exec(names, inodes, run[..|run| - 1]);
      var a := run[|run| - 1];
      if before.Some? && Enabled(before.value, a) then Some(Apply(before.value, a)) else None
  }

  // ---------------------------------------------------------------- invariant

  /** The publisher created the link at output `k` and has not rolled it back. */
  predicate Owns(x: Publisher, k: nat) { x.unlinked <= k < x.linked }

  /** The counters fit the phase. */
  predicate Consistent(x: Publisher) {
    && |x.payload| == 2 && x.unlinked <= x.linked <= 2 && x.staged <= 2
    && match x.phase
       case Check(k) => k < 2 && x.staged == 0 && x.linked == 0
       case Create(k) => k < 2 && x.staged == k && x.linked == 0
       case Fill(k) => k < 2 && x.staged == k + 1 && x.linked == 0
       case Link(k) => k < 2 && x.staged == 2 && x.linked == k && x.unlinked == 0
       case Sync => x.staged == 2 && x.linked == 2 && x.unlinked == 0
       case Rollback => true
       case Cleanup(k, ok) => k <= x.staged && (if ok then x.linked == 2 && x.unlinked == 0 else x.unlinked == x.linked)
       case Done(ok) => if ok then x.linked == 2 && x.unlinked == 0 else x.unlinked == x.linked
       case Crashed => true
  }

  /** Temporary files of `p` that are still in the directory. */
  predicate Keeps(x: Publisher, k: nat) {
    && k < x.staged && !x.phase.Done?
    && (x.phase.Cleanup? ==> x.phase.k <= k)
  }

  /** Staged files that are completely written. */
  predicate Filled(x: Publisher, k: nat) {
    k < x.linked || (x.phase.Link? && k < 2) || (x.phase.Create? && k < x.phase.k) || (x.phase.Fill? && k < x.phase.k)
  }

  ghost predicate OutputsOwned(s: State, initial: map<Name, Inode>) {
    && (forall k :: Output(k) in s.names ==>
          || (Output(k) in initial && s.names[Output(k)] == initial[Output(k)])
          || (s.names[Output(k)].Own? && s.names[Output(k)].k == k && s.names[Output(k)].pid in s.publishers
              && Owns(s.publishers[s.names[Output(k)].pid], k)))
    && (forall k :: Output(k) in initial ==> Output(k) in s.names && s.names[Output(k)] == initial[Output(k)])
    && (forall p, k :: p in s.publishers && Owns(s.publishers[p], k) ==>
          Output(k) in s.names && s.names[Output(k)] == Own(p, k))
  }

  ghost predicate TemporariesOwned(s: State) {
    && (forall p, k :: Temporary(p, k) in s.names ==>
          p in s.publishers && s.names[Temporary(p, k)] == Own(p, k)
          && (Keeps(s.publishers[p], k) || s.publishers[p].phase.Crashed?))
    && (forall p, k :: p in s.publishers && !s.publishers[p].phase.Crashed? && Keeps(s.publishers[p], k) ==>
          Temporary(p, k) in s.names)
  }

  ghost predicate ContentsWritten(s: State) {
    forall p, k: nat :: p in s.publishers && k < |s.publishers[p].payload| && Filled(s.publishers[p], k) ==>
      Own(p, k) in s.inodes && s.inodes[Own(p, k)] == s.publishers[p].payload[k]
  }

  ghost predicate Inv(s: State, initial: map<Name, Inode>) {
    && Foreigners(initial)
    && (forall p :: p in s.publishers ==> Consistent(s.publishers[p]))
    && OutputsOwned(s, initial) && TemporariesOwned(s) && ContentsWritten(s)
  }

  // ---------------------------------------------------------------- preservation, part by part

  /** The outputs and who owns them are untouched. */
  lemma OutputsKept(s: State, t: State, p: Pid, initial: map<Name, Inode>)
    requires OutputsOwned(s, initial) && p in t.publishers && t.publishers == s.publishers[p := t.publishers[p]]
    requires forall k :: (Output(k) in t.names <==> Output(k) in s.names)
                         && (Output(k) in s.names ==> t.names[Output(k)] == s.names[Output(k)])
    requires forall k :: Owns(t.publishers[p], k) <==> p in s.publishers && Owns(s.publishers[p], k)
    ensures OutputsOwned(t, initial)
  {
    hide Owns;
  }

  /** The temporaries of the others are untouched; those of `p` are accounted for. */
  lemma TemporariesKept(s: State, t: State, p: Pid)
    requires TemporariesOwned(s) && p in t.publishers && t.publishers == s.publishers[p := t.publishers[p]]
    requires forall q, k :: q != p ==>
               && (Temporary(q, k) in t.names <==> Temporary(q, k) in s.names)
               && (Temporary(q, k) in s.names ==> t.names[Temporary(q, k)] == s.names[Temporary(q, k)])
    requires forall k :: Temporary(p, k) in t.names ==>
               t.names[Temporary(p, k)] == Own(p, k) && (Keeps(t.publishers[p], k) || t.publishers[p].phase.Crashed?)
    requires !t.publishers[p].phase.Crashed? ==> forall k :: Keeps(t.publishers[p], k) ==> Temporary(p, k) in t.names
    ensures TemporariesOwned(t)
  {
    hide Keeps;
  }

  lemma ContentsKept(s: State, t: State, p: Pid)
    requires ContentsWritten(s) && p in t.publishers && t.publishers == s.publishers[p := t.publishers[p]]
    requires forall q, k :: q != p && Own(q, k) in s.inodes ==>
             Own(q, k) in t.inodes && t.inodes[Own(q, k)] == s.inodes[Own(q, k)]
    requires forall k: nat :: k < |t.publishers[p].payload| && Filled(t.publishers[p], k) ==>
               Own(p, k) in t.inodes && t.inodes[Own(p, k)] == t.publishers[p].payload[k]
    ensures ContentsWritten(t)
  {
    hide Filled;
  }

  /** A publisher moves on without touching the directory. */
  lemma PhaseMoves(s: State, p: Pid, x: Publisher, initial: map<Name, Inode>)
    requires Inv(s, initial) && p in s.publishers && Consistent(x) && !s.publishers[p].phase.Crashed?
    requires x.payload == s.publishers[p].payload && x.linked == s.publishers[p].linked
             && x.unlinked == s.publishers[p].unlinked
    requires !x.phase.Crashed? ==> forall k :: Keeps(x, k) <==> Keeps(s.publishers[p], k)
    requires forall k :: Filled(x, k) ==> Filled(s.publishers[p], k)
    ensures Inv(Put(s, p, x), initial)
  {
    OutputsKept(s, Put(s, p, x), p, initial);
    TemporariesKept(s, Put(s, p, x), p);
    ContentsKept(s, Put(s, p, x), p);
  }

  lemma CreateKeeps(s: State, p: Pid, initial: map<Name, Inode>)
    requires Inv(s, initial) && p in s.publishers && s.publishers[p].phase.Create?
    ensures Inv(DoStep(s, p, true), initial)
  {
    var t := DoStep(s, p, true);
    assert Consistent(s.publishers[p]);
    OutputsKept(s, t, p, initial);
    TemporariesKept(s, t, p);
    ContentsKept(s, t, p);
  }

  lemma FillKeeps(s: State, p: Pid, initial: map<Name, Inode>)
    requires Inv(s, initial) && p in s.publishers && s.publishers[p].phase.Fill?
    ensures Inv(DoStep(s, p, true), initial)
  {
    var t := DoStep(s, p, true);
    assert Consistent(s.publishers[p]);
    OutputsKept(s, t, p, initial);
    TemporariesKept(s, t, p);
    ContentsKept(s, t, p);
  }

  lemma LinkedOutputs(s: State, t: State, p: Pid, k: nat, initial: map<Name, Inode>)
    requires OutputsOwned(s, initial) && p in s.publishers && Output(k) !in s.names
    requires t.names == s.names[Output(k) := Own(p, k)]
    requires p in t.publishers
    requires t.publishers == s.publishers[p := s.publishers[p].(linked := k + 1, phase := t.publishers[p].phase)]
    requires s.publishers[p].linked == k && s.publishers[p].unlinked == 0
    ensures OutputsOwned(t, initial)
  {
  }

  lemma LinkKeeps(s: State, p: Pid, initial: map<Name, Inode>)
    requires Inv(s, initial) && p in s.publishers && s.publishers[p].phase.Link?
             && Output(s.publishers[p].phase.k) !in s.names
    ensures Inv(DoStep(s, p, true), initial)
  {
    var t := DoStep(s, p, true);
    assert Consistent(s.publishers[p]);
    assert Keeps(s.publishers[p], s.publishers[p].phase.k);
    LinkedOutputs(s, t, p, s.publishers[p].phase.k, initial);
    TemporariesKept(s, t, p);
    ContentsKept(s, t, p);
  }

  lemma UnlinkedOutputs(s: State, t: State, p: Pid, initial: map<Name, Inode>)
    requires OutputsOwned(s, initial) && p in s.publishers && s.publishers[p].unlinked < s.publishers[p].linked
    requires Foreigners(initial) && t.names == s.names - {Output(s.publishers[p].unlinked)}
    requires t.publishers == s.publishers[p := s.publishers[p].(unlinked := s.publishers[p].unlinked + 1)]
    ensures OutputsOwned(t, initial)
  {
    assert Owns(s.publishers[p], s.publishers[p].unlinked);
  }

  lemma RollbackKeeps(s: State, p: Pid, initial: map<Name, Inode>)
    requires Inv(s, initial) && p in s.publishers && s.publishers[p].phase.Rollback?
    requires s.publishers[p].unlinked < s.publishers[p].linked
    ensures Inv(DoStep(s, p, true), initial)
  {
    var t := DoStep(s, p, true);
    assert Consistent(s.publishers[p]);
    UnlinkedOutputs(s, t, p, initial);
    TemporariesKept(s, t, p);
    ContentsKept(s, t, p);
  }

  lemma CleanupKeeps(s: State, p: Pid, initial: map<Name, Inode>)
    requires Inv(s, initial) && p in s.publishers && s.publishers[p].phase.Cleanup?
    requires s.publishers[p].phase.k < s.publishers[p].staged
    ensures Inv(DoStep(s, p, true), initial)
  {
    var t := DoStep(s, p, true);
    assert Consistent(s.publishers[p]);
    OutputsKept(s, t, p, initial);
    TemporariesKept(s, t, p);
    ContentsKept(s, t, p);
  }

  lemma StepKeeps(s: State, p: Pid, succeeds: bool, initial: map<Name, Inode>)
    requires Inv(s, initial) && Enabled(s, Step(p, succeeds))
    ensures Inv(DoStep(s, p, succeeds), initial)
  {
    var x := s.publishers[p];
    assert Consistent(x);
    hide OutputsOwned, TemporariesOwned, ContentsWritten;
    match x.phase
    case Create(k) =>
      if succeeds {
        CreateKeeps(s, p, initial);
      } else {
        PhaseMoves(s, p, x.(phase := Rollback), initial);
      }
    case Fill(k) => if succeeds { FillKeeps(s, p, initial); } else { PhaseMoves(s, p, x.(phase := Rollback), initial); }
    case Link(k) =>
      if succeeds && Output(k) !in s.names {
        LinkKeeps(s, p, initial);
      } else {
        PhaseMoves(s, p, x.(phase := Rollback), initial);
      }
    case Rollback =>
      if x.unlinked < x.linked {
        RollbackKeeps(s, p, initial);
      } else {
        PhaseMoves(s, p, x.(phase := Cleanup(0, false)), initial);
      }
    case Cleanup(k, ok) =>
      if k < x.staged { CleanupKeeps(s, p, initial); } else { PhaseMoves(s, p, x.(phase := Done(ok)), initial); }
    case Check(k) => PhaseMoves(s, p, DoStep(s, p, succeeds).publishers[p], initial);
    case Sync => PhaseMoves(s, p, DoStep(s, p, succeeds).publishers[p], initial);
  }

  lemma OtherActionsKeep(s: State, a: Action, initial: map<Name, Inode>)
    requires Inv(s, initial) && Enabled(s, a) && !a.Step?
    ensures Inv(Apply(s, a), initial)
  {
    if a.Crash? {
      PhaseMoves(s, a.pid, s.publishers[a.pid].(phase := Crashed), initial);
    } else {
      var t := Apply(s, a);
      OutputsKept(s, t, a.pid, initial);
      TemporariesKept(s, t, a.pid);
      ContentsKept(s, t, a.pid);
    }
  }

  lemma {:induction false} RunKeeps(names: map<Name, Inode>, inodes: map<Inode, Bytes>, run: seq<Action>)
    requires Foreigners(names)
    ensures Exec(names, inodes, run).Some? ==> Inv(Exec(names, inodes, run).value, names)
  {
    if run != [] {
      RunKeeps(names, inodes, run[..|run| - 1]);
      var before := Exec(names, inodes, run[..|run| - 1]);
      var a := run[|run| - 1];
      if Exec(names, inodes, run).Some? {
        if a.Step? {
          StepKeeps(before.value, a.pid, a.succeeds, names);
        } else {
          OtherActionsKeep(before.value, a, names);
        }
      }
    }
  }

  /** Publishers write their own files only. */
  lemma {:induction false} ForeignBytesKept(names: map<Name, Inode>, inodes: map<Inode, Bytes>, run: seq<Action>)
    requires Exec(names, inodes, run).Some?
    ensures forall i: Inode :: i.Foreign? && i in inodes ==>
              i in Exec(names, inodes, run).value.inodes && Exec(names, inodes, run).value.inodes[i] == inodes[i]
  {
    if run != [] { ForeignBytesKept(names, inodes, run[..|run| - 1]); }
  }

  // ---------------------------------------------------------------- the results

  /**
   In every run, crashes included, the only names a publisher removes are its own: a link it rolls back still
   leads to the file it linked there. Names that were there before keep their files, and those files their bytes.
   */
  lemma UnlinksOnlyItsOwn(names: map<Name, Inode>, inodes: map<Inode, Bytes>, run: seq<Action>, p: Pid)
    requires Foreigners(names) && Exec(names, inodes, run).Some?
    ensures var s := Exec(names, inodes, run).value;
      && (p in s.publishers && s.publishers[p].phase.Rollback? && s.publishers[p].unlinked < s.publishers[p].linked ==>
            Output(s.publishers[p].unlinked) in s.names
            && s.names[Output(s.publishers[p].unlinked)] == Own(p, s.publishers[p].unlinked))
      && (forall n :: n in names ==> n in s.names && s.names[n] == names[n])
      && (forall n :: n in names && names[n] in inodes ==>
            names[n] in s.inodes && s.inodes[names[n]] == inodes[names[n]])
  {
    RunKeeps(names, inodes, run);
    ForeignBytesKept(names, inodes, run);
    OwnLinks(Exec(names, inodes, run).value, names, p);
  }

  lemma OwnLinks(s: State, initial: map<Name, Inode>, p: Pid)
    requires OutputsOwned(s, initial) && Foreigners(initial)
    ensures p in s.publishers && s.publishers[p].unlinked < s.publishers[p].linked ==>
              Output(s.publishers[p].unlinked) in s.names
              && s.names[Output(s.publishers[p].unlinked)] == Own(p, s.publishers[p].unlinked)
    ensures forall n :: n in initial ==> n in s.names && s.names[n] == initial[n]
  {
    assert p in s.publishers && s.publishers[p].unlinked < s.publishers[p].linked ==>
        Owns(s.publishers[p], s.publishers[p].unlinked);
    forall n | n in initial ensures n in s.names && s.names[n] == initial[n] {
      assert n == Output(n.k);
    }
  }

  /** The output holds exactly these bytes, as a file of `p`. */
  predicate PublishedBy(s: State, p: Pid, k: nat) {
    && p in s.publishers && k < |s.publishers[p].payload|
    && Output(k) in s.names && s.names[Output(k)] == Own(p, k)
    && Own(p, k) in s.inodes && s.inodes[Own(p, k)] == s.publishers[p].payload[k]
  }

  ghost predicate Quiescent(s: State) {
    forall p :: p in s.publishers ==> s.publishers[p].phase.Done?
  }

  ghost predicate Succeeded(s: State, p: Pid) {
    p in s.publishers && s.publishers[p].phase == Done(true)
  }

  /**
   In every crash-free run, once all publishers have returned: a publisher that succeeded published both files
   with its own bytes and is the only one; without a success the directory is what it was; no temporary is left.
   */
  lemma AllOrNothing(names: map<Name, Inode>, inodes: map<Inode, Bytes>, run: seq<Action>)
    requires Foreigners(names) && Exec(names, inodes, run).Some? && Quiescent(Exec(names, inodes, run).value)
    ensures var s := Exec(names, inodes, run).value;
      && (forall p :: Succeeded(s, p) ==> PublishedBy(s, p, 0) && PublishedBy(s, p, 1))
      && (forall p, q :: Succeeded(s, p) && Succeeded(s, q) ==> p == q)
      && ((forall p :: !Succeeded(s, p)) ==> s.names == names)
      && (forall n :: n in s.names ==> n.Output?)
  {
    RunKeeps(names, inodes, run);
    QuiescentDirectory(Exec(names, inodes, run).value, names);
  }

  lemma QuiescentDirectory(s: State, initial: map<Name, Inode>)
    requires Inv(s, initial) && Quiescent(s)
    ensures forall p :: Succeeded(s, p) ==> PublishedBy(s, p, 0) && PublishedBy(s, p, 1)
    ensures forall p, q :: Succeeded(s, p) && Succeeded(s, q) ==> p == q
    ensures (forall p :: !Succeeded(s, p)) ==> s.names == initial
    ensures forall n :: n in s.names ==> n.Output?
  {
    forall p | Succeeded(s, p) ensures PublishedBy(s, p, 0) && PublishedBy(s, p, 1) {
      var x := s.publishers[p];
      assert Owns(x, 0) && Owns(x, 1) && Filled(x, 0) && Filled(x, 1);
    }
    forall n | n in s.names ensures n.Output? {
      match n
      case Output(k) =>
      case Temporary(p, k) =>
    }
    if forall p :: !Succeeded(s, p) {
      forall n | n in s.names ensures n in initial && s.names[n] == initial[n] {
        assert n == Output(n.k);
        assert forall q, k :: q in s.publishers && !Succeeded(s, q) ==> !Owns(s.publishers[q], k);
      }
      forall n | n in initial ensures n in s.names {
        assert n == Output(n.k);
      }
    }
  }

  // ---------------------------------------------------------------- with crashes

  /** Nobody will take another step: every publisher has returned or crashed. */
  ghost predicate AtRest(s: State) {
    forall p :: p in s.publishers ==> s.publishers[p].phase.Done? || s.publishers[p].phase.Crashed?
  }

  /** The publisher holds exactly one of the two links. */
  predicate HoldsHalf(x: Publisher) { Owns(x, 0) != Owns(x, 1) }

  ghost predicate OutputsUntouched(s: State, initial: map<Name, Inode>) {
    forall k :: (Output(k) in s.names <==> Output(k) in initial)
                && (Output(k) in initial ==> s.names[Output(k)] == initial[Output(k)])
  }

  ghost predicate BothFromOne(s: State) {
    exists p :: PublishedBy(s, p, 0) && PublishedBy(s, p, 1)
  }

  /**
   In every run, crashes included, once nobody moves any more: the outputs are untouched or both come from one
   publisher exactly when no publisher holds one link without the other, and only a crashed one can.
   */
  lemma AllOrNothingIff(names: map<Name, Inode>, inodes: map<Inode, Bytes>, run: seq<Action>)
    requires Foreigners(names) && Exec(names, inodes, run).Some? && AtRest(Exec(names, inodes, run).value)
    ensures var s := Exec(names, inodes, run).value;
      && (OutputsUntouched(s, names) || BothFromOne(s)
          <==> forall p :: p in s.publishers ==> !HoldsHalf(s.publishers[p]))
      && (forall p :: p in s.publishers && HoldsHalf(s.publishers[p]) ==> s.publishers[p].phase.Crashed?)
  {
    RunKeeps(names, inodes, run);
    var s := Exec(names, inodes, run).value;
    forall p | p in s.publishers && HoldsHalf(s.publishers[p])
      ensures s.publishers[p].phase.Crashed? && !OutputsUntouched(s, names) && !BothFromOne(s)
    {
      HalfIsNeither(s, names, p);
    }
    if forall p :: p in s.publishers ==> !HoldsHalf(s.publishers[p]) { NoHalfIsEither(s, names); }
  }

  lemma HalfIsNeither(s: State, initial: map<Name, Inode>, p: Pid)
    requires Inv(s, initial) && AtRest(s) && p in s.publishers && HoldsHalf(s.publishers[p])
    ensures s.publishers[p].phase.Crashed? && !OutputsUntouched(s, initial) && !BothFromOne(s)
  {
    hide TemporariesOwned, ContentsWritten, Keeps, Filled;
    var x := s.publishers[p];
    var k := if Owns(x, 0) then 0 else 1;
    assert Consistent(x) && Owns(x, k) && !Owns(x, 1 - k);
    assert Output(k) in s.names && s.names[Output(k)] == Own(p, k);
    assert forall m: nat :: Output(m) in s.names && s.names[Output(m)] == Own(p, m) ==> Owns(x, m);
  }

  lemma NoHalfIsEither(s: State, initial: map<Name, Inode>)
    requires Inv(s, initial) && forall p :: p in s.publishers ==> !HoldsHalf(s.publishers[p])
    ensures OutputsUntouched(s, initial) || BothFromOne(s)
  {
    hide TemporariesOwned, Keeps;
    if p :| p in s.publishers && (Owns(s.publishers[p], 0) || Owns(s.publishers[p], 1)) {
      var x := s.publishers[p];
      assert Consistent(x) && !HoldsHalf(x) && Owns(x, 0) && Owns(x, 1) && Filled(x, 0) && Filled(x, 1);
      assert PublishedBy(s, p, 0) && PublishedBy(s, p, 1);
    } else {
      forall k, p | p in s.publishers ensures !Owns(s.publishers[p], k) { assert Consistent(s.publishers[p]); }
    }
  }

  /** One action more. */
  lemma StepsTo(names: map<Name, Inode>, inodes: map<Inode, Bytes>, run: seq<Action>, a: Action)
    requires Exec(names, inodes, run).Some? && Enabled(Exec(names, inodes, run).value, a)
    ensures Exec(names, inodes, run + [a]) == Some(Apply(Exec(names, inodes, run).value, a))
  {
    hide Enabled, Apply;
    assert (run + [a])[..|run|] == run;
  }

  /** Such a crash exists: between the two links it leaves the signature without its descriptor. */
  lemma CrashLeavesHalf(signature: Bytes, descriptor: Bytes) returns (run: seq<Action>)
    ensures Exec(map[], map[], run).Some? && AtRest(Exec(map[], map[], run).value)
    ensures var s := Exec(map[], map[], run).value; Output(0) in s.names && Output(1) !in s.names
  {
    hide Exec;
    var go := Step(0, true);
    NothingYet();
    StepsTo(map[], map[], [], Begin(0, signature, descriptor));
    run := [] + [Begin(0, signature, descriptor)];
    ghost var i := 0;
    while i < 7
      invariant 0 <= i <= 7 && Exec(map[], map[], run) == Some(Alone(signature, descriptor, i))
    {
      AloneStep(signature, descriptor, i);
      StepsTo(map[], map[], run, go);
      run := run + [go];
      i := i + 1;
    }
    StepsTo(map[], map[], run, Crash(0));
    run := run + [Crash(0)];
  }

  lemma NothingYet()
    ensures Exec(map[], map[], []) == Some(State(map[], map[], map[]))
  {
  }

  /** One publisher on an empty directory after `i` undisturbed steps, up to its first link. */
  function Alone(signature: Bytes, descriptor: Bytes, i: nat): State
    requires i <= 7
  {
    var payload := [signature, descriptor];
    var phase := [Check(0), Check(1), Create(0), Fill(0), Create(1), Fill(1), Link(0), Link(1)][i];
    var x := Publisher(payload, phase, if i < 3 then 0 else if i < 5 then 1 else 2, if i < 7 then 0 else 1, 0);
    var first := map[Temporary(0, 0) := Own(0, 0)];
    var both := first[Temporary(0, 1) := Own(0, 1)];
    State(if i < 3 then map[] else if i < 5 then first else if i < 7 then both else both[Output(0) := Own(0, 0)],
          if i < 3 then map[] else if i < 4 then map[Own(0, 0) := []] else if i < 5 then map[Own(0, 0) := signature]
          else map[Own(0, 0) := signature][Own(0, 1) := if i < 6 then [] else descriptor],
          map[0 := x])
  }

  lemma AloneStep(signature: Bytes, descriptor: Bytes, i: nat)
    requires i < 7
    ensures var s := Alone(signature, descriptor, i);
      Enabled(s, Step(0, true)) && Apply(s, Step(0, true)) == Alone(signature, descriptor, i + 1)
  {
    var s, t := Alone(signature, descriptor, i), Alone(signature, descriptor, i + 1);
    var u := Apply(s, Step(0, true));
    assert u.names == t.names;
    assert u.inodes == t.inodes;
    assert u.publishers == t.publishers;
  }

  // ---------------------------------------------------------------- when a publisher succeeds

  /** The publisher is on its way to reporting a failure, or has. */
  predicate Failing(x: Publisher) {
    x.phase.Rollback? || (x.phase.Cleanup? && !x.phase.ok) || x.phase == Done(false)
  }

  /** The publisher is about to look at, or to link, an output name that somebody has taken. */
  predicate Blocked(s: State, p: Pid) {
    && p in s.publishers && (s.publishers[p].phase.Check? || s.publishers[p].phase.Link?)
    && Output(s.publishers[p].phase.k) in s.names
  }

  lemma FailingStep(s: State, initial: map<Name, Inode>, p: Pid, succeeds: bool)
    requires Inv(s, initial) && Enabled(s, Step(p, succeeds)) && !Failing(s.publishers[p])
    ensures Failing(DoStep(s, p, succeeds).publishers[p]) ==> !succeeds || Blocked(s, p)
  {
    hide OutputsOwned, ContentsWritten;
    var x := s.publishers[p];
    assert Consistent(x);
    if x.phase.Link? { assert Keeps(x, x.phase.k); }
  }

  /** Action `i` of the run is a call of `p` that reported a failure or met a taken name. */
  ghost predicate CauseAt(names: map<Name, Inode>, inodes: map<Inode, Bytes>, run: seq<Action>, p: Pid, i: int) {
    && 0 <= i < |run| && run[i].Step? && run[i].pid == p
    && Exec(names, inodes, run[..i]).Some? && (!run[i].succeeds || Blocked(Exec(names, inodes, run[..i]).value, p))
  }

  /** In every run a publisher that fails had a call that failed, or met one of the two names in use. */
  lemma {:induction false} FailuresHaveCauses(names: map<Name, Inode>, inodes: map<Inode, Bytes>, run: seq<Action>,
                                              p: Pid)
    requires Foreigners(names) && Exec(names, inodes, run).Some? && p in Exec(names, inodes, run).value.publishers
    requires Failing(Exec(names, inodes, run).value.publishers[p])
    ensures exists i :: CauseAt(names, inodes, run, p, i)
  {
    hide Failing, Blocked;
    if run != [] {
      var n := |run| - 1;
      var s, a := Exec(names, inodes, run[..n]).value, run[n];
      RunKeeps(names, inodes, run[..n]);
      if p in s.publishers && Failing(s.publishers[p]) {
        FailuresHaveCauses(names, inodes, run[..n], p);
        var i :| CauseAt(names, inodes, run[..n], p, i);
        assert run[..n][..i] == run[..i];
        assert CauseAt(names, inodes, run, p, i);
      } else {
        OnlyStepsFail(s, a, p);
        FailingStep(s, names, p, a.succeeds);
        assert CauseAt(names, inodes, run, p, n);
      }
    }
  }

  lemma OnlyStepsFail(s: State, a: Action, p: Pid)
    requires Enabled(s, a) && p in Apply(s, a).publishers && Failing(Apply(s, a).publishers[p])
    requires p in s.publishers ==> !Failing(s.publishers[p])
    ensures a.Step? && a.pid == p && p in s.publishers
  {
    hide Failing;
    FreshDoesNotFail();
    CrashedDoesNotFail();
  }

  lemma FreshDoesNotFail()
    ensures forall payload: seq<Bytes> :: !Failing(Publisher(payload, Check(0), 0, 0, 0))
  {
  }

  lemma CrashedDoesNotFail()
    ensures forall x: Publisher :: x.phase.Crashed? ==> !Failing(x)
  {
  }

  /** The publisher has not failed, and the names it has not linked yet are free. */
  predicate OnTrack(s: State, p: Pid) {
    && p in s.publishers && !Failing(s.publishers[p]) && !s.publishers[p].phase.Crashed?
    && (s.publishers[p].linked == 0 ==> Output(0) !in s.names)
    && (s.publishers[p].linked <= 1 ==> Output(1) !in s.names)
  }

  /** How many calls are left at most. */
  function Left(x: Publisher): nat {
    match x.phase
    case Check(k) => if k == 0 then 13 else 12
    case Create(k) => if k == 0 then 11 else 9
    case Fill(k) => if k == 0 then 10 else 8
    case Link(k) => if k == 0 then 7 else 6
    case Sync => 5
    case Cleanup(k, _) => if k >= 3 then 1 else 4 - k
    case _ => 0
  }

  lemma TrackGoesOn(s: State, initial: map<Name, Inode>, p: Pid)
    requires Inv(s, initial) && OnTrack(s, p) && !s.publishers[p].phase.Done?
    ensures Enabled(s, Step(p, true)) && OnTrack(DoStep(s, p, true), p)
    ensures Left(DoStep(s, p, true).publishers[p]) < Left(s.publishers[p])
    ensures DoStep(s, p, true).publishers[p].payload == s.publishers[p].payload
  {
    hide OutputsOwned, ContentsWritten;
    var x := s.publishers[p];
    assert Consistent(x);
    if x.phase.Link? { assert Keeps(x, x.phase.k); }
  }

  /** A publisher that has succeeded has published both of its files, whoever else is still at work. */
  lemma SuccessIsPublished(names: map<Name, Inode>, inodes: map<Inode, Bytes>, run: seq<Action>, p: Pid)
    requires Foreigners(names) && Exec(names, inodes, run).Some? && Succeeded(Exec(names, inodes, run).value, p)
    ensures PublishedBy(Exec(names, inodes, run).value, p, 0) && PublishedBy(Exec(names, inodes, run).value, p, 1)
  {
    RunKeeps(names, inodes, run);
    var x := Exec(names, inodes, run).value.publishers[p];
    assert Owns(x, 0) && Owns(x, 1) && Filled(x, 0) && Filled(x, 1);
  }

  /**
   From every reachable state a publisher that has not failed, and whose missing names are free, succeeds when it goes
   on undisturbed and its calls succeed.
   */
  lemma {:induction false} UndisturbedSucceeds(names: map<Name, Inode>, inodes: map<Inode, Bytes>, run: seq<Action>,
                                               p: Pid)
    returns (more: seq<Action>)
    requires Foreigners(names) && Exec(names, inodes, run).Some? && OnTrack(Exec(names, inodes, run).value, p)
    ensures forall i :: 0 <= i < |more| ==> more[i] == Step(p, true)
    ensures Exec(names, inodes, run + more).Some? && Succeeded(Exec(names, inodes, run + more).value, p)
    ensures Exec(names, inodes, run + more).value.publishers[p].payload
            == Exec(names, inodes, run).value.publishers[p].payload
    decreases Left(Exec(names, inodes, run).value.publishers[p])
  {
    var s := Exec(names, inodes, run).value;
    if s.publishers[p].phase.Done? {
      more := [];
      assert run + more == run;
    } else {
      hide Exec, OnTrack, Left, Apply;
      RunKeeps(names, inodes, run);
      TrackGoesOn(s, names, p);
      var go := Step(p, true);
      StepsTo(names, inodes, run, go);
      StepIsDoStep(s, p);
      var rest := UndisturbedSucceeds(names, inodes, run + [go], p);
      more := [go] + rest;
      assert run + more == (run + [go]) + rest;
    }
  }

  lemma StepIsDoStep(s: State, p: Pid)
    requires Enabled(s, Step(p, true))
    ensures Apply(s, Step(p, true)) == DoStep(s, p, true)
  {
  }

  /** So whoever begins while both names are free, and is left alone, leaves the two files with exactly these bytes. */
  lemma FreeNamesArePublished(names: map<Name, Inode>, inodes: map<Inode, Bytes>, run: seq<Action>, p: Pid,
                              signature: Bytes, descriptor: Bytes)
    returns (more: seq<Action>)
    requires Foreigners(names) && Exec(names, inodes, run).Some? && p !in Exec(names, inodes, run).value.publishers
    requires Output(0) !in Exec(names, inodes, run).value.names && Output(1) !in Exec(names, inodes, run).value.names
    ensures more != [] && more[0] == Begin(p, signature, descriptor)
    ensures forall i :: 1 <= i < |more| ==> more[i] == Step(p, true)
    ensures Exec(names, inodes, run + more).Some?
    ensures var t := Exec(names, inodes, run + more).value;
      && p in t.publishers && t.publishers[p].phase == Done(true)
      && Output(0) in t.names && t.names[Output(0)] in t.inodes && t.inodes[t.names[Output(0)]] == signature
      && Output(1) in t.names && t.names[Output(1)] in t.inodes && t.inodes[t.names[Output(1)]] == descriptor
  {
    hide Exec;
    var begin := Begin(p, signature, descriptor);
    StepsTo(names, inodes, run, begin);
    var rest := UndisturbedSucceeds(names, inodes, run + [begin], p);
    more := [begin] + rest;
    assert run + more == (run + [begin]) + rest;
    SuccessIsPublished(names, inodes, run + more, p);
  }
}
