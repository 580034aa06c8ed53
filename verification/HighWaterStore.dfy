/**
 The installer's persisted high-water mark. Any number of installer processes run, each may crash or fail
 between any two steps, and the file lock is the only thing that orders them.
 */
module HighWaterStore {
  import opened Options
  import opened Bytes
  import opened Decimal
  import opened ChannelFormat
  import opened ReleaseChannel

  const MAX_STATE_BYTES := 512

  // ---------------------------------------------------------------- the record on disk

  const HEAD := "{\"channel_sha256\": \""
  const MIDDLE := "\", \"generation\": "
  const TAIL := ", \"schema_version\": 1}"

  /** The sorted dump of one record. It is ASCII, so characters are bytes. */
  function Encode(h: HighWater): string {
    HEAD + h.sha256 + MIDDLE + (if h.generation < 0 then "-" + Print(-h.generation) else Print(h.generation)) + TAIL
  }

  function RecordJson(h: HighWater): Json {
    Obj(map[SchemaVersion := Int(1), Generation := Int(h.generation), ChannelSha256 := Str(h.sha256)])
  }

  /** What is asked of the JSON library: it reads back the records this program dumps. */
  ghost predicate ReadsRecords(loads: string -> Option<Json>) {
    forall h :: HighWaterValid(h) ==> loads(Encode(h)) == Some(RecordJson(h))
  }

  /** The stored record, no record, or a refusal to go on. */
  datatype Stored = Missing | Record(value: HighWater) | Ambiguous

  function ReadState(loads: string -> Option<Json>, file: Option<string>): Stored {
    if file.None? then Missing
    else if |file.value| > MAX_STATE_BYTES then Ambiguous
    else
      match loads(file.value)
      case None => Ambiguous
      case Some(j) =>
        if !j.Obj? || j.fields.Keys != {SchemaVersion, Generation, ChannelSha256} || j.fields[SchemaVersion] != Int(1)
           || !j.fields[Generation].Int? || !j.fields[ChannelSha256].Str?
        then Ambiguous
        else Record(HighWater(j.fields[Generation].i, j.fields[ChannelSha256].s))
  }

  /** Every record the program can write fits the reader's bound and is read back. */
  lemma WrittenRecordsReadBack(loads: string -> Option<Json>, h: HighWater)
    requires HighWaterValid(h) && ReadsRecords(loads)
    ensures |Encode(h)| <= MAX_STATE_BYTES && ReadState(loads, Some(Encode(h))) == Record(h)
  {
    PrintedLength(h.generation, 19);
    assert Pow10(19) == 10_000_000_000_000_000_000 by {
      assert Pow10(10) == 10_000_000_000;
      assert Pow10(19) == 1_000_000_000 * Pow10(10);
    }
    assert RecordJson(h).fields.Keys == {SchemaVersion, Generation, ChannelSha256};
  }

  /** A record is read exactly from a file of at most 512 bytes that decodes to its document; all else is ambiguous. */
  lemma ReadStateIff(loads: string -> Option<Json>, text: string, h: HighWater)
    ensures ReadState(loads, Some(text)) == Record(h) <==>
      && |text| <= 512
      && loads(text) == Some(Obj(map[SchemaVersion := Int(1), Generation := Int(h.generation),
                                     ChannelSha256 := Str(h.sha256)]))
    ensures ReadState(loads, Some(text)).Record? || ReadState(loads, Some(text)).Ambiguous?
  {
    var f := map[SchemaVersion := Int(1), Generation := Int(h.generation), ChannelSha256 := Str(h.sha256)];
    assert f.Keys == {SchemaVersion, Generation, ChannelSha256};
    if ReadState(loads, Some(text)) == Record(h) { assert loads(text).value.fields == f; }
  }

  /** A reader that knows just this layout. */
  function ReadRecord(text: string): Option<Json> {
    var a, b, c := |HEAD|, |HEAD| + 64, |HEAD| + 64 + |MIDDLE|;
    var d := |text| - |TAIL|;
    if c < d && text[..a] == HEAD && text[b..c] == MIDDLE && text[d..] == TAIL && AllDigits(text[c..d]) then
      Some(RecordJson(HighWater(Value(text[c..d]), text[a..b])))
    else None
  }

  /** So the requirement on the JSON library can be met. */
  lemma ReaderExists()
    ensures ReadsRecords(ReadRecord)
  {
    forall h | HighWaterValid(h) ensures ReadRecord(Encode(h)) == Some(RecordJson(h)) {
      PrintIsNumeral(h.generation);
      var digits := Print(h.generation);
      var text := Encode(h);
      var a, b, c := |HEAD|, |HEAD| + 64, |HEAD| + 64 + |MIDDLE|;
      assert text[..a] == HEAD && text[a..b] == h.sha256 && text[b..c] == MIDDLE;
      assert text[c..c + |digits|] == digits && text[c + |digits|..] == TAIL;
    }
  }

  // ---------------------------------------------------------------- one undisturbed call

  function RecordOf(stored: Stored): Option<HighWater> { if stored.Record? then Some(stored.value) else None }

  /** The state file as one installer sees it while it holds the lock. */
  class StateFile {
    var file: Option<string>

    constructor (content: Option<string>)
      ensures file == content
    {
      file := content;
    }

    /** `persist_channel_high_water`: whatever is accepted is on disk, readable, when the call returns. */
    method Persist(w: World, loads: string -> Option<Json>, ctx: AuthenticatedChannel)
      returns (r: Result<HighWater, Code>)
      requires ReadsRecords(loads) && HexText(ctx.authentication.sha256, 64)
      modifies this
      ensures ReadState(loads, old(file)).Ambiguous? ==> r == Err(InvalidReleasePolicy)
      ensures !ReadState(loads, old(file)).Ambiguous? ==>
              r == EvaluateHighWater(w, ctx, RecordOf(ReadState(loads, old(file))))
      ensures r.Ok? ==> ReadState(loads, file) == Record(r.value)
      ensures r.Ok? && file != old(file) ==> file == Some(Encode(r.value))
      ensures r.Err? ==> file == old(file)
    {
      hide ReadState, ReadsRecords, Encode, EvaluateHighWater;
      var stored := ReadState(loads, file);
      if stored.Ambiguous? {
        return Err(InvalidReleasePolicy);
      }
      r := EvaluateHighWater(w, ctx, RecordOf(stored));
      if r.Err? || RecordOf(stored) == Some(r.value) {
        return;
      }
      DecisionIsNewer(w, ctx, RecordOf(stored), r.value);
      WrittenRecordsReadBack(loads, r.value);
      file := Some(Encode(r.value));
    }
  }

  // ---------------------------------------------------------------- processes

  type Pid = nat

  /** How far one installer has come; `accepted` is what it decided. */
  datatype Phase =
    | Waiting(ctx: AuthenticatedChannel)
    | Locked(ctx: AuthenticatedChannel)
    | Decided(accepted: HighWater)
    | Writing(accepted: HighWater)
    | Synced(accepted: HighWater)
    | Replaced(accepted: HighWater)
    | Done(accepted: HighWater)
    | Failed
  {
    predicate HoldsLock() { Locked? || Decided? || Writing? || Synced? || Replaced? }
  }

  datatype State = State(
    file: Option<string>,
    temporaries: map<Pid, string>,
    lock: Option<Pid>,
    procs: map<Pid, Phase>,
    accepted: seq<HighWater>)

  datatype Action =
    | Begin(pid: Pid, ctx: AuthenticatedChannel)
    | Lock(pid: Pid)
    | Evaluate(pid: Pid)
    | CreateTemporary(pid: Pid)
    | WriteSome(pid: Pid, content: string)
    | WriteAll(pid: Pid)
    | Replace(pid: Pid)
    | SyncDirectory(pid: Pid)
    | Fail(pid: Pid)
    | Crash(pid: Pid)

  predicate Enabled(s: State, a: Action) {
    if a.Begin? then a.pid !in s.procs && HexText(a.ctx.authentication.sha256, 64)
    else
      && a.pid in s.procs
      && match a
         case Lock(p) => s.procs[p].Waiting? && s.lock.None?
         case Evaluate(p) => s.procs[p].Locked?
         case CreateTemporary(p) => s.procs[p].Decided?
         case WriteSome(p, _) => s.procs[p].Writing?
         case WriteAll(p) => s.procs[p].Writing?
         case Replace(p) => s.procs[p].Synced? && p in s.temporaries
         case SyncDirectory(p) => s.procs[p].Replaced?
         case _ => !s.procs[a.pid].Done? && !s.procs[a.pid].Failed?
  }

  function Move(s: State, p: Pid, phase: Phase): State {
    s.(procs := s.procs[p := phase])
  }

  /** Leaving the `with` block closes the lock; so does the end of the process. */
  function Leave(s: State, p: Pid, phase: Phase): State {
    s.(procs := s.procs[p := phase], lock := if s.lock == Some(p) then None else s.lock)
  }

  function Accept(s: State, p: Pid, h: HighWater): State {
    Leave(s, p, Done(h)).(accepted := s.accepted + [h])
  }

  /** The decision under the lock: refuse, return what is stored, or go on to write. */
  function DoEvaluate(w: World, loads: string -> Option<Json>, s: State, p: Pid): State
    requires p in s.procs && s.procs[p].Locked?
  {
    var stored := ReadState(loads, s.file);
    if stored.Ambiguous? then Leave(s, p, Failed)
    else
      var before := RecordOf(stored);
      match EvaluateHighWater(w, s.procs[p].ctx, before)
      case Err(_) => Leave(s, p, Failed)
      case Ok(h) => if before == Some(h) then Accept(s, p, h) else Move(s, p, Decided(h))
  }

  function Apply(w: World, loads: string -> Option<Json>, s: State, a: Action): State
    requires Enabled(s, a)
  {
    match a
    case Begin(p, ctx) => Move(s, p, Waiting(ctx))
    case Lock(p) => Move(s, p, Locked(s.procs[p].ctx)).(lock := Some(p))
    case Evaluate(p) => DoEvaluate(w, loads, s, p)
    case CreateTemporary(p) => Move(s, p, Writing(s.procs[p].accepted)).(temporaries := s.temporaries[p := ""])
    case WriteSome(p, content) => s.(temporaries := s.temporaries[p := content])
    case WriteAll(p) =>
      Move(s, p, Synced(s.procs[p].accepted)).(temporaries := s.temporaries[p := Encode(s.procs[p].accepted)])
    case Replace(p) =>
      Move(s, p, Replaced(s.procs[p].accepted)).(file := Some(s.temporaries[p]), temporaries := s.temporaries - {p})
    case SyncDirectory(p) => Accept(s, p, s.procs[p].accepted)
    case Fail(p) => Leave(s, p, Failed).(temporaries := s.temporaries - {p})
    case Crash(p) => Leave(s, p, Failed)
  }

  function Initial(file: Option<string>): State { State(file, map[], None, map[], []) }

  function Exec(w: World, loads: string -> Option<Json>, file: Option<string>, run: seq<Action>): Option<State> {
    if run == [] then Some(Initial(file))
    else
      var before := Exec(w, loads, file, run[..|run| - 1]);
      var a := run[|run| - 1];
      if before.Some? && Enabled(before.value, a) then Some(Apply(w, loads, before.value, a)) else None
  }

  // ---------------------------------------------------------------- invariant

  ghost predicate LockExact(s: State) {
    forall p :: p in s.procs && s.procs[p].HoldsLock() ==> s.lock == Some(p)
  }

  /** The file is the one that was there at the start, or a record this program wrote. */
  ghost predicate FileKnown(s: State, initial: Option<string>) {
    s.file == initial || exists h :: HighWaterValid(h) && s.file == Some(Encode(h))
  }

  /** A decision is newer than what the file still holds. */
  ghost predicate DecisionCurrent(loads: string -> Option<Json>, s: State, h: HighWater) {
    && HighWaterValid(h)
    && match ReadState(loads, s.file)
       case Ambiguous => false
       case Missing => true
       case Record(g) => g.generation < h.generation
  }

  ghost predicate PhaseHonest(loads: string -> Option<Json>, s: State, p: Pid, phase: Phase) {
    match phase
    case Waiting(ctx) => HexText(ctx.authentication.sha256, 64)
    case Locked(ctx) => HexText(ctx.authentication.sha256, 64)
    case Decided(h) => DecisionCurrent(loads, s, h)
    case Writing(h) => DecisionCurrent(loads, s, h) && p in s.temporaries
    case Synced(h) => DecisionCurrent(loads, s, h) && p in s.temporaries && s.temporaries[p] == Encode(h)
    case Replaced(h) => HighWaterValid(h) && s.file == Some(Encode(h))
    case _ => true
  }

  /** Accepted records never go back, and the stored record dominates them all. */
  ghost predicate AcceptedDominated(loads: string -> Option<Json>, s: State) {
    && (forall i, j :: 0 <= i < j < |s.accepted| ==> Dominates(s.accepted[j], s.accepted[i]))
    && (s.accepted != [] ==> ReadState(loads, s.file).Record?)
    && (forall i :: 0 <= i < |s.accepted| ==> Dominates(ReadState(loads, s.file).value, s.accepted[i]))
  }

  ghost predicate Inv(loads: string -> Option<Json>, s: State, initial: Option<string>) {
    && LockExact(s) && FileKnown(s, initial) && AcceptedDominated(loads, s)
    && (forall p :: p in s.procs ==> PhaseHonest(loads, s, p, s.procs[p]))
  }

  /** A step of one process that leaves the file, the acceptances and the others' temporaries alone. */
  lemma PhaseMoves(loads: string -> Option<Json>, s: State, t: State, p: Pid, initial: Option<string>)
    requires Inv(loads, s, initial) && t.file == s.file && t.accepted == s.accepted && p in t.procs
    requires t.procs == s.procs[p := t.procs[p]] && PhaseHonest(loads, t, p, t.procs[p])
    requires forall q :: q != p && q in s.temporaries ==> q in t.temporaries && t.temporaries[q] == s.temporaries[q]
    requires t.lock == s.lock || (s.lock.None? && t.lock == Some(p)) || (s.lock == Some(p) && t.lock.None?)
    requires t.procs[p].HoldsLock() ==> t.lock == Some(p)
    ensures Inv(loads, t, initial)
  {
    forall q | q in t.procs ensures PhaseHonest(loads, t, q, t.procs[q]) {
      if q != p { assert PhaseHonest(loads, s, q, s.procs[q]); }
    }
  }

  lemma DecisionIsNewer(w: World, ctx: AuthenticatedChannel, before: Option<HighWater>, h: HighWater)
    requires EvaluateHighWater(w, ctx, before) == Ok(h) && HexText(ctx.authentication.sha256, 64)
    ensures HighWaterValid(h) && (before.None? || before == Some(h) || before.value.generation < h.generation)
  {
    hide ValidatedContext, ChannelJson;
    ContextBound(w, ctx);
  }

  lemma EvaluateKeeps(w: World, loads: string -> Option<Json>, s: State, p: Pid, initial: Option<string>)
    requires Inv(loads, s, initial) && p in s.procs && s.procs[p].Locked?
    ensures Inv(loads, DoEvaluate(w, loads, s, p), initial)
  {
    hide EvaluateHighWater, ReadState, HighWaterValid;
    var t := DoEvaluate(w, loads, s, p);
    assert PhaseHonest(loads, s, p, s.procs[p]);
    var stored := ReadState(loads, s.file);
    var before := RecordOf(stored);
    if !stored.Ambiguous? && EvaluateHighWater(w, s.procs[p].ctx, before).Ok? {
      DecisionIsNewer(w, s.procs[p].ctx, before, EvaluateHighWater(w, s.procs[p].ctx, before).value);
    }
    PhaseMoves(loads, s, t.(accepted := s.accepted), p, initial);
  }

  lemma ReplaceKeeps(w: World, loads: string -> Option<Json>, s: State, p: Pid, initial: Option<string>)
    requires Inv(loads, s, initial) && ReadsRecords(loads) && Enabled(s, Replace(p))
    ensures Inv(loads, Apply(w, loads, s, Replace(p)), initial)
  {
    var t := Apply(w, loads, s, Replace(p));
    var h := s.procs[p].accepted;
    assert PhaseHonest(loads, s, p, s.procs[p]);
    WrittenRecordsReadBack(loads, h);
    forall q | q in t.procs ensures PhaseHonest(loads, t, q, t.procs[q]) {
      if q != p { assert PhaseHonest(loads, s, q, s.procs[q]); }
    }
  }

  lemma AcceptKeeps(w: World, loads: string -> Option<Json>, s: State, p: Pid, initial: Option<string>)
    requires Inv(loads, s, initial) && ReadsRecords(loads) && Enabled(s, SyncDirectory(p))
    ensures Inv(loads, Apply(w, loads, s, SyncDirectory(p)), initial)
  {
    var h := s.procs[p].accepted;
    assert PhaseHonest(loads, s, p, s.procs[p]);
    WrittenRecordsReadBack(loads, h);
    PhaseMoves(loads, s, Leave(s, p, Done(h)), p, initial);
  }

  lemma StepKeeps(w: World, loads: string -> Option<Json>, s: State, a: Action, initial: Option<string>)
    requires Inv(loads, s, initial) && ReadsRecords(loads) && Enabled(s, a)
    ensures Inv(loads, Apply(w, loads, s, a), initial)
  {
    hide ReadsRecords, ReadState, Encode;
    if a.pid in s.procs { assert PhaseHonest(loads, s, a.pid, s.procs[a.pid]); }
    match a
    case Evaluate(p) => EvaluateKeeps(w, loads, s, p, initial);
    case Replace(p) => ReplaceKeeps(w, loads, s, p, initial);
    case SyncDirectory(p) => AcceptKeeps(w, loads, s, p, initial);
    case _ => PhaseMoves(loads, s, Apply(w, loads, s, a), a.pid, initial);
  }

  lemma {:induction false} RunKeeps(w: World, loads: string -> Option<Json>, file: Option<string>, run: seq<Action>)
    requires ReadsRecords(loads)
    ensures Exec(w, loads, file, run).Some? ==> Inv(loads, Exec(w, loads, file, run).value, file)
  {
    if run != [] {
      RunKeeps(w, loads, file, run[..|run| - 1]);
      var before := Exec(w, loads, file, run[..|run| - 1]);
      if Exec(w, loads, file, run).Some? {
        StepKeeps(w, loads, before.value, run[|run| - 1], file);
      }
    }
  }

  // ---------------------------------------------------------------- the results

  /**
   In every run: accepted generations never decrease and each generation is accepted with one digest only; the
   stored record dominates every accepted one, whatever crashed.
   */
  lemma NoRollback(w: World, loads: string -> Option<Json>, file: Option<string>, run: seq<Action>)
    requires ReadsRecords(loads) && Exec(w, loads, file, run).Some?
    ensures AcceptedDominated(loads, Exec(w, loads, file, run).value)
  {
    RunKeeps(w, loads, file, run);
  }

  /** In every run the file is the initial one or a complete record, and such a record reads back within the bound. */
  lemma FileAlwaysReadable(w: World, loads: string -> Option<Json>, file: Option<string>, run: seq<Action>)
    requires ReadsRecords(loads) && Exec(w, loads, file, run).Some?
    ensures var s := Exec(w, loads, file, run).value;
      s.file == file || (s.file.Some? && |s.file.value| <= MAX_STATE_BYTES && ReadState(loads, s.file).Record?)
  {
    RunKeeps(w, loads, file, run);
    var s := Exec(w, loads, file, run).value;
    if s.file != file {
      var h :| HighWaterValid(h) && s.file == Some(Encode(h));
      WrittenRecordsReadBack(loads, h);
    }
  }

  // ---------------------------------------------------------------- when a record is accepted

  lemma StepsTo(w: World, loads: string -> Option<Json>, file: Option<string>, run: seq<Action>, a: Action)
    requires Exec(w, loads, file, run).Some? && Enabled(Exec(w, loads, file, run).value, a)
    ensures Exec(w, loads, file, run + [a]) == Some(Apply(w, loads, Exec(w, loads, file, run).value, a))
  {
    hide Enabled, Apply;
    assert (run + [a])[..|run|] == run;
  }

  /** The actions of one undisturbed call, up to its decision and from there on. */
  function Call(p: Pid, ctx: AuthenticatedChannel): seq<Action> { [Begin(p, ctx), Lock(p), Evaluate(p)] }

  function Writes(p: Pid): seq<Action> { [CreateTemporary(p), WriteAll(p), Replace(p), SyncDirectory(p)] }

  lemma UndisturbedDecision(w: World, loads: string -> Option<Json>, file: Option<string>, run: seq<Action>, p: Pid,
                            ctx: AuthenticatedChannel)
    requires Exec(w, loads, file, run).Some? && p !in Exec(w, loads, file, run).value.procs
    requires Exec(w, loads, file, run).value.lock.None? && HexText(ctx.authentication.sha256, 64)
    ensures var s := Exec(w, loads, file, run).value;
      Exec(w, loads, file, run + Call(p, ctx))
      == Some(DoEvaluate(w, loads, s.(procs := s.procs[p := Locked(ctx)], lock := Some(p)), p))
  {
    hide Exec, HexText, DoEvaluate;
    var s := Exec(w, loads, file, run).value;
    StepsTo(w, loads, file, run, Begin(p, ctx));
    StepsTo(w, loads, file, run + [Begin(p, ctx)], Lock(p));
    StepsTo(w, loads, file, run + [Begin(p, ctx)] + [Lock(p)], Evaluate(p));
    assert run + [Begin(p, ctx)] + [Lock(p)] + [Evaluate(p)] == run + Call(p, ctx);
    assert s.procs[p := Waiting(ctx)][p := Locked(ctx)] == s.procs[p := Locked(ctx)];
  }

  lemma UndisturbedWrites(w: World, loads: string -> Option<Json>, file: Option<string>, run: seq<Action>, p: Pid)
    requires Exec(w, loads, file, run).Some? && p in Exec(w, loads, file, run).value.procs
    requires Exec(w, loads, file, run).value.procs[p].Decided? && Exec(w, loads, file, run).value.lock == Some(p)
    ensures Exec(w, loads, file, run + Writes(p)).Some?
    ensures var s, t := Exec(w, loads, file, run).value, Exec(w, loads, file, run + Writes(p)).value;
      && p in t.procs && t.procs[p] == Done(s.procs[p].accepted) && t.accepted == s.accepted + [s.procs[p].accepted]
      && t.file == Some(Encode(s.procs[p].accepted)) && t.lock.None?
  {
    hide Exec, Encode;
    StepsTo(w, loads, file, run, CreateTemporary(p));
    StepsTo(w, loads, file, run + [CreateTemporary(p)], WriteAll(p));
    StepsTo(w, loads, file, run + [CreateTemporary(p)] + [WriteAll(p)], Replace(p));
    StepsTo(w, loads, file, run + [CreateTemporary(p)] + [WriteAll(p)] + [Replace(p)], SyncDirectory(p));
    assert run + [CreateTemporary(p)] + [WriteAll(p)] + [Replace(p)] + [SyncDirectory(p)] == run + Writes(p);
  }

  /**
   From every reachable state in which nobody holds the lock and the file can be read, an undisturbed call for a channel
   ends as the evaluation of that channel against the stored record says: accepted and on disk, or refused with the file
   as it was.
   */
  lemma UndisturbedCallDecides(w: World, loads: string -> Option<Json>, file: Option<string>, run: seq<Action>, p: Pid,
                               ctx: AuthenticatedChannel)
    returns (more: seq<Action>)
    requires ReadsRecords(loads) && Exec(w, loads, file, run).Some? && p !in Exec(w, loads, file, run).value.procs
    requires Exec(w, loads, file, run).value.lock.None? && HexText(ctx.authentication.sha256, 64)
    requires !ReadState(loads, Exec(w, loads, file, run).value.file).Ambiguous?
    ensures more == Call(p, ctx) || more == Call(p, ctx) + Writes(p)
    ensures Exec(w, loads, file, run + more).Some?
    ensures var s, t := Exec(w, loads, file, run).value, Exec(w, loads, file, run + more).value;
      var r := EvaluateHighWater(w, ctx, RecordOf(ReadState(loads, s.file)));
      && p in t.procs && t.lock.None?
      && (r.Err? ==> t.procs[p] == Failed && t.file == s.file && t.accepted == s.accepted)
      && (r.Ok? ==> t.procs[p] == Done(r.value) && ReadState(loads, t.file) == Record(r.value)
                    && t.accepted == s.accepted + [r.value])
  {
    hide Exec, HexText, ReadState, Encode, EvaluateHighWater, ReadsRecords, HighWaterValid;
    var s := Exec(w, loads, file, run).value;
    var before := RecordOf(ReadState(loads, s.file));
    var r := EvaluateHighWater(w, ctx, before);
    UndisturbedDecision(w, loads, file, run, p, ctx);
    more := Call(p, ctx);
    if r.Ok? && before != Some(r.value) {
      UndisturbedWrites(w, loads, file, run + more, p);
      assert run + (more + Writes(p)) == (run + more) + Writes(p);
      more := more + Writes(p);
      DecisionIsNewer(w, ctx, before, r.value);
      WrittenRecordsReadBack(loads, r.value);
    }
  }

  /** In every run the lock is held by a process that is between taking and leaving it, or by nobody. */
  lemma {:induction false} LockIsLeft(w: World, loads: string -> Option<Json>, file: Option<string>, run: seq<Action>)
    requires Exec(w, loads, file, run).Some?
    ensures var s := Exec(w, loads, file, run).value;
      s.lock.Some? ==> s.lock.value in s.procs && s.procs[s.lock.value].HoldsLock()
  {
    hide ReadState, EvaluateHighWater, Encode, HexText;
    if run != [] { LockIsLeft(w, loads, file, run[..|run| - 1]); }
  }

  /** The action makes the process fail: it fails or crashes itself, or its channel is refused under the lock. */
  ghost predicate Refused(w: World, loads: string -> Option<Json>, s: State, a: Action, p: Pid) {
    && a.pid == p && p in s.procs
    && (|| a.Fail? || a.Crash?
        || (a.Evaluate? && s.procs[p].Locked?
            && (|| ReadState(loads, s.file).Ambiguous?
                || EvaluateHighWater(w, s.procs[p].ctx, RecordOf(ReadState(loads, s.file))).Err?)))
  }

  ghost predicate RefusedAt(w: World, loads: string -> Option<Json>, file: Option<string>, run: seq<Action>, p: Pid,
                            i: int)
  {
    && 0 <= i < |run| && Exec(w, loads, file, run[..i]).Some?
    && Refused(w, loads, Exec(w, loads, file, run[..i]).value, run[i], p)
  }

  /** In every run a process that ends without accepting failed, crashed, or was refused. */
  lemma {:induction false} FailuresHaveCauses(w: World, loads: string -> Option<Json>, file: Option<string>,
                                              run: seq<Action>, p: Pid)
    requires Exec(w, loads, file, run).Some? && p in Exec(w, loads, file, run).value.procs
    requires Exec(w, loads, file, run).value.procs[p].Failed?
    ensures exists i :: RefusedAt(w, loads, file, run, p, i)
  {
    hide ReadState, EvaluateHighWater, HexText;
    if run != [] {
      var n := |run| - 1;
      var s := Exec(w, loads, file, run[..n]).value;
      if p in s.procs && s.procs[p].Failed? {
        FailuresHaveCauses(w, loads, file, run[..n], p);
        var i :| RefusedAt(w, loads, file, run[..n], p, i);
        assert run[..n][..i] == run[..i];
        assert RefusedAt(w, loads, file, run, p, i);
      } else {
        assert RefusedAt(w, loads, file, run, p, n);
      }
    }
  }
}
