/**
 Native requests and revisions: a submission sees no invalidation, network change or relaunch between its call and
 itself, and a request that is pending was submitted after the last of them that cancels.
 */
module RefreshRequests {
  import opened Options
  import opened RefreshModel

  predicate SubmittedAt(log: seq<Event>, j: int) { 0 <= j < |log| && log[j].Submitted? }

  /** An invalidation or a network change. */
  predicate ChangedAt(log: seq<Event>, k: int) { 0 <= k < |log| && log[k].ChangesRevision() }

  ghost predicate Undisturbed(log: seq<Event>, i: int, j: int) {
    forall k :: i <= k < j ==> !ChangedAt(log, k) && !RelaunchedAt(log, k)
  }

  ghost predicate SubmissionsUndisturbed(log: seq<Event>) {
    forall j :: SubmittedAt(log, j) ==> log[j].began < j && Undisturbed(log, log[j].began, j)
  }

  ghost predicate SubmittedAfter(log: seq<Event>, k: int) { exists j :: k < j && SubmittedAt(log, j) }

  /** Whatever is pending was submitted after every invalidation and network change. */
  ghost predicate PendingRecent(s: State) {
    s.outstanding > 0 ==> forall k :: ChangedAt(s.Log(), k) ==> SubmittedAfter(s.Log(), k)
  }

  /** A suspended `schedule` with the current revision has seen neither. */
  ghost predicate FramesCurrent(s: State) {
    forall c :: c in s.calls && s.calls[c].IsSchedule() ==>
      && s.calls[c].began < |s.Log()| && s.calls[c].rev <= s.revision
      && (s.calls[c].rev == s.revision ==> Undisturbed(s.Log(), s.calls[c].began, |s.Log()|))
  }

  ghost predicate Inv(s: State) {
    SubmissionsUndisturbed(s.Log()) && PendingRecent(s) && FramesCurrent(s)
  }

  // ---------------------------------------------------------------- preservation

  predicate Silent(e: Event) { !e.Submitted? && !e.ChangesRevision() && !e.Relaunched? }

  ghost predicate GrowsSilently(log: seq<Event>, longer: seq<Event>) {
    log <= longer && forall i :: |log| <= i < |longer| ==> Silent(longer[i])
  }

  ghost predicate SameFrames(s: State, t: State) {
    forall c :: c in t.calls && t.calls[c].IsSchedule() ==>
      && c in s.calls && s.calls[c].IsSchedule()
      && t.calls[c].rev == s.calls[c].rev && t.calls[c].began == s.calls[c].began
  }

  ghost predicate Quiet(s: State, t: State) {
    && GrowsSilently(s.Log(), t.Log()) && t.revision == s.revision && t.outstanding <= s.outstanding
    && SameFrames(s, t)
  }

  lemma SubmissionsStill(log: seq<Event>, longer: seq<Event>)
    requires SubmissionsUndisturbed(log) && log <= longer
    requires forall j :: |log| <= j && SubmittedAt(longer, j) ==>
               longer[j].began < j && Undisturbed(longer, longer[j].began, j)
    ensures SubmissionsUndisturbed(longer)
  {
    forall j | SubmittedAt(longer, j) ensures longer[j].began < j && Undisturbed(longer, longer[j].began, j) {
      if j < |log| {
        assert SubmittedAt(log, j);
        UndisturbedStill(log, longer, log[j].began, j);
      }
    }
  }

  lemma UndisturbedStill(log: seq<Event>, longer: seq<Event>, i: int, j: int)
    requires log <= longer && j <= |log| && Undisturbed(log, i, j)
    ensures Undisturbed(longer, i, j)
  {
    forall k | i <= k < j ensures !ChangedAt(longer, k) && !RelaunchedAt(longer, k) {
      assert !ChangedAt(log, k) && !RelaunchedAt(log, k);
    }
  }

  lemma PendingStill(s: State, t: State)
    requires PendingRecent(s) && s.Log() <= t.Log() && t.outstanding <= s.outstanding
    requires forall k :: |s.Log()| <= k < |t.Log()| ==> !t.Log()[k].ChangesRevision()
    ensures PendingRecent(t)
  {
    forall k | t.outstanding > 0 && ChangedAt(t.Log(), k) ensures SubmittedAfter(t.Log(), k) {
      assert ChangedAt(s.Log(), k);
      var j :| k < j && SubmittedAt(s.Log(), j);
      assert SubmittedAt(t.Log(), j);
    }
  }

  lemma QuietKeeps(s: State, t: State)
    requires Inv(s) && Quiet(s, t)
    ensures Inv(t)
  {
    SubmissionsStill(s.Log(), t.Log());
    PendingStill(s, t);
    forall c | c in t.calls && t.calls[c].IsSchedule() && t.calls[c].rev == t.revision
      ensures Undisturbed(t.Log(), t.calls[c].began, |t.Log()|)
    {
      UndisturbedStill(s.Log(), t.Log(), t.calls[c].began, |s.Log()|);
    }
  }

  /** A new revision: nothing stays pending, and every suspended call is stale. */
  lemma BumpKeeps(s: State, t: State)
    requires Inv(s) && s.Log() <= t.Log() && t.revision > s.revision && t.outstanding == 0 && SameFrames(s, t)
    requires forall k :: |s.Log()| <= k < |t.Log()| ==> !t.Log()[k].Submitted?
    ensures Inv(t)
  {
    SubmissionsStill(s.Log(), t.Log());
  }

  lemma InvalidateKeeps(s: State, disable: bool, write: WriteOutcome)
    requires Inv(s)
    ensures Inv(DoInvalidate(s, disable, write))
  {
    hide Inv;
    BumpKeeps(s, DoInvalidate(s, disable, write));
  }

  lemma SetNetworkKeeps(s: State, network: Network, write: WriteOutcome)
    requires Inv(s)
    ensures Inv(DoSetNetwork(s, network, write))
  {
    hide Inv;
    BumpKeeps(s, DoSetNetwork(s, network, write));
  }

  lemma ScheduleStartKeeps(s: State, available: bool, lowPower: bool)
    requires Inv(s)
    ensures Inv(DoScheduleStart(s, available, lowPower))
  {
    var t := DoScheduleStart(s, available, lowPower);
    if |t.Log()| == |s.Log()| {
      QuietKeeps(s, t);
    } else {
      SubmissionsStill(s.Log(), t.Log());
      PendingStill(s, t);
      forall c | c in t.calls && t.calls[c].IsSchedule() && c != s.nextCall && t.calls[c].rev == t.revision
        ensures Undisturbed(t.Log(), t.calls[c].began, |t.Log()|)
      {
        UndisturbedStill(s.Log(), t.Log(), t.calls[c].began, |s.Log()|);
      }
    }
  }

  lemma ScheduleGotIdentityKeeps(s: State, c: CallId, identity: Option<Identity>, write: WriteOutcome)
    requires Inv(s) && c in s.calls && s.calls[c].ScheduleIdentity?
    ensures Inv(DoScheduleGotIdentity(s, c, identity, write))
  {
    hide Inv, DoInvalidate;
    QuietKeeps(s, EndSchedule(s, c));
    if identity.Some? && s.calls[c].rev == s.revision && identity != s.calls[c].saved.identity {
      InvalidateKeeps(EndSchedule(s, c), true, write);
    } else {
      QuietKeeps(s, DoScheduleGotIdentity(s, c, identity, write));
    }
  }

  lemma ScheduleGotPendingKeeps(s: State, c: CallId, available: bool, lowPower: bool, guardAt: int, setAt: int,
                                write: WriteOutcome, accepted: bool)
    requires Inv(s) && c in s.calls && s.calls[c].SchedulePending? && s.calls[c].answer.Some?
    ensures Inv(DoScheduleGotPending(s, c, available, lowPower, guardAt, setAt, write, accepted))
  {
    var t := DoScheduleGotPending(s, c, available, lowPower, guardAt, setAt, write, accepted);
    if |t.Log()| == |s.Log()| {
      QuietKeeps(s, t);
    } else {
      SubmitKeeps(s, c, t);
    }
  }

  lemma SubmitKeeps(s: State, c: CallId, t: State)
    requires Inv(s) && c in s.calls && s.calls[c].IsSchedule() && s.calls[c].rev == s.revision
    requires |t.Log()| == |s.Log()| + 1 && s.Log() <= t.Log() && t.Log()[|s.Log()|].Submitted?
    requires t.Log()[|s.Log()|].began == s.calls[c].began && t.revision == s.revision && SameFrames(s, t)
    ensures Inv(t)
  {
    var n := |s.Log()|;
    UndisturbedStill(s.Log(), t.Log(), s.calls[c].began, n);
    SubmissionsStill(s.Log(), t.Log());
    assert SubmittedAt(t.Log(), n);
    forall k | ChangedAt(t.Log(), k) ensures SubmittedAfter(t.Log(), k) { assert k < n; }
    forall k | k in t.calls && t.calls[k].IsSchedule() && t.calls[k].rev == t.revision
      ensures Undisturbed(t.Log(), t.calls[k].began, n + 1)
    {
      UndisturbedStill(s.Log(), t.Log(), t.calls[k].began, n);
    }
  }

  lemma ScheduleStepKeeps(s: State, a: ScheduleAction)
    requires Inv(s) && ScheduleEnabled(s, a)
    ensures Inv(ApplySchedule(s, a))
  {
    hide Inv, DoScheduleStart, DoScheduleGotIdentity, DoScheduleGotPending;
    match a
    case ScheduleStart(available, lowPower) => ScheduleStartKeeps(s, available, lowPower);
    case ScheduleGotIdentity(c, identity, write) => ScheduleGotIdentityKeeps(s, c, identity, write);
    case ScheduleGotPending(c, available, lowPower, guardAt, setAt, write, accepted) =>
      ScheduleGotPendingKeeps(s, c, available, lowPower, guardAt, setAt, write, accepted);
    case _ => QuietKeeps(s, ApplySchedule(s, a));
  }

  lemma StatusGotIdentityKeeps(s: State, c: CallId, identity: Option<Identity>, write: WriteOutcome)
    requires Inv(s) && c in s.calls && s.calls[c].StatusIdentity?
    ensures Inv(DoStatusGotIdentity(s, c, identity, write))
  {
    hide Inv, DoInvalidate;
    QuietKeeps(s, s.(calls := s.calls - {c}));
    if StatusMismatch(s, c, identity) {
      InvalidateKeeps(s.(calls := s.calls - {c}), true, write);
    } else {
      QuietKeeps(s, DoStatusGotIdentity(s, c, identity, write));
    }
  }

  lemma OwnerStepKeeps(s: State, a: OwnerAction)
    requires Inv(s) && OwnerEnabled(s, a)
    ensures Inv(ApplyOwner(s, a))
  {
    hide Inv, DoSetNetwork, DoInvalidate, DoStatusGotIdentity;
    match a
    case SetNetwork(network, write) => SetNetworkKeeps(s, network, write);
    case Invalidate(disable, write) => InvalidateKeeps(s, disable, write);
    case StatusGotIdentity(c, identity, write) => StatusGotIdentityKeeps(s, c, identity, write);
    case _ => QuietKeeps(s, ApplyOwner(s, a));
  }

  lemma DeliveryQuiet(s: State, a: DeliveryAction)
    requires DeliveryEnabled(s, a)
    ensures Quiet(s, ApplyDelivery(s, a))
  {
    hide DoOperationReturns, DoWorkerGotIdentity;
    match a
    case OperationReturns(c, outcome) => WorkerReturnsQuietly(s, c, outcome);
    case WorkerGotIdentity(c, identity) => WorkerChecksQuietly(s, c, identity);
    case _ =>
  }

  lemma WorkerReturnsQuietly(s: State, c: CallId, outcome: Outcome)
    requires c in s.calls && s.calls[c].WorkerRunning?
    ensures Quiet(s, DoOperationReturns(s, c, outcome))
  {
  }

  lemma WorkerChecksQuietly(s: State, c: CallId, identity: Option<Identity>)
    requires c in s.calls && s.calls[c].WorkerIdentity?
    ensures Quiet(s, DoWorkerGotIdentity(s, c, identity))
  {
  }

  lemma RelaunchKeeps(s: State, readable: bool)
    requires Inv(s)
    ensures Inv(DoRelaunch(s, readable))
  {
    var t := DoRelaunch(s, readable);
    SubmissionsStill(s.Log(), t.Log());
    PendingStill(s, t);
  }

  lemma {:induction false} RunKeepsInv(launch: Launch, run: seq<Action>)
    ensures Exec(launch, run).Some? ==> Inv(Exec(launch, run).value)
  {
    hide ApplySchedule, ApplyOwner, ApplyDelivery, ScheduleEnabled, OwnerEnabled, DeliveryEnabled;
    if run != [] {
      RunKeepsInv(launch, run[..|run| - 1]);
      var before := Exec(launch, run[..|run| - 1]);
      if Exec(launch, run).Some? {
        match run[|run| - 1]
        case Scheduling(a) => ScheduleStepKeeps(before.value, a);
        case Owning(a) => OwnerStepKeeps(before.value, a);
        case Delivering(a) =>
          DeliveryQuiet(before.value, a);
          QuietKeeps(before.value, ApplyDelivery(before.value, a));
        case Relaunching(readable) => RelaunchKeeps(before.value, readable);
      }
    }
  }

  /** In every run nothing was invalidated, changed or relaunched between a submission and the start of its call. */
  lemma SubmissionsSeeNoChange(launch: Launch, run: seq<Action>)
    requires Exec(launch, run).Some?
    ensures SubmissionsUndisturbed(Exec(launch, run).value.Log())
  {
    RunKeepsInv(launch, run);
  }

  /** In every run a pending request was submitted after every invalidation and network change: these cancel. */
  lemma PendingIsRecent(launch: Launch, run: seq<Action>)
    requires Exec(launch, run).Some?
    ensures PendingRecent(Exec(launch, run).value)
  {
    RunKeepsInv(launch, run);
  }
}
