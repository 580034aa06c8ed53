/**
 Native submissions: one request at a time, each under the policy its call read, and never closer together than the
 cooldown unless the owner opted in again.
 */
module RefreshSubmission {
  import opened Options
  import opened RefreshModel

  predicate ScheduleCall(s: State, c: CallId) {
    c in s.calls && s.calls[c].IsSchedule()
  }

  predicate SubmittedAt(log: seq<Event>, i: int) {
    0 <= i < |log| && log[i].Submitted?
  }

  /** No opt-in behind log position `i` is in force at position `j`. */
  ghost predicate NoOptIn(log: seq<Event>, i: int, j: int) {
    forall k :: i < k ==> !OptInCounts(log, k, j)
  }

  /** No opt-in behind log position `i` reached the disk, confirmed or not. */
  ghost predicate NoneWritten(log: seq<Event>, i: int) {
    forall k :: i < k ==> !OptInAt(log, k)
  }

  /** Submissions with no opt-in between them that is in force at the later one are a full cooldown apart. */
  ghost predicate Spaced(log: seq<Event>) {
    forall i, j :: i < j && SubmittedAt(log, i) && SubmittedAt(log, j) && NoOptIn(log, i, j) ==>
      log[i].at + SCHEDULING_DELAY <= log[j].at
  }

  /** A submission runs under the enabled policy, grant and identity its call read when it began. */
  predicate Faithful(log: seq<Event>, j: int)
    requires SubmittedAt(log, j)
  {
    var b := log[j].began;
    && b < j && log[b].ScheduleBegan?
    && log[j].policy.enabled && log[b].saved.enabled
    && log[j].policy.grant == log[b].saved.grant && log[j].policy.identity == log[b].saved.identity
  }

  ghost predicate AllFaithful(log: seq<Event>) {
    forall j :: SubmittedAt(log, j) ==> Faithful(log, j)
  }

  /** The flag is up exactly while one `schedule` is suspended. */
  ghost predicate FlagExact(s: State) {
    && (s.scheduling ==> exists c :: c in s.calls && s.calls[c].IsSchedule())
    && (forall c :: c in s.calls && s.calls[c].IsSchedule() ==> s.scheduling)
    && (forall c, c' :: c in s.calls && c' in s.calls && s.calls[c].IsSchedule() && s.calls[c'].IsSchedule() ==>
          c == c')
  }

  ghost predicate GrantsFresh(s: State) {
    && StoredPolicyValid(s.store.durable)
    && (s.store.durable.grant.Some? ==> s.store.durable.grant.value < s.nextGrant)
    && (forall c :: c in s.calls ==> c < s.nextCall)
  }

  /** What a suspended `schedule` remembers is what the log says it read, and still describes the store
      whenever the grant has not changed. */
  ghost predicate FrameFaithful(s: State, f: Call)
    requires f.IsSchedule()
  {
    && f.began < |s.Log()| && s.Log()[f.began] == ScheduleBegan(f.saved)
    && f.saved.enabled && f.saved.grant.Some? && f.saved.grant.value < s.nextGrant
    && (s.store.durable.enabled && s.store.durable.grant == f.saved.grant ==>
          s.store.durable.identity == f.saved.identity
          && s.store.durable.nextSubmissionAllowedAt == f.saved.nextSubmissionAllowedAt)
    && (f.SchedulePending? && f.answer == Some(false) ==> s.outstanding == 0)
  }

  ghost predicate FramesFaithful(s: State) {
    forall c :: c in s.calls && s.calls[c].IsSchedule() ==> FrameFaithful(s, s.calls[c])
  }

  /** Nothing has lifted the cooldown of the submission at `i` from the store. */
  ghost predicate Cooling(s: State, i: int) {
    if s.store.failedClosed then NoneWritten(s.Log(), i) else NoOptIn(s.Log(), i, |s.Log()|)
  }

  ghost predicate Covered(s: State, i: int)
    requires SubmittedAt(s.Log(), i)
  {
    && s.store.durable.nextSubmissionAllowedAt.Some?
    && s.Log()[i].at + SCHEDULING_DELAY <= s.store.durable.nextSubmissionAllowedAt.value
  }

  /** The cooldown on disk covers every submission since the last opt-in. */
  ghost predicate CooldownStored(s: State) {
    s.store.durable.enabled ==> forall i :: SubmittedAt(s.Log(), i) && Cooling(s, i) ==> Covered(s, i)
  }

  ghost predicate Inv(s: State) {
    && s.outstanding <= 1 && FlagExact(s) && GrantsFresh(s) && FramesFaithful(s) && CooldownStored(s)
    && Spaced(s.Log()) && AllFaithful(s.Log())
  }

  // ---------------------------------------------------------------- preservation

  predicate Silent(e: Event) { !e.Submitted? && !e.OptedIn? }

  ghost predicate GrowsSilently(log: seq<Event>, longer: seq<Event>) {
    log <= longer && forall i :: |log| <= i < |longer| ==> Silent(longer[i])
  }

  lemma CountsStill(log: seq<Event>, longer: seq<Event>, k: int, j: int)
    requires log <= longer && OptInCounts(log, k, j)
    ensures OptInCounts(longer, k, j)
  {
    if !log[k].confirmed {
      var r :| k < r < j && RelaunchedAt(log, r);
      assert RelaunchedAt(longer, r);
    }
  }

  /** An opt-in in force stays in force. */
  lemma CountsOn(log: seq<Event>, k: int, j: int, j': int)
    requires OptInCounts(log, k, j) && j <= j'
    ensures OptInCounts(log, k, j')
  {
    if !log[k].confirmed {
      var r :| k < r < j && RelaunchedAt(log, r);
      assert k < r < j' && RelaunchedAt(log, r);
    }
  }

  /** What holds of the longer log back to `i` and up to `j` held before. */
  lemma NoOptInBefore(log: seq<Event>, longer: seq<Event>, i: int, j: int, j': int)
    requires log <= longer && j <= j' && NoOptIn(longer, i, j')
    ensures NoOptIn(log, i, j)
  {
    forall k | i < k ensures !OptInCounts(log, k, j) {
      if OptInCounts(log, k, j) {
        CountsStill(log, longer, k, j);
        CountsOn(longer, k, j, j');
      }
    }
  }

  /** Spacing is kept while no submission is added. */
  lemma SpacedStill(log: seq<Event>, longer: seq<Event>)
    requires Spaced(log) && log <= longer && forall i :: |log| <= i < |longer| ==> !longer[i].Submitted?
    ensures Spaced(longer)
  {
    forall i, j | i < j && SubmittedAt(longer, i) && SubmittedAt(longer, j) && NoOptIn(longer, i, j)
      ensures longer[i].at + SCHEDULING_DELAY <= longer[j].at
    {
      assert SubmittedAt(log, i) && SubmittedAt(log, j);
      NoOptInBefore(log, longer, i, j, j);
    }
  }

  lemma LogsKept(log: seq<Event>, longer: seq<Event>)
    requires GrowsSilently(log, longer) && Spaced(log) && AllFaithful(log)
    ensures Spaced(longer) && AllFaithful(longer)
  {
    SpacedStill(log, longer);
    forall j | SubmittedAt(longer, j) ensures Faithful(longer, j) {
      assert SubmittedAt(log, j) && Faithful(log, j);
    }
  }

  /** The stored fields this property reads are unchanged, or the store is disabled without a grant. */
  predicate PolicyKept(s: State, t: State) {
    var before, after := s.store.durable, t.store.durable;
    && s.nextGrant <= t.nextGrant
    && ((!after.enabled && after.grant.None?)
        || ((s.store.failedClosed ==> t.store.failedClosed) && after.enabled == before.enabled
            && after.grant == before.grant && after.identity == before.identity
            && after.nextSubmissionAllowedAt == before.nextSubmissionAllowedAt))
  }

  ghost predicate Quiet(s: State, t: State) {
    && GrowsSilently(s.Log(), t.Log()) && PolicyKept(s, t) && t.outstanding <= s.outstanding
    && (t.scheduling ==> s.scheduling)
    && (forall c :: c in t.calls ==> c < t.nextCall)
    && (forall c :: c in t.calls && t.calls[c].IsSchedule() ==>
          c in s.calls && t.calls[c] == s.calls[c] && t.scheduling)
    && (forall c :: c in s.calls && s.calls[c].IsSchedule() && t.scheduling ==>
          c in t.calls && t.calls[c] == s.calls[c])
  }

  lemma CooldownKept(s: State, t: State)
    requires GrowsSilently(s.Log(), t.Log()) && CooldownStored(s)
    requires t.store.durable.enabled ==>
               && s.store.durable.enabled && (s.store.failedClosed ==> t.store.failedClosed)
               && t.store.durable.nextSubmissionAllowedAt == s.store.durable.nextSubmissionAllowedAt
    ensures CooldownStored(t)
  {
    forall i | t.store.durable.enabled && SubmittedAt(t.Log(), i) && Cooling(t, i) ensures Covered(t, i) {
      assert SubmittedAt(s.Log(), i);
      CoolingBefore(s, t, i);
    }
  }

  lemma CoolingBefore(s: State, t: State, i: int)
    requires s.Log() <= t.Log() && (s.store.failedClosed ==> t.store.failedClosed) && Cooling(t, i)
    ensures Cooling(s, i)
  {
    if t.store.failedClosed {
      NoneWrittenBefore(s.Log(), t.Log(), i);
    } else {
      NoOptInBefore(s.Log(), t.Log(), i, |s.Log()|, |t.Log()|);
    }
  }

  lemma NoneWrittenBefore(log: seq<Event>, longer: seq<Event>, i: int)
    requires log <= longer && NoneWritten(longer, i)
    ensures NoneWritten(log, i) && NoOptIn(log, i, |log|)
  {
    assert forall k :: OptInAt(log, k) ==> OptInAt(longer, k);
  }

  lemma QuietKeeps(s: State, t: State)
    requires Inv(s) && Quiet(s, t)
    ensures Inv(t)
  {
    LogsKept(s.Log(), t.Log());
    CooldownKept(s, t);
    if t.scheduling {
      var c :| c in s.calls && s.calls[c].IsSchedule();
      assert t.calls[c].IsSchedule();
    }
    forall c | ScheduleCall(t, c) ensures FrameFaithful(t, t.calls[c]) {
      assert FrameFaithful(s, s.calls[c]);
    }
  }

  lemma MarkingIsQuiet(s: State)
    requires GrantsFresh(s) && forall k :: k in s.calls && s.calls[k].IsSchedule() ==> s.scheduling
    ensures Quiet(s, MarkActive(s))
  {
  }

  lemma InvalidateKeeps(s: State, disable: bool, write: WriteOutcome)
    requires Inv(s)
    ensures Inv(DoInvalidate(s, disable, write))
  {
    MarkingIsQuiet(s);
    hide Quiet, MarkActive, Invalidation;
    QuietKeeps(s, MarkActive(s));
    InvalidationKeeps(MarkActive(s), disable, write);
  }

  lemma InvalidationKeeps(s: State, disable: bool, write: WriteOutcome)
    requires Inv(s)
    ensures Inv(Invalidation(s, disable, write))
  {
    QuietKeeps(s, Invalidation(s, disable, write));
  }

  /** A fresh grant, or a disabled store, fits no suspended call. */
  lemma NewGrantKeeps(s: State, t: State)
    requires Inv(s) && t.calls == s.calls && t.nextCall == s.nextCall && t.scheduling == s.scheduling
    requires GrowsSilently(s.Log(), t.Log()) && t.outstanding <= s.outstanding && t.nextGrant == s.nextGrant + 1
    requires StoredPolicyValid(t.store.durable)
    requires t.store.durable.enabled ==>
               && t.store.durable.grant == Some(s.nextGrant) && s.store.durable.enabled
               && (s.store.failedClosed ==> t.store.failedClosed)
               && t.store.durable.nextSubmissionAllowedAt == s.store.durable.nextSubmissionAllowedAt
    requires t.store.durable.grant.Some? ==> t.store.durable.grant.value <= s.nextGrant
    ensures Inv(t)
  {
    LogsKept(s.Log(), t.Log());
    CooldownKept(s, t);
    forall c | ScheduleCall(t, c) ensures FrameFaithful(t, t.calls[c]) {
      assert ScheduleCall(s, c) && FrameFaithful(s, s.calls[c]);
    }
    forall c, c' | ScheduleCall(t, c) && ScheduleCall(t, c') ensures c == c' {
      assert ScheduleCall(s, c) && ScheduleCall(s, c');
    }
  }

  lemma SetNetworkKeeps(s: State, network: Network, write: WriteOutcome)
    requires Inv(s)
    ensures Inv(DoSetNetwork(s, network, write))
  {
    MarkingIsQuiet(s);
    hide Quiet, MarkActive, NetworkChange;
    QuietKeeps(s, MarkActive(s));
    NetworkChangeKeeps(MarkActive(s), network, write);
  }

  lemma NetworkChangeKeeps(s: State, network: Network, write: WriteOutcome)
    requires Inv(s)
    ensures Inv(NetworkChange(s, network, write))
  {
    if write.OnDisk() {
      NewGrantKeeps(s, NetworkChange(s, network, write));
    } else {
      QuietKeeps(s, NetworkChange(s, network, write));
    }
  }

  lemma OptInGotIdentityKeeps(s: State, c: CallId, identity: Option<Identity>, valid: bool, write: WriteOutcome)
    requires Inv(s) && c in s.calls && s.calls[c].OptIn?
    ensures Inv(DoOptInGotIdentity(s, c, identity, valid, write))
  {
    var t := DoOptInGotIdentity(s, c, identity, valid, write);
    if |t.Log()| == |s.Log()| {
      QuietKeeps(s, t);
    } else {
      OptInSucceeds(s, c, t, write == Stored);
    }
  }

  lemma OptInSucceeds(s: State, c: CallId, t: State, confirmed: bool)
    requires Inv(s) && c in s.calls && s.calls[c].OptIn? && t.calls == s.calls - {c} && t.nextCall == s.nextCall
    requires t.Log() == s.Log() + [OptedIn(s.calls[c].began, confirmed)] && t.scheduling == s.scheduling
    requires t.outstanding == s.outstanding && t.nextGrant == s.nextGrant + 1
    requires t.store.durable.grant == Some(s.nextGrant) && t.store.durable.identity.Some?
    requires t.store.failedClosed == !confirmed
    ensures Inv(t)
  {
    var n := |s.Log()|;
    assert s.Log() <= t.Log();
    SpacedStill(s.Log(), t.Log());
    assert OptInAt(t.Log(), n) && (confirmed ==> OptInCounts(t.Log(), n, n + 1));
    forall j | SubmittedAt(t.Log(), j) ensures Faithful(t.Log(), j) {
      assert SubmittedAt(s.Log(), j) && Faithful(s.Log(), j);
    }
    if s.scheduling {
      var k :| k in s.calls && s.calls[k].IsSchedule();
      assert t.calls[k].IsSchedule();
    }
    forall k | ScheduleCall(t, k) ensures ScheduleCall(s, k) && FrameFaithful(t, t.calls[k]) {
      assert ScheduleCall(s, k) && FrameFaithful(s, s.calls[k]);
    }
  }

  lemma ScheduleStartKeeps(s: State, available: bool, lowPower: bool)
    requires Inv(s)
    ensures Inv(DoScheduleStart(s, available, lowPower))
  {
    var t := DoScheduleStart(s, available, lowPower);
    if |t.Log()| == |s.Log()| {
      QuietKeeps(s, t);
    } else {
      LogsKept(s.Log(), t.Log());
      CooldownKept(s, t);
      assert ScheduleCall(t, s.nextCall);
      forall c | ScheduleCall(t, c) ensures c == s.nextCall {
      }
    }
  }

  lemma ScheduleGotIdentityKeeps(s: State, c: CallId, identity: Option<Identity>, write: WriteOutcome)
    requires Inv(s) && c in s.calls && s.calls[c].ScheduleIdentity?
    ensures Inv(DoScheduleGotIdentity(s, c, identity, write))
  {
    assert ScheduleCall(s, c);
    QuietKeeps(s, EndSchedule(s, c));
    QuietKeeps(s, EndSchedule(s, c).(outstanding := 0));
    InvalidateKeeps(EndSchedule(s, c), true, write);
    var f := s.calls[c];
    FrameMoves(s, c, SchedulePending(f.rev, f.saved, f.began, None));
  }

  /** A suspended `schedule` moves on, remembering the same policy. */
  lemma FrameMoves(s: State, c: CallId, f: Call)
    requires Inv(s) && ScheduleCall(s, c) && f.SchedulePending?
    requires f.saved == s.calls[c].saved && f.began == s.calls[c].began
    requires f.answer == Some(false) ==> s.outstanding == 0
    ensures Inv(s.(calls := s.calls[c := f]))
  {
    var t := s.(calls := s.calls[c := f]);
    assert ScheduleCall(t, c) && FrameFaithful(s, s.calls[c]);
    forall k | ScheduleCall(t, k) ensures k == c {
      assert ScheduleCall(s, k);
    }
  }

  lemma ScheduleGotPendingKeeps(s: State, c: CallId, available: bool, lowPower: bool, guardAt: int, setAt: int,
                                write: WriteOutcome, accepted: bool)
    requires Inv(s) && c in s.calls && s.calls[c].SchedulePending? && s.calls[c].answer.Some? && guardAt <= setAt
    ensures Inv(DoScheduleGotPending(s, c, available, lowPower, guardAt, setAt, write, accepted))
  {
    assert ScheduleCall(s, c);
    var t := DoScheduleGotPending(s, c, available, lowPower, guardAt, setAt, write, accepted);
    if |t.Log()| > |s.Log()| {
      SubmitKeeps(s, c, t, setAt);
    } else if t.store.durable == s.store.durable {
      QuietKeeps(s, t);
    } else {
      CooldownMoves(s, c, t, setAt);
    }
  }

  /** The new cooldown reached the disk unconfirmed: nothing is submitted, and it covers what the old one did. */
  lemma CooldownMoves(s: State, c: CallId, t: State, at: int)
    requires Inv(s) && ScheduleCall(s, c) && s.calls[c].SchedulePending?
    requires s.policy.enabled && s.policy.grant == s.calls[c].saved.grant && !CoolingDown(s.calls[c], at)
    requires t.store == Store(s.policy.(nextSubmissionAllowedAt := Some(at + SCHEDULING_DELAY)), true)
    requires t.Log() == s.Log() && t.calls == s.calls - {c} && !t.scheduling && t.nextCall == s.nextCall
    requires t.nextGrant == s.nextGrant && t.outstanding == s.outstanding
    ensures Inv(t)
  {
    assert FrameFaithful(s, s.calls[c]);
    forall i | SubmittedAt(t.Log(), i) && Cooling(t, i) ensures Covered(t, i) {
      NoneWrittenBefore(s.Log(), t.Log(), i);
      assert Cooling(s, i) && Covered(s, i);
    }
    forall k | ScheduleCall(t, k) ensures k == c {
      assert ScheduleCall(s, k);
    }
  }

  lemma SubmitKeeps(s: State, c: CallId, t: State, at: int)
    requires Inv(s) && ScheduleCall(s, c) && s.calls[c].SchedulePending? && s.calls[c].answer == Some(false)
    requires s.policy.enabled && s.policy.grant == s.calls[c].saved.grant && !CoolingDown(s.calls[c], at)
    requires t.Log() == s.Log() + [Submitted(s.calls[c].began, s.policy, at)]
    requires t.store.durable == s.policy.(nextSubmissionAllowedAt := Some(at + SCHEDULING_DELAY))
    requires t.calls == s.calls - {c} && !t.scheduling && t.nextCall == s.nextCall && t.nextGrant == s.nextGrant
    requires t.outstanding <= s.outstanding + 1 && !t.store.failedClosed
    ensures Inv(t)
  {
    var f := s.calls[c];
    var n := |s.Log()|;
    assert s.Log() <= t.Log();
    assert FrameFaithful(s, f);
    forall i | SubmittedAt(t.Log(), i) && i < n && NoOptIn(t.Log(), i, n)
      ensures t.Log()[i].at + SCHEDULING_DELAY <= at
    {
      assert SubmittedAt(s.Log(), i);
      NoOptInBefore(s.Log(), t.Log(), i, n, n);
      assert Cooling(s, i) && Covered(s, i);
    }
    SpacedGrows(s.Log(), t.Log());
    forall j | SubmittedAt(t.Log(), j) ensures Faithful(t.Log(), j) {
      if j < n { assert SubmittedAt(s.Log(), j) && Faithful(s.Log(), j); }
    }
    forall i | SubmittedAt(t.Log(), i) && Cooling(t, i) ensures Covered(t, i) {
      if i < n { NoOptInBefore(t.Log(), t.Log(), i, n, n + 1); }
    }
  }

  lemma SpacedGrows(log: seq<Event>, longer: seq<Event>)
    requires Spaced(log) && |longer| == |log| + 1 && log <= longer && longer[|log|].Submitted?
    requires forall i :: SubmittedAt(longer, i) && i < |log| && NoOptIn(longer, i, |log|) ==>
               longer[i].at + SCHEDULING_DELAY <= longer[|log|].at
    ensures Spaced(longer)
  {
    forall i, j | i < j && SubmittedAt(longer, i) && SubmittedAt(longer, j) && NoOptIn(longer, i, j)
      ensures longer[i].at + SCHEDULING_DELAY <= longer[j].at
    {
      if j < |log| {
        assert SubmittedAt(log, i) && SubmittedAt(log, j);
        NoOptInBefore(log, longer, i, j, j);
      }
    }
  }

  lemma StatusQuiet(s: State, c: CallId, identity: Option<Identity>, write: WriteOutcome)
    requires c in s.calls && s.calls[c].StatusIdentity?
    requires GrantsFresh(s) && forall k :: k in s.calls && s.calls[k].IsSchedule() ==> s.scheduling
    ensures Quiet(s, s.(calls := s.calls - {c}))
    ensures !StatusMismatch(s, c, identity) ==> Quiet(s, DoStatusGotIdentity(s, c, identity, write))
  {
    hide DoInvalidate;
  }

  lemma StatusGotIdentityKeeps(s: State, c: CallId, identity: Option<Identity>, write: WriteOutcome)
    requires Inv(s) && c in s.calls && s.calls[c].StatusIdentity?
    ensures Inv(DoStatusGotIdentity(s, c, identity, write))
  {
    hide DoInvalidate, Quiet;
    StatusQuiet(s, c, identity, write);
    if StatusMismatch(s, c, identity) {
      QuietKeeps(s, s.(calls := s.calls - {c}));
      InvalidateKeeps(s.(calls := s.calls - {c}), true, write);
    } else {
      QuietKeeps(s, DoStatusGotIdentity(s, c, identity, write));
    }
  }

  lemma ScheduleStepKeeps(s: State, a: ScheduleAction)
    requires Inv(s) && ScheduleEnabled(s, a)
    ensures Inv(ApplySchedule(s, a))
  {
    match a
    case ScheduleStart(available, lowPower) => ScheduleStartKeeps(s, available, lowPower);
    case ScheduleGotIdentity(c, identity, write) => ScheduleGotIdentityKeeps(s, c, identity, write);
    case ScheduleGotPending(c, available, lowPower, guardAt, setAt, write, accepted) =>
      ScheduleGotPendingKeeps(s, c, available, lowPower, guardAt, setAt, write, accepted);
    case NativeAnswers(c) => FrameMoves(s, c, s.calls[c].(answer := Some(s.outstanding > 0)));
    case _ => QuietKeeps(s, ApplySchedule(s, a));
  }

  lemma OwnerQuiet(s: State, a: OwnerAction)
    requires GrantsFresh(s) && OwnerEnabled(s, a)
    requires forall k :: k in s.calls && s.calls[k].IsSchedule() ==> s.scheduling
    requires a.OptInStart? || a.StatusStart? || a.StatusGotConfirmation? || a.StatusGotRecovery?
             || a.CoordinatorAdvances?
    ensures Quiet(s, ApplyOwner(s, a))
  {
    hide DoOptInGotIdentity, DoSetNetwork, DoInvalidate, DoStatusGotIdentity;
  }

  lemma OwnerStepKeeps(s: State, a: OwnerAction)
    requires Inv(s) && OwnerEnabled(s, a)
    ensures Inv(ApplyOwner(s, a))
  {
    hide DoOptInStart, DoOptInGotIdentity, DoSetNetwork, DoInvalidate, DoStatusStart, DoStatusGotIdentity,
      DoStatusGotConfirmation, DoStatusGotRecovery, DoCoordinatorAdvances, Quiet;
    match a
    case OptInGotIdentity(c, identity, valid, write) => OptInGotIdentityKeeps(s, c, identity, valid, write);
    case SetNetwork(network, write) => SetNetworkKeeps(s, network, write);
    case Invalidate(disable, write) => InvalidateKeeps(s, disable, write);
    case StatusGotIdentity(c, identity, write) => StatusGotIdentityKeeps(s, c, identity, write);
    case _ =>
      OwnerQuiet(s, a);
      QuietKeeps(s, ApplyOwner(s, a));
  }

  lemma WorkerReturnsQuietly(s: State, c: CallId, outcome: Outcome)
    requires c in s.calls && s.calls[c].WorkerRunning? && forall k :: k in s.calls ==> k < s.nextCall
    requires forall k :: k in s.calls && s.calls[k].IsSchedule() ==> s.scheduling
    ensures Quiet(s, DoOperationReturns(s, c, outcome))
  {
  }

  lemma WorkerChecksQuietly(s: State, c: CallId, identity: Option<Identity>)
    requires c in s.calls && s.calls[c].WorkerIdentity? && forall k :: k in s.calls ==> k < s.nextCall
    requires forall k :: k in s.calls && s.calls[k].IsSchedule() ==> s.scheduling
    ensures Quiet(s, DoWorkerGotIdentity(s, c, identity))
  {
  }

  lemma DeliverQuietly(s: State, d: DeliveryId, available: bool, lowPower: bool)
    requires forall k :: k in s.calls ==> k < s.nextCall
    requires forall k :: k in s.calls && s.calls[k].IsSchedule() ==> s.scheduling
    ensures Quiet(s, DoDeliver(s, d, available, lowPower))
  {
  }

  lemma DeliveryQuiet(s: State, a: DeliveryAction)
    requires DeliveryEnabled(s, a) && forall k :: k in s.calls ==> k < s.nextCall
    requires forall k :: k in s.calls && s.calls[k].IsSchedule() ==> s.scheduling
    ensures Quiet(s, ApplyDelivery(s, a))
  {
    hide DoDeliver, DoDeliverRejects, DoOperationReturns, DoWorkerGotIdentity, DoWorkerFinishes, DoExpireFinishes;
    match a
    case Deliver(d, available, lowPower) => DeliverQuietly(s, d, available, lowPower);
    case OperationReturns(c, outcome) => WorkerReturnsQuietly(s, c, outcome);
    case WorkerGotIdentity(c, identity) => WorkerChecksQuietly(s, c, identity);
    case DeliverRejects(c) => AnswersQuietly(s, a);
    case WorkerFinishes(c) => AnswersQuietly(s, a);
    case ExpireFinishes(c) => AnswersQuietly(s, a);
    case _ =>
  }

  lemma AnswersQuietly(s: State, a: DeliveryAction)
    requires DeliveryEnabled(s, a) && (a.DeliverRejects? || a.WorkerFinishes? || a.ExpireFinishes?)
    requires forall k :: k in s.calls ==> k < s.nextCall
    requires forall k :: k in s.calls && s.calls[k].IsSchedule() ==> s.scheduling
    ensures Quiet(s, ApplyDelivery(s, a))
  {
    hide DoDeliver, DoDeliverInstalls, DoWorkerStarts, DoOperationReturns, DoWorkerGotIdentity, DoExpireMarks;
  }

  /** What is on disk covers what no opt-in there has lifted, so a new process may rely on it. */
  lemma RelaunchKeeps(s: State, readable: bool)
    requires Inv(s)
    ensures Inv(DoRelaunch(s, readable))
  {
    var t := DoRelaunch(s, readable);
    var n := |s.Log()|;
    LogsKept(s.Log(), t.Log());
    assert RelaunchedAt(t.Log(), n);
    forall i | s.store.durable.enabled && SubmittedAt(t.Log(), i) && Cooling(t, i) ensures Covered(t, i) {
      assert forall k :: i < k && OptInAt(t.Log(), k) ==> k < n < n + 1;
      assert forall k :: i < k && OptInAt(t.Log(), k) ==> OptInCounts(t.Log(), k, n + 1);
      NoneWrittenBefore(s.Log(), t.Log(), i);
      assert SubmittedAt(s.Log(), i) && Cooling(s, i) && Covered(s, i);
    }
  }

  lemma {:induction false} RunKeepsInv(launch: Launch, run: seq<Action>)
    requires launch.Valid()
    ensures Exec(launch, run).Some? ==> Inv(Exec(launch, run).value)
  {
    if run != [] {
      RunKeepsInv(launch, run[..|run| - 1]);
      var before := Exec(launch, run[..|run| - 1]);
      if Exec(launch, run).Some? {
        match run[|run| - 1]
        case Scheduling(a) => ScheduleStepKeeps(before.value, a);
        case Owning(a) => OwnerStepKeeps(before.value, a);
        case Delivering(a) =>
          DeliveryQuiet(before.value, a);
          QuietKeeps(before.value, ApplyDelivery(before.value, a));
        case Relaunching(readable) => RelaunchKeeps(before.value, readable);
      }
    }
  }

  /**
   In every run, relaunches included and starting from at most one request an earlier process left pending, at most
   one native request is outstanding and at most one `schedule` is in flight.
   */
  lemma AtMostOneRequest(launch: Launch, run: seq<Action>)
    requires launch.Valid() && Exec(launch, run).Some?
    ensures Exec(launch, run).value.outstanding <= 1 && FlagExact(Exec(launch, run).value)
  {
    RunKeepsInv(launch, run);
  }

  /** In every run each submission uses the enabled policy, grant and identity its call read at its start. */
  lemma SubmissionsFollowTheirPolicy(launch: Launch, run: seq<Action>)
    requires launch.Valid() && Exec(launch, run).Some?
    ensures AllFaithful(Exec(launch, run).value.Log())
  {
    RunKeepsInv(launch, run);
  }

  /**
   In every run, relaunches included, two submissions are a full cooldown apart unless an opt-in between them is in
   force at the second: one that succeeded, or one that failed but whose bytes a later process found on disk.
   */
  lemma SubmissionsAreSpaced(launch: Launch, run: seq<Action>)
    requires launch.Valid() && Exec(launch, run).Some?
    ensures Spaced(Exec(launch, run).value.Log())
  {
    RunKeepsInv(launch, run);
  }
}
