/**
 After a withdrawal nothing is submitted or admitted before a later opt-in succeeds. A withdrawal that left the disk
 disabled outlives the process; one that did not is only as good as the process that remembers it.
 */
module RefreshWithdrawal {
  import opened Options
  import opened RefreshModel

  predicate WithdrawnAt(log: seq<Event>, i: int) {
    0 <= i < |log| && log[i].Invalidated? && log[i].disable
  }

  /** A native submission or an admitted delivery. */
  predicate UsedAt(log: seq<Event>, j: int) {
    0 <= j < |log| && (log[j].Submitted? || log[j].Admitted?)
  }

  /** An opt-in that began after log position `i` is in force at position `j`. */
  ghost predicate OptedInSince(log: seq<Event>, i: int, j: int) {
    exists k :: i < k && OptInCounts(log, k, j) && i < log[k].began
  }

  /** An opt-in that began after log position `i` reached the disk, confirmed or not. */
  ghost predicate OptInWritten(log: seq<Event>, i: int) {
    exists k :: i < k && OptInAt(log, k) && i < log[k].began
  }

  /** The withdrawal at `i` still binds at `j`: it left the disk disabled, or the same process is still running. */
  ghost predicate Binds(log: seq<Event>, i: int, j: int)
    requires WithdrawnAt(log, i)
  {
    log[i].lasting || !RelaunchedBetween(log, i, j)
  }

  ghost predicate WithdrawalRespected(log: seq<Event>) {
    forall i, j :: i < j && WithdrawnAt(log, i) && UsedAt(log, j) && Binds(log, i, j) ==> OptedInSince(log, i, j)
  }

  /** A suspended `schedule` that outlived a withdrawal carries an old revision. */
  ghost predicate ScheduleFenced(s: State) {
    forall c :: c in s.calls && s.calls[c].IsSchedule() ==>
      s.calls[c].rev <= s.revision && (s.withdrawn ==> s.calls[c].rev < s.revision)
  }

  /** A suspended opt-in with the current revision began after every invalidation. */
  ghost predicate OptInFenced(s: State) {
    forall c :: c in s.calls && s.calls[c].OptIn? ==>
      && s.calls[c].rev <= s.revision && s.calls[c].began <= |s.Log()|
      && (s.calls[c].rev == s.revision ==>
            forall i :: s.calls[c].began <= i < |s.Log()| ==> !s.Log()[i].Invalidated?)
  }

  /** Why the withdrawal at `i` cannot be overlooked, unless an opt-in or a relaunch has lifted it. */
  ghost predicate Settled(s: State, i: int)
    requires WithdrawnAt(s.Log(), i)
  {
    || OptedInSince(s.Log(), i, |s.Log()|)
    || (if s.Log()[i].lasting then s.store.durable.enabled ==> s.store.failedClosed && OptInWritten(s.Log(), i)
        else s.withdrawn || RelaunchedBetween(s.Log(), i, |s.Log()|))
  }

  ghost predicate Authorised(s: State) {
    forall i :: WithdrawnAt(s.Log(), i) ==> Settled(s, i)
  }

  ghost predicate Inv(s: State) {
    ScheduleFenced(s) && OptInFenced(s) && Authorised(s) && WithdrawalRespected(s.Log())
  }

  predicate Silent(e: Event) {
    !e.Submitted? && !e.Admitted? && !e.Invalidated? && !e.OptedIn?
  }

  /** The calls of `t` that matter here were already suspended in `s`, with the same memory. */
  ghost predicate SameFrames(s: State, t: State) {
    forall c :: c in t.calls && (t.calls[c].IsSchedule() || t.calls[c].OptIn?) ==>
      && c in s.calls && t.calls[c].OptIn? == s.calls[c].OptIn? && t.calls[c].IsSchedule() == s.calls[c].IsSchedule()
      && t.calls[c].rev == s.calls[c].rev && t.calls[c].began == s.calls[c].began
  }

  /** The store on disk stays enabled at most, and is not trusted again on the way. */
  predicate NoLooser(s: State, t: State) {
    t.store.durable.enabled ==> s.store.durable.enabled && (s.store.failedClosed ==> t.store.failedClosed)
  }

  /** A step that leaves the fences alone and logs nothing this property speaks of. */
  ghost predicate Quiet(s: State, t: State) {
    && t.revision == s.revision && t.withdrawn == s.withdrawn && s.Log() <= t.Log()
    && (forall i :: |s.Log()| <= i < |t.Log()| ==> Silent(t.Log()[i]))
    && NoLooser(s, t) && SameFrames(s, t)
  }

  lemma LaterStill(log: seq<Event>, longer: seq<Event>, i: int, j: int, j': int)
    requires log <= longer && j <= j' && OptedInSince(log, i, j)
    ensures OptedInSince(longer, i, j')
  {
    var k :| i < k && OptInCounts(log, k, j) && i < log[k].began;
    if RelaunchedBetween(log, k, j) { RelaunchStill(log, longer, k, j, j'); }
    assert OptInCounts(longer, k, j');
  }

  lemma WrittenStill(log: seq<Event>, longer: seq<Event>, i: int)
    requires log <= longer && OptInWritten(log, i)
    ensures OptInWritten(longer, i)
  {
    var k :| i < k && OptInAt(log, k) && i < log[k].began;
    assert OptInAt(longer, k);
  }

  lemma RelaunchStill(log: seq<Event>, longer: seq<Event>, i: int, j: int, j': int)
    requires log <= longer && j <= j' && RelaunchedBetween(log, i, j)
    ensures RelaunchedBetween(longer, i, j')
  {
    var k :| i < k < j && RelaunchedAt(log, k);
    assert RelaunchedAt(longer, k);
  }

  /** A longer log keeps the property when what was added is authorised. */
  lemma RespectGrows(log: seq<Event>, longer: seq<Event>)
    requires log <= longer && WithdrawalRespected(log)
    requires forall i, j ::
               |log| <= j && i < j && WithdrawnAt(longer, i) && UsedAt(longer, j) && Binds(longer, i, j) ==>
                 OptedInSince(longer, i, j)
    ensures WithdrawalRespected(longer)
  {
    forall i, j | i < j && WithdrawnAt(longer, i) && UsedAt(longer, j) && Binds(longer, i, j)
      ensures OptedInSince(longer, i, j)
    {
      if j < |log| {
        assert WithdrawnAt(log, i) && UsedAt(log, j);
        if RelaunchedBetween(log, i, j) { RelaunchStill(log, longer, i, j, j); }
        LaterStill(log, longer, i, j, j);
      }
    }
  }

  lemma SettledLater(s: State, t: State, i: int)
    requires WithdrawnAt(s.Log(), i) && Settled(s, i) && s.Log() <= t.Log() && (s.withdrawn ==> t.withdrawn)
    requires NoLooser(s, t)
    ensures WithdrawnAt(t.Log(), i) && Settled(t, i)
  {
    if OptInWritten(s.Log(), i) { WrittenStill(s.Log(), t.Log(), i); }
    if OptedInSince(s.Log(), i, |s.Log()|) { LaterStill(s.Log(), t.Log(), i, |s.Log()|, |t.Log()|); }
    if RelaunchedBetween(s.Log(), i, |s.Log()|) { RelaunchStill(s.Log(), t.Log(), i, |s.Log()|, |t.Log()|); }
  }

  lemma AuthorisedGrows(s: State, t: State)
    requires Authorised(s) && s.Log() <= t.Log() && (s.withdrawn ==> t.withdrawn)
    requires NoLooser(s, t)
    requires forall i :: |s.Log()| <= i && WithdrawnAt(t.Log(), i) ==> Settled(t, i)
    ensures Authorised(t)
  {
    forall i | WithdrawnAt(t.Log(), i) ensures Settled(t, i) {
      if i < |s.Log()| {
        assert WithdrawnAt(s.Log(), i);
        SettledLater(s, t, i);
      }
    }
  }

  lemma QuietKeeps(s: State, t: State)
    requires Inv(s) && Quiet(s, t)
    ensures Inv(t)
  {
    hide Settled;
    RespectGrows(s.Log(), t.Log());
    AuthorisedGrows(s, t);
  }

  lemma MarkingIsQuiet(s: State)
    ensures Quiet(s, MarkActive(s))
  {
  }

  /** Bumping the revision makes every suspended call stale. */
  lemma BumpKeeps(s: State, t: State, e: Event)
    requires Inv(s) && t.Log() == s.Log() + [e] && t.calls == s.calls && e.ChangesRevision()
    requires t.revision == s.revision + 1 && (s.withdrawn ==> t.withdrawn)
    requires NoLooser(s, t)
    requires e.Invalidated? && e.disable ==> if e.lasting then !t.store.durable.enabled else t.withdrawn
    ensures Inv(t)
  {
    RespectGrows(s.Log(), t.Log());
    AuthorisedGrows(s, t);
  }

  lemma InvalidateKeeps(s: State, disable: bool, write: WriteOutcome)
    requires Inv(s)
    ensures Inv(DoInvalidate(s, disable, write))
  {
    MarkingIsQuiet(s);
    QuietKeeps(s, MarkActive(s));
    hide MarkActive;
    var t := DoInvalidate(s, disable, write);
    BumpKeeps(MarkActive(s), t, Invalidated(disable, write, !t.store.durable.enabled));
  }

  lemma SetNetworkKeeps(s: State, network: Network, write: WriteOutcome)
    requires Inv(s)
    ensures Inv(DoSetNetwork(s, network, write))
  {
    MarkingIsQuiet(s);
    QuietKeeps(s, MarkActive(s));
    hide MarkActive;
    BumpKeeps(MarkActive(s), DoSetNetwork(s, network, write), NetworkChanged);
  }

  /** With no withdrawal in force and an enabled store, one more submission or admission is authorised. */
  lemma AdmissibleKeeps(s: State, t: State, e: Event)
    requires Inv(s) && !s.withdrawn && !t.withdrawn && t.Log() == s.Log() + [e] && !e.Invalidated?
    requires s.policy.enabled && t.policy.enabled
    requires ScheduleFenced(t) && OptInFenced(t)
    ensures Inv(t)
  {
    AuthorisedGrows(s, t);
    forall i | i < |s.Log()| && WithdrawnAt(t.Log(), i) && Binds(t.Log(), i, |s.Log()|)
      ensures OptedInSince(t.Log(), i, |s.Log()|)
    {
      assert WithdrawnAt(s.Log(), i) && Settled(s, i);
      if RelaunchedBetween(s.Log(), i, |s.Log()|) { RelaunchStill(s.Log(), t.Log(), i, |s.Log()|, |s.Log()|); }
      LaterStill(s.Log(), t.Log(), i, |s.Log()|, |s.Log()|);
    }
    RespectGrows(s.Log(), t.Log());
  }

  lemma ScheduleStartKeeps(s: State, available: bool, lowPower: bool)
    requires Inv(s)
    ensures Inv(DoScheduleStart(s, available, lowPower))
  {
    var t := DoScheduleStart(s, available, lowPower);
    if |t.Log()| == |s.Log()| { QuietKeeps(s, t); } else { AdmissibleKeeps(s, t, ScheduleBegan(s.policy)); }
  }

  lemma ScheduleGotIdentityKeeps(s: State, c: CallId, identity: Option<Identity>, write: WriteOutcome)
    requires Inv(s) && c in s.calls && s.calls[c].ScheduleIdentity?
    ensures Inv(DoScheduleGotIdentity(s, c, identity, write))
  {
    var f := s.calls[c];
    QuietKeeps(s, EndSchedule(s, c));
    if identity.Some? && f.rev == s.revision {
      if identity != f.saved.identity {
        InvalidateKeeps(EndSchedule(s, c), true, write);
      } else {
        QuietKeeps(s, DoScheduleGotIdentity(s, c, identity, write));
      }
    }
  }

  lemma ScheduleGotPendingKeeps(s: State, c: CallId, available: bool, lowPower: bool, guardAt: int, setAt: int,
                                write: WriteOutcome, accepted: bool)
    requires Inv(s) && c in s.calls && s.calls[c].SchedulePending? && s.calls[c].answer.Some?
    ensures Inv(DoScheduleGotPending(s, c, available, lowPower, guardAt, setAt, write, accepted))
  {
    var t := DoScheduleGotPending(s, c, available, lowPower, guardAt, setAt, write, accepted);
    QuietKeeps(s, EndSchedule(s, c));
    if |t.Log()| == |s.Log()| { QuietKeeps(EndSchedule(s, c), t); }
    else { AdmissibleKeeps(EndSchedule(s, c), t, Submitted(s.calls[c].began, s.policy, setAt)); }
  }

  lemma OptInGotIdentityKeeps(s: State, c: CallId, identity: Option<Identity>, valid: bool, write: WriteOutcome)
    requires Inv(s) && c in s.calls && s.calls[c].OptIn?
    ensures Inv(DoOptInGotIdentity(s, c, identity, valid, write))
  {
    var t := DoOptInGotIdentity(s, c, identity, valid, write);
    if |t.Log()| == |s.Log()| { QuietKeeps(s, t); } else { OptInKeeps(s, c, t, write == Stored); }
  }

  /** Every withdrawal lies before the opt-in began; one that is not confirmed leaves the process as it was. */
  lemma OptInKeeps(s: State, c: CallId, t: State, confirmed: bool)
    requires Inv(s) && c in s.calls && s.calls[c].OptIn? && s.calls[c].rev == s.revision
    requires t.Log() == s.Log() + [OptedIn(s.calls[c].began, confirmed)] && t.calls == s.calls - {c}
    requires t.revision == s.revision && t.withdrawn == (s.withdrawn && !confirmed)
    requires confirmed || t.store.failedClosed
    ensures Inv(t)
  {
    var n := |s.Log()|;
    assert OptInAt(t.Log(), n);
    forall i | WithdrawnAt(t.Log(), i) ensures Settled(t, i) {
      assert WithdrawnAt(s.Log(), i) && Settled(s, i);
      assert confirmed ==> OptInCounts(t.Log(), n, n + 1);
      if OptedInSince(s.Log(), i, n) { LaterStill(s.Log(), t.Log(), i, n, n + 1); }
      if RelaunchedBetween(s.Log(), i, n) { RelaunchStill(s.Log(), t.Log(), i, n, n + 1); }
    }
    RespectGrows(s.Log(), t.Log());
  }

  lemma StatusQuiet(s: State, c: CallId, identity: Option<Identity>, write: WriteOutcome)
    requires c in s.calls && s.calls[c].StatusIdentity?
    ensures Quiet(s, s.(calls := s.calls - {c}))
    ensures !StatusMismatch(s, c, identity) ==> Quiet(s, DoStatusGotIdentity(s, c, identity, write))
  {
    hide DoInvalidate;
  }

  lemma StatusGotIdentityKeeps(s: State, c: CallId, identity: Option<Identity>, write: WriteOutcome)
    requires Inv(s) && c in s.calls && s.calls[c].StatusIdentity?
    ensures Inv(DoStatusGotIdentity(s, c, identity, write))
  {
    hide DoInvalidate, Quiet;
    StatusQuiet(s, c, identity, write);
    if StatusMismatch(s, c, identity) {
      QuietKeeps(s, s.(calls := s.calls - {c}));
      InvalidateKeeps(s.(calls := s.calls - {c}), true, write);
    } else {
      QuietKeeps(s, DoStatusGotIdentity(s, c, identity, write));
    }
  }

  lemma DeliverKeeps(s: State, d: DeliveryId, available: bool, lowPower: bool)
    requires Inv(s)
    ensures Inv(DoDeliver(s, d, available, lowPower))
  {
    var t := DoDeliver(s, d, available, lowPower);
    if |t.Log()| == |s.Log()| { QuietKeeps(s, t); } else { AdmissibleKeeps(s, t, Admitted(d, s.policy)); }
  }

  lemma ScheduleStepKeeps(s: State, a: ScheduleAction)
    requires Inv(s) && ScheduleEnabled(s, a)
    ensures Inv(ApplySchedule(s, a))
  {
    match a
    case ScheduleStart(available, lowPower) => ScheduleStartKeeps(s, available, lowPower);
    case ScheduleGotIdentity(c, identity, write) => ScheduleGotIdentityKeeps(s, c, identity, write);
    case ScheduleGotPending(c, available, lowPower, guardAt, setAt, write, accepted) =>
      ScheduleGotPendingKeeps(s, c, available, lowPower, guardAt, setAt, write, accepted);
    case _ => QuietKeeps(s, ApplySchedule(s, a));
  }

  lemma OwnerStepKeeps(s: State, a: OwnerAction)
    requires Inv(s) && OwnerEnabled(s, a)
    ensures Inv(ApplyOwner(s, a))
  {
    match a
    case OptInStart =>
    case OptInGotIdentity(c, identity, valid, write) => OptInGotIdentityKeeps(s, c, identity, valid, write);
    case SetNetwork(network, write) => SetNetworkKeeps(s, network, write);
    case Invalidate(disable, write) => InvalidateKeeps(s, disable, write);
    case StatusGotIdentity(c, identity, write) => StatusGotIdentityKeeps(s, c, identity, write);
    case _ => QuietKeeps(s, ApplyOwner(s, a));
  }

  lemma WorkerReturnsQuietly(s: State, c: CallId, outcome: Outcome)
    requires c in s.calls && s.calls[c].WorkerRunning?
    ensures Quiet(s, DoOperationReturns(s, c, outcome))
  {
  }

  lemma WorkerChecksQuietly(s: State, c: CallId, identity: Option<Identity>)
    requires c in s.calls && s.calls[c].WorkerIdentity?
    ensures Quiet(s, DoWorkerGotIdentity(s, c, identity))
  {
  }

  lemma DeliveryQuiet(s: State, a: DeliveryAction)
    requires DeliveryEnabled(s, a) && !a.Deliver?
    ensures Quiet(s, ApplyDelivery(s, a))
  {
    hide DoDeliver, DoDeliverRejects, DoOperationReturns, DoWorkerGotIdentity, DoWorkerFinishes, DoExpireFinishes;
    match a
    case OperationReturns(c, outcome) => WorkerReturnsQuietly(s, c, outcome);
    case WorkerGotIdentity(c, identity) => WorkerChecksQuietly(s, c, identity);
    case DeliverRejects(c) => AnswersQuietly(s, a);
    case WorkerFinishes(c) => AnswersQuietly(s, a);
    case ExpireFinishes(c) => AnswersQuietly(s, a);
    case _ =>
  }

  lemma AnswersQuietly(s: State, a: DeliveryAction)
    requires DeliveryEnabled(s, a) && (a.DeliverRejects? || a.WorkerFinishes? || a.ExpireFinishes?)
    ensures Quiet(s, ApplyDelivery(s, a))
  {
    hide DoDeliver, DoDeliverInstalls, DoWorkerStarts, DoOperationReturns, DoWorkerGotIdentity, DoExpireMarks;
  }

  lemma DeliveryStepKeeps(s: State, a: DeliveryAction)
    requires Inv(s) && DeliveryEnabled(s, a)
    ensures Inv(ApplyDelivery(s, a))
  {
    if a.Deliver? {
      DeliverKeeps(s, a.delivery, a.available, a.lowPower);
    } else {
      DeliveryQuiet(s, a);
      QuietKeeps(s, ApplyDelivery(s, a)) by { hide *; }
    }
  }

  /** What reached the disk counts from the next launch on. */
  lemma FoundAtLaunch(log: seq<Event>, longer: seq<Event>, i: int)
    requires OptInWritten(log, i) && longer == log + [Relaunched]
    ensures OptedInSince(longer, i, |longer|)
  {
    var k :| i < k && OptInAt(log, k) && i < log[k].began;
    assert RelaunchedAt(longer, |log|);
    assert OptInCounts(longer, k, |longer|);
  }

  /** A new process forgets its calls and its flag; a withdrawal on disk stays in force. */
  lemma RelaunchKeeps(s: State, readable: bool)
    requires Inv(s)
    ensures Inv(DoRelaunch(s, readable))
  {
    var t := DoRelaunch(s, readable);
    var n := |s.Log()|;
    assert RelaunchedAt(t.Log(), n);
    forall i | WithdrawnAt(t.Log(), i) ensures Settled(t, i) {
      assert WithdrawnAt(s.Log(), i) && Settled(s, i);
      assert RelaunchedBetween(t.Log(), i, |t.Log()|);
      if OptedInSince(s.Log(), i, n) { LaterStill(s.Log(), t.Log(), i, n, n + 1); }
      if OptInWritten(s.Log(), i) { FoundAtLaunch(s.Log(), t.Log(), i); }
    }
    RespectGrows(s.Log(), t.Log());
  }

  lemma {:induction false} RunKeepsInv(launch: Launch, run: seq<Action>)
    ensures Exec(launch, run).Some? ==> Inv(Exec(launch, run).value)
  {
    if run != [] {
      RunKeepsInv(launch, run[..|run| - 1]);
      var before := Exec(launch, run[..|run| - 1]);
      if Exec(launch, run).Some? {
        match run[|run| - 1]
        case Scheduling(a) => ScheduleStepKeeps(before.value, a);
        case Owning(a) => OwnerStepKeeps(before.value, a);
        case Delivering(a) => DeliveryStepKeeps(before.value, a);
        case Relaunching(readable) => RelaunchKeeps(before.value, readable);
      }
    }
  }

  /**
   In every run, across any number of processes: at any native submission or admitted delivery after a withdrawal an
   opt-in is in force whose call began after the withdrawal, provided the withdrawal left the disk disabled or the
   process has not changed since. Within one process it holds whatever the write did.
   */
  lemma NothingAfterWithdrawalWithoutOptIn(launch: Launch, run: seq<Action>)
    requires Exec(launch, run).Some?
    ensures WithdrawalRespected(Exec(launch, run).value.Log())
  {
    RunKeepsInv(launch, run);
  }

  // ---------------------------------------------------------------- when a withdrawal outlives its process

  /** The log grew, and a withdrawal among the new events tells what became of the store. */
  ghost predicate Traced(s: State, t: State) {
    && s.Log() <= t.Log()
    && (forall i :: |s.Log()| <= i && WithdrawnAt(t.Log(), i) ==>
          t.store == Write(s.store, DISABLED, t.Log()[i].write) && t.Log()[i].lasting == !t.store.durable.enabled)
  }

  lemma InvalidateTraced(s: State, disable: bool, write: WriteOutcome)
    ensures Traced(s, DoInvalidate(s, disable, write))
  {
    MarkingIsQuiet(s);
    MarkingKeepsStore(s);
    hide MarkActive, Quiet;
  }

  lemma MarkingKeepsStore(s: State)
    ensures MarkActive(s).store == s.store && s.Log() <= MarkActive(s).Log()
    ensures forall i :: |s.Log()| <= i < |MarkActive(s).Log()| ==> !MarkActive(s).Log()[i].Invalidated?
  {
  }

  lemma ScheduleTraced(s: State, a: ScheduleAction)
    requires ScheduleEnabled(s, a)
    ensures Traced(s, ApplySchedule(s, a))
  {
    hide DoInvalidate;
    if a.ScheduleGotIdentity? { InvalidateTraced(EndSchedule(s, a.call), true, a.write); }
  }

  lemma OwnerTraced(s: State, a: OwnerAction)
    requires OwnerEnabled(s, a)
    ensures Traced(s, ApplyOwner(s, a))
  {
    hide DoInvalidate, MarkActive;
    MarkingKeepsStore(s);
    match a
    case Invalidate(disable, write) => InvalidateTraced(s, disable, write);
    case StatusGotIdentity(c, identity, write) => InvalidateTraced(s.(calls := s.calls - {c}), true, write);
    case _ =>
  }

  lemma DeliveryTraced(s: State, a: DeliveryAction)
    requires DeliveryEnabled(s, a)
    ensures Traced(s, ApplyDelivery(s, a))
  {
    if !a.Deliver? { DeliveryQuiet(s, a) by { hide *; } }
  }

  lemma StepTraced(s: State, a: Action)
    requires Enabled(s, a)
    ensures Traced(s, Apply(s, a))
  {
    hide Traced, ApplySchedule, ApplyOwner, ApplyDelivery;
    match a
    case Scheduling(x) => ScheduleTraced(s, x);
    case Owning(x) => OwnerTraced(s, x);
    case Delivering(x) => DeliveryTraced(s, x);
    case Relaunching(readable) => RelaunchTraced(s, readable);
  }

  lemma RelaunchTraced(s: State, readable: bool)
    ensures Traced(s, DoRelaunch(s, readable))
  {
  }

  lemma {:induction false} LogsGrow(launch: Launch, run: seq<Action>, more: seq<Action>)
    requires Exec(launch, run + more).Some?
    ensures Exec(launch, run).Some? && Exec(launch, run).value.Log() <= Exec(launch, run + more).value.Log()
  {
    hide Exec, Enabled, Apply;
    if more == [] {
      assert run + more == run;
    } else {
      var less, a := more[..|more| - 1], more[|more| - 1];
      assert run + more == (run + less) + [a];
      ExecAppended(launch, run + less, a);
      LogsGrow(launch, run, less);
      StepTraced(Exec(launch, run + less).value, a);
    }
  }

  /** From log position `i` on nothing is submitted or admitted without an opt-in that began behind it. */
  ghost predicate RespectedFrom(log: seq<Event>, i: int) {
    forall j :: i < j && UsedAt(log, j) ==> OptedInSince(log, i, j)
  }

  /** The last event of a run, a withdrawal, is respected however the run goes on, in whatever later processes. */
  ghost predicate BindsForever(launch: Launch, run: seq<Action>)
    requires Exec(launch, run).Some?
  {
    forall more :: Exec(launch, run + more).Some? ==>
      RespectedFrom(Exec(launch, run + more).value.Log(), |Exec(launch, run).value.Log()| - 1)
  }

  /** The last of the events a step added is a withdrawal whose write ended so. */
  predicate Withdraws(before: seq<Event>, after: seq<Event>, write: WriteOutcome) {
    |before| < |after| && WithdrawnAt(after, |after| - 1) && after[|after| - 1].write == write
  }

  lemma LastingBinds(launch: Launch, run: seq<Action>)
    requires Exec(launch, run).Some?
    requires var log := Exec(launch, run).value.Log(); WithdrawnAt(log, |log| - 1) && log[|log| - 1].lasting
    ensures BindsForever(launch, run)
  {
    var i := |Exec(launch, run).value.Log()| - 1;
    forall more | Exec(launch, run + more).Some?
      ensures RespectedFrom(Exec(launch, run + more).value.Log(), i)
    {
      hide Exec;
      LogsGrow(launch, run, more);
      NothingAfterWithdrawalWithoutOptIn(launch, run + more);
      var log := Exec(launch, run + more).value.Log();
      assert WithdrawnAt(log, i) && log[i].lasting;
    }
  }

  lemma FreshDelivery(ids: set<DeliveryId>) returns (d: DeliveryId)
    ensures forall x :: x in ids ==> x < d
  {
    if ids == {} {
      d := 0;
    } else {
      var x :| x in ids;
      var e := FreshDelivery(ids - {x});
      d := if x < e then e else x + 1;
      assert forall y :: y in ids ==> y == x || y in ids - {x};
    }
  }

  /**
   From every reachable state that has an enabled policy on disk, whatever the last event was, a relaunched process
   admits a delivery although nobody opted in again.
   */
  lemma EnabledDiskIsUsed(launch: Launch, run: seq<Action>) returns (more: seq<Action>)
    requires Exec(launch, run).Some? && Exec(launch, run).value.store.durable.enabled
    ensures Exec(launch, run + more).Some?
    ensures var i, log := |Exec(launch, run).value.Log()| - 1, Exec(launch, run + more).value.Log();
      UsedAt(log, i + 2) && !OptedInSince(log, i, i + 2)
  {
    hide Exec;
    var s0 := Exec(launch, run).value;
    var d := FreshDelivery(s0.shared.deliveries.Keys);
    var relaunch, install := Relaunching(true), Scheduling(Install);
    var deliver := Delivering(Deliver(d, true, false));
    ExecAppends(launch, run, relaunch);
    var s1 := Apply(s0, relaunch);
    ExecAppends(launch, run + [relaunch], install);
    var s2 := Apply(s1, install);
    ExecAppends(launch, run + [relaunch] + [install], deliver);
    more := [relaunch, install, deliver];
    assert run + [relaunch] + [install] + [deliver] == run + more;
    assert Apply(s2, deliver).Log() == s0.Log() + [Relaunched, Admitted(d, s0.store.durable)];
  }

  /**
   For every run that ends with a withdrawal, by whichever call: it is respected in every continuation, across any
   number of processes, exactly when the policy on disk was disabled already or the write left its bytes there.
   */
  lemma WithdrawalBindsIff(launch: Launch, run: seq<Action>, a: Action, write: WriteOutcome)
    requires Exec(launch, run).Some? && Exec(launch, run + [a]).Some?
    requires Withdraws(Exec(launch, run).value.Log(), Exec(launch, run + [a]).value.Log(), write)
    ensures BindsForever(launch, run + [a]) <==> !Exec(launch, run).value.store.durable.enabled || write.OnDisk()
  {
    hide Exec, Enabled, Apply;
    var s, t := Exec(launch, run).value, Exec(launch, run + [a]).value;
    ExecAppended(launch, run, a);
    StepTraced(s, a);
    assert WithdrawnAt(t.Log(), |t.Log()| - 1);
    if t.store.durable.enabled {
      var more := EnabledDiskIsUsed(launch, run + [a]);
      assert UsedAt(Exec(launch, run + [a] + more).value.Log(), |t.Log()| + 1);
    } else {
      LastingBinds(launch, run + [a]);
    }
  }

  /** Such withdrawals exist: over every enabled policy, with every write whose bytes did not reach the disk. */
  lemma UnwrittenWithdrawalIsForgotten(launch: Launch, write: WriteOutcome)
    requires launch.stored.enabled && !write.OnDisk()
    ensures var run := [Owning(Invalidate(true, write))]; Exec(launch, run).Some? && !BindsForever(launch, run)
  {
    hide Exec, BindsForever;
    var a := Owning(Invalidate(true, write));
    ExecStarts(launch);
    ExecAppends(launch, [], a);
    assert [] + [a] == [a];
    assert Apply(Initial(launch), a).Log() == [Invalidated(true, write, false)];
    WithdrawalBindsIff(launch, [], a, write);
  }

  lemma ExecStarts(launch: Launch)
    ensures Exec(launch, []) == Some(Initial(launch))
  {
  }
}
