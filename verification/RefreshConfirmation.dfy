/** A published confirmation always stems from work that began after the last invalidation. */
module RefreshConfirmation {
  import opened Options
  import opened RefreshModel

  /** An admission or a fetch at position `i`, with no invalidation since. */
  ghost predicate Fresh(log: seq<Event>, i: nat) {
    && i < |log| && (log[i].Admitted? || log[i].FetchBegan?)
    && (forall k :: i <= k < |log| ==> !log[k].Invalidated?)
  }

  /** The work that began at position `i` returned this confirmation. */
  ghost predicate ReturnedBy(log: seq<Event>, i: nat, value: string) {
    exists k :: i < k < |log| && log[k].Returned? && log[k].since == i && log[k].confirmation == Some(value)
  }

  ghost predicate ConfirmationFresh(s: State) {
    s.confirmation.Some? ==>
      && Fresh(s.Log(), s.confirmation.value.since)
      && ReturnedBy(s.Log(), s.confirmation.value.since, s.confirmation.value.value)
  }

  /** Calls that may still publish a confirmation. */
  predicate Publishes(f: Call) { f.StatusFetch? || f.StatusRecovery? || f.IsWorker() }

  function Origin(f: Call): nat
    requires Publishes(f)
  {
    if f.StatusFetch? || f.StatusRecovery? then f.began else f.admitted
  }

  /** The confirmation a suspended call carries. */
  function Carried(f: Call): Option<string> {
    if f.WorkerIdentity? then f.outcome.confirmation else if f.StatusRecovery? then f.found else None
  }

  ghost predicate FrameFresh(s: State, f: Call) {
    && (Publishes(f) ==>
          Origin(f) < |s.Log()| && f.rev <= s.revision && (f.rev == s.revision ==> Fresh(s.Log(), Origin(f))))
    && (Carried(f).Some? ==> ReturnedBy(s.Log(), Origin(f), Carried(f).value))
  }

  ghost predicate Inv(s: State) {
    ConfirmationFresh(s) && forall c :: c in s.calls ==> FrameFresh(s, s.calls[c])
  }

  // ---------------------------------------------------------------- preservation

  /** Either nothing was invalidated, or every suspended call became stale and nothing stays published. */
  ghost predicate Advances(s: State, t: State) {
    && s.Log() <= t.Log() && s.revision <= t.revision
    && ((forall k :: |s.Log()| <= k < |t.Log()| ==> !t.Log()[k].Invalidated?)
        || (s.revision < t.revision && t.confirmation.None?))
  }

  ghost predicate Quiet(s: State, t: State) {
    && Advances(s, t) && (t.confirmation.None? || t.confirmation == s.confirmation)
    && (forall c :: c in t.calls && Publishes(t.calls[c]) ==>
          c in s.calls && t.calls[c] == s.calls[c])
  }

  lemma ReturnedLater(log: seq<Event>, longer: seq<Event>, i: nat, value: string)
    requires ReturnedBy(log, i, value) && log <= longer
    ensures ReturnedBy(longer, i, value)
  {
    var k :| i < k < |log| && log[k].Returned? && log[k].since == i && log[k].confirmation == Some(value);
    assert longer[k] == log[k];
  }

  lemma FrameStaysFresh(s: State, t: State, f: Call)
    requires FrameFresh(s, f) && Advances(s, t)
    ensures FrameFresh(t, f)
  {
    if Carried(f).Some? { ReturnedLater(s.Log(), t.Log(), Origin(f), Carried(f).value); }
  }

  lemma ConfirmationStaysFresh(s: State, t: State)
    requires ConfirmationFresh(s) && Advances(s, t) && (t.confirmation.None? || t.confirmation == s.confirmation)
    ensures ConfirmationFresh(t)
  {
    if t.confirmation.Some? {
      ReturnedLater(s.Log(), t.Log(), s.confirmation.value.since, s.confirmation.value.value);
    }
  }

  lemma QuietKeeps(s: State, t: State)
    requires Inv(s) && Quiet(s, t)
    ensures Inv(t)
  {
    ConfirmationStaysFresh(s, t);
    forall c | c in t.calls ensures FrameFresh(t, t.calls[c]) {
      if Publishes(t.calls[c]) {
        FrameStaysFresh(s, t, s.calls[c]);
      }
    }
  }

  lemma MarkingIsQuiet(s: State)
    ensures Quiet(s, MarkActive(s))
  {
  }

  lemma InvalidateKeeps(s: State, disable: bool, write: WriteOutcome)
    requires Inv(s)
    ensures Inv(DoInvalidate(s, disable, write))
  {
    MarkingIsQuiet(s);
    QuietKeeps(s, MarkActive(s));
    hide MarkActive;
    QuietKeeps(MarkActive(s), DoInvalidate(s, disable, write));
  }

  lemma SetNetworkKeeps(s: State, network: Network, write: WriteOutcome)
    requires Inv(s)
    ensures Inv(DoSetNetwork(s, network, write))
  {
    MarkingIsQuiet(s);
    QuietKeeps(s, MarkActive(s));
    hide MarkActive;
    QuietKeeps(MarkActive(s), DoSetNetwork(s, network, write));
  }

  lemma ScheduleGotIdentityKeeps(s: State, c: CallId, identity: Option<Identity>, write: WriteOutcome)
    requires Inv(s) && c in s.calls && s.calls[c].ScheduleIdentity?
    ensures Inv(DoScheduleGotIdentity(s, c, identity, write))
  {
    hide DoInvalidate;
    var f := s.calls[c];
    if identity.Some? && f.rev == s.revision && identity != f.saved.identity {
      QuietKeeps(s, EndSchedule(s, c));
      InvalidateKeeps(EndSchedule(s, c), true, write);
    } else {
      QuietKeeps(s, DoScheduleGotIdentity(s, c, identity, write));
    }
  }

  /** A call takes a new frame whose origin is fresh; the others keep theirs. */
  lemma NewFrameKeeps(s: State, t: State, c: CallId)
    requires Inv(s) && Advances(s, t) && t.revision == s.revision
    requires t.confirmation.None? || t.confirmation == s.confirmation
    requires c in t.calls && t.calls == s.calls[c := t.calls[c]] && FrameFresh(t, t.calls[c])
    ensures Inv(t)
  {
    ConfirmationStaysFresh(s, t);
    forall k | k in t.calls ensures FrameFresh(t, t.calls[k]) {
      if k != c { FrameStaysFresh(s, t, s.calls[k]); }
    }
  }

  lemma StatusGotIdentityKeeps(s: State, c: CallId, identity: Option<Identity>, write: WriteOutcome)
    requires Inv(s) && c in s.calls && s.calls[c].StatusIdentity?
    ensures Inv(DoStatusGotIdentity(s, c, identity, write))
  {
    hide DoInvalidate;
    var t := DoStatusGotIdentity(s, c, identity, write);
    QuietKeeps(s, s.(calls := s.calls - {c}));
    if StatusMismatch(s, c, identity) {
      InvalidateKeeps(s.(calls := s.calls - {c}), true, write);
    } else if identity.Some? && s.calls[c].rev == s.revision {
      NewFrameKeeps(s, t, c);
    } else {
      QuietKeeps(s, t);
    }
  }

  lemma StatusGotConfirmationKeeps(s: State, c: CallId, found: Option<string>)
    requires Inv(s) && c in s.calls && s.calls[c].StatusFetch?
    ensures Inv(DoStatusGotConfirmation(s, c, found))
  {
    var t := DoStatusGotConfirmation(s, c, found);
    assert FrameFresh(s, s.calls[c]);
    assert t.Log()[|s.Log()|] == Returned(s.calls[c].began, found, None);
    NewFrameKeeps(s, t, c);
  }

  lemma StatusGotRecoveryKeeps(s: State, c: CallId)
    requires Inv(s) && c in s.calls && s.calls[c].StatusRecovery?
    ensures Inv(DoStatusGotRecovery(s, c))
  {
    var t := DoStatusGotRecovery(s, c);
    assert FrameFresh(s, s.calls[c]);
    forall k | k in t.calls ensures FrameFresh(t, t.calls[k]) {
      FrameStaysFresh(s, t, s.calls[k]);
    }
    if t.confirmation.None? || t.confirmation == s.confirmation { ConfirmationStaysFresh(s, t); }
  }

  lemma DeliverKeeps(s: State, d: DeliveryId, available: bool, lowPower: bool)
    requires Inv(s)
    ensures Inv(DoDeliver(s, d, available, lowPower))
  {
    var t := DoDeliver(s, d, available, lowPower);
    if |t.Log()| == |s.Log()| {
      QuietKeeps(s, t);
    } else {
      NewFrameKeeps(s, t, s.nextCall);
    }
  }

  lemma OperationReturnsKeeps(s: State, c: CallId, outcome: Outcome)
    requires Inv(s) && c in s.calls && s.calls[c].WorkerRunning?
    ensures Inv(DoOperationReturns(s, c, outcome))
  {
    var t := DoOperationReturns(s, c, outcome);
    assert FrameFresh(s, s.calls[c]);
    assert t.Log()[|s.Log()|] == Returned(s.calls[c].admitted, outcome.confirmation, Some(outcome));
    NewFrameKeeps(s, t, c);
  }

  lemma WorkerGotIdentityKeeps(s: State, c: CallId, identity: Option<Identity>)
    requires Inv(s) && c in s.calls && s.calls[c].WorkerIdentity?
    ensures Inv(DoWorkerGotIdentity(s, c, identity))
  {
    var f := s.calls[c];
    var t := DoWorkerGotIdentity(s, c, identity);
    assert FrameFresh(s, f);
    if t.confirmation.None? || t.confirmation == s.confirmation {
      NewFrameKeeps(s, t, c);
    } else {
      ReturnedLater(s.Log(), t.Log(), f.admitted, f.outcome.confirmation.value);
      assert Fresh(t.Log(), f.admitted);
      forall k | k in t.calls ensures FrameFresh(t, t.calls[k]) {
        if k != c { FrameStaysFresh(s, t, s.calls[k]); }
      }
    }
  }

  lemma ScheduleQuiet(s: State, a: ScheduleAction)
    requires ScheduleEnabled(s, a) && !a.ScheduleGotIdentity?
    ensures Quiet(s, ApplySchedule(s, a))
  {
    hide DoScheduleGotIdentity;
  }

  lemma OwnerQuiet(s: State, a: OwnerAction)
    requires OwnerEnabled(s, a)
    requires a.OptInStart? || a.OptInGotIdentity? || a.StatusStart? || a.CoordinatorAdvances?
    ensures Quiet(s, ApplyOwner(s, a))
  {
    hide DoSetNetwork, DoInvalidate, DoStatusGotIdentity, DoStatusGotConfirmation, DoStatusGotRecovery;
  }

  lemma DeliveryQuiet(s: State, a: DeliveryAction)
    requires DeliveryEnabled(s, a)
    requires a.DeliverRejects? || a.WorkerFinishes? || a.ExpireMarks? || a.ExpireFinishes?
    ensures Quiet(s, ApplyDelivery(s, a))
  {
    hide DoDeliver, DoDeliverInstalls, DoWorkerStarts, DoOperationReturns, DoWorkerGotIdentity;
  }

  lemma ScheduleStepKeeps(s: State, a: ScheduleAction)
    requires Inv(s) && ScheduleEnabled(s, a)
    ensures Inv(ApplySchedule(s, a))
  {
    hide DoScheduleStart, DoScheduleGotIdentity, DoNativeAnswers, DoScheduleGotPending, Quiet;
    if a.ScheduleGotIdentity? {
      ScheduleGotIdentityKeeps(s, a.call, a.identity, a.write);
    } else {
      ScheduleQuiet(s, a);
      QuietKeeps(s, ApplySchedule(s, a));
    }
  }

  lemma OwnerStepKeeps(s: State, a: OwnerAction)
    requires Inv(s) && OwnerEnabled(s, a)
    ensures Inv(ApplyOwner(s, a))
  {
    hide DoOptInStart, DoOptInGotIdentity, DoSetNetwork, DoInvalidate, DoStatusStart, DoStatusGotIdentity,
      DoStatusGotConfirmation, DoStatusGotRecovery, DoCoordinatorAdvances, Quiet;
    match a
    case SetNetwork(network, write) => SetNetworkKeeps(s, network, write);
    case Invalidate(disable, write) => InvalidateKeeps(s, disable, write);
    case StatusGotIdentity(c, identity, write) => StatusGotIdentityKeeps(s, c, identity, write);
    case StatusGotConfirmation(c, found) => StatusGotConfirmationKeeps(s, c, found);
    case StatusGotRecovery(c) => StatusGotRecoveryKeeps(s, c);
    case _ =>
      OwnerQuiet(s, a);
      QuietKeeps(s, ApplyOwner(s, a));
  }

  lemma DeliveryStepKeeps(s: State, a: DeliveryAction)
    requires Inv(s) && DeliveryEnabled(s, a)
    ensures Inv(ApplyDelivery(s, a))
  {
    hide DoDeliver, DoDeliverRejects, DoOperationReturns, DoWorkerGotIdentity, DoWorkerFinishes, DoExpireMarks,
      DoExpireFinishes, Quiet;
    match a
    case Deliver(d, available, lowPower) => DeliverKeeps(s, d, available, lowPower);
    case DeliverInstalls(c) => NewFrameKeeps(s, DoDeliverInstalls(s, c), c);
    case WorkerStarts(c) => NewFrameKeeps(s, DoWorkerStarts(s, c), c);
    case OperationReturns(c, outcome) => OperationReturnsKeeps(s, c, outcome);
    case WorkerGotIdentity(c, identity) => WorkerGotIdentityKeeps(s, c, identity);
    case _ =>
      DeliveryQuiet(s, a);
      QuietKeeps(s, ApplyDelivery(s, a));
  }

  lemma {:induction false} RunKeepsInv(launch: Launch, run: seq<Action>)
    ensures Exec(launch, run).Some? ==> Inv(Exec(launch, run).value)
  {
    if run != [] {
      RunKeepsInv(launch, run[..|run| - 1]);
      var before := Exec(launch, run[..|run| - 1]);
      if Exec(launch, run).Some? {
        match run[|run| - 1]
        case Scheduling(a) => ScheduleStepKeeps(before.value, a);
        case Owning(a) => OwnerStepKeeps(before.value, a);
        case Delivering(a) => DeliveryStepKeeps(before.value, a);
        case Relaunching(readable) =>
      }
    }
  }

  /**
   In every run, what `lastConfirmation` holds was returned by an operation admitted, or a fetch begun,
   after the most recent invalidation.
   */
  lemma ConfirmationsAreFresh(launch: Launch, run: seq<Action>)
    requires Exec(launch, run).Some?
    ensures ConfirmationFresh(Exec(launch, run).value)
  {
    RunKeepsInv(launch, run);
  }
}
