/** Expiration always reaches the worker, whether it comes before, during or after its installation. */
module RefreshExpiry {
  import opened Options
  import opened RefreshModel
  import D = RefreshDelivery

  /** A worker whose delivery knows about it. */
  predicate InstalledWorker(f: Call) { f.WorkerReady? || f.WorkerRunning? || f.WorkerIdentity? }

  /** The worker was cancelled, or an expiration handler holding it is about to cancel it. */
  ghost predicate Reached(s: State, c: CallId) {
    c in s.shared.cancelled || exists e :: e in s.calls && s.calls[e].Expiring? && s.calls[e].task == Some(c)
  }

  ghost predicate FrameReachable(s: State, c: CallId, f: Call) {
    && (f.Expiring? ==> Get(s.shared, f.delivery).expired)
    && (f.Finishing? ==> s.active.None?)
    && (f.Rejecting? ==> s.active != Some(f.delivery))
    && (InstalledWorker(f) ==>
          Reached(s, c) || (!Get(s.shared, f.delivery).expired && Get(s.shared, f.delivery).worker == Some(c)))
  }

  ghost predicate Inv(s: State) {
    forall c :: c in s.calls ==> FrameReachable(s, c, s.calls[c])
  }

  // ---------------------------------------------------------------- preservation

  /** Frames and `active` move only as far as this property cares. */
  ghost predicate SameFrames(s: State, t: State) {
    && t.active == s.active && s.shared.cancelled <= t.shared.cancelled
    && (forall c :: c in t.calls && (t.calls[c].Expiring? || t.calls[c].Finishing? || t.calls[c].Rejecting?
                                     || InstalledWorker(t.calls[c])) ==>
          c in s.calls && t.calls[c] == s.calls[c])
    && (forall c :: c in s.calls && s.calls[c].Expiring? ==> c in t.calls && t.calls[c] == s.calls[c])
  }

  ghost predicate Quiet(s: State, t: State) {
    SameFrames(s, t) && t.shared.deliveries == s.shared.deliveries
  }

  lemma StillReached(s: State, t: State, c: CallId)
    requires Reached(s, c) && s.shared.cancelled <= t.shared.cancelled
    requires forall e :: e in s.calls && s.calls[e].Expiring? && s.calls[e].task == Some(c) ==>
               c in t.shared.cancelled || (e in t.calls && t.calls[e] == s.calls[e])
    ensures Reached(t, c)
  {
    if c !in s.shared.cancelled {
      var e :| e in s.calls && s.calls[e].Expiring? && s.calls[e].task == Some(c);
      assert c in t.shared.cancelled || t.calls[e].Expiring?;
    }
  }

  lemma QuietKeeps(s: State, t: State)
    requires Inv(s) && Quiet(s, t)
    ensures Inv(t)
  {
    forall c | c in t.calls ensures FrameReachable(t, c, t.calls[c]) {
      if c in s.calls && t.calls[c] == s.calls[c] {
        assert FrameReachable(s, c, s.calls[c]);
        if Reached(s, c) { StillReached(s, t, c); }
      }
    }
  }

  lemma ExpireMarksKeeps(s: State, d: DeliveryId)
    requires Inv(s) && forall c :: c in s.calls ==> c < s.nextCall
    ensures Inv(DoExpireMarks(s, d))
  {
    var t := DoExpireMarks(s, d);
    assert t.calls[s.nextCall].Expiring?;
    forall c | c in t.calls ensures FrameReachable(t, c, t.calls[c]) {
      if c != s.nextCall {
        assert t.calls[c] == s.calls[c] && FrameReachable(s, c, s.calls[c]);
        if Reached(s, c) { StillReached(s, t, c); }
      }
    }
  }

  lemma MarkActiveKeeps(s: State)
    requires Inv(s) && forall c :: c in s.calls ==> c < s.nextCall
    ensures Inv(MarkActive(s))
  {
    if s.active.Some? { ExpireMarksKeeps(s, s.active.value); }
  }

  lemma InvalidateKeeps(s: State, disable: bool, write: WriteOutcome)
    requires Inv(s) && forall c :: c in s.calls ==> c < s.nextCall
    ensures Inv(DoInvalidate(s, disable, write))
  {
    MarkActiveKeeps(s);
    hide MarkActive;
    QuietKeeps(MarkActive(s), DoInvalidate(s, disable, write));
  }

  lemma SetNetworkKeeps(s: State, network: Network, write: WriteOutcome)
    requires Inv(s) && forall c :: c in s.calls ==> c < s.nextCall
    ensures Inv(DoSetNetwork(s, network, write))
  {
    MarkActiveKeeps(s);
    hide MarkActive;
    QuietKeeps(MarkActive(s), DoSetNetwork(s, network, write));
  }

  lemma ScheduleQuiet(s: State, a: ScheduleAction)
    requires ScheduleEnabled(s, a) && !a.ScheduleGotIdentity? && forall c :: c in s.calls ==> c < s.nextCall
    ensures Quiet(s, ApplySchedule(s, a))
  {
    hide DoScheduleGotIdentity;
    if a.ScheduleGotPending? { hide DoScheduleStart, DoNativeAnswers; } else { hide DoScheduleGotPending; }
  }

  lemma ScheduleGotIdentityKeeps(s: State, c: CallId, identity: Option<Identity>, write: WriteOutcome)
    requires Inv(s) && c in s.calls && s.calls[c].ScheduleIdentity? && forall k :: k in s.calls ==> k < s.nextCall
    ensures Inv(DoScheduleGotIdentity(s, c, identity, write))
  {
    hide DoInvalidate;
    var f := s.calls[c];
    if identity.Some? && f.rev == s.revision && identity != f.saved.identity {
      QuietKeeps(s, EndSchedule(s, c));
      InvalidateKeeps(EndSchedule(s, c), true, write);
    } else {
      QuietKeeps(s, DoScheduleGotIdentity(s, c, identity, write));
    }
  }

  lemma OwnerQuiet(s: State, a: OwnerAction)
    requires OwnerEnabled(s, a) && !a.SetNetwork? && !a.Invalidate? && !a.StatusGotIdentity?
    requires forall c :: c in s.calls ==> c < s.nextCall
    ensures Quiet(s, ApplyOwner(s, a))
  {
    hide DoSetNetwork, DoInvalidate, DoStatusGotIdentity;
  }

  lemma StatusGotIdentityKeeps(s: State, c: CallId, identity: Option<Identity>, write: WriteOutcome)
    requires Inv(s) && c in s.calls && s.calls[c].StatusIdentity? && forall k :: k in s.calls ==> k < s.nextCall
    ensures Inv(DoStatusGotIdentity(s, c, identity, write))
  {
    hide DoInvalidate;
    if StatusMismatch(s, c, identity) {
      QuietKeeps(s, s.(calls := s.calls - {c}));
      InvalidateKeeps(s.(calls := s.calls - {c}), true, write);
    } else {
      QuietKeeps(s, DoStatusGotIdentity(s, c, identity, write));
    }
  }

  lemma OwnerStepKeeps(s: State, a: OwnerAction)
    requires Inv(s) && OwnerEnabled(s, a) && forall c :: c in s.calls ==> c < s.nextCall
    ensures Inv(ApplyOwner(s, a))
  {
    hide DoOptInStart, DoOptInGotIdentity, DoSetNetwork, DoInvalidate, DoStatusStart, DoStatusGotIdentity,
      DoStatusGotConfirmation, DoStatusGotRecovery, DoCoordinatorAdvances, Quiet;
    match a
    case SetNetwork(network, write) => SetNetworkKeeps(s, network, write);
    case Invalidate(disable, write) => InvalidateKeeps(s, disable, write);
    case StatusGotIdentity(c, identity, write) => StatusGotIdentityKeeps(s, c, identity, write);
    case _ =>
      OwnerQuiet(s, a);
      QuietKeeps(s, ApplyOwner(s, a));
  }

  lemma DeliverKeeps(s: State, d: DeliveryId, available: bool, lowPower: bool)
    requires Inv(s) && D.Inv(s) && s.holder.None?
    ensures Inv(DoDeliver(s, d, available, lowPower))
  {
    var t := DoDeliver(s, d, available, lowPower);
    forall c | c in t.calls ensures FrameReachable(t, c, t.calls[c]) {
      if c in s.calls {
        assert t.calls[c] == s.calls[c] && FrameReachable(s, c, s.calls[c]);
        assert forall e :: Get(t.shared, e) == Get(s.shared, e);
        if Reached(s, c) { StillReached(s, t, c); }
      }
    }
  }

  /** A worker's frame moves on; what its delivery remembers does not change, except at installation. */
  lemma WorkerMoves(s: State, c: CallId, t: State)
    requires Inv(s) && D.Inv(s) && c in s.calls && s.calls[c].IsWorker()
    requires c in t.calls && t.calls == s.calls[c := t.calls[c]] && FrameReachable(t, c, t.calls[c])
    requires s.shared.cancelled <= t.shared.cancelled && (t.active == s.active || t.active.None?)
    requires forall d :: d != s.calls[c].delivery ==> Get(t.shared, d) == Get(s.shared, d)
    requires Get(t.shared, s.calls[c].delivery).expired == Get(s.shared, s.calls[c].delivery).expired
    ensures Inv(t)
  {
    forall k | k in t.calls ensures FrameReachable(t, k, t.calls[k]) {
      if k != c {
        assert t.calls[k] == s.calls[k] && FrameReachable(s, k, s.calls[k]);
        if Reached(s, k) { StillReached(s, t, k); }
      }
    }
  }

  lemma DeliverInstallsKeeps(s: State, c: CallId)
    requires Inv(s) && D.Inv(s) && c in s.calls && s.calls[c].Installing?
    ensures Inv(DoDeliverInstalls(s, c))
  {
    WorkerMoves(s, c, DoDeliverInstalls(s, c));
  }

  lemma WorkerStartsKeeps(s: State, c: CallId)
    requires Inv(s) && D.Inv(s) && c in s.calls && s.calls[c].WorkerReady?
    ensures Inv(DoWorkerStarts(s, c))
  {
    assert FrameReachable(s, c, s.calls[c]);
    if Reached(s, c) { StillReached(s, DoWorkerStarts(s, c), c); }
    WorkerMoves(s, c, DoWorkerStarts(s, c));
  }

  lemma OperationReturnsKeeps(s: State, c: CallId, outcome: Outcome)
    requires Inv(s) && D.Inv(s) && c in s.calls && s.calls[c].WorkerRunning?
    ensures Inv(DoOperationReturns(s, c, outcome))
  {
    hide D.Inv;
    var t := DoOperationReturns(s, c, outcome);
    assert FrameReachable(s, c, s.calls[c]);
    assert forall d :: Get(t.shared, d) == Get(s.shared, d);
    if Reached(s, c) { StillReached(s, t, c); }
    WorkerMoves(s, c, t);
  }

  lemma WorkerGotIdentityKeeps(s: State, c: CallId, identity: Option<Identity>)
    requires Inv(s) && D.Inv(s) && c in s.calls && s.calls[c].WorkerIdentity?
    ensures Inv(DoWorkerGotIdentity(s, c, identity))
  {
    hide D.Inv;
    assert forall d :: Get(DoWorkerGotIdentity(s, c, identity).shared, d) == Get(s.shared, d);
    WorkerMoves(s, c, DoWorkerGotIdentity(s, c, identity));
  }

  lemma HolderFinishes(s: State, c: CallId, success: bool)
    requires Inv(s) && D.Inv(s) && c in s.calls && (s.calls[c].Rejecting? || s.calls[c].Finishing?)
    ensures Inv(s.(calls := s.calls - {c}, holder := None,
                   shared := Finish(s.shared, s.calls[c].delivery, success, s.policy)))
  {
    var d := s.calls[c].delivery;
    var t := s.(calls := s.calls - {c}, holder := None, shared := Finish(s.shared, d, success, s.policy));
    assert FrameReachable(s, c, s.calls[c]);
    forall k | k in t.calls ensures FrameReachable(t, k, t.calls[k]) {
      assert t.calls[k] == s.calls[k] && FrameReachable(s, k, s.calls[k]);
      if Reached(s, k) { StillReached(s, t, k); }
    }
  }

  lemma ExpireFinishesKeeps(s: State, c: CallId)
    requires Inv(s) && c in s.calls && s.calls[c].Expiring?
    ensures Inv(DoExpireFinishes(s, c))
  {
    var f := s.calls[c];
    var t := DoExpireFinishes(s, c);
    assert FrameReachable(s, c, f);
    assert forall e :: Get(t.shared, e).expired == Get(s.shared, e).expired;
    assert forall e :: e != f.delivery ==> Get(t.shared, e) == Get(s.shared, e);
    forall k | k in t.calls ensures FrameReachable(t, k, t.calls[k]) {
      assert t.calls[k] == s.calls[k] && FrameReachable(s, k, s.calls[k]);
      if Reached(s, k) { StillReached(s, t, k); }
    }
  }

  lemma DeliveryStepKeeps(s: State, a: DeliveryAction)
    requires Inv(s) && D.Inv(s) && DeliveryEnabled(s, a)
    ensures Inv(ApplyDelivery(s, a))
  {
    hide DoDeliver, DoDeliverInstalls, DoWorkerStarts, DoOperationReturns, DoWorkerGotIdentity, DoExpireMarks,
      DoExpireFinishes, Inv;
    match a
    case Deliver(d, available, lowPower) => DeliverKeeps(s, d, available, lowPower);
    case DeliverRejects(c) => HolderFinishes(s, c, false);
    case DeliverInstalls(c) => DeliverInstallsKeeps(s, c);
    case WorkerStarts(c) => WorkerStartsKeeps(s, c);
    case OperationReturns(c, outcome) => OperationReturnsKeeps(s, c, outcome);
    case WorkerGotIdentity(c, identity) => WorkerGotIdentityKeeps(s, c, identity);
    case WorkerFinishes(c) => HolderFinishes(s, c, s.calls[c].success);
    case ExpireMarks(d) => ExpireMarksKeeps(s, d);
    case ExpireFinishes(c) => ExpireFinishesKeeps(s, c);
  }

  lemma ScheduleStepKeeps(s: State, a: ScheduleAction)
    requires Inv(s) && ScheduleEnabled(s, a) && forall c :: c in s.calls ==> c < s.nextCall
    ensures Inv(ApplySchedule(s, a))
  {
    hide DoScheduleStart, DoScheduleGotIdentity, DoNativeAnswers, DoScheduleGotPending, Quiet;
    if a.ScheduleGotIdentity? {
      ScheduleGotIdentityKeeps(s, a.call, a.identity, a.write);
    } else {
      ScheduleQuiet(s, a);
      QuietKeeps(s, ApplySchedule(s, a));
    }
  }

  lemma {:induction false} RunKeepsInv(launch: Launch, run: seq<Action>)
    ensures Exec(launch, run).Some? ==> Inv(Exec(launch, run).value)
  {
    if run != [] {
      RunKeepsInv(launch, run[..|run| - 1]);
      var before := Exec(launch, run[..|run| - 1]);
      D.RunKeepsInv(launch, run[..|run| - 1]);
      if Exec(launch, run).Some? {
        match run[|run| - 1]
        case Scheduling(a) => ScheduleStepKeeps(before.value, a);
        case Owning(a) => OwnerStepKeeps(before.value, a);
        case Delivering(a) => DeliveryStepKeeps(before.value, a);
        case Relaunching(readable) =>
      }
    }
  }

  /**
   In every run, a worker installed for a delivery that has expired is cancelled by the time no
   expiration handler of that delivery is half way.
   */
  lemma ExpirationReachesTheWorker(launch: Launch, run: seq<Action>, c: CallId)
    requires Exec(launch, run).Some? && c in Exec(launch, run).value.calls
    requires InstalledWorker(Exec(launch, run).value.calls[c])
    requires var s := Exec(launch, run).value;
      && Get(s.shared, s.calls[c].delivery).expired
      && forall e :: e in s.calls && s.calls[e].Expiring? ==> s.calls[e].task != Some(c)
    ensures c in Exec(launch, run).value.shared.cancelled
  {
    RunKeepsInv(launch, run);
    assert FrameReachable(Exec(launch, run).value, c, Exec(launch, run).value.calls[c]);
  }
}
