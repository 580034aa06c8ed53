/** A delivery reports success only for work that its operation said was done. */
module RefreshOutcome {
  import opened Options
  import opened RefreshModel

  /** The operation completed, or did part of its work and some of it. */
  predicate Worked(o: Outcome) { o.state == Completed || (o.state == Partial && o.pages > 0) }

  /** The operation admitted at position `i` returned this outcome. */
  ghost predicate ReturnedWith(log: seq<Event>, i: nat, o: Outcome) {
    exists k :: i < k < |log| && log[k] == Returned(i, o.confirmation, Some(o))
  }

  predicate AdmittedAt(log: seq<Event>, i: nat, d: DeliveryId) {
    i < |log| && log[i].Admitted? && log[i].delivery == d
  }

  /** Before position `j` the delivery was admitted, and its operation returned that it worked. */
  ghost predicate SuccessEarned(log: seq<Event>, j: int)
    requires 0 <= j < |log| && log[j].Finished?
  {
    exists i, o :: AdmittedAt(log[..j], i, log[j].delivery) && ReturnedWith(log[..j], i, o) && Worked(o)
  }

  ghost predicate AllEarned(log: seq<Event>) {
    forall j :: 0 <= j < |log| && log[j].Finished? && log[j].success ==> SuccessEarned(log, j)
  }

  ghost predicate FrameTrue(log: seq<Event>, f: Call) {
    && (f.IsWorker() || f.Finishing? ==> AdmittedAt(log, f.admitted, f.delivery))
    && (f.WorkerIdentity? ==> ReturnedWith(log, f.admitted, f.outcome))
    && (f.Finishing? && f.success ==> exists o :: ReturnedWith(log, f.admitted, o) && Worked(o))
  }

  ghost predicate Inv(s: State) {
    AllEarned(s.Log()) && forall c :: c in s.calls ==> FrameTrue(s.Log(), s.calls[c])
  }

  // ---------------------------------------------------------------- preservation

  lemma ReturnedLater(log: seq<Event>, longer: seq<Event>, i: nat, o: Outcome)
    requires ReturnedWith(log, i, o) && log <= longer
    ensures ReturnedWith(longer, i, o)
  {
    var k :| i < k < |log| && log[k] == Returned(i, o.confirmation, Some(o));
    assert longer[k] == log[k];
  }

  lemma FrameLater(log: seq<Event>, longer: seq<Event>, f: Call)
    requires FrameTrue(log, f) && log <= longer
    ensures FrameTrue(longer, f)
  {
    if f.WorkerIdentity? { ReturnedLater(log, longer, f.admitted, f.outcome); }
    if f.Finishing? && f.success {
      var o :| ReturnedWith(log, f.admitted, o) && Worked(o);
      ReturnedLater(log, longer, f.admitted, o);
    }
  }

  lemma EarnedLater(log: seq<Event>, longer: seq<Event>)
    requires AllEarned(log) && log <= longer
    requires forall j :: |log| <= j < |longer| && longer[j].Finished? && longer[j].success ==> SuccessEarned(longer, j)
    ensures AllEarned(longer)
  {
    hide SuccessEarned;
    forall j | 0 <= j < |longer| && longer[j].Finished? && longer[j].success ensures SuccessEarned(longer, j) {
      if j < |log| {
        assert log[j] == longer[j];
        EarnedStill(log, longer, j);
      }
    }
  }

  lemma EarnedStill(log: seq<Event>, longer: seq<Event>, j: int)
    requires 0 <= j < |log| && log[j].Finished? && SuccessEarned(log, j) && log <= longer
    ensures SuccessEarned(longer, j)
  {
    assert log[..j] == longer[..j];
  }

  /** Calls that are new or moved on are accounted for, and so are new successes. */
  lemma StepKeeps(s: State, t: State)
    requires Inv(s) && s.Log() <= t.Log()
    requires forall c :: c in t.calls ==> (c in s.calls && t.calls[c] == s.calls[c]) || FrameTrue(t.Log(), t.calls[c])
    requires forall j :: |s.Log()| <= j < |t.Log()| && t.Log()[j].Finished? && t.Log()[j].success ==>
               SuccessEarned(t.Log(), j)
    ensures Inv(t)
  {
    hide AllEarned, FrameTrue, SuccessEarned;
    EarnedLater(s.Log(), t.Log());
    forall c | c in t.calls ensures FrameTrue(t.Log(), t.calls[c]) {
      if c in s.calls && t.calls[c] == s.calls[c] { FrameLater(s.Log(), t.Log(), s.calls[c]); }
    }
  }

  /** Calls that answer for no delivery need no account. */
  lemma OthersAreTrue(log: seq<Event>, f: Call)
    requires !f.IsWorker() && !f.Finishing?
    ensures FrameTrue(log, f)
  {
  }

  /** A step that neither touches workers nor reports a success. */
  ghost predicate Quiet(s: State, t: State) {
    && s.Log() <= t.Log()
    && (forall c :: c in t.calls && (t.calls[c].IsWorker() || t.calls[c].Finishing?) ==>
          c in s.calls && t.calls[c] == s.calls[c])
    && (forall j :: |s.Log()| <= j < |t.Log()| && t.Log()[j].Finished? ==> !t.Log()[j].success)
  }

  lemma QuietKeeps(s: State, t: State)
    requires Inv(s) && Quiet(s, t)
    ensures Inv(t)
  {
    hide Inv, FrameTrue, SuccessEarned;
    forall c | c in t.calls && !(c in s.calls && t.calls[c] == s.calls[c]) ensures FrameTrue(t.Log(), t.calls[c]) {
      OthersAreTrue(t.Log(), t.calls[c]);
    }
    StepKeeps(s, t);
  }

  lemma ScheduleQuiet(s: State, a: ScheduleAction)
    requires ScheduleEnabled(s, a)
    ensures Quiet(s, ApplySchedule(s, a))
  {
    hide DoInvalidate;
    if a.ScheduleGotIdentity? { InvalidateQuiet(EndSchedule(s, a.call), true, a.write); }
  }

  lemma InvalidateQuiet(s: State, disable: bool, write: WriteOutcome)
    ensures Quiet(s, DoInvalidate(s, disable, write))
  {
  }

  lemma OwnerQuiet(s: State, a: OwnerAction)
    requires OwnerEnabled(s, a)
    ensures Quiet(s, ApplyOwner(s, a))
  {
    hide DoInvalidate, DoOptInGotIdentity, DoSetNetwork, DoStatusGotIdentity;
    match a
    case Invalidate(disable, write) => InvalidateQuiet(s, disable, write);
    case SetNetwork(network, write) => NetworkQuiet(s, network, write);
    case StatusGotIdentity(c, identity, write) => StatusQuiet(s, c, identity, write);
    case OptInGotIdentity(c, identity, valid, write) => OptInQuiet(s, c, identity, valid, write);
    case _ =>
  }

  lemma NetworkQuiet(s: State, network: Network, write: WriteOutcome)
    ensures Quiet(s, DoSetNetwork(s, network, write))
  {
  }

  lemma StatusQuiet(s: State, c: CallId, identity: Option<Identity>, write: WriteOutcome)
    requires c in s.calls && s.calls[c].StatusIdentity?
    ensures Quiet(s, DoStatusGotIdentity(s, c, identity, write))
  {
    hide DoInvalidate;
    InvalidateQuiet(s.(calls := s.calls - {c}), true, write);
  }

  lemma OptInQuiet(s: State, c: CallId, identity: Option<Identity>, valid: bool, write: WriteOutcome)
    requires c in s.calls && s.calls[c].OptIn?
    ensures Quiet(s, DoOptInGotIdentity(s, c, identity, valid, write))
  {
  }

  lemma DeliverKeeps(s: State, d: DeliveryId, available: bool, lowPower: bool)
    requires Inv(s)
    ensures Inv(DoDeliver(s, d, available, lowPower))
  {
    var t := DoDeliver(s, d, available, lowPower);
    if |t.Log()| == |s.Log()| {
      QuietKeeps(s, t);
    } else {
      hide Inv, SuccessEarned;
      assert AdmittedAt(t.Log(), |s.Log()|, d);
      StepKeeps(s, t);
    }
  }

  lemma WorkerGoesOn(s: State, c: CallId, t: State, f: Call)
    requires Inv(s) && c in s.calls && s.calls[c].IsWorker() && t.calls == s.calls[c := f] && t.Log() == s.Log()
    requires (f.WorkerReady? || f.WorkerRunning?)
             && f.admitted == s.calls[c].admitted && f.delivery == s.calls[c].delivery
    ensures Inv(t)
  {
    assert FrameTrue(s.Log(), s.calls[c]);
    StepKeeps(s, t);
  }

  lemma OperationReturnsKeeps(s: State, c: CallId, outcome: Outcome)
    requires Inv(s) && c in s.calls && s.calls[c].WorkerRunning?
    ensures Inv(DoOperationReturns(s, c, outcome))
  {
    var t := DoOperationReturns(s, c, outcome);
    assert FrameTrue(s.Log(), s.calls[c]);
    assert t.Log()[|s.Log()|] == Returned(s.calls[c].admitted, outcome.confirmation, Some(outcome));
    assert ReturnedWith(t.Log(), s.calls[c].admitted, outcome);
    assert t.Log()[s.calls[c].admitted] == s.Log()[s.calls[c].admitted];
    hide Inv, SuccessEarned, ReturnedWith;
    assert outcome.TaskSucceeded() ==> Worked(outcome);
    StepKeeps(s, t);
  }

  lemma WorkerGotIdentityKeeps(s: State, c: CallId, identity: Option<Identity>)
    requires Inv(s) && c in s.calls && s.calls[c].WorkerIdentity?
    ensures Inv(DoWorkerGotIdentity(s, c, identity))
  {
    var t := DoWorkerGotIdentity(s, c, identity);
    var f := s.calls[c];
    assert FrameTrue(s.Log(), f);
    ReturnedLater(s.Log(), t.Log(), f.admitted, f.outcome);
    assert t.Log()[f.admitted] == s.Log()[f.admitted];
    hide Inv, SuccessEarned, ReturnedWith;
    assert f.outcome.TaskSucceeded() ==> Worked(f.outcome);
    StepKeeps(s, t);
  }

  lemma WorkerFinishesKeeps(s: State, c: CallId)
    requires Inv(s) && c in s.calls && s.calls[c].Finishing?
    ensures Inv(DoWorkerFinishes(s, c))
  {
    var t := DoWorkerFinishes(s, c);
    var f, n := s.calls[c], |s.Log()|;
    assert FrameTrue(s.Log(), f);
    assert t.Log()[..n] == s.Log();
    if |t.Log()| > n && t.Log()[n].success {
      var o :| ReturnedWith(s.Log(), f.admitted, o) && Worked(o);
      assert SuccessEarned(t.Log(), n);
    }
    hide Inv, SuccessEarned, FrameTrue;
    StepKeeps(s, t);
  }

  lemma FinishFails(s: State, c: CallId, shared: Shared, d: DeliveryId, policy: Policy)
    requires Inv(s) && shared.log == s.Log()
    ensures Inv(s.(calls := s.calls - {c}, holder := None, shared := Finish(shared, d, false, policy)))
    ensures Inv(s.(calls := s.calls - {c}, shared := Finish(shared, d, false, policy)))
  {
    hide FrameTrue;
    QuietKeeps(s, s.(calls := s.calls - {c}, holder := None, shared := Finish(shared, d, false, policy)));
    QuietKeeps(s, s.(calls := s.calls - {c}, shared := Finish(shared, d, false, policy)));
  }

  lemma DeliveryStepKeeps(s: State, a: DeliveryAction)
    requires Inv(s) && DeliveryEnabled(s, a)
    ensures Inv(ApplyDelivery(s, a))
  {
    hide DoDeliver, DoOperationReturns, DoWorkerGotIdentity, DoWorkerFinishes, Inv, Finish;
    match a
    case Deliver(d, available, lowPower) => DeliverKeeps(s, d, available, lowPower);
    case DeliverRejects(c) => FinishFails(s, c, s.shared, s.calls[c].delivery, s.policy);
    case DeliverInstalls(c) => WorkerGoesOn(s, c, DoDeliverInstalls(s, c), DoDeliverInstalls(s, c).calls[c]);
    case WorkerStarts(c) => WorkerGoesOn(s, c, DoWorkerStarts(s, c), DoWorkerStarts(s, c).calls[c]);
    case OperationReturns(c, outcome) => OperationReturnsKeeps(s, c, outcome);
    case WorkerGotIdentity(c, identity) => WorkerGotIdentityKeeps(s, c, identity);
    case WorkerFinishes(c) => WorkerFinishesKeeps(s, c);
    case ExpireMarks(d) => MarksQuietly(s, d); QuietKeeps(s, DoExpireMarks(s, d));
    case ExpireFinishes(c) =>
      FinishFails(s, c, CancelTask(s.shared, s.calls[c].task), s.calls[c].delivery, s.policy);
  }

  lemma MarksQuietly(s: State, d: DeliveryId)
    ensures Quiet(s, DoExpireMarks(s, d))
  {
  }

  lemma {:induction false} RunKeepsInv(launch: Launch, run: seq<Action>)
    ensures Exec(launch, run).Some? ==> Inv(Exec(launch, run).value)
  {
    hide ApplySchedule, ApplyOwner, ApplyDelivery, ScheduleEnabled, OwnerEnabled, DeliveryEnabled;
    if run != [] {
      RunKeepsInv(launch, run[..|run| - 1]);
      var before := Exec(launch, run[..|run| - 1]);
      if Exec(launch, run).Some? {
        match run[|run| - 1]
        case Scheduling(a) =>
          ScheduleQuiet(before.value, a);
          QuietKeeps(before.value, ApplySchedule(before.value, a));
        case Owning(a) =>
          OwnerQuiet(before.value, a);
          QuietKeeps(before.value, ApplyOwner(before.value, a));
        case Delivering(a) => DeliveryStepKeeps(before.value, a);
        case Relaunching(readable) => QuietKeeps(before.value, DoRelaunch(before.value, readable));
      }
    }
  }

  /**
   In every run a delivery that reports success was admitted, and its operation returned that it had completed, or had
   done part of its work and transferred at least one page.
   */
  lemma SuccessIsEarned(launch: Launch, run: seq<Action>)
    requires Exec(launch, run).Some?
    ensures AllEarned(Exec(launch, run).value.Log())
  {
    RunKeepsInv(launch, run);
  }
}
