/**
 What the scheduler does when nothing disturbs it, from every reachable state, and what it never does without power:
 the counterpart of the theorems that say what cannot happen.
 */
module RefreshProgress {
  import opened Options
  import opened RefreshModel
  import Submission = RefreshSubmission

  // ---------------------------------------------------------------- power and availability

  predicate Uses(e: Event) { e.Submitted? || e.Admitted? }

  /** The step may submit or admit: it saw background refresh available and the device not in low power mode. */
  predicate Powered(a: Action) {
    match a
    case Scheduling(ScheduleGotPending(_, available, lowPower, _, _, _, _)) => available && !lowPower
    case Delivering(Deliver(_, available, lowPower)) => available && !lowPower
    case _ => false
  }

  /** New events are uses only where the step was powered. */
  ghost predicate UsesPowered(s: State, a: Action, t: State) {
    s.Log() <= t.Log() && forall i :: |s.Log()| <= i < |t.Log()| && Uses(t.Log()[i]) ==> Powered(a)
  }

  lemma SchedulePowered(s: State, a: ScheduleAction)
    requires ScheduleEnabled(s, a)
    ensures UsesPowered(s, Scheduling(a), ApplySchedule(s, a))
  {
  }

  lemma OwnerPowered(s: State, a: OwnerAction)
    requires OwnerEnabled(s, a)
    ensures UsesPowered(s, Owning(a), ApplyOwner(s, a))
  {
    hide DoInvalidate;
    if a.Invalidate? { InvalidateUsesNothing(s, a.disable, a.write); }
    if a.StatusGotIdentity? { InvalidateUsesNothing(s.(calls := s.calls - {a.call}), true, a.write); }
  }

  lemma InvalidateUsesNothing(s: State, disable: bool, write: WriteOutcome)
    ensures var t := DoInvalidate(s, disable, write);
      s.Log() <= t.Log() && forall i :: |s.Log()| <= i < |t.Log()| ==> !Uses(t.Log()[i])
  {
  }

  lemma DeliveryPowered(s: State, a: DeliveryAction)
    requires DeliveryEnabled(s, a)
    ensures UsesPowered(s, Delivering(a), ApplyDelivery(s, a))
  {
  }

  lemma StepPowered(s: State, a: Action)
    requires Enabled(s, a)
    ensures UsesPowered(s, a, Apply(s, a))
  {
    hide UsesPowered, ApplySchedule, ApplyOwner, ApplyDelivery;
    match a
    case Scheduling(x) => SchedulePowered(s, x);
    case Owning(x) => OwnerPowered(s, x);
    case Delivering(x) => DeliveryPowered(s, x);
    case Relaunching(readable) => RelaunchPowered(s, readable);
  }

  lemma RelaunchPowered(s: State, readable: bool)
    ensures UsesPowered(s, Relaunching(readable), DoRelaunch(s, readable))
  {
  }

  /** In every run no step taken while refresh is unavailable or in low power mode submits or admits anything. */
  lemma NothingWithoutPower(launch: Launch, run: seq<Action>, a: Action)
    requires Exec(launch, run + [a]).Some? && !Powered(a)
    ensures Exec(launch, run).Some?
    ensures var before, after := Exec(launch, run).value.Log(), Exec(launch, run + [a]).value.Log();
      before <= after && forall i :: |before| <= i < |after| ==> !after[i].Submitted? && !after[i].Admitted?
  {
    hide Exec, Enabled, Apply;
    ExecAppended(launch, run, a);
    StepPowered(Exec(launch, run).value, a);
  }

  // ---------------------------------------------------------------- schedule

  /** A resumed `schedule` submits exactly when everything it was started for still holds and the write is stored. */
  lemma SubmitsIff(s: State, c: CallId, available: bool, lowPower: bool, guardAt: int, setAt: int, write: WriteOutcome,
                   accepted: bool)
    requires ScheduleEnabled(s, ScheduleGotPending(c, available, lowPower, guardAt, setAt, write, accepted))
    ensures var t := ApplySchedule(s, ScheduleGotPending(c, available, lowPower, guardAt, setAt, write, accepted));
      var f := s.calls[c];
      (|t.Log()| > |s.Log()| && t.Log()[|t.Log()| - 1].Submitted?) <==>
        && f.rev == s.revision && s.policy.enabled && s.policy.grant == f.saved.grant && available && !lowPower
        && f.answer == Some(false)
        && (f.saved.nextSubmissionAllowedAt.None? || f.saved.nextSubmissionAllowedAt.value <= guardAt)
        && write == Stored
  {
  }

  /** `schedule` may go through: refresh is on, set up, not withdrawn, cooled down, and nothing is in the way. */
  predicate MaySchedule(s: State, guardAt: int) {
    && s.policy.enabled && s.setup.registered && s.setup.installed && !s.withdrawn && !s.scheduling
    && s.outstanding == 0 && s.holder.None? && s.now <= guardAt
    && (s.policy.nextSubmissionAllowedAt.None? || s.policy.nextSubmissionAllowedAt.value <= guardAt)
  }

  /** One `schedule` with the stored identity and full power, its write stored and its submission accepted. */
  function ScheduleCall(s: State, guardAt: int, setAt: int): seq<Action> {
    [Scheduling(ScheduleStart(true, false)),
     Scheduling(ScheduleGotIdentity(s.nextCall, s.policy.identity, Stored)),
     Scheduling(NativeAnswers(s.nextCall)),
     Scheduling(ScheduleGotPending(s.nextCall, true, false, guardAt, setAt, Stored, true))]
  }

  /** The state after its first three steps. */
  function Asked(s: State): State {
    s.(settings := s.policy,
       scheduling := true,
       calls := s.calls[s.nextCall := SchedulePending(s.revision, s.policy, |s.Log()|, Some(false))],
       nextCall := s.nextCall + 1,
       shared := Note(s.shared, ScheduleBegan(s.policy)))
  }

  lemma ScheduleAsks(launch: Launch, run: seq<Action>, guardAt: int, setAt: int)
    requires Exec(launch, run).Some? && MaySchedule(Exec(launch, run).value, guardAt)
    requires Exec(launch, run).value.policy.identity.Some?
    ensures Exec(launch, run + ScheduleCall(Exec(launch, run).value, guardAt, setAt)[..3])
            == Some(Asked(Exec(launch, run).value))
  {
    hide Exec;
    var s := Exec(launch, run).value;
    var calls := ScheduleCall(s, guardAt, setAt);
    var a0, a1, a2, c := calls[0], calls[1], calls[2], s.nextCall;
    ExecAppends(launch, run, a0);
    var s1 := Apply(s, a0);
    assert s1.calls[c] == ScheduleIdentity(s.revision, s.policy, |s.Log()|);
    ExecAppends(launch, run + [a0], a1);
    var s2 := Apply(s1, a1);
    assert s2.calls == s.calls[c := SchedulePending(s.revision, s.policy, |s.Log()|, None)];
    ExecAppends(launch, run + [a0] + [a1], a2);
    var s3 := Apply(s2, a2);
    assert s3.calls == Asked(s).calls;
    assert run + [a0] + [a1] + [a2] == run + calls[..3];
  }

  /**
   From every reachable state in which `schedule` may go through, the undisturbed call ends with one submission under
   the policy it found and one pending request, and the next submission is six hours away.
   */
  lemma UndisturbedScheduleSubmits(launch: Launch, run: seq<Action>, guardAt: int, setAt: int)
    requires launch.Valid() && Exec(launch, run).Some? && guardAt <= setAt
    requires MaySchedule(Exec(launch, run).value, guardAt)
    ensures var s := Exec(launch, run).value;
      var end := Exec(launch, run + ScheduleCall(s, guardAt, setAt));
      && end.Some? && end.value.outstanding == 1 && !end.value.scheduling
      && end.value.Log() == s.Log() + [ScheduleBegan(s.policy), Submitted(|s.Log()|, s.policy, setAt)]
      && end.value.policy == s.policy.(nextSubmissionAllowedAt := Some(setAt + 21_600))
  {
    hide Exec;
    var s := Exec(launch, run).value;
    Submission.RunKeepsInv(launch, run);
    StoredHasIdentity(s);
    ScheduleAsks(launch, run, guardAt, setAt);
    var calls := ScheduleCall(s, guardAt, setAt);
    ExecAppends(launch, run + calls[..3], calls[3]);
    assert run + calls[..3] + [calls[3]] == run + calls;
    assert Asked(s).Log() + [Submitted(|s.Log()|, s.policy, setAt)]
           == s.Log() + [ScheduleBegan(s.policy), Submitted(|s.Log()|, s.policy, setAt)];
  }

  lemma StoredHasIdentity(s: State)
    requires Submission.Inv(s)
    ensures s.policy.enabled ==> s.policy.identity.Some?
    ensures s.policy.grant.Some? ==> s.policy.grant.value < s.nextGrant
  {
  }

  /** A `schedule` that finds itself withdrawn, off, not set up or without power cancels what is pending. */
  lemma IneligibleScheduleCancels(s: State, available: bool, lowPower: bool)
    requires ScheduleEnabled(s, ScheduleStart(available, lowPower)) && !s.scheduling
    requires || s.withdrawn || !s.policy.enabled || !s.setup.registered || !s.setup.installed || !available || lowPower
    ensures var t := ApplySchedule(s, ScheduleStart(available, lowPower));
      t.outstanding == 0 && t.calls == s.calls && t.Log() == s.Log() && t.store == s.store && !t.scheduling
  {
  }

  /** Without an identity `schedule` cancels what is pending, and `refreshStatus` shows no confirmation. */
  lemma MissingIdentityStops(s: State, c: CallId, write: WriteOutcome)
    requires s.holder.None? && c in s.calls
    ensures s.calls[c].ScheduleIdentity? ==>
              var t := ApplySchedule(s, ScheduleGotIdentity(c, None, write));
              && t.outstanding == 0 && !t.scheduling && t.calls == s.calls - {c} && t.store == s.store
              && t.Log() == s.Log()
    ensures s.calls[c].StatusIdentity? ==>
              var t := ApplyOwner(s, StatusGotIdentity(c, None, write));
              t.confirmation.None? && t.calls == s.calls - {c} && t.store == s.store && t.Log() == s.Log()
  {
  }

  /** Invalidating cancels, hides the confirmation and starts a new revision; only a withdrawal touches the policy. */
  lemma InvalidationTakesEffect(s: State, disable: bool, write: WriteOutcome)
    requires OwnerEnabled(s, Invalidate(disable, write))
    ensures var t := ApplyOwner(s, Invalidate(disable, write));
      && t.outstanding == 0 && t.confirmation.None? && t.revision == s.revision + 1 && t.active == s.active
      && t.withdrawn == (s.withdrawn || disable)
      && t.store == (if disable then Write(s.store, DISABLED, write) else s.store)
      && (disable ==> !t.settings.enabled)
      && (s.active.Some? ==> Get(t.shared, s.active.value).expired)
  {
  }

  /** The sync coordinator moves its cursor and nothing else. */
  lemma CursorAdvances(s: State, library: string)
    requires OwnerEnabled(s, CoordinatorAdvances(library, Stored))
    ensures ApplyOwner(s, CoordinatorAdvances(library, Stored))
            == s.(store := Store(s.policy.(afterLibrary := Some(library)), false))
  {
  }

  /** Another identity than the one that opted in withdraws, in `schedule` and in `refreshStatus`. */
  lemma OtherIdentityWithdraws(s: State, c: CallId, identity: Identity, write: WriteOutcome)
    requires s.holder.None? && c in s.calls
    requires || (&& s.calls[c].ScheduleIdentity? && s.calls[c].rev == s.revision
                 && Some(identity) != s.calls[c].saved.identity)
             || (&& s.calls[c].StatusIdentity? && s.calls[c].rev == s.revision
                 && s.settings.enabled && Some(identity) != s.settings.identity)
    ensures var t :=
        if s.calls[c].ScheduleIdentity? then ApplySchedule(s, ScheduleGotIdentity(c, Some(identity), write))
        else ApplyOwner(s, StatusGotIdentity(c, Some(identity), write));
      && t.withdrawn && t.outstanding == 0 && t.confirmation.None? && t.revision == s.revision + 1
      && t.store == Write(s.store, DISABLED, write) && !t.settings.enabled
  {
  }

  // ---------------------------------------------------------------- opt-in and network

  /** The calls of one opt-in of a valid identity whose write is stored. */
  function OptInCall(s: State, identity: Identity): seq<Action> {
    [Owning(OptInStart), Owning(OptInGotIdentity(s.nextCall, Some(identity), true, Stored))]
  }

  /**
   From every reachable state in which the app is set up, an undisturbed opt-in turns refresh on for that identity under
   a grant that was never stored before, without a cooldown, and lifts the withdrawal of this process.
   */
  lemma UndisturbedOptIn(launch: Launch, run: seq<Action>, identity: Identity)
    requires launch.Valid() && Exec(launch, run).Some?
    requires Exec(launch, run).value.setup.installed && Exec(launch, run).value.holder.None?
    ensures var s := Exec(launch, run).value;
      var end := Exec(launch, run + OptInCall(s, identity));
      && end.Some? && !end.value.withdrawn && end.value.Log() == s.Log() + [OptedIn(|s.Log()|, true)]
      && end.value.policy
         == Policy(true, s.policy.network, Some(identity), end.value.policy.grant, None, None)
      && end.value.policy.grant.Some? && end.value.policy.grant != s.store.durable.grant
      && end.value.setup == s.setup && end.value.holder.None? && end.value.outstanding == s.outstanding
      && end.value.scheduling == s.scheduling && end.value.now == s.now
  {
    hide Exec;
    var s := Exec(launch, run).value;
    Submission.RunKeepsInv(launch, run);
    var a0, a1 := OptInCall(s, identity)[0], OptInCall(s, identity)[1];
    ExecAppends(launch, run, a0);
    var s1 := Apply(s, a0);
    assert s1.calls[s.nextCall] == OptIn(s.revision, |s.Log()|);
    ExecAppends(launch, run + [a0], a1);
    assert run + [a0] + [a1] == run + [a0, a1];
  }

  /** After it, a first `schedule` submits. */
  lemma OptInLeadsToSubmission(launch: Launch, run: seq<Action>, identity: Identity, guardAt: int, setAt: int)
    returns (more: seq<Action>)
    requires launch.Valid() && Exec(launch, run).Some? && guardAt <= setAt
    requires var s := Exec(launch, run).value;
      && s.setup.installed && s.setup.registered && s.holder.None? && !s.scheduling && s.outstanding == 0
      && s.now <= guardAt
    ensures Exec(launch, run + more).Some? && Exec(launch, run + more).value.outstanding == 1
    ensures var log := Exec(launch, run + more).value.Log();
      && log != [] && log[|log| - 1].Submitted? && log[|log| - 1].policy.identity == Some(identity)
      && log[|log| - 1].at == setAt
  {
    hide Exec;
    var s := Exec(launch, run).value;
    var first := OptInCall(s, identity);
    UndisturbedOptIn(launch, run, identity);
    var second := ScheduleCall(Exec(launch, run + first).value, guardAt, setAt);
    UndisturbedScheduleSubmits(launch, run + first, guardAt, setAt);
    more := first + second;
    assert run + more == (run + first) + second;
  }

  /** A stored network change keeps identity and cooldown, takes a fresh grant, and cancels what is pending. */
  lemma NetworkTakesEffect(launch: Launch, run: seq<Action>, network: Network)
    requires launch.Valid() && Exec(launch, run).Some? && Exec(launch, run).value.holder.None?
    ensures var s := Exec(launch, run).value;
      var end := Exec(launch, run + [Owning(SetNetwork(network, Stored))]);
      && end.Some? && end.value.outstanding == 0 && end.value.revision == s.revision + 1
      && end.value.policy == s.policy.(network := network, grant := end.value.policy.grant)
      && (s.policy.enabled ==> end.value.policy.grant.Some? && end.value.policy.grant != s.store.durable.grant)
  {
    hide Exec, MarkActive;
    var s := Exec(launch, run).value;
    Submission.RunKeepsInv(launch, run);
    MarkingKeeps(s);
    ExecAppends(launch, run, Owning(SetNetwork(network, Stored)));
  }

  lemma MarkingKeeps(s: State)
    ensures var t := MarkActive(s);
      t.store == s.store && t.nextGrant == s.nextGrant && t.revision == s.revision && t.withdrawn == s.withdrawn
  {
  }

  // ---------------------------------------------------------------- status

  /** The calls of one `refreshStatus` whose identity is the given one. */
  function StatusCall(s: State, identity: Identity, found: Option<string>): seq<Action> {
    [Owning(StatusStart), Owning(StatusGotIdentity(s.nextCall, Some(identity), Stored)),
     Owning(StatusGotConfirmation(s.nextCall, found)), Owning(StatusGotRecovery(s.nextCall))]
  }

  /** What is needed for its fetch to begin. */
  predicate MayFetch(s: State, identity: Identity) {
    && s.setup.installed && s.holder.None?
    && (s.policy.enabled && !s.withdrawn ==> s.policy.identity == Some(identity))
  }

  lemma StatusFetches(launch: Launch, run: seq<Action>, identity: Identity, found: Option<string>)
    requires Exec(launch, run).Some? && MayFetch(Exec(launch, run).value, identity)
    ensures var s := Exec(launch, run).value;
      var end := Exec(launch, run + StatusCall(s, identity, found)[..2]);
      && end.Some? && end.value.holder.None? && end.value.store == s.store && end.value.revision == s.revision
      && s.nextCall in end.value.calls && end.value.calls[s.nextCall] == StatusFetch(s.revision, |s.Log()|)
  {
    hide Exec;
    var s := Exec(launch, run).value;
    var calls, c := StatusCall(s, identity, found), s.nextCall;
    ExecAppends(launch, run, calls[0]);
    var s1 := Apply(s, calls[0]);
    assert s1.calls[c] == StatusIdentity(s.revision);
    ExecAppends(launch, run + [calls[0]], calls[1]);
    assert run + [calls[0]] + [calls[1]] == run + calls[..2];
  }

  /** Undisturbed, and with the identity refresh is on for, the status shows exactly the confirmation it fetched. */
  lemma UndisturbedStatusShows(launch: Launch, run: seq<Action>, identity: Identity, found: Option<string>)
    requires Exec(launch, run).Some? && MayFetch(Exec(launch, run).value, identity)
    ensures var end := Exec(launch, run + StatusCall(Exec(launch, run).value, identity, found));
      && end.Some? && (end.value.confirmation.Some? <==> found.Some?)
      && (found.Some? ==> end.value.confirmation.value.value == found.value)
      && end.value.store == Exec(launch, run).value.store
  {
    hide Exec;
    var s := Exec(launch, run).value;
    var calls, c := StatusCall(s, identity, found), s.nextCall;
    StatusFetches(launch, run, identity, found);
    var s2 := Exec(launch, run + calls[..2]).value;
    ExecAppends(launch, run + calls[..2], calls[2]);
    var s3 := Apply(s2, calls[2]);
    assert s3.calls[c] == StatusRecovery(s.revision, |s.Log()|, found) && s3.revision == s.revision;
    ExecAppends(launch, run + calls[..2] + [calls[2]], calls[3]);
    assert run + calls[..2] + [calls[2]] + [calls[3]] == run + calls;
  }

  // ---------------------------------------------------------------- deliver

  /** A delivery is admitted exactly when refresh is on, set up and powered, and nothing is active. */
  lemma AdmitsIff(s: State, d: DeliveryId, available: bool, lowPower: bool)
    requires DeliveryEnabled(s, Deliver(d, available, lowPower))
    ensures var t := ApplyDelivery(s, Deliver(d, available, lowPower));
      (|t.Log()| > |s.Log()| && t.Log()[|s.Log()|] == Admitted(d, s.policy)) <==>
        && s.active.None? && !Get(s.shared, d).expired && !s.withdrawn && s.policy.enabled && available && !lowPower
        && s.setup.installed
  {
  }

  /** The calls of one delivery whose operation returns the outcome and whose identity is still the stored one. */
  function DeliveryCall(s: State, d: DeliveryId, outcome: Outcome): seq<Action> {
    [Delivering(Deliver(d, true, false)), Delivering(DeliverInstalls(s.nextCall)), Delivering(WorkerStarts(s.nextCall)),
     Delivering(OperationReturns(s.nextCall, outcome)), Delivering(WorkerGotIdentity(s.nextCall, s.policy.identity)),
     Delivering(WorkerFinishes(s.nextCall))]
  }

  /** The state in which its operation runs. */
  function Working(s: State, d: DeliveryId): State {
    s.(handed := s.handed + {d},
       active := Some(d),
       calls := s.calls[s.nextCall := WorkerRunning(d, s.revision, s.policy, |s.Log()|)],
       nextCall := s.nextCall + 1,
       shared := InstallWorker(Note(s.shared, Admitted(d, s.policy)), d, s.nextCall))
  }

  predicate MayDeliver(s: State, d: DeliveryId) {
    && s.policy.enabled && s.setup.installed && !s.withdrawn && s.holder.None? && s.active.None?
    && !Get(s.shared, d).expired && !Get(s.shared, d).completed
  }

  lemma DeliveryWorks(launch: Launch, run: seq<Action>, d: DeliveryId, outcome: Outcome)
    requires Exec(launch, run).Some? && MayDeliver(Exec(launch, run).value, d)
    ensures Exec(launch, run + DeliveryCall(Exec(launch, run).value, d, outcome)[..3])
            == Some(Working(Exec(launch, run).value, d))
  {
    hide Exec;
    var s := Exec(launch, run).value;
    var calls, c := DeliveryCall(s, d, outcome), s.nextCall;
    ExecAppends(launch, run, calls[0]);
    var s1 := Apply(s, calls[0]);
    assert s1.calls[c] == Installing(d, s.revision, s.policy, |s.Log()|);
    ExecAppends(launch, run + [calls[0]], calls[1]);
    var s2 := Apply(s1, calls[1]);
    assert s2.calls[c] == WorkerReady(d, s.revision, s.policy, |s.Log()|) && s2.holder.None?;
    ExecAppends(launch, run + [calls[0]] + [calls[1]], calls[2]);
    var s3 := Apply(s2, calls[2]);
    assert s3.calls == Working(s, d).calls;
    assert run + [calls[0]] + [calls[1]] + [calls[2]] == run + calls[..3];
  }

  /** What the last three steps of the delivery log. */
  function Reported(s: State, d: DeliveryId, outcome: Outcome): seq<Event> {
    [Returned(|s.Log()|, outcome.confirmation, Some(outcome)), Revalidated(d, s.policy.identity),
     Finished(d, outcome.state == Completed || (outcome.state == Partial && outcome.pages > 0), s.policy)]
  }

  /** What `lastConfirmation` holds after undisturbed work. */
  function Shown(s: State, outcome: Outcome): Option<Confirmation> {
    if outcome.state in {ExpiredState, AuthenticationRequired, InvalidatedState} then None
    else if outcome.confirmation.Some? then Some(Confirmation(outcome.confirmation.value, |s.Log()|))
    else s.confirmation
  }

  lemma WorkRevalidates(launch: Launch, run: seq<Action>, s: State, d: DeliveryId, outcome: Outcome)
    requires MayDeliver(s, d) && Exec(launch, run) == Some(Working(s, d))
    ensures var end := Exec(launch, run + DeliveryCall(s, d, outcome)[3..5]);
      && end.Some? && s.nextCall in end.value.calls
      && end.value.calls[s.nextCall] == Finishing(d, s.policy, |s.Log()|, outcome.TaskSucceeded())
      && end.value.shared.deliveries == Working(s, d).shared.deliveries && end.value.store == s.store
      && end.value.Log() == Working(s, d).Log() + Reported(s, d, outcome)[..2]
      && end.value.active.None? && end.value.confirmation == Shown(s, outcome)
  {
    hide Exec;
    var w := Working(s, d);
    var calls, c := DeliveryCall(s, d, outcome), s.nextCall;
    assert !Get(w.shared, d).expired;
    ExecAppends(launch, run, calls[3]);
    var s4 := Apply(w, calls[3]);
    assert s4.calls[c] == WorkerIdentity(d, s.revision, s.policy, |s.Log()|, outcome);
    assert s4.shared.deliveries == w.shared.deliveries && s4.policy == s.policy;
    ExecAppends(launch, run + [calls[3]], calls[4]);
    assert run + [calls[3]] + [calls[4]] == run + calls[3..5];
    assert Apply(s4, calls[4]).Log() == w.Log() + Reported(s, d, outcome)[..2];
  }

  lemma WorkReports(launch: Launch, run: seq<Action>, s: State, d: DeliveryId, outcome: Outcome)
    requires MayDeliver(s, d) && Exec(launch, run) == Some(Working(s, d))
    ensures var end := Exec(launch, run + DeliveryCall(s, d, outcome)[3..]);
      && end.Some? && end.value.Log() == Working(s, d).Log() + Reported(s, d, outcome)
      && end.value.active.None? && end.value.holder.None? && end.value.store == s.store
      && end.value.confirmation == Shown(s, outcome)
  {
    hide Exec, Shown;
    var w := Working(s, d);
    var calls := DeliveryCall(s, d, outcome);
    WorkRevalidates(launch, run, s, d, outcome);
    var s5 := Exec(launch, run + calls[3..5]).value;
    assert !Get(w.shared, d).expired && !Get(w.shared, d).completed && Get(s5.shared, d) == Get(w.shared, d);
    ExecAppends(launch, run + calls[3..5], calls[5]);
    assert run + calls[3..5] + [calls[5]] == run + calls[3..];
    assert Apply(s5, calls[5]).Log() == w.Log() + Reported(s, d, outcome);
  }

  /** Work that returns after its delivery expired shows nothing and reports no success. */
  lemma ExpiredWorkShowsNothing(s: State, c: CallId, outcome: Outcome)
    requires DeliveryEnabled(s, OperationReturns(c, outcome)) && s.calls[c].rev == s.revision
    requires Get(s.shared, s.calls[c].delivery).expired && s.calls[c].policy.identity.Some?
    ensures var t := ApplyDelivery(s, OperationReturns(c, outcome));
      && t.confirmation.None? && t.active.None? && c in t.calls
      && t.calls[c] == Finishing(s.calls[c].delivery, s.calls[c].policy, s.calls[c].admitted, false)
  {
  }

  /** Work whose identity or grant has changed meanwhile shows nothing and reports no success. */
  lemma StaleWorkShowsNothing(s: State, c: CallId, identity: Option<Identity>)
    requires DeliveryEnabled(s, WorkerGotIdentity(c, identity)) && s.calls[c].rev == s.revision
    requires || identity != s.calls[c].policy.identity || !s.policy.enabled || s.policy.grant != s.calls[c].policy.grant
             || s.policy.identity != s.calls[c].policy.identity
    ensures var t := ApplyDelivery(s, WorkerGotIdentity(c, identity));
      && t.confirmation.None? && t.active.None? && c in t.calls
      && t.calls[c] == Finishing(s.calls[c].delivery, s.calls[c].policy, s.calls[c].admitted, false)
  {
  }

  /**
   From every reachable state in which a delivery may be admitted, the undisturbed delivery is admitted, revalidated and
   finished, with success exactly when its operation completed or did part of its work; what it confirmed is shown.
   */
  lemma UndisturbedDeliveryReports(launch: Launch, run: seq<Action>, d: DeliveryId, outcome: Outcome)
    requires Exec(launch, run).Some? && MayDeliver(Exec(launch, run).value, d)
    ensures var s := Exec(launch, run).value;
      var end := Exec(launch, run + DeliveryCall(s, d, outcome));
      && end.Some? && end.value.active.None? && end.value.holder.None? && end.value.store == s.store
      && end.value.Log() == s.Log() + [Admitted(d, s.policy)] + Reported(s, d, outcome)
      && end.value.confirmation == Shown(s, outcome)
  {
    hide Exec;
    var s := Exec(launch, run).value;
    var calls := DeliveryCall(s, d, outcome);
    DeliveryWorks(launch, run, d, outcome);
    WorkReports(launch, run + calls[..3], s, d, outcome);
    assert run + calls[..3] + calls[3..] == run + calls;
  }

  /** A delivery that is not admitted is finished at once, without success, and nothing else happens to it. */
  lemma RefusedDeliveryFinishes(launch: Launch, run: seq<Action>, d: DeliveryId, available: bool, lowPower: bool)
    requires Exec(launch, run).Some?
    requires var s := Exec(launch, run).value;
      && s.holder.None? && s.active != Some(d) && !Get(s.shared, d).completed
      && (|| s.active.Some? || Get(s.shared, d).expired || s.withdrawn || !s.policy.enabled || !available || lowPower
          || !s.setup.installed)
    ensures var s := Exec(launch, run).value;
      var calls := [Delivering(Deliver(d, available, lowPower)), Delivering(DeliverRejects(s.nextCall))];
      var end := Exec(launch, run + calls);
      && end.Some? && end.value.Log() == s.Log() + [Finished(d, false, s.policy)] && end.value.active == s.active
      && end.value.store == s.store && end.value.confirmation == s.confirmation && end.value.holder.None?
  {
    hide Exec;
    var s := Exec(launch, run).value;
    var a0, a1 := Delivering(Deliver(d, available, lowPower)), Delivering(DeliverRejects(s.nextCall));
    ExecAppends(launch, run, a0);
    var s1 := Apply(s, a0);
    assert s1.calls[s.nextCall] == Rejecting(d) && s1.shared == s.shared;
    ExecAppends(launch, run + [a0], a1);
    assert run + [a0] + [a1] == run + [a0, a1];
  }

  /** An undisturbed expiration marks the delivery, cancels its worker and finishes it without success. */
  lemma UndisturbedExpiryFinishes(launch: Launch, run: seq<Action>, d: DeliveryId)
    requires Exec(launch, run).Some? && !Get(Exec(launch, run).value.shared, d).expired
    requires !Get(Exec(launch, run).value.shared, d).completed
    ensures var s := Exec(launch, run).value;
      var end := Exec(launch, run + [Delivering(ExpireMarks(d)), Delivering(ExpireFinishes(s.nextCall))]);
      && end.Some? && end.value.Log() == s.Log() + [Expired(d), Finished(d, false, s.policy)]
      && Get(end.value.shared, d).expired && Get(end.value.shared, d).completed
      && (Get(s.shared, d).worker.Some? ==> Get(s.shared, d).worker.value in end.value.shared.cancelled)
  {
    hide Exec;
    var s := Exec(launch, run).value;
    var a0, a1 := Delivering(ExpireMarks(d)), Delivering(ExpireFinishes(s.nextCall));
    ExecAppends(launch, run, a0);
    var s1 := Apply(s, a0);
    assert s1.calls[s.nextCall] == Expiring(d, Get(s.shared, d).worker) && s1.policy == s.policy;
    ExecAppends(launch, run + [a0], a1);
    assert run + [a0] + [a1] == run + [a0, a1];
  }
}
