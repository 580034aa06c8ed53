/**
 The iOS background-refresh scheduler as a state machine.

 Every stretch of MainActor code between two suspension points is one action, any number of
 calls may be suspended at once, and every lock body of a delivery is an action of its own.
 The environment's choices (identities, power state, clock readings, write outcomes, native
 answers, expirations) are arguments of the actions, so a run is just a sequence of actions.
 */
module RefreshModel {
  import opened Options

  type Identity = string
  type Grant = nat
  type CallId = nat
  type DeliveryId = nat

  /** Six hours, in seconds. */
  const SCHEDULING_DELAY: nat := 6 * 60 * 60

  datatype Network = Unmetered | Cellular

  datatype Policy = Policy(
    enabled: bool,
    network: Network,
    identity: Option<Identity>,
    grant: Option<Grant>,
    afterLibrary: Option<string>,
    nextSubmissionAllowedAt: Option<int>)

  const DISABLED := Policy(false, Unmetered, None, None, None, None)

  /**
   A write succeeds when its bytes read back. A failed one may have left its bytes on disk all the same, for the next
   process to find, or the old ones; either way this process reads the store as disabled. `Kept` is a store that
   refuses a write without any effect.
   */
  datatype WriteOutcome = Stored | Unconfirmed | FailedClosed | Kept {
    predicate OnDisk() { Stored? || Unconfirmed? }
  }

  /** What is on disk, and whether this process refuses to trust it. */
  datatype Store = Store(durable: Policy, failedClosed: bool) {
    function Read(): Policy { if failedClosed then DISABLED else durable }
  }

  function Write(store: Store, next: Policy, outcome: WriteOutcome): Store {
    match outcome
    case Stored => Store(next, false)
    case Unconfirmed => Store(next, true)
    case FailedClosed => store.(failedClosed := true)
    case Kept => store
  }

  /** The lock-protected fields of one delivery. */
  datatype Delivery = Delivery(expired: bool, completed: bool, worker: Option<CallId>)

  const FRESH_DELIVERY := Delivery(false, false, None)

  datatype SyncState =
    | Disabled | Eligible | Scheduled | Running | Deferred | Completed | Partial | ExpiredState
    | Offline | AuthenticationRequired | RecoveryRequired | Failed | InvalidatedState

  datatype Outcome = Outcome(state: SyncState, pages: nat, confirmation: Option<string>) {
    predicate TaskSucceeded() {
      state == Completed || (state == Partial && pages > 0)
    }
  }

  /** A published confirmation, with the log position at which its operation or fetch began. */
  datatype Confirmation = Confirmation(value: string, since: nat)

  /** What a suspended call remembers. `began` and `admitted` are log positions. */
  datatype Call =
    | ScheduleIdentity(rev: nat, saved: Policy, began: nat)
    | SchedulePending(rev: nat, saved: Policy, began: nat, answer: Option<bool>)
    | OptIn(rev: nat, began: nat)
    | StatusIdentity(rev: nat)
    | StatusFetch(rev: nat, began: nat)
    | StatusRecovery(rev: nat, began: nat, found: Option<string>)
    | Rejecting(delivery: DeliveryId)
    | Installing(delivery: DeliveryId, rev: nat, policy: Policy, admitted: nat)
    | WorkerReady(delivery: DeliveryId, rev: nat, policy: Policy, admitted: nat)
    | WorkerRunning(delivery: DeliveryId, rev: nat, policy: Policy, admitted: nat)
    | WorkerIdentity(delivery: DeliveryId, rev: nat, policy: Policy, admitted: nat, outcome: Outcome)
    | Finishing(delivery: DeliveryId, policy: Policy, admitted: nat, success: bool)
    | Expiring(delivery: DeliveryId, task: Option<CallId>)
  {
    predicate IsSchedule() { ScheduleIdentity? || SchedulePending? }

    /** A worker that still owns `active`. */
    predicate IsWorker() { Installing? || WorkerReady? || WorkerRunning? || WorkerIdentity? }

    /** A MainActor stretch that is between two lock bodies: nobody else may use the MainActor. */
    predicate HoldsMainActor() { Rejecting? || Installing? || Finishing? }
  }

  datatype Event =
    | ScheduleBegan(saved: Policy)
    | Submitted(began: nat, policy: Policy, at: int)
    | OptedIn(began: nat, confirmed: bool)
    | Invalidated(disable: bool, write: WriteOutcome, lasting: bool)
    | NetworkChanged
    | Admitted(delivery: DeliveryId, policy: Policy)
    | Revalidated(delivery: DeliveryId, identity: Option<Identity>)
    | FetchBegan
    | Returned(since: nat, confirmation: Option<string>, outcome: Option<Outcome>)
    | Expired(delivery: DeliveryId)
    | Finished(delivery: DeliveryId, success: bool, policy: Policy)
    | Relaunched
  {
    predicate ChangesRevision() { Invalidated? || NetworkChanged? }
  }

  predicate RelaunchedAt(log: seq<Event>, k: int) {
    0 <= k < |log| && log[k].Relaunched?
  }

  ghost predicate RelaunchedBetween(log: seq<Event>, i: int, j: int) {
    exists k :: i < k < j && RelaunchedAt(log, k)
  }

  predicate OptInAt(log: seq<Event>, k: int) {
    0 <= k < |log| && log[k].OptedIn?
  }

  /**
   The opt-in at `k` is in force at `j`: its write was confirmed, or it reached the disk unconfirmed and a later
   process found it there.
   */
  ghost predicate OptInCounts(log: seq<Event>, k: int, j: int) {
    k < j && OptInAt(log, k) && (log[k].confirmed || RelaunchedBetween(log, k, j))
  }

  /** What expiration handlers may touch from other threads, and the history of the run. */
  datatype Shared = Shared(deliveries: map<DeliveryId, Delivery>, cancelled: set<CallId>, log: seq<Event>)

  datatype Setup = Setup(registrationAttempted: bool, registered: bool, installed: bool)

  datatype State = State(
    setup: Setup,
    scheduling: bool,
    revision: nat,
    withdrawn: bool,
    active: Option<DeliveryId>,
    store: Store,
    settings: Policy,
    confirmation: Option<Confirmation>,
    outstanding: nat,
    nextGrant: Grant,
    now: int,
    handed: set<DeliveryId>,
    calls: map<CallId, Call>,
    nextCall: CallId,
    holder: Option<CallId>,
    shared: Shared)
  {
    function Log(): seq<Event> { shared.log }

    /** What the policy store answers now. */
    const policy: Policy := store.Read()
  }

  predicate StoredPolicyValid(p: Policy) {
    p.enabled ==> p.identity.Some? && p.grant.Some?
  }

  /** A first process over whatever an earlier one stored, with the native requests it left pending. */
  datatype Launch = Launch(stored: Policy, now: int, pending: nat) {
    predicate Valid() { StoredPolicyValid(stored) && pending <= 1 }
  }

  function Initial(launch: Launch): State {
    State(Setup(false, false, false), false, 0, false, None, Store(launch.stored, false), launch.stored, None,
          launch.pending, if launch.stored.grant.Some? then launch.stored.grant.value + 1 else 0, launch.now,
          {}, map[], 0, None, Shared(map[], {}, []))
  }

  datatype ScheduleAction =
    | Register(accepted: bool)
    | Install
    | Tick(time: int)
    | ScheduleStart(available: bool, lowPower: bool)
    | ScheduleGotIdentity(call: CallId, identity: Option<Identity>, write: WriteOutcome)
    | NativeAnswers(call: CallId)
    | ScheduleGotPending(call: CallId, available: bool, lowPower: bool, guardAt: int, setAt: int,
                         write: WriteOutcome, accepted: bool)
    | NativeConsumes

  datatype OwnerAction =
    | OptInStart
    | OptInGotIdentity(call: CallId, identity: Option<Identity>, valid: bool, write: WriteOutcome)
    | SetNetwork(network: Network, write: WriteOutcome)
    | Invalidate(disable: bool, write: WriteOutcome)
    | StatusStart
    | StatusGotIdentity(call: CallId, identity: Option<Identity>, write: WriteOutcome)
    | StatusGotConfirmation(call: CallId, found: Option<string>)
    | StatusGotRecovery(call: CallId)
    | CoordinatorAdvances(library: string, write: WriteOutcome)

  datatype DeliveryAction =
    | Deliver(delivery: DeliveryId, available: bool, lowPower: bool)
    | DeliverRejects(call: CallId)
    | DeliverInstalls(call: CallId)
    | WorkerStarts(call: CallId)
    | OperationReturns(call: CallId, outcome: Outcome)
    | WorkerGotIdentity(call: CallId, identity: Option<Identity>)
    | WorkerFinishes(call: CallId)
    | ExpireMarks(delivery: DeliveryId)
    | ExpireFinishes(call: CallId)

  datatype Action =
    | Scheduling(schedule: ScheduleAction)
    | Owning(owner: OwnerAction)
    | Delivering(work: DeliveryAction)
    | Relaunching(readable: bool)

  // ---------------------------------------------------------------- delivery lock bodies

  function Get(x: Shared, d: DeliveryId): Delivery {
    if d in x.deliveries then x.deliveries[d] else FRESH_DELIVERY
  }

  function Note(x: Shared, e: Event): Shared {
    x.(log := x.log + [e])
  }

  function CancelTask(x: Shared, task: Option<CallId>): Shared {
    if task.Some? then x.(cancelled := x.cancelled + {task.value}) else x
  }

  /** `finish`: the first call completes the delivery, a later one does nothing. */
  function Finish(x: Shared, d: DeliveryId, success: bool, policy: Policy): Shared {
    var y := Get(x, d);
    if y.completed then x
    else x.(deliveries := x.deliveries[d := y.(completed := true, worker := None)],
            log := x.log + [Finished(d, success && !y.expired, policy)])
  }

  /** First lock body of `expire`. */
  function Mark(x: Shared, d: DeliveryId): Shared {
    var y := Get(x, d);
    if y.expired then x
    else x.(deliveries := x.deliveries[d := y.(expired := true)], log := x.log + [Expired(d)])
  }

  /** `install`: record the worker; if the delivery expired meanwhile the worker is cancelled. */
  function InstallWorker(x: Shared, d: DeliveryId, worker: CallId): Shared {
    var y := Get(x, d);
    x.(deliveries := x.deliveries[d := y.(worker := Some(worker))],
       cancelled := if y.expired then x.cancelled + {worker} else x.cancelled)
  }

  // ---------------------------------------------------------------- MainActor stretches

  /** The first lock body of `expire`; its caller goes on to the second one in a step of its own. */
  function DoExpireMarks(s: State, d: DeliveryId): State {
    s.(calls := s.calls[s.nextCall := Expiring(d, Get(s.shared, d).worker)],
       nextCall := s.nextCall + 1,
       shared := Mark(s.shared, d))
  }

  /** `active?.expire()` up to its second lock body. */
  function MarkActive(s: State): State {
    if s.active.Some? then DoExpireMarks(s, s.active.value) else s
  }

  /** What `invalidate` does besides expiring the active delivery. */
  function Invalidation(s: State, disable: bool, write: WriteOutcome): State {
    var store := if disable then Write(s.store, DISABLED, write) else s.store;
    s.(revision := s.revision + 1,
       withdrawn := s.withdrawn || disable,
       outstanding := 0,
       confirmation := None,
       store := store,
       settings := if disable then store.Read().(enabled := false) else store.Read(),
       shared := Note(s.shared, Invalidated(disable, write, !store.durable.enabled)))
  }

  function DoInvalidate(s: State, disable: bool, write: WriteOutcome): State {
    Invalidation(MarkActive(s), disable, write)
  }

  function DoScheduleStart(s: State, available: bool, lowPower: bool): State {
    if s.scheduling then s
    else if s.withdrawn then s.(outstanding := 0, settings := s.settings.(enabled := false))
    else if !s.policy.enabled || !s.setup.registered || !available || lowPower || !s.setup.installed then
      s.(outstanding := 0, settings := s.policy)
    else
      s.(settings := s.policy,
         scheduling := true,
         calls := s.calls[s.nextCall := ScheduleIdentity(s.revision, s.policy, |s.Log()|)],
         nextCall := s.nextCall + 1,
         shared := Note(s.shared, ScheduleBegan(s.policy)))
  }

  /** The call that ends a `schedule()`: its frame goes and the flag is cleared by `defer`. */
  function EndSchedule(s: State, c: CallId): State {
    s.(calls := s.calls - {c}, scheduling := false)
  }

  function DoScheduleGotIdentity(s: State, c: CallId, identity: Option<Identity>, write: WriteOutcome): State
    requires c in s.calls && s.calls[c].ScheduleIdentity?
  {
    var f := s.calls[c];
    if identity.None? then EndSchedule(s, c).(outstanding := 0)
    else if f.rev != s.revision then EndSchedule(s, c)
    else if identity != f.saved.identity then DoInvalidate(EndSchedule(s, c), true, write)
    else s.(calls := s.calls[c := SchedulePending(f.rev, f.saved, f.began, None)])
  }

  /** The native scheduler evaluates the pending query at some moment while the call is suspended. */
  function DoNativeAnswers(s: State, c: CallId): State
    requires c in s.calls && s.calls[c].SchedulePending?
  {
    s.(calls := s.calls[c := s.calls[c].(answer := Some(s.outstanding > 0))])
  }

  /** The guard that a resumed `schedule()` passes before it looks at the native answer. */
  predicate StillCurrent(s: State, f: Call, available: bool, lowPower: bool)
    requires f.SchedulePending?
  {
    f.rev == s.revision && s.policy.enabled && s.policy.grant == f.saved.grant && available && !lowPower
  }

  predicate CoolingDown(f: Call, at: int)
    requires f.SchedulePending?
  {
    f.saved.nextSubmissionAllowedAt.Some? && at < f.saved.nextSubmissionAllowedAt.value
  }

  function DoScheduleGotPending(s: State, c: CallId, available: bool, lowPower: bool, guardAt: int, setAt: int,
                                write: WriteOutcome, accepted: bool): State
    requires c in s.calls && s.calls[c].SchedulePending? && s.calls[c].answer.Some?
  {
    var f := s.calls[c];
    if !StillCurrent(s, f, available, lowPower) || f.answer.value then EndSchedule(s, c)
    else if CoolingDown(f, guardAt) then EndSchedule(s, c).(now := guardAt)
    else
      var next := s.policy.(nextSubmissionAllowedAt := Some(setAt + SCHEDULING_DELAY));
      if write != Stored then
        EndSchedule(s, c).(now := setAt, store := Write(s.store, next, write))
      else
        s.(calls := s.calls - {c},
           scheduling := false,
           now := setAt,
           store := Store(next, false),
           settings := next,
           outstanding := if accepted then s.outstanding + 1 else s.outstanding,
           shared := Note(s.shared, Submitted(f.began, s.policy, setAt)))
  }

  function DoOptInStart(s: State): State {
    if s.setup.installed then
      s.(calls := s.calls[s.nextCall := OptIn(s.revision, |s.Log()|)], nextCall := s.nextCall + 1)
    else s
  }

  function DoOptInGotIdentity(s: State, c: CallId, identity: Option<Identity>, valid: bool, write: WriteOutcome): State
    requires c in s.calls && s.calls[c].OptIn?
  {
    var f := s.calls[c];
    if identity.None? || !valid || f.rev != s.revision then s.(calls := s.calls - {c})
    else
      var next := s.policy.(enabled := true, identity := identity, grant := Some(s.nextGrant), afterLibrary := None,
        nextSubmissionAllowedAt := None);
      if write != Stored then
        s.(calls := s.calls - {c}, nextGrant := s.nextGrant + 1, store := Write(s.store, next, write),
           shared := if write.OnDisk() then Note(s.shared, OptedIn(f.began, false)) else s.shared)
      else
        s.(calls := s.calls - {c}, nextGrant := s.nextGrant + 1, store := Store(next, false), settings := next,
           withdrawn := false, shared := Note(s.shared, OptedIn(f.began, true)))
  }

  /** What `setNetwork` does besides expiring the active delivery. */
  function NetworkChange(s: State, network: Network, write: WriteOutcome): State {
    var base := s.policy.(network := network);
    var next := if base.enabled then base.(grant := Some(s.nextGrant)) else base;
    s.(revision := s.revision + 1,
       outstanding := 0,
       nextGrant := s.nextGrant + 1,
       store := Write(s.store, next, write),
       settings := if write == Stored then next else s.settings,
       shared := Note(s.shared, NetworkChanged))
  }

  function DoSetNetwork(s: State, network: Network, write: WriteOutcome): State {
    NetworkChange(MarkActive(s), network, write)
  }

  function DoStatusStart(s: State): State {
    var seen := if s.withdrawn then s.policy.(enabled := false) else s.policy;
    if s.setup.installed then
      s.(settings := seen, calls := s.calls[s.nextCall := StatusIdentity(s.revision)], nextCall := s.nextCall + 1)
    else
      s.(settings := seen, confirmation := None)
  }

  /** The identity the status call fetched is not the one the settings were granted for. */
  predicate StatusMismatch(s: State, c: CallId, identity: Option<Identity>)
    requires c in s.calls && s.calls[c].StatusIdentity?
  {
    identity.Some? && s.calls[c].rev == s.revision && s.settings.enabled && identity != s.settings.identity
  }

  function DoStatusGotIdentity(s: State, c: CallId, identity: Option<Identity>, write: WriteOutcome): State
    requires c in s.calls && s.calls[c].StatusIdentity?
  {
    var dropped := s.(calls := s.calls - {c});
    if identity.None? then dropped.(confirmation := None)
    else if s.calls[c].rev != s.revision then dropped
    else if StatusMismatch(s, c, identity) then DoInvalidate(dropped, true, write)
    else
      s.(calls := s.calls[c := StatusFetch(s.revision, |s.Log()|)], shared := Note(s.shared, FetchBegan))
  }

  function DoStatusGotConfirmation(s: State, c: CallId, found: Option<string>): State
    requires c in s.calls && s.calls[c].StatusFetch?
  {
    var f := s.calls[c];
    s.(calls := s.calls[c := StatusRecovery(f.rev, f.began, found)],
       shared := Note(s.shared, Returned(f.began, found, None)))
  }

  function DoStatusGotRecovery(s: State, c: CallId): State
    requires c in s.calls && s.calls[c].StatusRecovery?
  {
    var f := s.calls[c];
    s.(calls := s.calls - {c},
       confirmation :=
         if f.rev != s.revision then s.confirmation
         else if f.found.Some? then Some(Confirmation(f.found.value, f.began))
         else None)
  }

  /** The sync coordinator only ever moves the fairness cursor. */
  function DoCoordinatorAdvances(s: State, library: string, write: WriteOutcome): State {
    s.(store := Write(s.store, s.policy.(afterLibrary := Some(library)), write))
  }

  function DoDeliver(s: State, d: DeliveryId, available: bool, lowPower: bool): State {
    if s.active == Some(d) then s
    else if s.active.Some? || Get(s.shared, d).expired || s.withdrawn || !s.policy.enabled || !available || lowPower
            || !s.setup.installed then
      s.(handed := s.handed + {d},
         holder := Some(s.nextCall),
         calls := s.calls[s.nextCall := Rejecting(d)],
         nextCall := s.nextCall + 1)
    else
      s.(handed := s.handed + {d},
         holder := Some(s.nextCall),
         active := Some(d),
         calls := s.calls[s.nextCall := Installing(d, s.revision, s.policy, |s.Log()|)],
         nextCall := s.nextCall + 1,
         shared := Note(s.shared, Admitted(d, s.policy)))
  }

  function DoDeliverRejects(s: State, c: CallId): State
    requires c in s.calls && s.calls[c].Rejecting?
  {
    s.(calls := s.calls - {c}, holder := None, shared := Finish(s.shared, s.calls[c].delivery, false, s.policy))
  }

  function DoDeliverInstalls(s: State, c: CallId): State
    requires c in s.calls && s.calls[c].Installing?
  {
    var f := s.calls[c];
    s.(calls := s.calls[c := WorkerReady(f.delivery, f.rev, f.policy, f.admitted)],
       holder := None,
       shared := InstallWorker(s.shared, f.delivery, c))
  }

  function DoWorkerStarts(s: State, c: CallId): State
    requires c in s.calls && s.calls[c].WorkerReady?
  {
    var f := s.calls[c];
    s.(calls := s.calls[c := WorkerRunning(f.delivery, f.rev, f.policy, f.admitted)])
  }

  /** A worker whose revision is stale gives up `active` and finishes unsuccessfully. */
  function Abandon(s: State, c: CallId, f: Call, shared: Shared): State
    requires f.WorkerRunning? || f.WorkerIdentity?
  {
    s.(active := None, holder := Some(c), calls := s.calls[c := Finishing(f.delivery, f.policy, f.admitted, false)],
       shared := shared)
  }

  function DoOperationReturns(s: State, c: CallId, outcome: Outcome): State
    requires c in s.calls && s.calls[c].WorkerRunning?
  {
    var f := s.calls[c];
    var shared := Note(s.shared, Returned(f.admitted, outcome.confirmation, Some(outcome)));
    if f.rev != s.revision then Abandon(s, c, f, shared)
    else if Get(s.shared, f.delivery).expired then Publish(s, c, f, outcome, None, shared)
    else s.(calls := s.calls[c := WorkerIdentity(f.delivery, f.rev, f.policy, f.admitted, outcome)], shared := shared)
  }

  function DoWorkerGotIdentity(s: State, c: CallId, identity: Option<Identity>): State
    requires c in s.calls && s.calls[c].WorkerIdentity?
  {
    var f := s.calls[c];
    if f.rev != s.revision then Abandon(s, c, f, s.shared)
    else Publish(s, c, f, f.outcome, identity, Note(s.shared, Revalidated(f.delivery, identity)))
  }

  /** The enabled policy, the grant and the identity are those of the admission. */
  predicate IdentityCurrent(now: Policy, admitted: Policy, identity: Option<Identity>) {
    identity == admitted.identity && now.enabled && now.grant == admitted.grant && now.identity == admitted.identity
  }

  /** What the worker's final stretch leaves in `lastConfirmation`. */
  function Published(previous: Option<Confirmation>, finalState: SyncState, found: Option<string>, admitted: nat)
    : Option<Confirmation>
  {
    if finalState in {ExpiredState, AuthenticationRequired, InvalidatedState} then None
    else if found.Some? then Some(Confirmation(found.value, admitted))
    else previous
  }

  /** The worker's final stretch, up to the call of `finish`. */
  function Publish(s: State, c: CallId, f: Call, outcome: Outcome, identity: Option<Identity>, shared: Shared): State
    requires f.WorkerRunning? || f.WorkerIdentity?
  {
    var current := IdentityCurrent(s.policy, f.policy, identity);
    var finalState :=
      if Get(shared, f.delivery).expired then ExpiredState else if current then outcome.state else InvalidatedState;
    s.(active := None,
       holder := Some(c),
       confirmation := Published(s.confirmation, finalState, outcome.confirmation, f.admitted),
       calls := s.calls[c := Finishing(f.delivery, f.policy, f.admitted, outcome.TaskSucceeded() && current)],
       shared := shared)
  }

  /** `finish` reads `expired` under the lock, so the separate `isExpired` test adds nothing. */
  function DoWorkerFinishes(s: State, c: CallId): State
    requires c in s.calls && s.calls[c].Finishing?
  {
    var f := s.calls[c];
    s.(calls := s.calls - {c}, holder := None, shared := Finish(s.shared, f.delivery, f.success, s.policy))
  }

  function DoExpireFinishes(s: State, c: CallId): State
    requires c in s.calls && s.calls[c].Expiring?
  {
    var f := s.calls[c];
    s.(calls := s.calls - {c}, shared := Finish(CancelTask(s.shared, f.task), f.delivery, false, s.policy))
  }

  /**
   The process ends at any moment and a new one starts: the store on disk, the native requests and the clock survive;
   calls, flags and the distrust of the store do not. A process that cannot read the store takes it for disabled.
   */
  function DoRelaunch(s: State, readable: bool): State {
    var store := Store(s.store.durable, !readable);
    State(Setup(false, false, false), false, 0, false, None, store, store.Read(), None, s.outstanding,
          s.nextGrant, s.now, {}, map[], s.nextCall, None, Note(s.shared, Relaunched))
  }

  // ---------------------------------------------------------------- runs

  predicate ScheduleEnabled(s: State, a: ScheduleAction) {
    match a
    case Tick(time) => s.now <= time
    case NativeAnswers(c) => c in s.calls && s.calls[c].SchedulePending? && s.calls[c].answer.None?
    case NativeConsumes => s.outstanding > 0
    case ScheduleGotIdentity(c, _, _) => s.holder.None? && c in s.calls && s.calls[c].ScheduleIdentity?
    case ScheduleGotPending(c, _, _, guardAt, setAt, _, _) =>
      && s.holder.None? && s.now <= guardAt <= setAt
      && c in s.calls && s.calls[c].SchedulePending? && s.calls[c].answer.Some?
    case _ => s.holder.None?
  }

  predicate OwnerEnabled(s: State, a: OwnerAction) {
    && s.holder.None?
    && match a
       case OptInGotIdentity(c, _, _, _) => c in s.calls && s.calls[c].OptIn?
       case StatusGotIdentity(c, _, _) => c in s.calls && s.calls[c].StatusIdentity?
       case StatusGotConfirmation(c, _) => c in s.calls && s.calls[c].StatusFetch?
       case StatusGotRecovery(c) => c in s.calls && s.calls[c].StatusRecovery?
       case _ => true
  }

  /** Lock bodies need no MainActor; the stretch that holds it may go on. */
  predicate DeliveryEnabled(s: State, a: DeliveryAction) {
    match a
    case Deliver(_, _, _) => s.holder.None?
    case DeliverRejects(c) => c in s.calls && s.calls[c].Rejecting?
    case DeliverInstalls(c) => c in s.calls && s.calls[c].Installing?
    case WorkerStarts(c) => s.holder.None? && c in s.calls && s.calls[c].WorkerReady?
    case OperationReturns(c, _) => s.holder.None? && c in s.calls && s.calls[c].WorkerRunning?
    case WorkerGotIdentity(c, _) => s.holder.None? && c in s.calls && s.calls[c].WorkerIdentity?
    case WorkerFinishes(c) => c in s.calls && s.calls[c].Finishing?
    case ExpireMarks(_) => true
    case ExpireFinishes(c) => c in s.calls && s.calls[c].Expiring?
  }

  function ApplySchedule(s: State, a: ScheduleAction): State
    requires ScheduleEnabled(s, a)
  {
    match a
    case Register(accepted) =>
      if s.setup.registrationAttempted then s else s.(setup := Setup(true, accepted, s.setup.installed))
    case Install => s.(setup := s.setup.(installed := true))
    case Tick(time) => s.(now := time)
    case ScheduleStart(available, lowPower) => DoScheduleStart(s, available, lowPower)
    case ScheduleGotIdentity(c, identity, write) => DoScheduleGotIdentity(s, c, identity, write)
    case NativeAnswers(c) => DoNativeAnswers(s, c)
    case ScheduleGotPending(c, available, lowPower, guardAt, setAt, write, accepted) =>
      DoScheduleGotPending(s, c, available, lowPower, guardAt, setAt, write, accepted)
    case NativeConsumes => s.(outstanding := s.outstanding - 1)
  }

  function ApplyOwner(s: State, a: OwnerAction): State
    requires OwnerEnabled(s, a)
  {
    match a
    case OptInStart => DoOptInStart(s)
    case OptInGotIdentity(c, identity, valid, write) => DoOptInGotIdentity(s, c, identity, valid, write)
    case SetNetwork(network, write) => DoSetNetwork(s, network, write)
    case Invalidate(disable, write) => DoInvalidate(s, disable, write)
    case StatusStart => DoStatusStart(s)
    case StatusGotIdentity(c, identity, write) => DoStatusGotIdentity(s, c, identity, write)
    case StatusGotConfirmation(c, found) => DoStatusGotConfirmation(s, c, found)
    case StatusGotRecovery(c) => DoStatusGotRecovery(s, c)
    case CoordinatorAdvances(library, write) => DoCoordinatorAdvances(s, library, write)
  }

  function ApplyDelivery(s: State, a: DeliveryAction): State
    requires DeliveryEnabled(s, a)
  {
    match a
    case Deliver(d, available, lowPower) => DoDeliver(s, d, available, lowPower)
    case DeliverRejects(c) => DoDeliverRejects(s, c)
    case DeliverInstalls(c) => DoDeliverInstalls(s, c)
    case WorkerStarts(c) => DoWorkerStarts(s, c)
    case OperationReturns(c, outcome) => DoOperationReturns(s, c, outcome)
    case WorkerGotIdentity(c, identity) => DoWorkerGotIdentity(s, c, identity)
    case WorkerFinishes(c) => DoWorkerFinishes(s, c)
    case ExpireMarks(d) => DoExpireMarks(s, d)
    case ExpireFinishes(c) => DoExpireFinishes(s, c)
  }

  predicate Enabled(s: State, a: Action) {
    match a
    case Scheduling(x) => ScheduleEnabled(s, x)
    case Owning(x) => OwnerEnabled(s, x)
    case Delivering(x) => DeliveryEnabled(s, x)
    case Relaunching(_) => true
  }

  function Apply(s: State, a: Action): State
    requires Enabled(s, a)
  {
    match a
    case Scheduling(x) => ApplySchedule(s, x)
    case Owning(x) => ApplyOwner(s, x)
    case Delivering(x) => ApplyDelivery(s, x)
    case Relaunching(readable) => DoRelaunch(s, readable)
  }

  /** The state after a run, or nothing when some action was not enabled where it stands. */
  function Exec(launch: Launch, run: seq<Action>): Option<State> {
    if run == [] then Some(Initial(launch))
    else
      var before := Exec(launch, run[..|run| - 1]);
      var a := run[|run| - 1];
      if before.Some? && Enabled(before.value, a) then Some(Apply(before.value, a)) else None
  }

  /** One action more. */
  lemma ExecAppends(launch: Launch, run: seq<Action>, a: Action)
    requires Exec(launch, run).Some? && Enabled(Exec(launch, run).value, a)
    ensures Exec(launch, run + [a]) == Some(Apply(Exec(launch, run).value, a))
  {
    hide Enabled, Apply;
    assert (run + [a])[..|run|] == run;
  }

  /** A run that can be taken can be taken up to its last action. */
  lemma ExecAppended(launch: Launch, run: seq<Action>, a: Action)
    requires Exec(launch, run + [a]).Some?
    ensures Exec(launch, run).Some? && Enabled(Exec(launch, run).value, a)
    ensures Exec(launch, run + [a]).value == Apply(Exec(launch, run).value, a)
  {
    hide Enabled, Apply;
    assert (run + [a])[..|run|] == run;
  }
}
