/**
 Deliveries: operations never overlap, every delivery handed over is completed exactly once, and
 a success is reported only while the admission is still current.
 */
module RefreshDelivery {
  import opened Options
  import opened RefreshModel

  // ---------------------------------------------------------------- what the log says

  predicate FinishedAt(log: seq<Event>, i: int, d: DeliveryId) {
    0 <= i < |log| && log[i].Finished? && log[i].delivery == d
  }

  predicate ExpiredAt(log: seq<Event>, i: int, d: DeliveryId) {
    0 <= i < |log| && log[i] == Expired(d)
  }

  ghost predicate NoRevisionChange(log: seq<Event>, i: int, j: int) {
    forall k :: i < k < j && 0 <= k < |log| ==> !log[k].ChangesRevision()
  }

  ghost predicate RevalidatedSince(log: seq<Event>, i: int, d: DeliveryId, identity: Option<Identity>) {
    exists k :: i < k < |log| && 0 <= k && log[k] == Revalidated(d, identity)
  }

  /** Position `i` admits `d`, and everything admitted there is still true of `now` at the end of the log. */
  ghost predicate StillAdmitted(log: seq<Event>, i: int, d: DeliveryId, now: Policy) {
    && 0 <= i < |log| && log[i].Admitted? && log[i].delivery == d && log[i].policy.enabled
    && now.enabled && now.grant == log[i].policy.grant && now.identity == log[i].policy.identity
    && NoRevisionChange(log, i, |log|) && RevalidatedSince(log, i, d, log[i].policy.identity)
  }

  /** Why a delivery may report success at position `j`. */
  ghost predicate SuccessJustified(log: seq<Event>, j: int)
    requires 0 <= j < |log| && log[j].Finished?
  {
    && (exists i :: StillAdmitted(log[..j], i, log[j].delivery, log[j].policy))
    && (forall k :: k < j ==> !ExpiredAt(log, k, log[j].delivery))
  }

  ghost predicate SuccessesJustified(log: seq<Event>) {
    forall j :: 0 <= j < |log| && log[j].Finished? && log[j].success ==> SuccessJustified(log, j)
  }

  ghost predicate FinishedOnce(log: seq<Event>) {
    forall i, j, d :: FinishedAt(log, i, d) && FinishedAt(log, j, d) ==> i == j
  }

  /** The lock-protected flags agree with the history. */
  ghost predicate FlagsMatchLog(x: Shared) {
    && (forall i, d :: FinishedAt(x.log, i, d) ==> Get(x, d).completed)
    && (forall i, d :: ExpiredAt(x.log, i, d) ==> Get(x, d).expired)
    && (forall d :: Get(x, d).completed ==> exists i :: FinishedAt(x.log, i, d))
  }

  ghost predicate History(x: Shared) {
    FlagsMatchLog(x) && FinishedOnce(x.log) && SuccessesJustified(x.log)
  }

  // ---------------------------------------------------------------- what the calls say

  /** Frames that answer for a delivery. */
  predicate Answers(f: Call) {
    f.IsWorker() || f.Rejecting? || f.Finishing?
  }

  ghost predicate HolderExact(s: State) {
    && (forall c :: c in s.calls ==> c < s.nextCall)
    && (forall c :: c in s.calls && s.calls[c].HoldsMainActor() ==> s.holder == Some(c))
    && (s.holder.Some? ==> s.holder.value in s.calls && s.calls[s.holder.value].HoldsMainActor())
  }

  /** `active` is set exactly while one worker owns it. */
  ghost predicate ActiveExact(s: State) {
    && (forall c :: c in s.calls && s.calls[c].IsWorker() ==> s.active == Some(s.calls[c].delivery))
    && (forall c, c' :: c in s.calls && c' in s.calls && s.calls[c].IsWorker() && s.calls[c'].IsWorker() ==> c == c')
    && (s.active.Some? ==> exists c :: c in s.calls && s.calls[c].IsWorker())
  }

  /** A delivery that was handed over has completed or has somebody answering for it. */
  ghost predicate AnsweredFor(s: State, d: DeliveryId) {
    Get(s.shared, d).completed || exists c :: c in s.calls && Answers(s.calls[c]) && s.calls[c].delivery == d
  }

  ghost predicate HandedAnswered(s: State) {
    forall d :: d in s.handed ==> AnsweredFor(s, d)
  }

  ghost predicate AdmissionRecorded(log: seq<Event>, f: Call)
    requires f.IsWorker() || f.Finishing?
  {
    f.admitted < |log| && log[f.admitted] == Admitted(f.delivery, f.policy) && f.policy.enabled
  }

  ghost predicate FrameHonest(s: State, f: Call) {
    && (f.IsWorker() || f.Finishing? ==> AdmissionRecorded(s.Log(), f))
    && (f.IsWorker() ==> f.rev <= s.revision
                         && (f.rev == s.revision ==> NoRevisionChange(s.Log(), f.admitted, |s.Log()|)))
    && (f.Finishing? && f.success && !Get(s.shared, f.delivery).expired ==>
          StillAdmitted(s.Log(), f.admitted, f.delivery, s.policy))
  }

  ghost predicate FramesHonest(s: State) {
    forall c :: c in s.calls ==> FrameHonest(s, s.calls[c])
  }

  ghost predicate Inv(s: State) {
    HolderExact(s) && ActiveExact(s) && HandedAnswered(s) && FramesHonest(s) && History(s.shared)
  }

  // ---------------------------------------------------------------- shared state

  /** Adding an event that is no completion and no expiration. */
  lemma NoteKeepsHistory(x: Shared, e: Event)
    requires History(x) && !e.Finished? && !e.Expired?
    ensures History(Note(x, e))
  {
    var y := Note(x, e);
    assert forall i, d :: FinishedAt(y.log, i, d) ==> FinishedAt(x.log, i, d);
    assert forall i, d :: ExpiredAt(y.log, i, d) ==> ExpiredAt(x.log, i, d);
    forall d | Get(y, d).completed ensures exists i :: FinishedAt(y.log, i, d) {
      assert Get(x, d).completed;
      var i :| FinishedAt(x.log, i, d);
      assert FinishedAt(y.log, i, d);
    }
    SuccessesKept(x.log, y.log);
  }

  lemma SuccessesKept(log: seq<Event>, longer: seq<Event>)
    requires SuccessesJustified(log) && log <= longer
    requires forall j :: |log| <= j < |longer| && longer[j].Finished? && longer[j].success ==>
             SuccessJustified(longer, j)
    ensures SuccessesJustified(longer)
  {
    forall j | 0 <= j < |longer| && longer[j].Finished? && longer[j].success
      ensures SuccessJustified(longer, j)
    {
      if j < |log| {
        assert log[j] == longer[j] && SuccessJustified(log, j);
        assert log[..j] == longer[..j];
        forall k | k < j ensures !ExpiredAt(longer, k, longer[j].delivery) {
          assert !ExpiredAt(log, k, log[j].delivery);
        }
      }
    }
  }

  lemma MarkKeepsHistory(x: Shared, d: DeliveryId)
    requires History(x)
    ensures History(Mark(x, d))
  {
    var y := Mark(x, d);
    if y != x {
      assert forall i, e :: FinishedAt(y.log, i, e) ==> FinishedAt(x.log, i, e);
      assert forall i, e :: ExpiredAt(y.log, i, e) ==> ExpiredAt(x.log, i, e) || e == d;
      forall e | Get(y, e).completed ensures exists i :: FinishedAt(y.log, i, e) {
        assert Get(x, e).completed;
        var i :| FinishedAt(x.log, i, e);
        assert FinishedAt(y.log, i, e);
      }
      SuccessesKept(x.log, y.log);
    }
  }

  lemma FinishKeepsHistory(x: Shared, d: DeliveryId, success: bool, policy: Policy)
    requires History(x)
    requires success && !Get(x, d).expired ==> exists i :: StillAdmitted(x.log, i, d, policy)
    ensures History(Finish(x, d, success, policy))
  {
    var y := Finish(x, d, success, policy);
    if !Get(x, d).completed {
      var n := |x.log|;
      assert y.log[..n] == x.log;
      assert FinishedAt(y.log, n, d);
      assert forall i, e :: FinishedAt(y.log, i, e) ==> FinishedAt(x.log, i, e) || (i == n && e == d);
      assert forall i, e :: ExpiredAt(y.log, i, e) ==> ExpiredAt(x.log, i, e);
      forall e | Get(y, e).completed ensures exists i :: FinishedAt(y.log, i, e) {
        if e != d {
          assert Get(x, e).completed;
          var i :| FinishedAt(x.log, i, e);
          assert FinishedAt(y.log, i, e);
        }
      }
      SuccessesKept(x.log, y.log);
    }
  }

  lemma CancelKeepsHistory(x: Shared, task: Option<CallId>)
    requires History(x)
    ensures History(CancelTask(x, task))
  {
    var y := CancelTask(x, task);
    assert y.log == x.log && forall d :: Get(y, d) == Get(x, d);
    forall d | Get(y, d).completed ensures exists i :: FinishedAt(y.log, i, d) {
      assert Get(x, d).completed;
    }
  }

  lemma InstallKeepsHistory(x: Shared, d: DeliveryId, worker: CallId)
    requires History(x)
    ensures History(InstallWorker(x, d, worker))
  {
    var y := InstallWorker(x, d, worker);
    assert y.log == x.log;
    assert forall e :: Get(y, e).completed == Get(x, e).completed && Get(y, e).expired == Get(x, e).expired;
    forall e | Get(y, e).completed ensures exists i :: FinishedAt(y.log, i, e) {
      assert Get(x, e).completed;
    }
  }

  // ---------------------------------------------------------------- steps that touch no worker

  /** New log entries change the revision only if the revision changed, and never while someone holds the MainActor. */
  ghost predicate LogAdvances(s: State, t: State) {
    && s.Log() <= t.Log() && s.revision <= t.revision
    && (t.revision == s.revision ==> NoRevisionChange(t.Log(), |s.Log()| - 1, |t.Log()|))
    && (forall d :: Get(s.shared, d).completed ==> Get(t.shared, d).completed)
    && (forall d :: Get(s.shared, d).expired ==> Get(t.shared, d).expired)
  }

  ghost predicate Quiet(s: State, t: State) {
    && t.active == s.active && t.holder == s.holder && t.handed == s.handed && LogAdvances(s, t)
    && (s.holder.Some? ==> t.revision == s.revision && t.policy == s.policy)
    && (forall c :: c in t.calls ==> c < t.nextCall)
    && (forall c :: c in t.calls && Answers(t.calls[c]) ==> c in s.calls && t.calls[c] == s.calls[c])
    && (forall c :: c in s.calls && Answers(s.calls[c]) ==> c in t.calls && t.calls[c] == s.calls[c])
  }

  lemma StillAdmittedLater(log: seq<Event>, longer: seq<Event>, i: int, d: DeliveryId, now: Policy)
    requires StillAdmitted(log, i, d, now) && log <= longer && NoRevisionChange(longer, |log| - 1, |longer|)
    ensures StillAdmitted(longer, i, d, now)
  {
    var k :| i < k < |log| && 0 <= k && log[k] == Revalidated(d, log[i].policy.identity);
    assert longer[k] == log[k];
  }

  lemma FrameStaysHonest(s: State, t: State, f: Call)
    requires FrameHonest(s, f) && LogAdvances(s, t)
             && (f.Finishing? ==> t.revision == s.revision && t.policy == s.policy)
    ensures FrameHonest(t, f)
  {
    if f.Finishing? && f.success && !Get(s.shared, f.delivery).expired {
      StillAdmittedLater(s.Log(), t.Log(), f.admitted, f.delivery, s.policy);
    }
  }

  lemma QuietKeeps(s: State, t: State)
    requires Inv(s) && Quiet(s, t) && History(t.shared)
    ensures Inv(t)
  {
    forall c | c in t.calls ensures FrameHonest(t, t.calls[c]) {
      if Answers(t.calls[c]) {
        FrameStaysHonest(s, t, s.calls[c]);
      }
    }
    forall d | d in t.handed ensures AnsweredFor(t, d) {
      assert AnsweredFor(s, d);
      if !Get(s.shared, d).completed {
        var c :| c in s.calls && Answers(s.calls[c]) && s.calls[c].delivery == d;
        assert c in t.calls && t.calls[c] == s.calls[c];
      }
    }
    if s.active.Some? {
      var c :| c in s.calls && s.calls[c].IsWorker();
      assert t.calls[c].IsWorker();
    }
  }

  /** A new revision noted in the log; nothing else changes for the calls and deliveries. */
  lemma BumpKeeps(s: State, t: State, e: Event)
    requires Inv(s) && s.holder.None? && e.ChangesRevision() && t.shared == Note(s.shared, e)
    requires t.revision == s.revision + 1 && t.calls == s.calls && t.nextCall == s.nextCall
    requires t.active == s.active && t.holder == s.holder && t.handed == s.handed
    ensures Inv(t)
  {
    NoteKeepsHistory(s.shared, e);
    assert forall d :: Get(t.shared, d) == Get(s.shared, d);
    QuietKeeps(s, t);
  }

  lemma ExpireMarksKeeps(s: State, d: DeliveryId)
    requires Inv(s)
    ensures Inv(DoExpireMarks(s, d))
  {
    MarkKeepsHistory(s.shared, d);
    QuietKeeps(s, DoExpireMarks(s, d));
  }

  lemma MarkActiveKeeps(s: State)
    requires Inv(s)
    ensures Inv(MarkActive(s)) && MarkActive(s).holder == s.holder
  {
    if s.active.Some? { ExpireMarksKeeps(s, s.active.value); }
  }

  lemma InvalidateKeeps(s: State, disable: bool, write: WriteOutcome)
    requires Inv(s) && s.holder.None?
    ensures Inv(DoInvalidate(s, disable, write))
  {
    MarkActiveKeeps(s);
    hide MarkActive, Inv;
    var t := DoInvalidate(s, disable, write);
    BumpKeeps(MarkActive(s), t, Invalidated(disable, write, !t.store.durable.enabled));
  }

  lemma SetNetworkKeeps(s: State, network: Network, write: WriteOutcome)
    requires Inv(s) && s.holder.None?
    ensures Inv(DoSetNetwork(s, network, write))
  {
    MarkActiveKeeps(s);
    hide MarkActive, Inv;
    BumpKeeps(MarkActive(s), DoSetNetwork(s, network, write), NetworkChanged);
  }

  predicate Harmless(e: Event) { !e.Finished? && !e.Expired? && !e.ChangesRevision() }

  /** A step that adds at most one harmless event and leaves the frames that answer for a delivery alone. */
  ghost predicate Noted(s: State, t: State) {
    && (t.shared == s.shared
        || (|t.Log()| == |s.Log()| + 1 && t.shared == Note(s.shared, t.Log()[|s.Log()|])
            && Harmless(t.Log()[|s.Log()|])))
    && t.active == s.active && t.holder == s.holder && t.handed == s.handed && t.revision == s.revision
    && (s.holder.Some? ==> t.policy == s.policy)
    && (forall c :: c in t.calls ==> c < t.nextCall)
    && (forall c :: c in t.calls && Answers(t.calls[c]) ==> c in s.calls && t.calls[c] == s.calls[c])
    && (forall c :: c in s.calls && Answers(s.calls[c]) ==> c in t.calls && t.calls[c] == s.calls[c])
  }

  lemma NotedKeeps(s: State, t: State)
    requires Inv(s) && Noted(s, t)
    ensures Inv(t)
  {
    if t.shared != s.shared {
      NoteKeepsHistory(s.shared, t.Log()[|s.Log()|]);
    }
    assert forall d :: Get(t.shared, d) == Get(s.shared, d);
    QuietKeeps(s, t);
  }

  lemma ScheduleNoted(s: State, a: ScheduleAction)
    requires ScheduleEnabled(s, a) && !a.ScheduleGotIdentity? && forall c :: c in s.calls ==> c < s.nextCall
    ensures Noted(s, ApplySchedule(s, a))
  {
    hide DoScheduleGotIdentity, DoScheduleGotPending;
    if a.ScheduleGotPending? {
      PendingNoted(s, a.call, a.available, a.lowPower, a.guardAt, a.setAt, a.write, a.accepted);
    }
  }

  lemma PendingNoted(s: State, c: CallId, available: bool, lowPower: bool, guardAt: int, setAt: int,
                     write: WriteOutcome, accepted: bool)
    requires s.holder.None? && c in s.calls && s.calls[c].SchedulePending? && s.calls[c].answer.Some?
    requires forall k :: k in s.calls ==> k < s.nextCall
    ensures Noted(s, DoScheduleGotPending(s, c, available, lowPower, guardAt, setAt, write, accepted))
  {
  }

  lemma OwnerNoted(s: State, a: OwnerAction)
    requires OwnerEnabled(s, a) && forall c :: c in s.calls ==> c < s.nextCall
    requires !a.SetNetwork? && !a.Invalidate? && !a.StatusGotIdentity?
    ensures Noted(s, ApplyOwner(s, a))
  {
    hide DoSetNetwork, DoInvalidate, DoStatusGotIdentity, DoOptInGotIdentity, DoStatusStart;
    if a.OptInGotIdentity? { OptInNoted(s, a.call, a.identity, a.valid, a.write); }
    if a.StatusStart? { StatusStartNoted(s); }
  }

  lemma OptInNoted(s: State, c: CallId, identity: Option<Identity>, valid: bool, write: WriteOutcome)
    requires s.holder.None? && c in s.calls && s.calls[c].OptIn? && forall k :: k in s.calls ==> k < s.nextCall
    ensures Noted(s, DoOptInGotIdentity(s, c, identity, valid, write))
  {
  }

  lemma StatusStartNoted(s: State)
    requires s.holder.None? && forall k :: k in s.calls ==> k < s.nextCall
    ensures Noted(s, DoStatusStart(s))
  {
  }

  lemma ScheduleGotIdentityKeeps(s: State, c: CallId, identity: Option<Identity>, write: WriteOutcome)
    requires Inv(s) && s.holder.None? && c in s.calls && s.calls[c].ScheduleIdentity?
    ensures Inv(DoScheduleGotIdentity(s, c, identity, write))
  {
    hide DoInvalidate, Noted, History, FramesHonest, HandedAnswered, ActiveExact;
    var f := s.calls[c];
    ScheduleQuiet(s, c, identity, write);
    if identity.Some? && f.rev == s.revision && identity != f.saved.identity {
      NotedKeeps(s, EndSchedule(s, c));
      InvalidateKeeps(EndSchedule(s, c), true, write);
    } else {
      NotedKeeps(s, DoScheduleGotIdentity(s, c, identity, write));
    }
  }

  lemma ScheduleQuiet(s: State, c: CallId, identity: Option<Identity>, write: WriteOutcome)
    requires c in s.calls && s.calls[c].ScheduleIdentity?
    requires forall k :: k in s.calls ==> k < s.nextCall
    ensures Noted(s, EndSchedule(s, c))
    ensures !(identity.Some? && s.calls[c].rev == s.revision && identity != s.calls[c].saved.identity) ==>
              Noted(s, DoScheduleGotIdentity(s, c, identity, write))
  {
    hide DoInvalidate;
  }

  lemma StatusQuiet(s: State, c: CallId, identity: Option<Identity>, write: WriteOutcome)
    requires c in s.calls && s.calls[c].StatusIdentity?
    requires forall k :: k in s.calls ==> k < s.nextCall
    ensures Noted(s, s.(calls := s.calls - {c}))
    ensures !StatusMismatch(s, c, identity) ==> Noted(s, DoStatusGotIdentity(s, c, identity, write))
  {
    hide DoInvalidate;
  }

  lemma StatusGotIdentityKeeps(s: State, c: CallId, identity: Option<Identity>, write: WriteOutcome)
    requires Inv(s) && s.holder.None? && c in s.calls && s.calls[c].StatusIdentity?
    ensures Inv(DoStatusGotIdentity(s, c, identity, write))
  {
    hide DoInvalidate, Noted;
    StatusQuiet(s, c, identity, write);
    if StatusMismatch(s, c, identity) {
      NotedKeeps(s, s.(calls := s.calls - {c}));
      InvalidateKeeps(s.(calls := s.calls - {c}), true, write);
    } else {
      NotedKeeps(s, DoStatusGotIdentity(s, c, identity, write));
    }
  }

  lemma ScheduleStepKeeps(s: State, a: ScheduleAction)
    requires Inv(s) && ScheduleEnabled(s, a)
    ensures Inv(ApplySchedule(s, a))
  {
    hide DoScheduleStart, DoScheduleGotIdentity, DoNativeAnswers, DoScheduleGotPending, Noted;
    if a.ScheduleGotIdentity? {
      ScheduleGotIdentityKeeps(s, a.call, a.identity, a.write);
    } else {
      ScheduleNoted(s, a);
      NotedKeeps(s, ApplySchedule(s, a));
    }
  }

  lemma OwnerStepKeeps(s: State, a: OwnerAction)
    requires Inv(s) && OwnerEnabled(s, a)
    ensures Inv(ApplyOwner(s, a))
  {
    hide DoOptInStart, DoOptInGotIdentity, DoSetNetwork, DoInvalidate, DoStatusStart, DoStatusGotIdentity,
      DoStatusGotConfirmation, DoStatusGotRecovery, DoCoordinatorAdvances, Noted;
    match a
    case SetNetwork(network, write) => SetNetworkKeeps(s, network, write);
    case Invalidate(disable, write) => InvalidateKeeps(s, disable, write);
    case StatusGotIdentity(c, identity, write) => StatusGotIdentityKeeps(s, c, identity, write);
    case _ =>
      OwnerNoted(s, a);
      NotedKeeps(s, ApplyOwner(s, a));
  }

  // ---------------------------------------------------------------- the delivery's own steps

  lemma AdmitKeeps(s: State, d: DeliveryId, t: State)
    requires Inv(s) && s.holder.None? && s.active.None? && s.policy.enabled
    requires t.calls == s.calls[s.nextCall := Installing(d, s.revision, s.policy, |s.Log()|)]
    requires t.shared == Note(s.shared, Admitted(d, s.policy)) && t.nextCall == s.nextCall + 1
    requires t.active == Some(d) && t.holder == Some(s.nextCall) && t.handed == s.handed + {d}
    requires t.revision == s.revision && t.policy == s.policy
    ensures Inv(t)
  {
    NoteKeepsHistory(s.shared, Admitted(d, s.policy));
    assert forall e :: Get(t.shared, e) == Get(s.shared, e);
    FreshAnswers(s, d, t);
    forall c | c in t.calls ensures FrameHonest(t, t.calls[c]) {
      if c != s.nextCall { FrameStaysHonest(s, t, s.calls[c]); }
    }
    assert t.calls[s.nextCall].IsWorker();
  }

  /** A new frame answers for its delivery; the others keep theirs. */
  lemma FreshAnswers(s: State, d: DeliveryId, t: State)
    requires HandedAnswered(s) && (forall c :: c in s.calls ==> c < s.nextCall) && s.nextCall in t.calls
    requires Answers(t.calls[s.nextCall]) && t.calls[s.nextCall].delivery == d && t.handed == s.handed + {d}
    requires forall c :: c in s.calls ==> c in t.calls && t.calls[c] == s.calls[c]
    requires forall e :: Get(t.shared, e) == Get(s.shared, e)
    ensures HandedAnswered(t)
  {
    forall e | e in t.handed ensures AnsweredFor(t, e) {
      if e != d && !Get(s.shared, e).completed {
        assert AnsweredFor(s, e);
        var c :| c in s.calls && Answers(s.calls[c]) && s.calls[c].delivery == e;
        assert t.calls[c] == s.calls[c];
      }
    }
  }

  lemma RejectKeeps(s: State, d: DeliveryId, t: State)
    requires Inv(s) && s.holder.None?
    requires t.calls == s.calls[s.nextCall := Rejecting(d)] && t.nextCall == s.nextCall + 1
    requires t.shared == s.shared && t.active == s.active && t.holder == Some(s.nextCall) && t.handed == s.handed + {d}
    requires t.revision == s.revision && t.policy == s.policy
    ensures Inv(t)
  {
    FreshAnswers(s, d, t);
    forall c | c in t.calls ensures FrameHonest(t, t.calls[c]) {
      if c != s.nextCall { FrameStaysHonest(s, t, s.calls[c]); }
    }
    if s.active.Some? {
      var c :| c in s.calls && s.calls[c].IsWorker();
      assert t.calls[c].IsWorker();
    }
  }

  lemma DeliverKeeps(s: State, d: DeliveryId, available: bool, lowPower: bool)
    requires Inv(s) && s.holder.None?
    ensures Inv(DoDeliver(s, d, available, lowPower))
  {
    var t := DoDeliver(s, d, available, lowPower);
    if s.active != Some(d) {
      if t.active == s.active { RejectKeeps(s, d, t); } else { AdmitKeeps(s, d, t); }
    }
  }

  /** A worker moves on to its next stage, answering for the same admission. */
  lemma WorkerMoves(s: State, c: CallId, t: State)
    requires Inv(s) && c in s.calls && s.calls[c].IsWorker() && (s.calls[c].Installing? ==> t.holder.None?)
    requires c in t.calls && t.calls[c].IsWorker() && !t.calls[c].Installing? && t.calls == s.calls[c := t.calls[c]]
    requires t.calls[c].delivery == s.calls[c].delivery && t.calls[c].rev == s.calls[c].rev
    requires t.calls[c].policy == s.calls[c].policy && t.calls[c].admitted == s.calls[c].admitted
    requires !s.calls[c].Installing? ==> t.holder == s.holder
    requires t.nextCall == s.nextCall && t.active == s.active && t.handed == s.handed && t.revision == s.revision
    requires t.policy == s.policy && LogAdvances(s, t) && History(t.shared)
    ensures Inv(t)
  {
    forall k | k in t.calls ensures FrameHonest(t, t.calls[k]) {
      FrameStaysHonest(s, t, s.calls[k]);
    }
    forall d | d in t.handed ensures AnsweredFor(t, d) {
      assert AnsweredFor(s, d);
      if !Get(s.shared, d).completed {
        var k :| k in s.calls && Answers(s.calls[k]) && s.calls[k].delivery == d;
        assert Answers(t.calls[k]) && t.calls[k].delivery == d;
      }
    }
  }

  /** A worker gives up `active` and is about to finish. */
  lemma WorkerRetires(s: State, c: CallId, t: State)
    requires Inv(s) && s.holder.None? && c in s.calls && s.calls[c].IsWorker()
    requires c in t.calls && t.calls[c].Finishing? && t.calls == s.calls[c := t.calls[c]]
    requires t.calls[c].delivery == s.calls[c].delivery && t.calls[c].policy == s.calls[c].policy
    requires t.calls[c].admitted == s.calls[c].admitted
    requires t.calls[c].success && !Get(t.shared, t.calls[c].delivery).expired ==>
               StillAdmitted(t.Log(), t.calls[c].admitted, t.calls[c].delivery, t.policy)
    requires t.nextCall == s.nextCall && t.active.None? && t.holder == Some(c) && t.handed == s.handed
    requires t.policy == s.policy && LogAdvances(s, t) && t.revision == s.revision && History(t.shared)
    ensures Inv(t)
  {
    forall k | k in t.calls ensures FrameHonest(t, t.calls[k]) {
      assert FrameHonest(s, s.calls[k]);
      if k != c { FrameStaysHonest(s, t, s.calls[k]); }
    }
    forall d | d in t.handed ensures AnsweredFor(t, d) {
      assert AnsweredFor(s, d);
      if !Get(s.shared, d).completed {
        var k :| k in s.calls && Answers(s.calls[k]) && s.calls[k].delivery == d;
        assert Answers(t.calls[k]) && t.calls[k].delivery == d;
      }
    }
  }

  lemma OperationReturnsKeeps(s: State, c: CallId, outcome: Outcome)
    requires Inv(s) && s.holder.None? && c in s.calls && s.calls[c].WorkerRunning?
    ensures Inv(DoOperationReturns(s, c, outcome))
  {
    var f := s.calls[c];
    var t := DoOperationReturns(s, c, outcome);
    assert FrameHonest(s, f);
    NoteKeepsHistory(s.shared, Returned(f.admitted, outcome.confirmation, Some(outcome)));
    assert forall d :: Get(t.shared, d) == Get(s.shared, d);
    if f.rev == s.revision && !Get(s.shared, f.delivery).expired {
      WorkerMoves(s, c, t);
    } else {
      WorkerRetires(s, c, t);
    }
  }

  lemma WorkerGotIdentityKeeps(s: State, c: CallId, identity: Option<Identity>)
    requires Inv(s) && s.holder.None? && c in s.calls && s.calls[c].WorkerIdentity?
    ensures Inv(DoWorkerGotIdentity(s, c, identity))
  {
    var f := s.calls[c];
    var t := DoWorkerGotIdentity(s, c, identity);
    assert FrameHonest(s, f);
    if f.rev == s.revision {
      var e := Revalidated(f.delivery, identity);
      NoteKeepsHistory(s.shared, e);
      assert forall d :: Get(t.shared, d) == Get(s.shared, d);
      assert t.Log()[|s.Log()|] == e;
      assert t.Log()[f.admitted] == s.Log()[f.admitted];
    }
    WorkerRetires(s, c, t);
  }

  lemma FinishAdvances(x: Shared, d: DeliveryId, success: bool, policy: Policy)
    ensures x.log <= Finish(x, d, success, policy).log
    ensures NoRevisionChange(Finish(x, d, success, policy).log, |x.log| - 1, |Finish(x, d, success, policy).log|)
    ensures Get(Finish(x, d, success, policy), d).completed
    ensures forall e :: Get(x, e).completed ==> Get(Finish(x, d, success, policy), e).completed
    ensures forall e :: Get(x, e).expired ==> Get(Finish(x, d, success, policy), e).expired
  {
  }

  /** The frame that holds the MainActor completes its delivery and goes. */
  lemma HolderFinishes(s: State, c: CallId, success: bool)
    requires Inv(s) && c in s.calls && (s.calls[c].Rejecting? || s.calls[c].Finishing?)
    requires success ==> s.calls[c].Finishing? && s.calls[c].success
    ensures Inv(s.(calls := s.calls - {c}, holder := None,
                   shared := Finish(s.shared, s.calls[c].delivery, success, s.policy)))
  {
    var d := s.calls[c].delivery;
    var t := s.(calls := s.calls - {c}, holder := None, shared := Finish(s.shared, d, success, s.policy));
    assert FrameHonest(s, s.calls[c]);
    FinishKeepsHistory(s.shared, d, success, s.policy);
    FinishAdvances(s.shared, d, success, s.policy);
    forall k | k in t.calls ensures FrameHonest(t, t.calls[k]) {
      FrameStaysHonest(s, t, s.calls[k]);
    }
    forall e | e in t.handed ensures AnsweredFor(t, e) {
      assert AnsweredFor(s, e);
      if !Get(t.shared, e).completed {
        var k :| k in s.calls && Answers(s.calls[k]) && s.calls[k].delivery == e;
        assert k in t.calls && t.calls[k] == s.calls[k];
      }
    }
    if s.active.Some? {
      var k :| k in s.calls && s.calls[k].IsWorker();
      assert t.calls[k].IsWorker();
    }
  }

  lemma DeliverInstallsKeeps(s: State, c: CallId)
    requires Inv(s) && c in s.calls && s.calls[c].Installing?
    ensures Inv(DoDeliverInstalls(s, c))
  {
    InstallKeepsHistory(s.shared, s.calls[c].delivery, c);
    WorkerMoves(s, c, DoDeliverInstalls(s, c));
  }

  lemma ExpireFinishesKeeps(s: State, c: CallId)
    requires Inv(s) && c in s.calls && s.calls[c].Expiring?
    ensures Inv(DoExpireFinishes(s, c))
  {
    var f := s.calls[c];
    CancelKeepsHistory(s.shared, f.task);
    FinishKeepsHistory(CancelTask(s.shared, f.task), f.delivery, false, s.policy);
    FinishAdvances(CancelTask(s.shared, f.task), f.delivery, false, s.policy);
    assert forall d :: Get(CancelTask(s.shared, f.task), d) == Get(s.shared, d);
    QuietKeeps(s, DoExpireFinishes(s, c));
  }

  lemma DeliveryStepKeeps(s: State, a: DeliveryAction)
    requires Inv(s) && DeliveryEnabled(s, a)
    ensures Inv(ApplyDelivery(s, a))
  {
    hide DoDeliver, DoDeliverInstalls, DoOperationReturns, DoWorkerGotIdentity, DoExpireMarks, DoExpireFinishes;
    match a
    case Deliver(d, available, lowPower) => DeliverKeeps(s, d, available, lowPower);
    case DeliverRejects(c) => HolderFinishes(s, c, false);
    case DeliverInstalls(c) => DeliverInstallsKeeps(s, c);
    case WorkerStarts(c) => WorkerMoves(s, c, DoWorkerStarts(s, c));
    case OperationReturns(c, outcome) => OperationReturnsKeeps(s, c, outcome);
    case WorkerGotIdentity(c, identity) => WorkerGotIdentityKeeps(s, c, identity);
    case WorkerFinishes(c) => HolderFinishes(s, c, s.calls[c].success);
    case ExpireMarks(d) => ExpireMarksKeeps(s, d);
    case ExpireFinishes(c) => ExpireFinishesKeeps(s, c);
  }

  /** A new process has no calls and answers for no delivery yet; the history stays. */
  lemma RelaunchKeeps(s: State, readable: bool)
    requires Inv(s)
    ensures Inv(DoRelaunch(s, readable))
  {
    NoteKeepsHistory(s.shared, Relaunched);
  }

  lemma {:induction false} RunKeepsInv(launch: Launch, run: seq<Action>)
    ensures Exec(launch, run).Some? ==> Inv(Exec(launch, run).value)
  {
    if run != [] {
      RunKeepsInv(launch, run[..|run| - 1]);
      var before := Exec(launch, run[..|run| - 1]);
      if Exec(launch, run).Some? {
        match run[|run| - 1]
        case Scheduling(a) => ScheduleStepKeeps(before.value, a);
        case Owning(a) => OwnerStepKeeps(before.value, a);
        case Delivering(a) => DeliveryStepKeeps(before.value, a);
        case Relaunching(readable) => RelaunchKeeps(before.value, readable);
      }
    }
  }

  // ---------------------------------------------------------------- the results

  /** In every run at most one operation is running. */
  lemma OperationsNeverOverlap(launch: Launch, run: seq<Action>, c: CallId, c': CallId)
    requires Exec(launch, run).Some?
    requires c in Exec(launch, run).value.calls && Exec(launch, run).value.calls[c].WorkerRunning?
    requires c' in Exec(launch, run).value.calls && Exec(launch, run).value.calls[c'].WorkerRunning?
    ensures c == c'
  {
    RunKeepsInv(launch, run);
  }

  /** Completed at most once, and completed for certain when nobody answers for it any more. */
  ghost predicate ExactlyOnce(s: State, d: DeliveryId) {
    && (forall i, j :: FinishedAt(s.Log(), i, d) && FinishedAt(s.Log(), j, d) ==> i == j)
    && (d in s.handed && (forall c :: c in s.calls && Answers(s.calls[c]) ==> s.calls[c].delivery != d) ==>
          exists i :: FinishedAt(s.Log(), i, d))
  }

  lemma AnsweredMeansOnce(s: State, d: DeliveryId)
    requires HandedAnswered(s) && History(s.shared)
    ensures ExactlyOnce(s, d)
  {
    hide SuccessesJustified;
    assert d in s.handed ==> AnsweredFor(s, d);
    if Get(s.shared, d).completed {
      var i :| FinishedAt(s.shared.log, i, d);
      assert FinishedAt(s.Log(), i, d);
    }
  }

  /**
   In every run no delivery completes twice, and once no call answers for it any more a delivery that
   was handed to the present process has completed.
   */
  lemma CompletedExactlyOnce(launch: Launch, run: seq<Action>, d: DeliveryId)
    requires Exec(launch, run).Some?
    ensures ExactlyOnce(Exec(launch, run).value, d)
  {
    RunKeepsInv(launch, run);
    AnsweredMeansOnce(Exec(launch, run).value, d);
  }

  /**
   In every run a delivery that reported success was admitted, has not expired, saw no revision change
   since its admission, had its identity fetched again, and the enabled policy, grant and identity were
   still those of the admission.
   */
  lemma SuccessOnlyWhileAdmitted(launch: Launch, run: seq<Action>)
    requires Exec(launch, run).Some?
    ensures SuccessesJustified(Exec(launch, run).value.Log())
  {
    RunKeepsInv(launch, run);
  }
}
