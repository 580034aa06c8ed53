/**
 One delivery as the object it is in the app, shared by the MainActor and whatever thread expires it. Each lock body is
 a method, proved to be the lock body of the state machine on that delivery; the object also keeps what its completion
 has been called with.
 */
module DeliveryObject {
  import opened Options
  import opened RefreshModel

  class BackgroundRefreshDelivery {
    var expired: bool
    var completed: bool
    var worker: Option<CallId>
    var results: seq<bool>

    function Snapshot(): Delivery
      reads this
    {
      Delivery(expired, completed, worker)
    }

    /** The completion has been called exactly when the delivery is completed, and at most once. */
    predicate Valid()
      reads this
    {
      |results| == (if completed then 1 else 0)
    }

    constructor ()
      ensures Valid() && Snapshot() == FRESH_DELIVERY && results == []
    {
      expired, completed, worker, results := false, false, None, [];
    }

    /** `install`: the worker must be cancelled exactly when the delivery has already expired. */
    method Install(task: CallId) returns (shouldCancel: bool)
      requires Valid()
      modifies this`worker
      ensures Valid() && worker == Some(task) && shouldCancel == expired
      ensures forall x: Shared, d :: Get(x, d) == old(Snapshot()) ==>
                var y := InstallWorker(x, d, task);
                && Get(y, d) == Snapshot()
                && y.cancelled == (if shouldCancel then x.cancelled + {task} else x.cancelled)
    {
      worker := Some(task);
      shouldCancel := expired;
    }

    /** The first lock body of `expire`. */
    method MarkExpired() returns (task: Option<CallId>, first: bool)
      requires Valid()
      modifies this`expired
      ensures Valid() && expired && task == worker && first == !old(expired)
      ensures forall x: Shared, d :: Get(x, d) == old(Snapshot()) ==>
                && Get(Mark(x, d), d) == Snapshot()
                && Mark(x, d).log == (if first then x.log + [Expired(d)] else x.log)
    {
      first := !expired;
      expired := true;
      task := worker;
    }

    /** `finish`: the completion is called only the first time, with true only if nothing expired before. */
    method Complete(success: bool)
      requires Valid()
      modifies this`completed, this`worker, this`results
      ensures Valid() && completed
      ensures results == if old(completed) then old(results) else [success && !expired]
      ensures forall x: Shared, d, p :: Get(x, d) == old(Snapshot()) ==>
                var y := Finish(x, d, success, p);
                && Get(y, d) == Snapshot()
                && y.log == (if old(completed) then x.log else x.log + [Finished(d, results[0], p)])
    {
      if !completed {
        completed := true;
        worker := None;
        results := results + [success && !expired];
      }
    }

    /** `expire` without interference: whatever happens later, the completion is never called with true after it. */
    method Expire() returns (task: Option<CallId>)
      requires Valid()
      modifies this
      ensures Valid() && expired && completed && task == old(worker)
      ensures results == if old(completed) then old(results) else [false]
    {
      var first;
      task, first := MarkExpired();
      Complete(false);
    }
  }
}
