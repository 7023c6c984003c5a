/** The stored collections of the journal and the queue, and the methods that update them. Each
    method is one atomic step (one update, or one transaction) and equals one action of the
    `WorkQueue` and `Journal` machines, over whose runs the guarantees are proved; claiming is the
    two steps of sweeping and leasing. */
module Operations {
  import opened Common
  import W = WorkQueue
  import J = Journal

  class OperationStore {
    var items: map<W.WorkId, W.Item>
    var operations: map<J.OpId, J.Operation>
    var steps: map<J.StepId, J.Step>
    var records: map<J.Key, J.Record>

    ghost var ids: set<W.WorkId>
    ghost var issued: map<W.Nonce, W.Claim>
    ghost var accepts: set<W.Accept>
    ghost var seen: set<W.Seen>
    ghost var begun: seq<J.StepId>

    ghost function Queue(): W.Queue
      reads this
    {
      W.Queue(items, ids, issued, accepts, seen)
    }

    ghost function Book(): J.Journal
      reads this
    {
      J.Journal(operations, steps, records, begun)
    }

    ghost predicate Valid()
      reads this
    {
      W.Valid(Queue()) && J.Valid(Book())
    }

    constructor ()
      ensures Valid() && Queue() == W.EMPTY && Book() == J.EMPTY
    {
      items, operations, steps, records := map[], map[], map[], map[];
      ids, issued, accepts, seen, begun := {}, map[], {}, {}, [];
      new;
      W.EmptyIsValid();
    }

    /** Bring the queue's history up to `q`, whose items are already stored. */
    ghost method Record(q: W.Queue)
      requires q.items == items && W.Valid(q) && J.Valid(Book())
      modifies this`ids, this`issued, this`accepts, this`seen
      ensures Queue() == q && Valid()
    {
      ids, issued, accepts, seen := q.ids, q.issued, q.accepts, q.seen;
    }

    /** Bring the journal's history up to `j`, whose rows are already stored. */
    ghost method Enter(j: J.Journal)
      requires j.ops == operations && j.steps == steps && j.records == records
      requires J.Valid(j) && W.Valid(Queue())
      modifies this`begun
      ensures Book() == j && Valid()
    {
      begun := j.begun;
    }

    predicate Owns(id: W.WorkId, nonce: W.Nonce, now: W.Time)
      reads this`items
    {
      && id in items && items[id].nonce == Some(nonce) && !items[id].dead
      && items[id].expires.Some? && items[id].expires.value >= now
    }

    // ---- The queue ----

    method EnqueueWork(now: W.Time, id: W.WorkId, handler: W.Handler)
      requires Valid() && W.Enabled(Queue(), W.Enqueue(now, id, handler))
      modifies this`items, this`ids, this`issued, this`accepts, this`seen
      ensures Valid() && Queue() == W.Apply(old(Queue()), W.Enqueue(now, id, handler))
      ensures items == old(items)[id := W.Item(handler, now, 0, false, now, None, None)]
    {
      ghost var q := Queue();
      W.StepKeeps(q, W.Enqueue(now, id, handler));
      items := items[id := W.Item(handler, now, 0, false, now, None, None)];
      Record(W.Apply(q, W.Enqueue(now, id, handler)));
    }

    /** The store's sorted lookup: the oldest item a worker may take. */
    method OldestClaimable(handler: W.Handler, now: W.Time) returns (pick: Option<W.WorkId>)
      ensures W.IsPick(items, handler, now, pick)
    {
      pick := None;
      var left := items.Keys;
      while left != {}
        invariant left <= items.Keys
        invariant pick.Some? ==> pick.value in items && W.Claimable(items[pick.value], handler, now)
        invariant forall w | w in items && w !in left && W.Claimable(items[w], handler, now) ::
                    pick.Some? && items[pick.value].createdAt <= items[w].createdAt
        decreases |left|
      {
        var id :| id in left;
        if W.Claimable(items[id], handler, now) && (pick.None? || items[id].createdAt < items[pick.value].createdAt) {
          pick := Some(id);
        }
        left := left - {id};
      }
    }

    /** For this handler, not dead-lettered, attempts left, due, and without a lease that still runs. */
    static predicate MayTake(i: W.Item, handler: W.Handler, now: W.Time) {
      i.handler == handler && !i.dead && i.attempts < 5 && i.notBefore <= now && (i.expires.Some? ==> i.expires.value < now)
    }

    /** Dead-letter the abandoned items, then lease the oldest that may be taken. */
    method ClaimWork(now: W.Time, handler: W.Handler, ttl: int, nonce: W.Nonce) returns (claimed: Option<W.WorkId>)
      requires Valid() && nonce !in issued
      modifies this`items, this`ids, this`issued, this`accepts, this`seen
      ensures Valid()
      ensures var swept := W.Apply(old(Queue()), W.Sweep(now));
              && W.Enabled(swept, W.ClaimNext(now, handler, ttl, nonce, claimed))
              && Queue() == W.Apply(swept, W.ClaimNext(now, handler, ttl, nonce, claimed))
    {
      SweepWork(now);
      claimed := LeaseWork(now, handler, ttl, nonce);
    }

    method SweepWork(now: W.Time)
      requires Valid()
      modifies this`items
      ensures Valid() && Queue() == W.Apply(old(Queue()), W.Sweep(now))
      ensures items.Keys == old(items).Keys
      ensures forall w | w in items ::
                var i := old(items)[w];
                items[w] == if !i.dead && i.attempts >= 5 && i.expires.Some? && i.expires.value < now then i.(dead := true) else i
    {
      W.StepKeeps(Queue(), W.Sweep(now));
      items := W.Swept(items, now);
    }

    method LeaseWork(now: W.Time, handler: W.Handler, ttl: int, nonce: W.Nonce) returns (claimed: Option<W.WorkId>)
      requires Valid() && nonce !in issued
      modifies this`items, this`ids, this`issued, this`accepts, this`seen
      ensures Valid()
      ensures W.Enabled(old(Queue()), W.ClaimNext(now, handler, ttl, nonce, claimed))
      ensures Queue() == W.Apply(old(Queue()), W.ClaimNext(now, handler, ttl, nonce, claimed))
      ensures claimed.None? ==> items == old(items) && forall w | w in items :: !MayTake(items[w], handler, now)
      ensures claimed.Some? ==>
                && claimed.value in old(items) && MayTake(old(items)[claimed.value], handler, now)
                && (forall w | w in old(items) && MayTake(old(items)[w], handler, now) ::
                      old(items)[claimed.value].createdAt <= old(items)[w].createdAt)
                && var i := old(items)[claimed.value];
                   items == old(items)[claimed.value :=
                     i.(nonce := Some(nonce), expires := Some(now + 1000 * ttl), attempts := i.attempts + 1)]
    {
      ghost var q := Queue();
      claimed := OldestClaimable(handler, now);
      ghost var a := W.ClaimNext(now, handler, ttl, nonce, claimed);
      W.StepKeeps(q, a);
      if claimed.Some? {
        var item := items[claimed.value];
        items := items[claimed.value :=
          item.(nonce := Some(nonce), expires := Some(now + 1000 * ttl), attempts := item.attempts + 1)];
      }
      Record(W.Apply(q, a));
    }

    method CompleteWork(now: W.Time, id: W.WorkId, nonce: W.Nonce) returns (done: bool)
      requires Valid()
      modifies this`items, this`ids, this`issued, this`accepts, this`seen
      ensures Valid() && Queue() == W.Apply(old(Queue()), W.Complete(now, id, nonce))
      ensures done <==> old(W.Accepted(Queue(), id, nonce, now))
      ensures done <==> (&& id in old(items) && old(items)[id].nonce == Some(nonce)
                         && old(items)[id].expires.Some? && old(items)[id].expires.value >= now)
      ensures items == if done then old(items) - {id} else old(items)
    {
      ghost var q := Queue();
      W.StepKeeps(q, W.Complete(now, id, nonce));
      done := id in items && items[id].nonce == Some(nonce) && items[id].expires.Some? && items[id].expires.value >= now;
      if done {
        items := items - {id};
      }
      Record(W.Apply(q, W.Complete(now, id, nonce)));
    }

    method RenewWork(now: W.Time, id: W.WorkId, nonce: W.Nonce, ttl: int) returns (renewed: bool)
      requires Valid()
      modifies this`items, this`ids, this`issued, this`accepts, this`seen
      ensures Valid() && Queue() == W.Apply(old(Queue()), W.Renew(now, id, nonce, ttl))
      ensures renewed <==> old(W.Owned(Queue(), id, nonce, now))
      ensures renewed <==> (&& id in old(items) && old(items)[id].nonce == Some(nonce) && !old(items)[id].dead
                            && old(items)[id].expires.Some? && old(items)[id].expires.value >= now)
      ensures items == if renewed then old(items)[id := old(items)[id].(expires := Some(now + 1000 * (if ttl > 1 then ttl else 1)))]
                       else old(items)
    {
      ghost var q := Queue();
      W.StepKeeps(q, W.Renew(now, id, nonce, ttl));
      renewed := Owns(id, nonce, now);
      var until := now + 1000 * (if ttl > 1 then ttl else 1);
      assert until == W.RenewedUntil(now, ttl);
      if renewed {
        items := items[id := items[id].(expires := Some(until))];
      }
      Record(W.Apply(q, W.Renew(now, id, nonce, ttl)));
    }

    /** First half of `fail_work`: read the item held under this nonce. */
    method ReadFailing(id: W.WorkId, nonce: W.Nonce) returns (attempts: Option<nat>)
      requires Valid()
      modifies this`items, this`ids, this`issued, this`accepts, this`seen
      ensures Valid() && Queue() == W.Apply(old(Queue()), W.FailRead(id, nonce))
      ensures attempts == if old(W.Holds(Queue(), id, nonce)) then Some(old(items)[id].attempts) else None
      ensures attempts.Some? ==> W.Seen(id, nonce, attempts.value) in seen
      ensures attempts == (if id in items && items[id].nonce == Some(nonce) then Some(items[id].attempts) else None)
      ensures items == old(items)
    {
      ghost var q := Queue();
      W.StepKeeps(q, W.FailRead(id, nonce));
      attempts := if id in items && items[id].nonce == Some(nonce) then Some(items[id].attempts) else None;
      Record(W.Apply(q, W.FailRead(id, nonce)));
    }

    /** Second half of `fail_work`, with the attempts read before; `later` is its second clock read. */
    method UpdateFailed(now: W.Time, id: W.WorkId, nonce: W.Nonce, disposition: W.Disposition, attempts: nat,
                        jitterSource: nat, later: W.Time) returns (failed: bool, ghost notBefore: W.Time)
      requires Valid() && W.Seen(id, nonce, attempts) in seen
      modifies this`items, this`ids, this`issued, this`accepts, this`seen
      ensures Valid()
      ensures notBefore == later + 1000 * W.RetryDelay(disposition, attempts, jitterSource)
      ensures disposition == W.DeadLetter || attempts >= 5 ==> notBefore == later
      ensures W.Enabled(old(Queue()), W.FailUpdate(now, id, nonce, disposition, attempts, notBefore))
      ensures Queue() == W.Apply(old(Queue()), W.FailUpdate(now, id, nonce, disposition, attempts, notBefore))
      ensures failed <==> old(W.Accepted(Queue(), id, nonce, now))
      ensures failed <==> (&& id in old(items) && old(items)[id].nonce == Some(nonce)
                           && old(items)[id].expires.Some? && old(items)[id].expires.value >= now)
      ensures items == if !failed then old(items)
                       else old(items)[id := old(items)[id].(notBefore := notBefore, nonce := None, expires := None,
                                                             dead := disposition == W.DeadLetter || attempts >= 5)]
    {
      var exhausted := W.Exhausted(disposition, attempts);
      var eligible := later + 1000 * W.RetryDelay(disposition, attempts, jitterSource);
      notBefore := eligible;
      ghost var q, a := Queue(), W.FailUpdate(now, id, nonce, disposition, attempts, notBefore);
      W.StepKeeps(q, a);
      failed := id in items && items[id].nonce == Some(nonce) && items[id].expires.Some? && items[id].expires.value >= now;
      if failed {
        items := items[id := items[id].(notBefore := eligible, dead := exhausted, nonce := None, expires := None)];
      }
      Record(W.Apply(q, a));
    }

    method WorkWillDeadLetter(now: W.Time, id: W.WorkId, nonce: W.Nonce, disposition: W.Disposition) returns (dead: bool)
      ensures dead <==> W.WillDeadLetter(Queue(), id, nonce, disposition, now)
      ensures dead <==> (&& id in items && items[id].nonce == Some(nonce) && !items[id].dead && items[id].expires.Some?
                         && items[id].expires.value >= now && (disposition == W.DeadLetter || items[id].attempts >= 5))
    {
      dead := Owns(id, nonce, now) && (disposition == W.DeadLetter || items[id].attempts >= W.MAX_WORK_ATTEMPTS);
    }

    // ---- The journal ----

    /** Check the caller's lease inside a transaction. */
    method CheckLease(now: W.Time, id: W.WorkId, nonce: W.Nonce) returns (owned: bool)
      requires Valid()
      modifies this`ids, this`issued, this`accepts, this`seen
      ensures Valid() && Queue() == W.Apply(old(Queue()), W.Use(now, id, nonce))
      ensures owned <==> old(W.Owned(Queue(), id, nonce, now))
      ensures owned <==> (&& id in items && items[id].nonce == Some(nonce) && !items[id].dead && items[id].expires.Some?
                          && items[id].expires.value >= now)
    {
      ghost var q := Queue();
      W.StepKeeps(q, W.Use(now, id, nonce));
      owned := Owns(id, nonce, now);
      Record(W.Apply(q, W.Use(now, id, nonce)));
    }

    method InsertOperation(op: J.OpId, request: Option<J.Request>)
      requires Valid() && op !in operations
      modifies this`operations, this`records, this`begun
      ensures Valid() && Book() == J.Opened(old(Book()), op, request) && Queue() == old(Queue())
      ensures operations == old(operations)[op := J.Operation(J.Queued, None, None, None, None)] && steps == old(steps)
      ensures records == if request.None? then old(records)
                         else old(records)[request.value.key :=
                                J.Record(request.value.digest, J.Running, op, request.value.expiresAt)]
    {
      ghost var book := Book();
      J.CreateKeeps(book, op, request);
      operations := operations[op := J.Operation(J.Queued, None, None, None, None)];
      if request.Some? {
        records := records[request.value.key := J.Record(request.value.digest, J.Running, op, request.value.expiresAt)];
      }
      Enter(J.Opened(book, op, request));
    }

    method Create(now: J.Time, op: J.OpId, request: Option<J.Request>, id: W.WorkId, work: Option<W.Handler>)
      returns (answer: J.Answer)
      requires Valid() && op !in operations && id !in ids
      modifies this
      ensures Valid() && Book() == J.Apply(old(Book()), J.Create(now, op, request))
      ensures answer == J.Reply(old(Book()), J.Create(now, op, request))
      ensures if request.Some? && request.value.key in old(records) && old(records)[request.value.key].expiresAt >= now
              then
                var r := old(records)[request.value.key];
                && answer == (if r.digest != request.value.digest then J.KeyReused
                              else J.Created(r.op, if r.op in operations && operations[r.op].status in {J.Queued, J.Running}
                                                   then J.Reused else J.Stored))
                && operations == old(operations) && records == old(records) && items == old(items)
              else
                && answer == J.Created(op, J.New) && operations == old(operations)[op := J.Operation(J.Queued, None, None, None, None)]
                && records == (if request.None? then old(records)
                               else old(records)[request.value.key :=
                                      J.Record(request.value.digest, J.Running, op, request.value.expiresAt)])
                && items == (if work.None? then old(items)
                             else old(items)[id := W.Item(work.value, now, 0, false, now, None, None)])
      ensures steps == old(steps)
      ensures if work.Some? && answer == J.Created(op, J.New)
              then Queue() == W.Apply(old(Queue()), W.Enqueue(now, id, work.value))
              else Queue() == old(Queue())
    {
      if request.Some? && request.value.key in records && records[request.value.key].expiresAt >= now {
        assert J.RecordOk(Book(), request.value.key);
        return Known(request.value);
      }
      InsertOperation(op, request);
      if work.Some? {
        EnqueueWork(now, id, work.value);
      }
      return J.Created(op, J.New);
    }

    function Known(request: J.Request): J.Answer
      requires request.key in records && records[request.key].op in operations
      reads this
    {
      var record := records[request.key];
      if record.digest != request.digest then J.KeyReused
      else J.Created(record.op, if J.Live(operations[record.op].status) then J.Reused else J.Stored)
    }

    method BeginStepClaimed(now: W.Time, id: W.WorkId, nonce: W.Nonce, op: J.OpId, key: J.Key) returns (answer: J.Answer)
      requires Valid()
      modifies this
      ensures Valid() && Queue() == W.Apply(old(Queue()), W.Use(now, id, nonce))
      ensures var a := J.BeginStep(old(W.Owned(Queue(), id, nonce, now)), op, key);
              Book() == J.Apply(old(Book()), a) && answer == J.Reply(old(Book()), a)
      ensures answer.Began? ==> old(Owns(id, nonce, now))
      ensures answer == if !old(Owns(id, nonce, now)) || op !in old(operations)
                           || old(operations)[op].status !in {J.Queued, J.Running} then J.StaleWorkClaim
                        else if J.StepId(op, key) !in old(steps) then J.Began(J.RunStep)
                        else if old(steps)[J.StepId(op, key)].status == J.StepSucceeded then J.Began(J.AlreadySucceeded)
                        else J.Began(J.NeedsReconciliation)
    {
      var owned := CheckLease(now, id, nonce);
      if !owned {
        return J.StaleWorkClaim;
      }
      answer := BeginStep(op, key);
    }

    /** The step row is written before the operation is checked; a finished or missing operation
        rolls the transaction back. */
    method BeginStep(op: J.OpId, key: J.Key) returns (answer: J.Answer)
      requires Valid()
      modifies this`operations, this`steps, this`begun
      ensures Valid() && Queue() == old(Queue())
      ensures Book() == J.Apply(old(Book()), J.BeginStep(true, op, key))
      ensures answer == J.Reply(old(Book()), J.BeginStep(true, op, key))
      ensures answer == if op !in old(operations) || old(operations)[op].status !in {J.Queued, J.Running} then J.StaleWorkClaim
                        else if J.StepId(op, key) !in old(steps) then J.Began(J.RunStep)
                        else if old(steps)[J.StepId(op, key)].status == J.StepSucceeded then J.Began(J.AlreadySucceeded)
                        else J.Began(J.NeedsReconciliation)
      ensures answer.Began? ==> op in old(operations)
      ensures steps == (if answer == J.Began(J.RunStep) then old(steps)[J.StepId(op, key) := J.Step(J.StepRunning, None, false)]
                        else old(steps))
      ensures operations == (if answer.Began? then old(operations)[op := old(operations)[op].(status := J.Running, currentStep := Some(key))]
                             else old(operations))
      ensures records == old(records)
    {
      ghost var book := Book();
      J.StepKeeps(book, J.BeginStep(true, op, key));
      var before, step := steps, J.StepId(op, key);
      var state := J.RunStep;
      if step in steps {
        state := match steps[step].status
          case StepSucceeded => J.AlreadySucceeded
          case StepRunning => J.NeedsReconciliation
          case StepFailed => J.RunStep;
      } else {
        steps := steps[step := J.Step(J.StepRunning, None, false)];
      }
      if op !in operations || !J.Live(operations[op].status) {
        steps := before;
        return J.StaleWorkClaim;
      }
      operations := operations[op := operations[op].(status := J.Running, currentStep := Some(key))];
      Enter(J.Begun(book, step));
      return J.Began(state);
    }

    method CompleteStepClaimed(now: W.Time, id: W.WorkId, nonce: W.Nonce, op: J.OpId, key: J.Key, reference: Option<string>)
      returns (answer: J.Answer)
      requires Valid()
      modifies this
      ensures Valid() && Queue() == W.Apply(old(Queue()), W.Use(now, id, nonce))
      ensures var a := J.CompleteStep(old(W.Owned(Queue(), id, nonce, now)), op, key, reference);
              Book() == J.Apply(old(Book()), a) && answer == J.Reply(old(Book()), a)
      ensures answer == if old(Owns(id, nonce, now)) && J.StepId(op, key) in old(steps) then J.Done else J.StaleWorkClaim
      ensures if answer == J.Done
              then
                var x := old(steps)[J.StepId(op, key)];
                steps == old(steps)[J.StepId(op, key) :=
                  x.(status := J.StepSucceeded, reference := if reference.Some? then reference else x.reference)]
              else steps == old(steps)
      ensures operations == old(operations) && records == old(records) && items == old(items)
    {
      ghost var book := Book();
      var owned := CheckLease(now, id, nonce);
      J.StepKeeps(book, J.CompleteStep(owned, op, key, reference));
      var step := J.StepId(op, key);
      if !owned || step !in steps {
        return J.StaleWorkClaim;
      }
      var row := steps[step];
      steps := steps[step := row.(status := J.StepSucceeded, reference := if reference.Some? then reference else row.reference)];
      Enter(J.Completed(book, step, reference));
      return J.Done;
    }

    /** A finish that needs attention fails the running steps of its operation, for reconciliation; no other
        step changes. */
    static predicate StepAfterFinish(before: J.Step, after: J.Step, hit: bool) {
      if hit && before.status == J.StepRunning
      then after.status == J.StepFailed && after.reconcile && after.reference == before.reference
      else after == before
    }

    /** The records of the operation show the outcome; no other record changes. */
    static predicate RecordAfterFinish(before: J.Record, after: J.Record, op: J.OpId, status: J.Status) {
      if before.op == op
      then after.status == status && after.op == op && after.digest == before.digest && after.expiresAt == before.expiresAt
      else after == before
    }

    /** The updates that a finish makes inside its transaction. */
    method WriteOutcome(op: J.OpId, completion: J.Completion)
      requires op in operations
      modifies this`operations, this`steps, this`records
      ensures Book() == J.Finished(old(Book()), op, completion)
      ensures operations.Keys == old(operations).Keys && steps.Keys == old(steps).Keys && records.Keys == old(records).Keys
      ensures operations[op].status == completion.status && operations[op].currentStep == None
      ensures operations[op].progress == old(operations)[op].progress
      ensures operations[op].result == if completion.result.Some? then completion.result else old(operations)[op].result
      ensures operations[op].problem == if completion.problem.Some? then completion.problem else old(operations)[op].problem
      ensures forall x | x in operations && x != op :: operations[x] == old(operations)[x]
      ensures forall x | x in steps :: StepAfterFinish(old(steps)[x], steps[x], x.op == op && completion.status == J.NeedsAttention)
      ensures forall k | k in records :: RecordAfterFinish(old(records)[k], records[k], op, completion.status)
    {
      var row := operations[op];
      row := row.(status := completion.status, currentStep := None);
      if completion.result.Some? {
        row := row.(result := completion.result);
      }
      if completion.problem.Some? {
        row := row.(problem := completion.problem);
      }
      operations := operations[op := row];
      if completion.status == J.NeedsAttention {
        steps := J.Reconciled(steps, op);
      }
      records := J.Mirrored(records, op, completion.status);
    }

    method Finish(op: J.OpId, completion: J.Completion) returns (answer: J.Answer)
      requires Valid()
      modifies this`operations, this`steps, this`records
      ensures W.Valid(Queue()) && Queue() == old(Queue())
      ensures J.Enabled(old(Book()), J.Finish(op, completion)) ==> Valid()
      ensures Book() == J.Apply(old(Book()), J.Finish(op, completion))
      ensures answer == J.Reply(old(Book()), J.Finish(op, completion))
      ensures answer == if op in old(operations) then J.Done else J.NotFound
      ensures answer == J.Done ==>
                && op in old(operations) && operations.Keys == old(operations).Keys
                && operations[op].status == completion.status && operations[op].currentStep == None
                && operations[op].progress == old(operations)[op].progress
                && operations[op].result == (if completion.result.Some? then completion.result else old(operations)[op].result)
                && operations[op].problem == (if completion.problem.Some? then completion.problem else old(operations)[op].problem)
                && forall x | x in operations && x != op :: operations[x] == old(operations)[x]
      ensures answer == J.Done ==>
                && steps.Keys == old(steps).Keys && records.Keys == old(records).Keys
                && (forall x | x in steps :: StepAfterFinish(old(steps)[x], steps[x], x.op == op && completion.status == J.NeedsAttention))
                && (forall k | k in records :: RecordAfterFinish(old(records)[k], records[k], op, completion.status))
      ensures !(answer == J.Done) ==> operations == old(operations) && steps == old(steps) && records == old(records)
    {
      if J.Enabled(Book(), J.Finish(op, completion)) {
        J.StepKeeps(Book(), J.Finish(op, completion));
      }
      if op !in operations {
        return J.NotFound;
      }
      WriteOutcome(op, completion);
      return J.Done;
    }

    method FinishClaimed(now: W.Time, op: J.OpId, id: W.WorkId, nonce: W.Nonce, completion: J.Completion)
      returns (answer: J.Answer)
      requires Valid()
      modifies this
      ensures W.Valid(Queue())
      ensures !J.Live(completion.status) ==> Valid()
      ensures Queue() == if old(J.LiveOp(Book(), op)) then W.Apply(old(Queue()), W.Use(now, id, nonce)) else old(Queue())
      ensures var a := J.FinishClaimed(old(W.Owned(Queue(), id, nonce, now)), op, completion);
              Book() == J.Apply(old(Book()), a) && answer == J.Reply(old(Book()), a)
      ensures answer == J.Changed(op in old(operations) && old(operations)[op].status in {J.Queued, J.Running}
                                  && old(Owns(id, nonce, now)))
      ensures answer == J.Changed(true) ==>
                && op in old(operations) && operations.Keys == old(operations).Keys
                && operations[op].status == completion.status && operations[op].currentStep == None
                && operations[op].progress == old(operations)[op].progress
                && operations[op].result == (if completion.result.Some? then completion.result else old(operations)[op].result)
                && operations[op].problem == (if completion.problem.Some? then completion.problem else old(operations)[op].problem)
                && forall x | x in operations && x != op :: operations[x] == old(operations)[x]
      ensures answer == J.Changed(true) ==>
                && steps.Keys == old(steps).Keys && records.Keys == old(records).Keys
                && (forall x | x in steps :: StepAfterFinish(old(steps)[x], steps[x], x.op == op && completion.status == J.NeedsAttention))
                && (forall k | k in records :: RecordAfterFinish(old(records)[k], records[k], op, completion.status))
      ensures !(answer == J.Changed(true)) ==> operations == old(operations) && steps == old(steps) && records == old(records)
    {
      ghost var book := Book();
      if op !in operations || !J.Live(operations[op].status) {
        return J.Changed(false);
      }
      var owned := CheckLease(now, id, nonce);
      if !J.Live(completion.status) {
        J.StepKeeps(book, J.FinishClaimed(owned, op, completion));
      }
      if owned {
        WriteOutcome(op, completion);
      }
      return J.Changed(owned);
    }

    method UpdateProgressClaimed(now: W.Time, id: W.WorkId, nonce: W.Nonce, op: J.OpId, step: J.Key, progress: J.Json)
      returns (answer: J.Answer)
      requires Valid()
      modifies this
      ensures Valid()
      ensures Queue() == if old(J.LiveOp(Book(), op)) then W.Apply(old(Queue()), W.Use(now, id, nonce)) else old(Queue())
      ensures var a := J.Progress(old(W.Owned(Queue(), id, nonce, now)), op, step, progress);
              Book() == J.Apply(old(Book()), a) && answer == J.Reply(old(Book()), a)
      ensures answer == J.Changed(op in old(operations) && old(operations)[op].status in {J.Queued, J.Running}
                                  && old(Owns(id, nonce, now)))
      ensures if answer == J.Changed(true)
              then
                operations == old(operations)[op :=
                  old(operations)[op].(status := J.Running, currentStep := Some(step), progress := Some(progress))]
              else operations == old(operations)
      ensures steps == old(steps) && records == old(records) && items == old(items)
    {
      ghost var book := Book();
      if op !in operations || !J.Live(operations[op].status) {
        return J.Changed(false);
      }
      var owned := CheckLease(now, id, nonce);
      J.StepKeeps(book, J.Progress(owned, op, step, progress));
      if owned {
        operations := operations[op := operations[op].(status := J.Running, currentStep := Some(step), progress := Some(progress))];
      }
      return J.Changed(owned);
    }

    method AssertClaimed(now: W.Time, id: W.WorkId, nonce: W.Nonce) returns (answer: J.Answer)
      ensures answer == if W.Owned(Queue(), id, nonce, now) then J.Done else J.StaleWorkClaim
      ensures answer == J.Done <==> (&& id in items && items[id].nonce == Some(nonce) && !items[id].dead
                                     && items[id].expires.Some? && items[id].expires.value >= now)
    {
      answer := if Owns(id, nonce, now) then J.Done else J.StaleWorkClaim;
    }

    method PruneExpiredIdempotency(now: J.Time)
      requires Valid()
      modifies this`records
      ensures Valid() && Book() == J.Apply(old(Book()), J.Prune(now)) && Queue() == old(Queue())
      ensures forall k :: k in records <==> k in old(records) && old(records)[k].expiresAt >= now
      ensures forall k | k in records :: records[k] == old(records)[k]
    {
      J.StepKeeps(Book(), J.Prune(now));
      records := map k | k in records && records[k].expiresAt >= now :: records[k];
    }
  }
}
