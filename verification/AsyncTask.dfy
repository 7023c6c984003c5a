/** The life of an asynchronous task: start, its watcher, cancellation, lost-marking, restart
    recovery, delivery and deletion all update the same row, each under a condition on the
    row's status, and interleave freely. */
module AsyncTask {
  import opened Common

  type TaskId = nat
  type SessionId = nat

  datatype Status = Queued | Running | Succeeded | Failed | Canceled | Lost

  predicate Live(s: Status) {
    s == Queued || s == Running
  }

  /** How a process ended. */
  datatype Exit = Exit(code: Option<int>, signal: Option<string>)

  const NO_EXIT: Exit := Exit(None, None)
  const NEVER_STARTED: Exit := Exit(None, Some("canceled_before_start"))

  datatype Row = Row(session: SessionId, status: Status, cancelRequested: bool, identity: Option<string>,
                     exit: Exit, deliveryClaimed: bool, deliveryCompleted: bool)

  /** `known` is history: identifiers are never used twice. */
  datatype Tasks = Tasks(rows: map<TaskId, Row>, known: set<TaskId>)

  /** The atomic updates of the row, by whoever makes them. */
  datatype Change =
    | Insert(id: TaskId, session: SessionId)
    | RequestCancel(id: TaskId)
    | SetRunning(id: TaskId, identity: string)
    | Settle(id: TaskId, exit: Exit, canceled: bool)
    | MarkLost(id: TaskId, reason: string)
    | Recover
    | DeleteSession(session: SessionId)
    | ClaimDelivery(id: TaskId)
    | CompleteDelivery(id: TaskId)

  function Outcome(row: Row, exit: Exit, canceled: bool): Status {
    if canceled || row.cancelRequested then Canceled else if exit.code == Some(0) then Succeeded else Failed
  }

  predicate Claimable(row: Row) {
    !Live(row.status) && !row.deliveryCompleted && !row.deliveryClaimed
  }

  /** A change to one row, where its condition holds. */
  function Changed(row: Row, c: Change): Row {
    match c
    case RequestCancel(_) => if Live(row.status) && !row.cancelRequested then row.(cancelRequested := true) else row
    case SetRunning(_, identity) =>
      if row.status == Queued && !row.cancelRequested then row.(status := Running, identity := Some(identity)) else row
    case Settle(_, exit, canceled) =>
      if Live(row.status) then row.(status := Outcome(row, exit, canceled), exit := exit) else row
    case MarkLost(_, reason) => if Live(row.status) then row.(status := Lost, exit := Exit(None, Some(reason))) else row
    case Recover =>
      if Live(row.status) then row.(status := Lost, exit := Exit(None, Some("control_plane_restart"))) else row
    case ClaimDelivery(_) => if Claimable(row) then row.(deliveryClaimed := true) else row
    case CompleteDelivery(_) => if !row.deliveryCompleted then row.(deliveryCompleted := true) else row
    case _ => row
  }

  function Update(s: Tasks, id: TaskId, c: Change): Tasks {
    if id in s.rows then s.(rows := s.rows[id := Changed(s.rows[id], c)]) else s
  }

  function Apply(s: Tasks, c: Change): Tasks {
    match c
    case Insert(id, session) =>
      if id in s.known then s
      else Tasks(s.rows[id := Row(session, Queued, false, None, NO_EXIT, false, false)], s.known + {id})
    case Recover => s.(rows := map id | id in s.rows :: Changed(s.rows[id], c))
    case DeleteSession(session) => s.(rows := map id | id in s.rows && s.rows[id].session != session :: s.rows[id])
    case RequestCancel(id) => Update(s, id, c)
    case SetRunning(id, _) => Update(s, id, c)
    case Settle(id, _, _) => Update(s, id, c)
    case MarkLost(id, _) => Update(s, id, c)
    case ClaimDelivery(id) => Update(s, id, c)
    case CompleteDelivery(id) => Update(s, id, c)
  }

  function After(s: Tasks, cs: seq<Change>): Tasks
    decreases |cs|
  {
    if |cs| == 0 then s else After(Apply(s, cs[0]), cs[1..])
  }

  lemma {:induction false} AfterConcat(s: Tasks, a: seq<Change>, b: seq<Change>)
    ensures After(s, a + b) == After(After(s, a), b)
    decreases |a|
  {
    if |a| == 0 {
      assert a + b == b;
    } else {
      assert (a + b)[1..] == a[1..] + b;
      AfterConcat(Apply(s, a[0]), a[1..], b);
    }
  }

  ghost predicate Valid(s: Tasks) {
    s.rows.Keys <= s.known
  }

  lemma {:induction false} RunKeeps(s: Tasks, cs: seq<Change>)
    requires Valid(s)
    ensures Valid(After(s, cs)) && s.known <= After(s, cs).known
    decreases |cs|
  {
    if |cs| > 0 {
      RunKeeps(Apply(s, cs[0]), cs[1..]);
    }
  }

  // ---- What holds in every race ----

  /** A finished task keeps its status, exit code and signal until it is deleted. */
  lemma {:induction false} TerminalStays(s: Tasks, cs: seq<Change>, id: TaskId)
    requires Valid(s) && id in s.rows && !Live(s.rows[id].status)
    ensures id in After(s, cs).rows ==>
              && After(s, cs).rows[id].status == s.rows[id].status
              && After(s, cs).rows[id].exit == s.rows[id].exit
    decreases |cs|
  {
    if |cs| > 0 {
      var t := Apply(s, cs[0]);
      if id in t.rows {
        TerminalStays(t, cs[1..], id);
      } else {
        GoneStays(t, cs[1..], id);
      }
    }
  }

  lemma {:induction false} GoneStays(s: Tasks, cs: seq<Change>, id: TaskId)
    requires Valid(s) && id in s.known && id !in s.rows
    ensures id !in After(s, cs).rows
    decreases |cs|
  {
    if |cs| > 0 {
      GoneStays(Apply(s, cs[0]), cs[1..], id);
    }
  }

  /** A cancellation that was recorded while the task was live. */
  predicate Doomed(row: Row) {
    row.cancelRequested && row.status != Succeeded && row.status != Failed
  }

  /** Cancel wins: a task whose cancellation was recorded while it was live ends only as canceled
      or lost, and one that was still queued never becomes running. */
  lemma {:induction false} CancelWins(s: Tasks, cs: seq<Change>, id: TaskId)
    requires Valid(s) && id in s.rows && Doomed(s.rows[id])
    ensures id in After(s, cs).rows ==> Doomed(After(s, cs).rows[id])
    ensures id in After(s, cs).rows && s.rows[id].status != Running ==> After(s, cs).rows[id].status != Running
    decreases |cs|
  {
    if |cs| > 0 {
      var t := Apply(s, cs[0]);
      if id in t.rows {
        CancelWins(t, cs[1..], id);
      } else {
        GoneStays(t, cs[1..], id);
      }
    }
  }

  lemma StaysDoomed(start: Tasks, id: TaskId, trail: seq<Change>)
    requires Valid(start) && |trail| > 0 && trail[0] == RequestCancel(id)
    requires id in start.rows && Live(start.rows[id].status)
    ensures id in After(start, trail).rows ==> Doomed(After(start, trail).rows[id])
  {
    CancelWins(Apply(start, trail[0]), trail[1..], id);
  }

  /** What the row of a task says about its end. */
  predicate ExitTells(row: Row) {
    match row.status
    case Queued => row.exit == NO_EXIT && row.identity == None
    case Running => row.exit == NO_EXIT && row.identity.Some?
    case Succeeded => row.exit.code == Some(0) && !row.cancelRequested
    case Failed => row.exit.code != Some(0) && !row.cancelRequested
    case Canceled => true
    case Lost => row.exit.code == None && row.exit.signal.Some?
  }

  ghost predicate ExitsTell(s: Tasks) {
    forall id | id in s.rows :: ExitTells(s.rows[id])
  }

  /** In every reachable state: succeeded means exit code 0 without a cancellation, failed means any other exit. */
  lemma {:induction false} StatusTellsExit(s: Tasks, cs: seq<Change>)
    requires ExitsTell(s)
    ensures ExitsTell(After(s, cs))
    decreases |cs|
  {
    if |cs| > 0 {
      StatusTellsExit(Apply(s, cs[0]), cs[1..]);
    }
  }

  /** Settling a live task decides how it ends: its exit is the one given, and it is canceled if that was forced or
      requested before, succeeded if the exit code is 0, and failed otherwise. */
  lemma SettleDecides(s: Tasks, id: TaskId, exit: Exit, canceled: bool, cs: seq<Change>)
    requires Valid(s) && id in s.rows && s.rows[id].status in {Queued, Running}
    ensures var t := After(Apply(s, Settle(id, exit, canceled)), cs);
            id in t.rows ==>
              && t.rows[id].exit == exit
              && (t.rows[id].status == Canceled <==> canceled || s.rows[id].cancelRequested)
              && (t.rows[id].status == Succeeded <==> !canceled && !s.rows[id].cancelRequested && exit.code == Some(0))
              && (t.rows[id].status == Failed <==> !canceled && !s.rows[id].cancelRequested && exit.code != Some(0))
  {
    TerminalStays(Apply(s, Settle(id, exit, canceled)), cs, id);
  }

  /** A task that was live before, or did not exist, and has ended other than lost was settled while it was live,
      with the exit it has. */
  lemma {:induction false} WasSettled(s: Tasks, cs: seq<Change>, id: TaskId) returns (k: nat)
    requires Valid(s) && (id in s.rows ==> Live(s.rows[id].status))
    requires id in After(s, cs).rows && After(s, cs).rows[id].status in {Succeeded, Failed, Canceled}
    ensures k < |cs| && cs[k].Settle? && cs[k].id == id && cs[k].exit == After(s, cs).rows[id].exit
    ensures id in After(s, cs[..k]).rows && Live(After(s, cs[..k]).rows[id].status)
    ensures After(s, cs).rows[id].status == Canceled <==> cs[k].canceled || After(s, cs[..k]).rows[id].cancelRequested
    ensures After(s, cs).rows[id].status == Succeeded ==> cs[k].exit.code == Some(0)
    ensures After(s, cs).rows[id].status == Failed ==> cs[k].exit.code != Some(0)
    decreases |cs|
  {
    var t := Apply(s, cs[0]);
    if id in t.rows && !Live(t.rows[id].status) {
      TerminalStays(t, cs[1..], id);
      k := 0;
      assert cs[..0] == [];
    } else {
      var j := WasSettled(t, cs[1..], id);
      k := j + 1;
      assert cs[..k][1..] == cs[1..][..j];
    }
  }

  /** How often claiming the delivery of `id` succeeds in a run. */
  function TimesClaimed(s: Tasks, cs: seq<Change>, id: TaskId): nat
    decreases |cs|
  {
    if |cs| == 0 then 0
    else
      (if cs[0] == ClaimDelivery(id) && id in s.rows && Claimable(s.rows[id]) then 1 else 0)
      + TimesClaimed(Apply(s, cs[0]), cs[1..], id)
  }

  /** The outcome of a task is handed out for delivery at most once, whatever else happens. */
  lemma {:induction false} DeliveredAtMostOnce(s: Tasks, cs: seq<Change>, id: TaskId)
    requires Valid(s)
    ensures TimesClaimed(s, cs, id) <= 1
    ensures id in s.known && (id in s.rows ==> s.rows[id].deliveryClaimed) ==> TimesClaimed(s, cs, id) == 0
    decreases |cs|
  {
    if |cs| > 0 {
      DeliveredAtMostOnce(Apply(s, cs[0]), cs[1..], id);
    }
  }

  // ---- The operations ----

  /** What others do between two steps of an operation. */
  type World = nat -> seq<Change>

  /** Nobody else acts. */
  ghost predicate Quiet(world: World) {
    forall k :: world(k) == []
  }

  datatype Started = Handle(identity: string, nonceMatches: bool) | StartFailed
  datatype TaskError = TaskLost | NonceMismatch | ExecutorFailed
  datatype Result = Ok(row: Row) | Err(error: TaskError)

  class Service {
    var rows: map<TaskId, Row>
    var known: set<TaskId>
    /** Steps taken so far, as an index into what others do. */
    var clock: nat

    function State(): Tasks
      reads this
    {
      Tasks(rows, known)
    }

    constructor ()
      ensures State() == Tasks(map[], {}) && Valid(State())
    {
      rows, known, clock := map[], {}, 0;
    }

    method Others(world: World)
      requires Valid(State())
      modifies this
      ensures Valid(State()) && State() == After(old(State()), world(old(clock))) && old(known) <= known
      ensures Quiet(world) ==> State() == old(State())
    {
      RunKeeps(State(), world(clock));
      var s := After(State(), world(clock));
      rows, known, clock := s.rows, s.known, clock + 1;
    }

    method Read(id: TaskId) returns (result: Result)
      ensures result == if id in rows then Ok(rows[id]) else Err(TaskLost)
    {
      result := if id in rows then Ok(rows[id]) else Err(TaskLost);
    }

    // ---- Single conditional updates ----

    method RequestCancellation(id: TaskId)
      modifies this`rows
      ensures State() == Apply(old(State()), RequestCancel(id))
      ensures rows == if id in old(rows) && old(rows)[id].status in {Queued, Running}
                      then old(rows)[id := old(rows)[id].(cancelRequested := true)] else old(rows)
    {
      if id in rows && Live(rows[id].status) && !rows[id].cancelRequested {
        rows := rows[id := rows[id].(cancelRequested := true)];
      } else if id in rows {
        assert rows == rows[id := rows[id]];
      }
    }

    method MarkRunning(id: TaskId, identity: string) returns (changed: bool)
      modifies this`rows
      ensures State() == Apply(old(State()), SetRunning(id, identity))
      ensures changed <==> id in old(rows) && old(rows)[id].status == Queued && !old(rows)[id].cancelRequested
      ensures rows == if changed then old(rows)[id := old(rows)[id].(status := Running, identity := Some(identity))]
                      else old(rows)
    {
      changed := id in rows && rows[id].status == Queued && !rows[id].cancelRequested;
      if changed {
        rows := rows[id := rows[id].(status := Running, identity := Some(identity))];
      } else if id in rows {
        assert rows == rows[id := rows[id]];
      }
    }

    /** One transaction: read whether cancellation was requested, then settle a live row. */
    method Finalize(id: TaskId, exit: Exit, canceled: bool)
      modifies this`rows
      ensures State() == Apply(old(State()), Settle(id, exit, canceled))
      ensures rows.Keys == old(rows).Keys && forall x | x in rows && x != id :: rows[x] == old(rows)[x]
      ensures id in rows ==>
                var before, after := old(rows)[id], rows[id];
                if before.status in {Queued, Running}
                then
                  && (after.status == Canceled <==> canceled || before.cancelRequested)
                  && (after.status == Succeeded <==> !canceled && !before.cancelRequested && exit.code == Some(0))
                  && (after.status == Failed <==> !canceled && !before.cancelRequested && exit.code != Some(0))
                  && after == before.(status := after.status, exit := exit)
                else after == before
    {
      var requested := id in rows && rows[id].cancelRequested;
      var status := if canceled || requested then Canceled else if exit.code == Some(0) then Succeeded else Failed;
      if id in rows {
        if Live(rows[id].status) {
          rows := rows[id := rows[id].(status := status, exit := exit)];
        } else {
          assert rows == rows[id := rows[id]];
        }
      }
    }

    method SetLost(id: TaskId, reason: string)
      modifies this`rows
      ensures State() == Apply(old(State()), MarkLost(id, reason))
      ensures rows == if id in old(rows) && old(rows)[id].status in {Queued, Running}
                      then old(rows)[id := old(rows)[id].(status := Lost, exit := Exit(None, Some(reason)))] else old(rows)
    {
      if id in rows {
        var row := rows[id];
        rows := rows[id := if Live(row.status) then row.(status := Lost, exit := Exit(None, Some(reason))) else row];
      }
    }

    method RecoverUncertain()
      modifies this`rows
      ensures State() == Apply(old(State()), Recover)
      ensures rows.Keys == old(rows).Keys
      ensures forall x | x in rows ::
                rows[x] == if old(rows)[x].status in {Queued, Running}
                           then old(rows)[x].(status := Lost, exit := Exit(None, Some("control_plane_restart")))
                           else old(rows)[x]
    {
      rows := map id | id in rows ::
        if Live(rows[id].status)
        then rows[id].(status := Lost, exit := Exit(None, Some("control_plane_restart"))) else rows[id];
    }

    method DeleteSessionResources(session: SessionId)
      modifies this`rows
      ensures State() == Apply(old(State()), DeleteSession(session))
      ensures forall x :: x in rows <==> x in old(rows) && old(rows)[x].session != session
      ensures forall x | x in rows :: rows[x] == old(rows)[x]
    {
      rows := map id | id in rows && rows[id].session != session :: rows[id];
    }

    method ClaimTaskDelivery(id: TaskId) returns (claimed: bool)
      modifies this`rows
      ensures State() == Apply(old(State()), ClaimDelivery(id))
      ensures claimed <==> id in old(rows) && Claimable(old(rows)[id])
      ensures claimed <==> (&& id in old(rows) && old(rows)[id].status !in {Queued, Running}
                            && !old(rows)[id].deliveryCompleted && !old(rows)[id].deliveryClaimed)
      ensures rows == if claimed then old(rows)[id := old(rows)[id].(deliveryClaimed := true)] else old(rows)
    {
      claimed := id in rows && !Live(rows[id].status) && !rows[id].deliveryCompleted && !rows[id].deliveryClaimed;
      if id in rows {
        rows := rows[id := if claimed then rows[id].(deliveryClaimed := true) else rows[id]];
      }
    }

    method CompleteTaskDelivery(id: TaskId)
      modifies this`rows
      ensures State() == Apply(old(State()), CompleteDelivery(id))
      ensures rows == if id in old(rows) then old(rows)[id := old(rows)[id].(deliveryCompleted := true)] else old(rows)
    {
      if id in rows {
        rows := rows[id := rows[id].(deliveryCompleted := true)];
      }
    }

    // ---- Operations of several steps, with others acting in between ----

    /** A live row marked lost for this reason, or the unchanged row of a finished task. */
    static function LostAs(row: Row, reason: string): Row {
      if row.status in {Queued, Running} then row.(status := Lost, exit := Exit(None, Some(reason))) else row
    }

    /** Read the row, then mark it lost if it is still live. */
    method MarkAsyncTaskLost(id: TaskId, reason: string, world: World) returns (found: bool, ghost trail: seq<Change>)
      requires Valid(State())
      modifies this
      ensures Valid(State()) && State() == After(old(State()), trail)
      ensures found ==> id in known && (id in rows ==> !Live(rows[id].status))
      ensures !found ==> id !in rows
      ensures Quiet(world) ==> rows == if id in old(rows) then old(rows)[id := LostAs(old(rows)[id], reason)] else old(rows)
      ensures Quiet(world) ==> found == (id in old(rows))
    {
      trail := [];
      found := id in rows;
      if !found {
        return;
      }
      trail := world(clock) + [MarkLost(id, reason)];
      AfterConcat(State(), world(clock), [MarkLost(id, reason)]);
      Others(world);
      SetLost(id, reason);
    }

    /** Ask the executor to kill the process, wait for the watcher to settle the row, and mark the
        row lost when it does not. */
    method CancelStarted(id: TaskId, polls: nat, world: World) returns (result: Result, ghost trail: seq<Change>)
      requires Valid(State())
      modifies this
      ensures Valid(State()) && State() == After(old(State()), trail)
      ensures result.Ok? ==> !Live(result.row.status) && id in rows && rows[id] == result.row
      ensures result.Err? ==> result.error == TaskLost && id !in rows
      ensures Quiet(world) && id in old(rows) ==> rows == old(rows)[id := LostAs(old(rows)[id], "cancel_unconfirmed")]
    {
      ghost var start := State();
      trail := world(clock);
      Others(world);
      var left := polls;
      while true
        invariant Valid(State()) && State() == After(start, trail)
        invariant Quiet(world) ==> State() == start
        decreases left
      {
        result := Read(id);
        if result.Err? || !Live(result.row.status) {
          return;
        }
        if left == 0 {
          break;
        }
        AfterConcat(start, trail, world(clock));
        trail := trail + world(clock);
        Others(world);
        left := left - 1;
      }
      result, trail := GiveUp(id, "cancel_unconfirmed", world, start, trail);
    }

    /** Mark the task lost and report its row. */
    method GiveUp(id: TaskId, reason: string, world: World, ghost start: Tasks, ghost before: seq<Change>)
      returns (result: Result, ghost trail: seq<Change>)
      requires Valid(State()) && State() == After(start, before)
      modifies this
      ensures Valid(State()) && State() == After(start, trail)
      ensures result.Ok? ==> !Live(result.row.status) && id in rows && rows[id] == result.row
      ensures result.Err? ==> result.error == TaskLost && id !in rows
      ensures Quiet(world) && id in old(rows) ==> rows == old(rows)[id := LostAs(old(rows)[id], reason)]
    {
      var found;
      ghost var marked;
      found, marked := MarkAsyncTaskLost(id, reason, world);
      AfterConcat(start, before, marked);
      trail := before + marked;
      if !found {
        return Err(TaskLost), trail;
      }
      if id in rows {
        TerminalStays(State(), world(clock), id);
      } else {
        GoneStays(State(), world(clock), id);
      }
      AfterConcat(start, trail, world(clock));
      trail := trail + world(clock);
      Others(world);
      result := Read(id);
    }

    /** Whatever others do, an answer reports a finished task; if the task was live when the
        cancellation was recorded, it reports canceled or lost. */
    method CancelAsyncTask(id: TaskId, polls: nat, settlePolls: nat, world: World)
      returns (result: Result, ghost trail: seq<Change>)
      requires Valid(State())
      modifies this
      ensures Valid(State()) && State() == After(old(State()), trail)
      ensures result.Ok? ==> !Live(result.row.status) && id in rows && rows[id] == result.row
      ensures result.Ok? && old(id in rows && Live(rows[id].status)) ==> result.row.status == Canceled || result.row.status == Lost
      ensures result.Err? ==> result.error == TaskLost && id !in rows
      ensures Quiet(world) && id in old(rows) ==>
                && rows.Keys == old(rows).Keys && (forall x | x in rows && x != id :: rows[x] == old(rows)[x])
                && result == Ok(rows[id])
                && var before := old(rows)[id];
                   rows[id] == match before.status
                     case Queued => before.(cancelRequested := true, status := Lost,
                                            exit := Exit(None, Some("cancel_before_start_unconfirmed")))
                     case Running => before.(cancelRequested := true, status := Lost,
                                             exit := Exit(None, Some("cancel_unconfirmed")))
                     case _ => before
    {
      ghost var start := State();
      RunKeeps(start, [RequestCancel(id)]);
      RequestCancellation(id);
      trail := [RequestCancel(id)];
      assert State() == After(start, trail);
      ghost var rest;
      result, rest := AwaitCancel(id, polls, settlePolls, world);
      AfterConcat(start, trail, rest);
      trail := trail + rest;
      if id in start.rows && Live(start.rows[id].status) {
        StaysDoomed(start, id, trail);
      }
    }

    /** Poll until the task is running (then kill it), finished, or still queued at the deadline. */
    method AwaitCancel(id: TaskId, polls: nat, settlePolls: nat, world: World) returns (result: Result, ghost trail: seq<Change>)
      requires Valid(State())
      modifies this
      ensures Valid(State()) && State() == After(old(State()), trail)
      ensures result.Ok? ==> !Live(result.row.status) && id in rows && rows[id] == result.row
      ensures result.Err? ==> result.error == TaskLost && id !in rows
      ensures Quiet(world) && id in old(rows) ==>
                rows == old(rows)[id := LostAs(old(rows)[id],
                  if old(rows)[id].status == Running then "cancel_unconfirmed" else "cancel_before_start_unconfirmed")]
    {
      ghost var start := State();
      trail := [];
      var left := polls;
      while true
        invariant Valid(State()) && State() == After(start, trail)
        invariant Quiet(world) ==> State() == start
        decreases left
      {
        AfterConcat(start, trail, world(clock));
        trail := trail + world(clock);
        Others(world);
        result := Read(id);
        if result.Err? || !Live(result.row.status) {
          return;
        }
        if result.row.status == Running {
          ghost var rest;
          result, rest := CancelStarted(id, settlePolls, world);
          AfterConcat(start, trail, rest);
          trail := trail + rest;
          return;
        }
        if left == 0 {
          break;
        }
        left := left - 1;
      }
      result, trail := GiveUp(id, "cancel_before_start_unconfirmed", world, start, trail);
    }

    /** An accepted start answers with a running task whose cancellation nobody has requested, or
        with a finished one; after a failed start the task is not live. */
    method StartAsyncTask(id: TaskId, session: SessionId, started: Started, polls: nat, world: World)
      returns (result: Result, ghost trail: seq<Change>)
      requires Valid(State()) && id !in known
      modifies this
      ensures Valid(State()) && State() == After(old(State()), trail) && |trail| > 0 && trail[0] == Insert(id, session)
      ensures result.Ok? ==> id in rows && rows[id] == result.row
      ensures result.Ok? && Live(result.row.status) ==> result.row.status == Running && !result.row.cancelRequested
      ensures result.Ok? && Live(result.row.status) ==>
                started.Handle? && started.nonceMatches && result.row.identity == Some(started.identity)
      ensures result.Err? && id in rows ==> !Live(rows[id].status)
      ensures result == Err(NonceMismatch) ==> started.Handle? && !started.nonceMatches
      ensures result == Err(ExecutorFailed) ==> started.StartFailed?
      ensures result == Err(TaskLost) ==> id !in rows
      ensures Quiet(world) ==>
                match started
                case Handle(identity, true) =>
                  result == Ok(Row(session, Running, false, Some(identity), NO_EXIT, false, false))
                  && rows == old(rows)[id := result.row]
                case Handle(_, false) =>
                  result == Err(NonceMismatch)
                  && rows == old(rows)[id := Row(session, Lost, false, None, Exit(None, Some("executor_nonce_mismatch")), false, false)]
                case StartFailed =>
                  result == Err(ExecutorFailed)
                  && rows == old(rows)[id := Row(session, Lost, false, None, Exit(None, Some("start_failed")), false, false)]
    {
      ghost var start := State();
      rows, known := rows[id := Row(session, Queued, false, None, NO_EXIT, false, false)], known + {id};
      trail := [Insert(id, session)];
      assert State() == After(start, trail);
      AfterConcat(start, trail, world(clock));
      trail := trail + world(clock);
      Others(world);
      if id !in rows {
        return Err(TaskLost), trail;
      }
      ghost var rest;
      if rows[id].cancelRequested {
        result, rest := RefuseStart(id, world);
      } else {
        result, rest := Launch(id, started, polls, world);
      }
      AfterConcat(start, trail, rest);
      trail := trail + rest;
    }

    /** The cancellation came before the start: settle as canceled and report. */
    method RefuseStart(id: TaskId, world: World) returns (result: Result, ghost trail: seq<Change>)
      requires Valid(State()) && id in known
      modifies this
      ensures Valid(State()) && State() == After(old(State()), trail)
      ensures result == if id in rows then Ok(rows[id]) else Err(TaskLost)
      ensures id in rows ==> !Live(rows[id].status)
      ensures Quiet(world) && id in old(rows) && old(rows)[id].status in {Queued, Running} ==>
                rows == old(rows)[id := old(rows)[id].(status := Canceled, exit := Exit(None, Some("canceled_before_start")))]
    {
      trail := world(clock) + [Settle(id, NEVER_STARTED, true)];
      AfterConcat(State(), world(clock), [Settle(id, NEVER_STARTED, true)]);
      Others(world);
      ghost var start := old(State());
      Finalize(id, NEVER_STARTED, true);
      if id in rows {
        TerminalStays(State(), world(clock), id);
      } else {
        GoneStays(State(), world(clock), id);
      }
      AfterConcat(start, trail, world(clock));
      trail := trail + world(clock);
      Others(world);
      result := Read(id);
    }

    /** Start the process and record the outcome. */
    method Launch(id: TaskId, started: Started, polls: nat, world: World) returns (result: Result, ghost trail: seq<Change>)
      requires Valid(State()) && id in known
      modifies this
      ensures Valid(State()) && State() == After(old(State()), trail)
      ensures result.Ok? ==> id in rows && rows[id] == result.row
      ensures result.Ok? && Live(result.row.status) ==> result.row.status == Running && !result.row.cancelRequested
      ensures result.Ok? && Live(result.row.status) ==>
                started.Handle? && started.nonceMatches && result.row.identity == Some(started.identity)
      ensures result.Err? && id in rows ==> !Live(rows[id].status)
      ensures result == Err(NonceMismatch) ==> started.Handle? && !started.nonceMatches
      ensures result == Err(ExecutorFailed) ==> started.StartFailed?
      ensures result == Err(TaskLost) ==> id !in rows
      ensures Quiet(world) && id in old(rows) && old(rows)[id].status == Queued && !old(rows)[id].cancelRequested ==>
                match started
                case Handle(identity, true) =>
                  result == Ok(old(rows)[id].(status := Running, identity := Some(identity)))
                  && rows == old(rows)[id := result.row]
                case Handle(_, false) =>
                  result == Err(NonceMismatch) && rows == old(rows)[id := LostAs(old(rows)[id], "executor_nonce_mismatch")]
                case StartFailed =>
                  result == Err(ExecutorFailed) && rows == old(rows)[id := LostAs(old(rows)[id], "start_failed")]
    {
      ghost var start := State();
      trail := world(clock);
      Others(world);
      ghost var rest;
      if started.Handle? && started.nonceMatches {
        AfterConcat(start, trail, [SetRunning(id, started.identity)]);
        RunKeeps(State(), [SetRunning(id, started.identity)]);
        var changed := MarkRunning(id, started.identity);
        trail := trail + [SetRunning(id, started.identity)];
        if changed {
          return Ok(rows[id]), trail;
        }
        result, rest := CancelStarted(id, polls, world);
        AfterConcat(start, trail, rest);
        return result, trail + rest;
      }
      var reason := if started.Handle? then "executor_nonce_mismatch" else "start_failed";
      var found;
      found, rest := MarkAsyncTaskLost(id, reason, world);
      AfterConcat(start, trail, rest);
      trail := trail + rest;
      result := Err(if !found then TaskLost else if started.Handle? then NonceMismatch else ExecutorFailed);
    }
  }
}
