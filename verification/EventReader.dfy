/** The event store's own operations, and readers that follow the log by cursor. A reader may see
    a later event before an earlier one, and still only ever takes the next one. */
module EventReader {
  import opened Common
  import opened EventLog

  const MAX_ROWS: nat := 1000

  /** The query's row limit; zero stands for no limit. */
  function Rows(limit: nat): nat {
    if limit < MAX_ROWS then limit else MAX_ROWS
  }

  ghost predicate SubLog(visible: map<nat, Event>, log: map<nat, Event>) {
    forall i | i in visible :: i in log && visible[i] == log[i]
  }

  predicate EntryIs(log: map<nat, Event>, cursor: nat, event: Event) {
    cursor in log && log[cursor] == event
  }

  /** The longest run of visible events right after `cursor`, up to the row limit. */
  ghost predicate IsNext(visible: map<nat, Event>, cursor: nat, limit: nat, events: seq<Event>) {
    && (forall i | 0 <= i < |events| :: EntryIs(visible, cursor + 1 + i, events[i]))
    && (Rows(limit) != 0 ==> |events| <= Rows(limit))
    && (cursor + 1 + |events| in visible ==> Rows(limit) != 0 && |events| == Rows(limit))
  }

  predicate Ascending(rows: seq<nat>) {
    forall i, j | 0 <= i < j < |rows| :: rows[i] < rows[j]
  }

  /** What the sorted, limited query returns: the smallest visible cursors beyond `cursor`. */
  ghost predicate Smallest(visible: map<nat, Event>, cursor: nat, limit: nat, rows: seq<nat>) {
    && Ascending(rows) && (forall i | 0 <= i < |rows| :: rows[i] in visible && rows[i] > cursor)
    && (Rows(limit) != 0 ==> |rows| <= Rows(limit))
    && (forall c | c in visible && c > cursor && c !in rows ::
          Rows(limit) != 0 && |rows| == Rows(limit) && forall i | 0 <= i < |rows| :: rows[i] < c)
  }

  lemma {:induction false} AscendingAtLeast(rows: seq<nat>, cursor: nat, k: nat)
    requires Ascending(rows) && k < |rows| && rows[0] > cursor
    ensures rows[k] >= cursor + 1 + k
  {
    if k > 0 {
      AscendingAtLeast(rows, cursor, k - 1);
    }
  }

  /** A row that is not the next cursor shows that the next cursor is not visible. */
  lemma NextIsMissing(visible: map<nat, Event>, cursor: nat, limit: nat, rows: seq<nat>, n: nat)
    requires Smallest(visible, cursor, limit, rows) && n < |rows| && rows[n] != cursor + 1 + n
    requires forall i | 0 <= i < n :: rows[i] == cursor + 1 + i
    ensures cursor + 1 + n !in visible
  {
    var c := cursor + 1 + n;
    AscendingAtLeast(rows, cursor, n);
    assert rows[n] > c;
    forall i | 0 <= i < |rows|
      ensures rows[i] != c
    {
      assert i > n ==> rows[n] < rows[i];
    }
    assert c !in rows;
    if c in visible {
      assert false;
    }
  }

  /** The rows that are as consecutive as they look are all the next events there are. */
  lemma PrefixOfRows(visible: map<nat, Event>, cursor: nat, limit: nat, rows: seq<nat>, events: seq<Event>)
    requires Smallest(visible, cursor, limit, rows) && |events| <= |rows|
    requires forall i | 0 <= i < |events| :: rows[i] == cursor + 1 + i && visible[rows[i]] == events[i]
    requires |events| < |rows| ==> rows[|events|] != cursor + 1 + |events|
    ensures IsNext(visible, cursor, limit, events)
  {
    var n := |events|;
    if n < |rows| {
      NextIsMissing(visible, cursor, limit, rows, n);
    } else {
      assert forall i | 0 <= i < |rows| :: rows[i] < cursor + 1 + n;
      assert cursor + 1 + n !in rows;
    }
    forall i | 0 <= i < n
      ensures EntryIs(visible, cursor + 1 + i, events[i])
    {
      assert rows[i] == cursor + 1 + i;
    }
  }

  /** A reader that has seen the first `|seen|` events of the log. */
  ghost predicate Follows(seen: seq<Event>, log: map<nat, Event>, counter: nat) {
    GapFree(log, counter) && seen <= Entries(log, counter)
  }

  /** Whatever part of the log a query happens to see, what the reader takes are exactly the
      events that come next. */
  lemma NextEventsFollow(seen: seq<Event>, log: map<nat, Event>, counter: nat, visible: map<nat, Event>, limit: nat, events: seq<Event>)
    requires Follows(seen, log, counter) && SubLog(visible, log) && IsNext(visible, |seen|, limit, events)
    ensures Follows(seen + events, log, counter)
    ensures visible == log && |seen| < counter ==> |events| > 0
  {
    var all, now := Entries(log, counter), seen + events;
    assert |seen| < counter ==> |seen| + 1 in log;
    forall i | 0 <= i < |now|
      ensures i < |all| && now[i] == all[i]
    {
      if i >= |seen| {
        assert EntryIs(visible, |seen| + 1 + (i - |seen|), events[i - |seen|]);
      } else {
        assert now[i] == seen[i] == all[i];
      }
    }
    if |now| > 0 {
      var last := now[|now| - 1];
      assert |now| <= |all|;
    }
  }

  /** One reader in a run: others change the store, or the reader asks and takes what it gets. */
  datatype ReaderStep = Others(actions: seq<Action>) | Poll(visible: map<nat, Event>, limit: nat, events: seq<Event>)

  function StoreAfter(db: Db, step: ReaderStep): Db {
    if step.Others? then After(db, step.actions) else db
  }

  ghost predicate Possible(db: Db, seen: seq<Event>, steps: seq<ReaderStep>)
    decreases |steps|
  {
    |steps| > 0 ==>
      && (steps[0].Poll? ==> SubLog(steps[0].visible, db.log) && IsNext(steps[0].visible, |seen|, steps[0].limit, steps[0].events))
      && Possible(StoreAfter(db, steps[0]), if steps[0].Poll? then seen + steps[0].events else seen, steps[1..])
  }

  function FinalStore(db: Db, steps: seq<ReaderStep>): Db
    decreases |steps|
  {
    if |steps| == 0 then db else FinalStore(StoreAfter(db, steps[0]), steps[1..])
  }

  function Taken(steps: seq<ReaderStep>): seq<Event>
    decreases |steps|
  {
    if |steps| == 0 then [] else (if steps[0].Poll? then steps[0].events else []) + Taken(steps[1..])
  }

  lemma Regroup(a: seq<Event>, b: seq<Event>, c: seq<Event>)
    ensures a + (b + c) == (a + b) + c && [] + c == c
  {
  }

  /** Exact delivery: over any interleaving with writers, and whatever the queries see, the events
      a reader has taken are the first events of the log, in order, none missing, none twice. */
  lemma {:induction false} ReaderHoldsAPrefix(db: Db, seen: seq<Event>, steps: seq<ReaderStep>)
    requires Valid(db) && Follows(seen, db.log, db.counter) && Possible(db, seen, steps)
    ensures Valid(FinalStore(db, steps))
    ensures Follows(seen + Taken(steps), FinalStore(db, steps).log, FinalStore(db, steps).counter)
    decreases |steps|
  {
    if |steps| == 0 {
      assert seen + [] == seen;
    } else {
      var step, rest := steps[0], Taken(steps[1..]);
      match step
      case Others(actions) =>
        LogIsGapFree(db, actions);
        ReaderHoldsAPrefix(After(db, actions), seen, steps[1..]);
        Regroup(seen, [], rest);
      case Poll(visible, limit, events) =>
        NextEventsFollow(seen, db.log, db.counter, visible, limit, events);
        ReaderHoldsAPrefix(db, seen + events, steps[1..]);
        Regroup(seen, events, rest);
    }
  }

  // ---- A worker that persists its position ----

  /** `handled` is history: the event the worker has handled at each cursor. */
  datatype Worker = Worker(cursor: nat, persisted: nat, handled: map<nat, Event>)

  datatype WorkerStep = Handle(visible: map<nat, Event>, limit: nat, events: seq<Event>) | Persist | Restart

  function Work(w: Worker, step: WorkerStep): Worker {
    match step
    case Handle(_, _, events) => Worker(w.cursor + |events|, w.persisted, Written(w.handled, w.cursor, events))
    case Persist => w.(persisted := w.cursor)
    case Restart => w.(cursor := w.persisted)
  }

  /** Everything up to the worker's position has been handled, and only as the log has it. */
  ghost predicate WorkerOk(w: Worker, log: map<nat, Event>) {
    && w.persisted <= w.cursor && (forall i | 1 <= i <= w.cursor :: i in w.handled)
    && SubLog(w.handled, log)
  }

  lemma {:induction false} WrittenAt(log: map<nat, Event>, counter: nat, events: seq<Event>, i: nat)
    ensures i in Written(log, counter, events) <==> i in log || counter < i <= counter + |events|
    ensures i in Written(log, counter, events) ==>
              Written(log, counter, events)[i] == if counter < i <= counter + |events| then events[i - counter - 1] else log[i]
    decreases |events|
  {
    if |events| > 0 {
      WrittenAt(log[counter + 1 := events[0]], counter + 1, events[1..], i);
    }
  }

  /** A batch is what some query of the log returned after the worker's position. */
  ghost predicate Sensible(w: Worker, step: WorkerStep, log: map<nat, Event>) {
    step.Handle? ==> SubLog(step.visible, log) && IsNext(step.visible, w.cursor, step.limit, step.events)
  }

  lemma WorkerKeeps(w: Worker, step: WorkerStep, log: map<nat, Event>)
    requires WorkerOk(w, log) && Sensible(w, step, log)
    ensures WorkerOk(Work(w, step), log)
  {
    if step.Handle? {
      forall i: nat
        ensures var h := Written(w.handled, w.cursor, step.events);
                && (1 <= i <= w.cursor + |step.events| ==> i in h)
                && (i in h ==> i in log && h[i] == log[i])
      {
        WrittenAt(w.handled, w.cursor, step.events, i);
        if w.cursor < i <= w.cursor + |step.events| {
          assert EntryIs(step.visible, w.cursor + 1 + (i - w.cursor - 1), step.events[i - w.cursor - 1]);
        }
      }
    }
  }

  function WorkAll(w: Worker, steps: seq<WorkerStep>): Worker
    decreases |steps|
  {
    if |steps| == 0 then w else WorkAll(Work(w, steps[0]), steps[1..])
  }

  ghost predicate AllSensible(w: Worker, steps: seq<WorkerStep>, log: map<nat, Event>)
    decreases |steps|
  {
    |steps| > 0 ==> Sensible(w, steps[0], log) && AllSensible(Work(w, steps[0]), steps[1..], log)
  }

  /** No event is lost: across batches, persisted positions and restarts at any point, everything
      up to the persisted position has been handled, and as the log has it. */
  lemma {:induction false} WorkerLosesNothing(w: Worker, steps: seq<WorkerStep>, log: map<nat, Event>)
    requires WorkerOk(w, log) && AllSensible(w, steps, log)
    ensures WorkerOk(WorkAll(w, steps), log)
    decreases |steps|
  {
    if |steps| > 0 {
      WorkerKeeps(w, steps[0], log);
      WorkerLosesNothing(Work(w, steps[0]), steps[1..], log);
    }
  }

  // ---- The store's operations ----

  /** What the server does with one commit request, and what the client hears. */
  datatype Answer = Accepted | Unknown(applied: bool) | Refused

  /** How one attempt to start a session ends. */
  datatype Start = Started | Transient | Fatal

  predicate AllTransient(starts: seq<Start>) {
    forall k | 0 <= k < |starts| :: starts[k] == Transient
  }

  lemma NeverStarts(starts: seq<Start>, attempts: nat)
    requires 1 <= attempts <= |starts| && AllTransient(starts[..attempts - 1]) && starts[attempts - 1] != Started
    requires starts[attempts - 1] == Fatal || attempts == |starts|
    ensures forall k | 0 <= k < |starts| :: !(starts[k] == Started && AllTransient(starts[..k]))
  {
    forall k | 0 <= k < |starts|
      ensures !(starts[k] == Started && AllTransient(starts[..k]))
    {
      if k < attempts - 1 {
        assert starts[..attempts - 1][k] == Transient;
      } else if k >= attempts {
        assert starts[..k][attempts - 1] == Fatal;
      }
    }
  }

  /** The first `n` answers were lost. */
  predicate AllUnknown(answers: seq<Answer>, n: nat)
    requires n <= |answers|
  {
    forall k | 0 <= k < n :: answers[k].Unknown?
  }

  lemma NeverAccepted(answers: seq<Answer>, attempts: nat)
    requires attempts < |answers| && !answers[attempts].Accepted? && AllUnknown(answers, attempts)
    requires answers[attempts].Refused? || attempts == |answers| - 1
    ensures !exists k | 0 <= k < |answers| :: answers[k].Accepted? && AllUnknown(answers, k)
  {
  }

  class EventStore {
    var counter: nat
    var log: map<nat, Event>
    var txs: map<TxId, Tx>
    var lock: Option<TxId>
    var projection: nat

    function State(): Db
      reads this
    {
      Db(counter, log, txs, lock)
    }

    constructor ()
      ensures State() == EMPTY && Valid(State()) && projection == 0
    {
      counter, log, txs, lock, projection := 0, map[], map[], None, 0;
    }

    /** Start a transaction with the append lock held. A transient error is tried again, up to five
        attempts in all; any other error is returned at once. */
    method BeginUnitOfWork(t: TxId, starts: seq<Start>) returns (started: bool, attempts: nat)
      requires Valid(State()) && t !in txs && lock.None? && |starts| == 5
      modifies this`txs, this`lock
      ensures started <==> exists k | 0 <= k < 5 :: starts[k] == Started && AllTransient(starts[..k])
      ensures 1 <= attempts <= 5 && AllTransient(starts[..attempts - 1])
      ensures started ==> starts[attempts - 1] == Started
      ensures !started && attempts < 5 ==> starts[attempts - 1] == Fatal
      ensures State() == if started then Apply(old(State()), Begin(t, true)) else old(State())
      ensures started ==> txs == old(txs)[t := Tx(counter, [], Open)] && lock == Some(t)
    {
      attempts := 0;
      while true
        invariant attempts <= 4 && State() == old(State()) && AllTransient(starts[..attempts])
        decreases 5 - attempts
      {
        lock := Some(t);
        attempts := attempts + 1;
        if starts[attempts - 1] == Started {
          txs := txs[t := Tx(counter, [], Open)];
          return true, attempts;
        }
        lock := None;
        if starts[attempts - 1] == Fatal || attempts == 5 {
          NeverStarts(starts, attempts);
          return false, attempts;
        }
      }
    }

    /** Allocate the next cursor and store the event inside the transaction. */
    method AppendInTx(t: TxId, event: Event) returns (cursor: Option<nat>)
      requires Valid(State()) && t in txs && txs[t].phase == Open
      modifies this`txs, this`lock
      ensures Valid(State()) && State() == Apply(old(State()), Append(t, event))
      ensures cursor == if old(Conflict(State(), t)) then None else Some(old(counter + |txs[t].pending|) + 1)
      ensures cursor.None? <==> (|| old(txs)[t].snapshot != counter
                                 || exists u | u in old(txs) && u != t :: old(txs)[u].pending != [] && old(txs)[u].phase != Committed)
      ensures txs == if cursor.None? then old(txs) - {t}
                     else old(txs)[t := old(txs)[t].(pending := old(txs)[t].pending + [event])]
    {
      StepKeeps(State(), Append(t, event));
      var tx := txs[t];
      if tx.snapshot != counter || exists u | u in txs :: u != t && |txs[u].pending| > 0 && txs[u].phase != Committed {
        txs := txs - {t};
        lock := if lock == Some(t) then None else lock;
        return None;
      }
      txs := txs[t := tx.(pending := tx.pending + [event])];
      return Some(counter + |tx.pending| + 1);
    }

    /** Commit, sending the commit again up to three times when its answer is lost. Acknowledged,
        the log has grown by exactly the transaction's events; otherwise by those or by nothing. */
    method Commit(t: TxId, answers: seq<Answer>) returns (ok: bool, notified: bool)
      requires Valid(State()) && t in txs && txs[t].phase == Open && |answers| == 4
      modifies this`counter, this`log, this`txs, this`lock
      ensures Valid(State()) && lock == Unlocked(old(State()), t)
      ensures ok ==> Entries(log, counter) == old(Entries(log, counter)) + old(txs[t].pending) && t !in txs
      ensures !ok ==> Entries(log, counter) == old(Entries(log, counter))
                      || Entries(log, counter) == old(Entries(log, counter)) + old(txs[t].pending)
      ensures ok <==> exists k | 0 <= k < 4 :: answers[k].Accepted? && AllUnknown(answers, k)
      ensures notified <==> ok && |old(txs[t].pending)| > 0
      ensures forall u | u in old(txs) && u != t :: u in txs && txs[u] == old(txs)[u]
    {
      var pending := txs[t].pending;
      ghost var before := Entries(log, counter);
      StepAppends(State(), Action.SendCommit(t));
      txs := txs[t := txs[t].(phase := Sent)];
      ok, notified := false, false;
      var attempts := 0;
      while true
        invariant 0 <= attempts <= 3 && Valid(State()) && t in txs && txs[t].pending == pending
        invariant lock == old(lock) && !ok && !notified && AllUnknown(answers, attempts)
        invariant if txs[t].phase == Sent then Entries(log, counter) == before
                  else txs[t].phase == Committed && Entries(log, counter) == before + pending
        invariant forall u | u in old(txs) && u != t :: u in txs && txs[u] == old(txs)[u]
        decreases 3 - attempts
      {
        SendCommit(t, answers[attempts]);
        if answers[attempts].Accepted? {
          ok, notified := true, |pending| > 0;
          break;
        }
        if answers[attempts].Refused? || attempts >= 3 {
          NeverAccepted(answers, attempts);
          break;
        }
        attempts := attempts + 1;
      }
      lock := if lock == Some(t) then None else lock;
    }

    /** Send the commit once: it is applied or not, and only an answer that arrives ends the transaction. */
    method SendCommit(t: TxId, answer: Answer)
      requires Valid(State()) && t in txs && txs[t].phase != Open
      modifies this`counter, this`log, this`txs
      ensures Valid(State())
      ensures var applied := answer.Accepted? || (answer.Unknown? && answer.applied);
              && Entries(log, counter) == (if applied && old(txs[t].phase) == Sent
                                           then old(Entries(log, counter)) + old(txs[t].pending) else old(Entries(log, counter)))
              && if answer.Accepted? then t !in txs
                 else t in txs && txs[t] == old(txs)[t].(phase := if applied then Committed else old(txs[t].phase))
      ensures forall u | u in old(txs) && u != t :: u in txs && txs[u] == old(txs)[u]
    {
      if answer.Accepted? || (answer.Unknown? && answer.applied) {
        ServerApply(t);
      }
      if answer.Accepted? {
        StepAppends(State(), Acknowledge(t));
        txs := txs - {t};
      }
    }

    /** The server applies a commit request it has not applied before. */
    method ServerApply(t: TxId)
      requires Valid(State()) && t in txs && txs[t].phase != Open
      modifies this`counter, this`log, this`txs
      ensures Valid(State()) && State() == Apply(old(State()), ServerCommit(t))
      ensures old(txs[t].phase) == Sent ==> Entries(log, counter) == old(Entries(log, counter)) + old(txs[t].pending)
      ensures old(txs[t].phase) != Sent ==> log == old(log) && counter == old(counter)
      ensures forall u | u in old(txs) && u != t :: u in txs && txs[u] == old(txs)[u]
      ensures t in txs && txs[t] == old(txs)[t].(phase := Committed)
    {
      StepAppends(State(), ServerCommit(t));
      if txs[t].phase == Sent {
        var tx := txs[t];
        log := Written(log, tx.snapshot, tx.pending);
        counter := if |tx.pending| == 0 then counter else tx.snapshot + |tx.pending|;
        txs := txs[t := tx.(phase := Committed)];
      } else {
        assert txs[t].phase == Committed;
      }
    }

    method Rollback(t: TxId)
      requires Valid(State()) && t in txs && txs[t].phase == Open
      modifies this`txs, this`lock
      ensures Valid(State()) && State() == Apply(old(State()), Abort(t))
      ensures log == old(log) && counter == old(counter) && txs == old(txs) - {t}
      ensures lock == if old(lock) == Some(t) then None else old(lock)
    {
      StepKeeps(State(), Abort(t));
      txs := txs - {t};
      lock := if lock == Some(t) then None else lock;
    }

    /** The smallest visible cursors beyond `cursor`, in order. */
    static method FindRows(visible: map<nat, Event>, cursor: nat, limit: nat) returns (rows: seq<nat>)
      ensures Smallest(visible, cursor, limit, rows)
      ensures limit != 0 ==> |rows| <= limit && |rows| <= 1000
    {
      rows := [];
      var left := set c | c in visible && c > cursor;
      while left != {} && (Rows(limit) == 0 || |rows| < Rows(limit))
        invariant Ascending(rows) && forall i | 0 <= i < |rows| :: rows[i] in visible && rows[i] > cursor
        invariant Rows(limit) != 0 ==> |rows| <= Rows(limit)
        invariant forall c :: c in left <==> c in visible && c > cursor && c !in rows
        invariant forall i, c | 0 <= i < |rows| && c in left :: rows[i] < c
        decreases left
      {
        var least := Least(left);
        left := left - {least};
        rows := rows + [least];
      }
    }

    static method Least(s: set<nat>) returns (least: nat)
      requires s != {}
      ensures least in s && forall c | c in s :: least <= c
    {
      least :| least in s;
      var rest := s - {least};
      while rest != {}
        invariant rest <= s && least in s && forall c | c in s && c !in rest :: least <= c
        decreases rest
      {
        var c :| c in rest;
        if c < least {
          least := c;
        }
        rest := rest - {c};
      }
    }

    /** Read events strictly after `cursor`, stopping at the first gap; `visible` is what the
        query sees of the log. */
    static method ReadAfter(visible: map<nat, Event>, cursor: nat, limit: nat) returns (events: seq<Event>)
      ensures IsNext(visible, cursor, limit, events)
      ensures limit != 0 ==> |events| <= limit && |events| <= 1000
      ensures cursor + 1 + |events| in visible ==> limit != 0 && (|events| == limit || |events| == 1000)
    {
      var rows := FindRows(visible, cursor, limit);
      events := [];
      while |events| < |rows| && rows[|events|] == cursor + 1 + |events|
        invariant |events| <= |rows|
        invariant forall i | 0 <= i < |events| :: rows[i] == cursor + 1 + i && visible[rows[i]] == events[i]
        decreases |rows| - |events|
      {
        events := events + [visible[rows[|events|]]];
      }
      PrefixOfRows(visible, cursor, limit, rows, events);
    }

    method SetProjectionCursor(cursor: nat)
      modifies this`projection
      ensures projection == cursor
    {
      projection := cursor;
    }
  }
}
