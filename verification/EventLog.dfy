/** The public event log. Cursors are allocated inside transactions; a transaction that meets
    another writer of the counter is aborted, and a commit whose answer is lost is retried. */
module EventLog {
  import opened Common

  type Event = string
  type TxId = nat

  datatype Phase = Open | Sent | Committed
  datatype Tx = Tx(snapshot: nat, pending: seq<Event>, phase: Phase)

  /** `log` and `counter` are the committed collections; `lock` is the append mutex. */
  datatype Db = Db(counter: nat, log: map<nat, Event>, txs: map<TxId, Tx>, lock: Option<TxId>)

  const EMPTY: Db := Db(0, map[], map[], None)

  datatype Action =
    | Begin(t: TxId, locked: bool)
    | Append(t: TxId, event: Event)
    | SendCommit(t: TxId)
    | ServerCommit(t: TxId)
    | Acknowledge(t: TxId)
    | GiveUp(t: TxId)
    | Abort(t: TxId)

  /** The transaction has bumped the counter and is not settled. */
  predicate Writes(x: Tx) {
    |x.pending| > 0 && x.phase != Committed
  }

  /** Snapshot isolation: bumping the counter fails if another transaction has bumped it since
      this one's snapshot, or is about to. */
  predicate Conflict(db: Db, t: TxId)
    requires t in db.txs
  {
    db.txs[t].snapshot != db.counter || exists u | u in db.txs :: u != t && Writes(db.txs[u])
  }

  function Unlocked(db: Db, t: TxId): Option<TxId> {
    if db.lock == Some(t) then None else db.lock
  }

  function Ended(db: Db, t: TxId): Db {
    db.(txs := db.txs - {t}, lock := Unlocked(db, t))
  }

  /** `log` with `events` at the cursors after `counter`. */
  function Written(log: map<nat, Event>, counter: nat, events: seq<Event>): map<nat, Event>
    decreases |events|
  {
    if |events| == 0 then log else Written(log[counter + 1 := events[0]], counter + 1, events[1..])
  }

  function Applied(db: Db, t: TxId): Db
    requires t in db.txs
  {
    var x := db.txs[t];
    db.(log := Written(db.log, x.snapshot, x.pending),
        counter := if |x.pending| == 0 then db.counter else x.snapshot + |x.pending|,
        txs := db.txs[t := x.(phase := Committed)])
  }

  function Apply(db: Db, a: Action): Db {
    match a
    case Begin(t, locked) =>
      if t in db.txs || (locked && db.lock.Some?) then db
      else db.(txs := db.txs[t := Tx(db.counter, [], Open)], lock := if locked then Some(t) else db.lock)
    case Append(t, event) =>
      if t !in db.txs || db.txs[t].phase != Open then db
      else if Conflict(db, t) then Ended(db, t)
      else db.(txs := db.txs[t := db.txs[t].(pending := db.txs[t].pending + [event])])
    case SendCommit(t) =>
      if t in db.txs && db.txs[t].phase == Open then db.(txs := db.txs[t := db.txs[t].(phase := Sent)]) else db
    case ServerCommit(t) =>
      if t in db.txs && db.txs[t].phase == Sent then Applied(db, t) else db
    case Acknowledge(t) =>
      if t in db.txs && db.txs[t].phase == Committed then Ended(db, t) else db
    case GiveUp(t) =>
      if t in db.txs && db.txs[t].phase == Sent then db.(lock := Unlocked(db, t)) else db
    case Abort(t) =>
      if t in db.txs && db.txs[t].phase != Committed then Ended(db, t) else db
  }

  function After(db: Db, actions: seq<Action>): Db
    decreases |actions|
  {
    if |actions| == 0 then db else After(Apply(db, actions[0]), actions[1..])
  }

  // ---- The log has no gap ----

  ghost predicate GapFree(log: map<nat, Event>, counter: nat) {
    forall i :: i in log <==> 1 <= i <= counter
  }

  ghost predicate Valid(db: Db) {
    && GapFree(db.log, db.counter)
    && (forall t | t in db.txs && Writes(db.txs[t]) :: db.txs[t].snapshot == db.counter)
    && (forall t, u | t in db.txs && u in db.txs && Writes(db.txs[t]) && Writes(db.txs[u]) :: t == u)
  }

  /** The log as a list, in cursor order. */
  ghost function Entries(log: map<nat, Event>, counter: nat): seq<Event>
    requires GapFree(log, counter)
  {
    seq(counter, i requires 0 <= i < counter => log[i + 1])
  }

  lemma {:induction false} WrittenKeeps(log: map<nat, Event>, counter: nat, events: seq<Event>)
    requires GapFree(log, counter)
    ensures GapFree(Written(log, counter, events), counter + |events|)
    ensures Entries(Written(log, counter, events), counter + |events|) == Entries(log, counter) + events
    decreases |events|
  {
    if |events| == 0 {
      assert Entries(log, counter) + events == Entries(log, counter);
    } else {
      var next := log[counter + 1 := events[0]];
      assert Entries(next, counter + 1) == Entries(log, counter) + [events[0]];
      WrittenKeeps(next, counter + 1, events[1..]);
      assert (Entries(log, counter) + [events[0]]) + events[1..] == Entries(log, counter) + events;
    }
  }

  lemma CommitKeeps(db: Db, t: TxId)
    requires Valid(db) && t in db.txs && db.txs[t].phase == Sent
    ensures Valid(Applied(db, t))
    ensures Entries(Applied(db, t).log, Applied(db, t).counter) == Entries(db.log, db.counter) + db.txs[t].pending
  {
    var x := db.txs[t];
    if |x.pending| == 0 {
      assert Entries(db.log, db.counter) + x.pending == Entries(db.log, db.counter);
    } else {
      assert Writes(x);
      WrittenKeeps(db.log, db.counter, x.pending);
    }
  }

  lemma StepKeeps(db: Db, a: Action)
    requires Valid(db)
    ensures Valid(Apply(db, a))
  {
    if a.ServerCommit? && a.t in db.txs && db.txs[a.t].phase == Sent {
      CommitKeeps(db, a.t);
    }
  }

  /** What one step adds to the log: the events of the transaction that the server commits, all
      of them, in order, behind everything before; any other step adds nothing, so neither does
      a commit that is sent again after it was applied. */
  lemma StepAppends(db: Db, a: Action)
    requires Valid(db)
    ensures Valid(Apply(db, a))
    ensures Entries(Apply(db, a).log, Apply(db, a).counter)
         == Entries(db.log, db.counter)
            + (if a.ServerCommit? && a.t in db.txs && db.txs[a.t].phase == Sent then db.txs[a.t].pending else [])
  {
    StepKeeps(db, a);
    var before := Entries(db.log, db.counter);
    assert before + [] == before;
    if a.ServerCommit? && a.t in db.txs && db.txs[a.t].phase == Sent {
      CommitKeeps(db, a.t);
    }
  }

  /** For every interleaving, with or without the lock, committed cursors are exactly 1 to the
      counter, and what was in the log stays where it is. */
  lemma {:induction false} LogIsGapFree(db: Db, actions: seq<Action>)
    requires Valid(db)
    ensures Valid(After(db, actions))
    ensures Entries(db.log, db.counter) <= Entries(After(db, actions).log, After(db, actions).counter)
    decreases |actions|
  {
    if |actions| > 0 {
      StepAppends(db, actions[0]);
      LogIsGapFree(Apply(db, actions[0]), actions[1..]);
    }
  }

  // ---- The lock, and commits that were given up ----

  /** An open transaction holds the lock. */
  ghost predicate Locked(db: Db) {
    forall t | t in db.txs && db.txs[t].phase == Open :: db.lock == Some(t)
  }

  /** A commit whose answer stayed unknown was given up: its transaction no longer holds the lock, and
      the server may still apply it. */
  predicate Unresolved(db: Db, u: TxId) {
    u in db.txs && Writes(db.txs[u]) && db.lock != Some(u)
  }

  /** An open transaction holds the lock, has the current counter, and is the only writer. */
  ghost predicate Serialized(db: Db) {
    forall t | t in db.txs && db.txs[t].phase == Open ::
      db.lock == Some(t) && db.txs[t].snapshot == db.counter && forall u | u in db.txs && u != t :: !Writes(db.txs[u])
  }

  /** Every transaction takes the lock before its snapshot, and begins when no given-up one is unresolved. */
  ghost predicate Orderly(db: Db, actions: seq<Action>)
    decreases |actions|
  {
    |actions| > 0 ==>
      && (actions[0].Begin? ==> actions[0].locked && forall u :: !Unresolved(db, u))
      && Orderly(Apply(db, actions[0]), actions[1..])
  }

  lemma SerializedStep(db: Db, a: Action)
    requires Serialized(db) && (a.Begin? ==> a.locked && forall u :: !Unresolved(db, u))
    ensures Serialized(Apply(db, a))
  {
    var next := Apply(db, a);
    if a.Begin? && db.lock.None? {
      assert forall u | u in db.txs :: !Unresolved(db, u);
    }
  }

  /** Then no append ever meets a conflict. */
  lemma {:induction false} NoConflictUnderLock(db: Db, actions: seq<Action>)
    requires Serialized(db) && Orderly(db, actions)
    ensures Serialized(After(db, actions))
    ensures forall t | t in After(db, actions).txs && After(db, actions).txs[t].phase == Open :: !Conflict(After(db, actions), t)
    decreases |actions|
  {
    if |actions| > 0 {
      SerializedStep(db, actions[0]);
      NoConflictUnderLock(Apply(db, actions[0]), actions[1..]);
    }
  }

  /** Others take the lock before they begin, and the transaction only appends. */
  predicate OnlyAppends(t: TxId, actions: seq<Action>) {
    forall k | 0 <= k < |actions| :: (actions[k].Begin? ==> actions[k].locked) && (actions[k].t == t ==> actions[k].Append?)
  }

  /** What becomes of `u` first is that the server drops it. */
  predicate Dropped(u: TxId, actions: seq<Action>)
    decreases |actions|
  {
    |actions| > 0 && (actions[0] == Abort(u) || (actions[0] != ServerCommit(u) && Dropped(u, actions[1..])))
  }

  /** `t` is open and has the lock. */
  ghost predicate Holding(db: Db, t: TxId) {
    Valid(db) && Locked(db) && t in db.txs && db.txs[t].phase == Open
  }

  lemma TailOnlyAppends(t: TxId, actions: seq<Action>)
    requires |actions| > 0 && OnlyAppends(t, actions)
    ensures OnlyAppends(t, actions[1..])
  {
    assert forall k | 0 <= k < |actions[1..]| :: actions[1..][k] == actions[k + 1];
  }

  lemma {:induction false} GoneStays(db: Db, t: TxId, actions: seq<Action>)
    requires t !in db.txs && OnlyAppends(t, actions)
    ensures t !in After(db, actions).txs
    decreases |actions|
  {
    if |actions| > 0 {
      TailOnlyAppends(t, actions);
      GoneStays(Apply(db, actions[0]), t, actions[1..]);
    }
  }

  /** Without another writer there is no conflict, and none can join while the lock is held. */
  lemma {:induction false} AloneStays(db: Db, t: TxId, actions: seq<Action>)
    requires Holding(db, t) && db.txs[t].snapshot == db.counter && OnlyAppends(t, actions)
    requires forall u | u in db.txs && u != t :: !Writes(db.txs[u])
    ensures t in After(db, actions).txs && !Conflict(After(db, actions), t)
    decreases |actions|
  {
    if |actions| > 0 {
      TailOnlyAppends(t, actions);
      StepKeeps(db, actions[0]);
      AloneStays(Apply(db, actions[0]), t, actions[1..]);
    }
  }

  /** Once the counter has moved, the transaction never catches up. */
  lemma {:induction false} StaleStays(db: Db, t: TxId, actions: seq<Action>)
    requires Valid(db) && t in db.txs && db.txs[t].phase == Open && db.txs[t].snapshot < db.counter && OnlyAppends(t, actions)
    ensures t in After(db, actions).txs ==> Conflict(After(db, actions), t)
    decreases |actions|
  {
    if |actions| > 0 {
      var next := Apply(db, actions[0]);
      TailOnlyAppends(t, actions);
      StepKeeps(db, actions[0]);
      if t in next.txs {
        StaleStays(next, t, actions[1..]);
      } else {
        GoneStays(next, t, actions[1..]);
      }
    }
  }

  /** A given-up transaction stands in the way until the server drops it, and for good if the server
      applies it. */
  lemma {:induction false} ConflictsUntilDropped(db: Db, t: TxId, u: TxId, actions: seq<Action>)
    requires Holding(db, t) && Unresolved(db, u) && u != t && db.txs[t].snapshot == db.counter && OnlyAppends(t, actions)
    requires t in After(db, actions).txs
    ensures Conflict(After(db, actions), t) <==> !Dropped(u, actions)
    decreases |actions|
  {
    if |actions| > 0 {
      var a, next := actions[0], Apply(db, actions[0]);
      StepKeeps(db, a);
      TailOnlyAppends(t, actions);
      if t !in next.txs {
        GoneStays(next, t, actions[1..]);
      } else if a == Abort(u) {
        AloneStays(next, t, actions[1..]);
      } else if a == ServerCommit(u) {
        StaleStays(next, t, actions[1..]);
      } else {
        ConflictsUntilDropped(next, t, u, actions[1..]);
      }
    }
  }

  /** Exactly when a transaction that took the lock meets a conflict: if and only if a given-up one was
      unresolved when it began, and the server has not dropped that one. */
  lemma ConflictIff(db: Db, t: TxId, actions: seq<Action>)
    requires Valid(db) && Locked(db) && db.lock.None? && t !in db.txs && OnlyAppends(t, actions)
    requires t in After(Apply(db, Begin(t, true)), actions).txs
    ensures Conflict(After(Apply(db, Begin(t, true)), actions), t) <==> exists u :: Unresolved(db, u) && !Dropped(u, actions)
  {
    var begun := Apply(db, Begin(t, true));
    StepKeeps(db, Begin(t, true));
    if u :| Unresolved(db, u) {
      assert forall v | Unresolved(db, v) :: v == u;
      ConflictsUntilDropped(begun, t, u, actions);
    } else {
      assert forall u | u in begun.txs && u != t && Writes(begun.txs[u]) :: Unresolved(db, u);
      AloneStays(begun, t, actions);
    }
  }

  /** Without the lock an append can fail: two transactions begin, the first commits, and the
      second is aborted when it appends. */
  lemma ConflictWithoutLock(e: Event)
    ensures var db := After(EMPTY, [Begin(1, false), Begin(2, false), Append(1, e), SendCommit(1), ServerCommit(1)]);
            2 in db.txs && Conflict(db, 2) && 2 !in Apply(db, Append(2, e)).txs
  {
    var a := [Begin(1, false), Begin(2, false), Append(1, e), SendCommit(1), ServerCommit(1)];
    var d1 := Apply(EMPTY, a[0]);
    var d2 := Apply(d1, a[1]);
    var d3 := Apply(d2, a[2]);
    var d4 := Apply(d3, a[3]);
    var d5 := Apply(d4, a[4]);
    assert a[1..][1..] == a[2..] && a[2..][1..] == a[3..] && a[3..][1..] == a[4..] && a[4..][1..] == [];
    assert !Conflict(d2, 1);
    assert Written(map[], 0, [e]) == map[1 := e];
    assert After(EMPTY, a) == After(d1, a[1..]) == After(d2, a[2..]) == After(d3, a[3..]) == After(d4, a[4..]) == d5;
  }
}
