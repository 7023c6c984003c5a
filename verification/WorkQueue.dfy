/** The leased work queue: claims, renewals, completions and failures of workers that may stop
    at any point. A call reads its clock first and updates the store later, so an action carries
    the time that was read, in any order with the times of other actions. */
module WorkQueue {
  import opened Common

  const MAX_WORK_ATTEMPTS: nat := 5
  const MAX_WORK_RETRY_DELAY_SECONDS: nat := 60

  type WorkId = nat
  type Nonce = nat
  type Handler = nat
  /** Milliseconds; the shared clock format orders timestamps like integers. */
  type Time = int

  datatype Item = Item(handler: Handler, notBefore: Time, attempts: nat, dead: bool, createdAt: Time,
                       nonce: Option<Nonce>, expires: Option<Time>)

  datatype Disposition = Retry | DeadLetter

  /** One claim ever issued, and one use of a claim that was accepted. */
  datatype Claim = Claim(id: WorkId, attempt: nat, time: Time)
  datatype Accept = Accept(id: WorkId, nonce: Nonce, time: Time)
  /** What the first half of `fail_work` read. */
  datatype Seen = Seen(id: WorkId, nonce: Nonce, attempts: nat)

  /** `items` is the stored collection; the rest is history. */
  datatype Queue = Queue(items: map<WorkId, Item>, ids: set<WorkId>, issued: map<Nonce, Claim>,
                         accepts: set<Accept>, seen: set<Seen>)

  const EMPTY: Queue := Queue(map[], {}, map[], {}, {})

  datatype Action =
    | Enqueue(now: Time, id: WorkId, handler: Handler)
    | Sweep(now: Time)
    | ClaimNext(now: Time, handler: Handler, ttl: int, nonce: Nonce, pick: Option<WorkId>)
    | Complete(now: Time, id: WorkId, nonce: Nonce)
    | Renew(now: Time, id: WorkId, nonce: Nonce, ttl: int)
    | FailRead(id: WorkId, nonce: Nonce)
    | FailUpdate(now: Time, id: WorkId, nonce: Nonce, disposition: Disposition, attempts: nat, notBefore: Time)
    | Use(now: Time, id: WorkId, nonce: Nonce)

  // ---- What one action does ----

  predicate Holds(q: Queue, id: WorkId, nonce: Nonce) {
    id in q.items && q.items[id].nonce == Some(nonce)
  }

  predicate Accepted(q: Queue, id: WorkId, nonce: Nonce, now: Time) {
    Holds(q, id, nonce) && q.items[id].expires.Some? && q.items[id].expires.value >= now
  }

  predicate Owned(q: Queue, id: WorkId, nonce: Nonce, now: Time) {
    Accepted(q, id, nonce, now) && !q.items[id].dead
  }

  predicate Abandoned(i: Item, now: Time) {
    !i.dead && i.attempts >= MAX_WORK_ATTEMPTS && i.expires.Some? && i.expires.value < now
  }

  function Swept(items: map<WorkId, Item>, now: Time): map<WorkId, Item> {
    map w | w in items :: if Abandoned(items[w], now) then items[w].(dead := true) else items[w]
  }

  predicate Claimable(i: Item, handler: Handler, now: Time) {
    && i.handler == handler && !i.dead && i.attempts < MAX_WORK_ATTEMPTS && i.notBefore <= now
    && (i.expires.None? || i.expires.value < now)
  }

  /** The oldest claimable item, if there is one. */
  ghost predicate IsPick(items: map<WorkId, Item>, handler: Handler, now: Time, pick: Option<WorkId>) {
    match pick
    case None => forall w | w in items :: !Claimable(items[w], handler, now)
    case Some(id) =>
      && id in items && Claimable(items[id], handler, now)
      && forall w | w in items && Claimable(items[w], handler, now) :: items[id].createdAt <= items[w].createdAt
  }

  predicate Exhausted(disposition: Disposition, attempts: nat) {
    disposition == DeadLetter || attempts >= MAX_WORK_ATTEMPTS
  }

  /** Seconds until a failed item may be claimed again. */
  function RetryDelay(disposition: Disposition, attempts: nat, jitterSource: nat): nat {
    if Exhausted(disposition, attempts) then 0
    else
      var base := Min(Pow2(Min(Minus(attempts, 1), 6)), MAX_WORK_RETRY_DELAY_SECONDS);
      Min(base + jitterSource % (base / 4 + 1), MAX_WORK_RETRY_DELAY_SECONDS)
  }

  /** A retry waits 1, 1, 2, 4 or 8 seconds by the attempts made, and up to a quarter more, as the jitter has it:
      any number of whole seconds in that range. */
  lemma RetryIsLater(disposition: Disposition, attempts: nat, jitterSource: nat)
    requires !Exhausted(disposition, attempts)
    ensures 1 <= RetryDelay(disposition, attempts, jitterSource) <= MAX_WORK_RETRY_DELAY_SECONDS
    ensures attempts < 5
    ensures var base := [1, 1, 2, 4, 8][attempts];
            && RetryDelay(disposition, attempts, jitterSource) == base + jitterSource % (base / 4 + 1)
            && base <= RetryDelay(disposition, attempts, jitterSource) <= base + base / 4
  {
    assert Pow2(0) == 1 && Pow2(1) == 2 && Pow2(2) == 4 && Pow2(3) == 8;
  }

  function RenewedUntil(now: Time, ttl: int): Time {
    now + 1000 * (if ttl < 1 then 1 else ttl)
  }

  function Noted(q: Queue, id: WorkId, nonce: Nonce, now: Time): Queue {
    q.(accepts := q.accepts + {Accept(id, nonce, now)})
  }

  /** Item `id` handed to a new claim. */
  function Leased(q: Queue, id: WorkId, nonce: Nonce, now: Time, ttl: int): Queue
    requires id in q.items
  {
    var i := q.items[id];
    q.(items := q.items[id := i.(nonce := Some(nonce), expires := Some(now + 1000 * ttl), attempts := i.attempts + 1)],
       issued := q.issued[nonce := Claim(id, i.attempts + 1, now)])
  }

  function Failed(i: Item, disposition: Disposition, attempts: nat, notBefore: Time): Item {
    i.(notBefore := notBefore, dead := Exhausted(disposition, attempts), nonce := None, expires := None)
  }

  /** The state after an action; an action whose claim is not accepted changes nothing. */
  function Apply(q: Queue, a: Action): Queue
    requires a.ClaimNext? && a.pick.Some? ==> a.pick.value in q.items
  {
    match a
    case Enqueue(now, id, handler) =>
      q.(items := q.items[id := Item(handler, now, 0, false, now, None, None)], ids := q.ids + {id})
    case Sweep(now) => q.(items := Swept(q.items, now))
    case ClaimNext(now, handler, ttl, nonce, pick) => if pick.None? then q else Leased(q, pick.value, nonce, now, ttl)
    case Complete(now, id, nonce) =>
      if Accepted(q, id, nonce, now) then Noted(q.(items := q.items - {id}), id, nonce, now) else q
    case Renew(now, id, nonce, ttl) =>
      if Owned(q, id, nonce, now) then
        Noted(q.(items := q.items[id := q.items[id].(expires := Some(RenewedUntil(now, ttl)))]), id, nonce, now)
      else q
    case FailRead(id, nonce) =>
      if Holds(q, id, nonce) then q.(seen := q.seen + {Seen(id, nonce, q.items[id].attempts)}) else q
    case FailUpdate(now, id, nonce, disposition, attempts, notBefore) =>
      if Accepted(q, id, nonce, now) then
        Noted(q.(items := q.items[id := Failed(q.items[id], disposition, attempts, notBefore)]), id, nonce, now)
      else q
    case Use(now, id, nonce) =>
      if Owned(q, id, nonce, now) then Noted(q, id, nonce, now) else q
  }

  /** What the environment guarantees: identifiers and nonces are fresh, the store picks the oldest
      claimable item, and a failure update follows a read of the same item. */
  ghost predicate Enabled(q: Queue, a: Action) {
    match a
    case Enqueue(_, id, _) => id !in q.ids
    case ClaimNext(now, handler, _, nonce, pick) => nonce !in q.issued && IsPick(q.items, handler, now, pick)
    case FailUpdate(_, id, nonce, _, attempts, _) => Seen(id, nonce, attempts) in q.seen
    case _ => true
  }

  ghost predicate Legal(q: Queue, actions: seq<Action>)
    decreases |actions|
  {
    |actions| > 0 ==> Enabled(q, actions[0]) && Legal(Apply(q, actions[0]), actions[1..])
  }

  function After(q: Queue, actions: seq<Action>): Queue
    requires Legal(q, actions)
    decreases |actions|
  {
    if |actions| == 0 then q else After(Apply(q, actions[0]), actions[1..])
  }

  // ---- The invariant ----

  ghost function ClaimsOf(q: Queue, id: WorkId): set<Nonce> {
    set n | n in q.issued && q.issued[n].id == id
  }

  ghost predicate ItemOk(q: Queue, w: WorkId)
    requires w in q.items
  {
    var i := q.items[w];
    && w in q.ids && i.attempts == |ClaimsOf(q, w)| <= MAX_WORK_ATTEMPTS
    && (i.nonce.Some? <==> i.expires.Some?)
    && (i.nonce.Some? ==> i.nonce.value in q.issued && q.issued[i.nonce.value].id == w
                          && q.issued[i.nonce.value].attempt == i.attempts)
    && (i.dead && i.nonce.Some? ==> i.attempts >= MAX_WORK_ATTEMPTS)
  }

  ghost predicate ClaimOk(q: Queue, n: Nonce)
    requires n in q.issued
  {
    var c := q.issued[n];
    && c.id in q.ids && (c.id in q.items ==> c.attempt <= q.items[c.id].attempts)
    && forall m | m in q.issued && q.issued[m].id == c.id && q.issued[m].attempt == c.attempt :: m == n
  }

  ghost predicate AcceptOk(q: Queue, a: Accept) {
    a.nonce in q.issued && q.issued[a.nonce].id == a.id
  }

  ghost predicate SeenOk(q: Queue, s: Seen) {
    s.nonce in q.issued && q.issued[s.nonce].id == s.id && q.issued[s.nonce].attempt == s.attempts
  }

  ghost predicate Valid(q: Queue) {
    && (forall w | w in q.items :: ItemOk(q, w))
    && (forall n | n in q.issued :: ClaimOk(q, n))
    && (forall a | a in q.accepts :: AcceptOk(q, a))
    && (forall s | s in q.seen :: SeenOk(q, s))
    && (forall w :: |ClaimsOf(q, w)| <= MAX_WORK_ATTEMPTS)
  }

  // ---- Every action keeps it ----

  lemma SameClaims(q: Queue, r: Queue)
    requires q.issued == r.issued
    ensures forall w :: ClaimsOf(q, w) == ClaimsOf(r, w)
  {
    forall w
      ensures ClaimsOf(q, w) == ClaimsOf(r, w)
    {
      assert forall n :: n in ClaimsOf(q, w) <==> n in ClaimsOf(r, w);
    }
  }

  /** Recording an accepted use of the current claim. */
  lemma NoteKeeps(q: Queue, id: WorkId, nonce: Nonce, now: Time)
    requires Valid(q) && Accepted(q, id, nonce, now)
    ensures Valid(Noted(q, id, nonce, now))
  {
    var r := Noted(q, id, nonce, now);
    SameClaims(q, r);
    assert forall w | w in r.items :: ItemOk(q, w);
    assert forall n | n in r.issued :: ClaimOk(q, n);
    assert forall s | s in r.seen :: SeenOk(q, s);
    assert forall a | a in q.accepts :: AcceptOk(q, a);
  }

  lemma EnqueueKeeps(q: Queue, now: Time, id: WorkId, handler: Handler)
    requires Valid(q) && id !in q.ids
    ensures Valid(Apply(q, Enqueue(now, id, handler)))
  {
    var r := Apply(q, Enqueue(now, id, handler));
    SameClaims(q, r);
    assert ClaimsOf(q, id) == {} by {
      assert forall n | n in q.issued :: ClaimOk(q, n);
    }
    assert forall w | w in r.items && w != id :: ItemOk(q, w);
    assert forall n | n in r.issued :: ClaimOk(q, n);
    assert forall a | a in r.accepts :: AcceptOk(q, a);
    assert forall s | s in r.seen :: SeenOk(q, s);
  }

  /** How an item may change without a new claim: its attempts stay, its nonce stays or goes, and
      it is dead-lettered with its nonce only once the attempts are used up. */
  predicate Follows(i: Item, j: Item) {
    && j.attempts == i.attempts && (j.nonce == i.nonce || j.nonce == None) && (j.nonce.Some? <==> j.expires.Some?)
    && (j.dead && j.nonce.Some? ==> j.attempts >= MAX_WORK_ATTEMPTS)
  }

  lemma ItemsKeep(q: Queue, items: map<WorkId, Item>)
    requires Valid(q) && forall w | w in items :: w in q.items && Follows(q.items[w], items[w])
    ensures Valid(q.(items := items))
  {
    var r := q.(items := items);
    SameClaims(q, r);
    assert forall w | w in r.items :: ItemOk(q, w);
    assert forall n | n in r.issued :: ClaimOk(q, n);
    assert forall a | a in r.accepts :: AcceptOk(q, a);
    assert forall s | s in r.seen :: SeenOk(q, s);
  }

  lemma SweepKeeps(q: Queue, now: Time)
    requires Valid(q)
    ensures Valid(Apply(q, Sweep(now)))
  {
    assert forall w | w in q.items :: ItemOk(q, w);
    ItemsKeep(q, Swept(q.items, now));
  }

  lemma CompleteKeeps(q: Queue, now: Time, id: WorkId, nonce: Nonce)
    requires Valid(q) && Accepted(q, id, nonce, now)
    ensures Valid(Apply(q, Complete(now, id, nonce)))
  {
    NoteKeeps(q, id, nonce, now);
    var t := Noted(q, id, nonce, now);
    assert forall w | w in t.items :: ItemOk(t, w);
    ItemsKeep(t, t.items - {id});
    assert Apply(q, Complete(now, id, nonce)) == t.(items := t.items - {id});
  }

  lemma ItemKeeps(q: Queue, id: WorkId, item: Item)
    requires Valid(q) && id in q.items && Follows(q.items[id], item)
    ensures Valid(q.(items := q.items[id := item]))
  {
    assert forall w | w in q.items :: ItemOk(q, w);
    ItemsKeep(q, q.items[id := item]);
  }

  lemma RenewKeeps(q: Queue, now: Time, id: WorkId, nonce: Nonce, ttl: int)
    requires Valid(q) && Owned(q, id, nonce, now)
    ensures Valid(Apply(q, Renew(now, id, nonce, ttl)))
  {
    NoteKeeps(q, id, nonce, now);
    var t, item := Noted(q, id, nonce, now), q.items[id].(expires := Some(RenewedUntil(now, ttl)));
    ItemKeeps(t, id, item);
    assert Apply(q, Renew(now, id, nonce, ttl)) == t.(items := t.items[id := item]);
  }

  lemma FailKeeps(q: Queue, a: Action)
    requires Valid(q) && a.FailUpdate? && Accepted(q, a.id, a.nonce, a.now)
    ensures Valid(Apply(q, a))
  {
    NoteKeeps(q, a.id, a.nonce, a.now);
    var t, item := Noted(q, a.id, a.nonce, a.now), Failed(q.items[a.id], a.disposition, a.attempts, a.notBefore);
    ItemKeeps(t, a.id, item);
    assert Apply(q, a) == t.(items := t.items[a.id := item]);
  }

  lemma FailReadKeeps(q: Queue, id: WorkId, nonce: Nonce)
    requires Valid(q) && Holds(q, id, nonce)
    ensures Valid(Apply(q, FailRead(id, nonce)))
  {
    var r := Apply(q, FailRead(id, nonce));
    SameClaims(q, r);
    assert forall w | w in r.items :: ItemOk(q, w);
    assert forall n | n in r.issued :: ClaimOk(q, n);
    assert forall a | a in r.accepts :: AcceptOk(q, a);
    assert forall s | s in q.seen :: SeenOk(q, s);
  }

  lemma ClaimAdds(q: Queue, nonce: Nonce, c: Claim)
    requires nonce !in q.issued
    ensures forall w :: |ClaimsOf(q.(issued := q.issued[nonce := c]), w)| == |ClaimsOf(q, w)| + (if w == c.id then 1 else 0)
  {
    var r := q.(issued := q.issued[nonce := c]);
    forall w
      ensures |ClaimsOf(r, w)| == |ClaimsOf(q, w)| + (if w == c.id then 1 else 0)
    {
      if w == c.id {
        assert ClaimsOf(r, w) == ClaimsOf(q, w) + {nonce};
      } else {
        assert ClaimsOf(r, w) == ClaimsOf(q, w);
      }
    }
  }

  ghost predicate CanLease(q: Queue, handler: Handler, id: WorkId, nonce: Nonce, now: Time) {
    Valid(q) && nonce !in q.issued && id in q.items && Claimable(q.items[id], handler, now)
  }

  lemma LeaseKeepsItems(q: Queue, handler: Handler, id: WorkId, nonce: Nonce, now: Time, ttl: int)
    requires CanLease(q, handler, id, nonce, now)
    ensures var r := Leased(q, id, nonce, now, ttl);
            (forall w | w in r.items :: ItemOk(r, w)) && (forall w :: |ClaimsOf(r, w)| <= MAX_WORK_ATTEMPTS)
  {
    var c, r := Claim(id, q.items[id].attempts + 1, now), Leased(q, id, nonce, now, ttl);
    var s := q.(issued := q.issued[nonce := c]);
    ClaimAdds(q, nonce, c);
    SameClaims(s, r);
    assert ItemOk(q, id);
    forall w | w in r.items
      ensures ItemOk(r, w)
    {
      assert ItemOk(q, w);
      assert |ClaimsOf(s, w)| == |ClaimsOf(q, w)| + (if w == c.id then 1 else 0);
    }
    forall w
      ensures |ClaimsOf(r, w)| <= MAX_WORK_ATTEMPTS
    {
      assert |ClaimsOf(s, w)| == |ClaimsOf(q, w)| + (if w == c.id then 1 else 0);
    }
  }

  lemma LeaseKeepsClaim(q: Queue, handler: Handler, id: WorkId, nonce: Nonce, now: Time, ttl: int, n: Nonce)
    requires CanLease(q, handler, id, nonce, now) && n in Leased(q, id, nonce, now, ttl).issued
    ensures ClaimOk(Leased(q, id, nonce, now, ttl), n)
  {
    assert ItemOk(q, id);
    assert forall m | m in q.issued :: ClaimOk(q, m);
  }

  lemma LeaseKeeps(q: Queue, handler: Handler, id: WorkId, nonce: Nonce, now: Time, ttl: int)
    requires CanLease(q, handler, id, nonce, now)
    ensures Valid(Leased(q, id, nonce, now, ttl))
  {
    var r := Leased(q, id, nonce, now, ttl);
    LeaseKeepsItems(q, handler, id, nonce, now, ttl);
    forall n | n in r.issued
      ensures ClaimOk(r, n)
    {
      LeaseKeepsClaim(q, handler, id, nonce, now, ttl, n);
    }
    assert forall a | a in r.accepts :: AcceptOk(q, a);
    assert forall s | s in r.seen :: SeenOk(q, s);
  }

  lemma StepKeeps(q: Queue, a: Action)
    requires Valid(q) && Enabled(q, a)
    ensures Valid(Apply(q, a))
  {
    match a
    case Enqueue(now, id, handler) => EnqueueKeeps(q, now, id, handler);
    case Sweep(now) => SweepKeeps(q, now);
    case ClaimNext(now, handler, ttl, nonce, pick) => if pick.Some? { LeaseKeeps(q, handler, pick.value, nonce, now, ttl); }
    case Complete(now, id, nonce) => if Accepted(q, id, nonce, now) { CompleteKeeps(q, now, id, nonce); }
    case Renew(now, id, nonce, ttl) => if Owned(q, id, nonce, now) { RenewKeeps(q, now, id, nonce, ttl); }
    case FailRead(id, nonce) => if Holds(q, id, nonce) { FailReadKeeps(q, id, nonce); }
    case FailUpdate(now, id, nonce, _, _, _) => if Accepted(q, id, nonce, now) { FailKeeps(q, a); }
    case Use(now, id, nonce) => if Owned(q, id, nonce, now) { NoteKeeps(q, id, nonce, now); }
  }

  /** Claims and accepted uses are never taken back. */
  ghost predicate Extends(q: Queue, r: Queue) {
    && (forall n | n in q.issued :: n in r.issued && r.issued[n] == q.issued[n])
    && q.accepts <= r.accepts && q.ids <= r.ids && q.seen <= r.seen
  }

  /** Over whole runs the invariant holds and the history only grows. */
  lemma {:induction false} RunKeeps(q: Queue, actions: seq<Action>)
    requires Valid(q) && Legal(q, actions)
    ensures Valid(After(q, actions)) && Extends(q, After(q, actions))
    decreases |actions|
  {
    if |actions| > 0 {
      StepKeeps(q, actions[0]);
      assert Extends(q, Apply(q, actions[0]));
      RunKeeps(Apply(q, actions[0]), actions[1..]);
    }
  }

  // ---- What holds over whole runs ----

  lemma EmptyIsValid()
    ensures Valid(EMPTY)
  {
    assert forall w :: ClaimsOf(EMPTY, w) == {};
  }

  /** In every reachable state an item's attempts are the claims issued for it, and no item is
      ever handed out more than five times, even after it left the queue. */
  lemma AttemptsAreClaims(actions: seq<Action>, w: WorkId)
    requires Legal(EMPTY, actions)
    ensures |ClaimsOf(After(EMPTY, actions), w)| <= MAX_WORK_ATTEMPTS
    ensures w in After(EMPTY, actions).items ==>
              After(EMPTY, actions).items[w].attempts == |ClaimsOf(After(EMPTY, actions), w)|
  {
    EmptyIsValid();
    RunKeeps(EMPTY, actions);
    var q := After(EMPTY, actions);
    assert w in q.items ==> ItemOk(q, w);
  }

  /** Action `a` presents claim `nonce` of item `id`. */
  predicate Presents(a: Action, id: WorkId, nonce: Nonce) {
    match a
    case Complete(_, i, n) => i == id && n == nonce
    case Renew(_, i, n, _) => i == id && n == nonce
    case FailRead(i, n) => i == id && n == nonce
    case FailUpdate(_, i, n, _, _, _) => i == id && n == nonce
    case Use(_, i, n) => i == id && n == nonce
    case _ => false
  }

  /** Once an item has been claimed again, an earlier nonce is rejected forever: whatever happens
      next and whatever the clock reads, presenting it changes nothing. */
  lemma FencedForever(q: Queue, early: Nonce, late: Nonce, actions: seq<Action>, a: Action)
    requires Valid(q) && early in q.issued && late in q.issued && q.issued[early].id == q.issued[late].id
    requires q.issued[early].attempt < q.issued[late].attempt
    requires Legal(q, actions) && Presents(a, q.issued[early].id, early)
    ensures Apply(After(q, actions), a) == After(q, actions)
  {
    RunKeeps(q, actions);
    var r, id := After(q, actions), q.issued[early].id;
    assert ClaimOk(r, late) && ClaimOk(r, early);
    if id in r.items {
      assert ItemOk(r, id);
    }
    assert !Holds(r, id, early);
  }

  // ---- Dead-lettered items ----

  ghost predicate DeadIn(q: Queue, w: WorkId) {
    w in q.items && q.items[w].dead
  }

  /** A worker that read its clock before its claim ran out reports on an item that was swept in
      the meantime: neither completing nor failing asks whether the item is dead. */
  predicate ReportsLate(i: Item, w: WorkId, a: Action) {
    && (a.Complete? || a.FailUpdate?) && a.id == w
    && i.nonce == Some(a.nonce) && i.expires.Some? && i.expires.value >= a.now
  }

  /** Neither leased nor to be leased again: the item is gone, or dead without a claim. */
  ghost predicate Settled(q: Queue, w: WorkId) {
    w in q.ids && (w in q.items ==> q.items[w].dead && q.items[w].nonce.None?)
  }

  lemma DeadStep(q: Queue, a: Action, w: WorkId)
    requires Valid(q) && Enabled(q, a) && DeadIn(q, w)
    ensures !ReportsLate(q.items[w], w, a) ==> DeadIn(Apply(q, a), w) && Apply(q, a).items[w] == q.items[w]
    ensures ReportsLate(q.items[w], w, a) ==> Settled(Apply(q, a), w)
    ensures ClaimsOf(Apply(q, a), w) == ClaimsOf(q, w)
  {
    assert ItemOk(q, w);
    if a.FailUpdate? {
      assert SeenOk(q, Seen(a.id, a.nonce, a.attempts));
    }
    if a.ClaimNext? && a.pick.Some? {
      ClaimAdds(q, a.nonce, Claim(a.pick.value, q.items[a.pick.value].attempts + 1, a.now));
    }
    assert forall n :: n in ClaimsOf(Apply(q, a), w) <==> n in ClaimsOf(q, w);
  }

  lemma SettledStep(q: Queue, a: Action, w: WorkId)
    requires Valid(q) && Enabled(q, a) && Settled(q, w)
    ensures Settled(Apply(q, a), w) && ClaimsOf(Apply(q, a), w) == ClaimsOf(q, w)
  {
    if w in q.items {
      assert ItemOk(q, w);
    }
    assert forall n :: n in ClaimsOf(Apply(q, a), w) <==> n in ClaimsOf(q, w);
  }

  lemma {:induction false} SettledForever(q: Queue, actions: seq<Action>, w: WorkId)
    requires Valid(q) && Legal(q, actions) && Settled(q, w)
    ensures Settled(After(q, actions), w) && ClaimsOf(After(q, actions), w) == ClaimsOf(q, w)
    decreases |actions|
  {
    if |actions| > 0 {
      SettledStep(q, actions[0], w);
      StepKeeps(q, actions[0]);
      SettledForever(Apply(q, actions[0]), actions[1..], w);
    }
  }

  ghost predicate NoLateReport(i: Item, w: WorkId, actions: seq<Action>) {
    forall k | 0 <= k < |actions| :: !ReportsLate(i, w, actions[k])
  }

  lemma NoLateReportStep(i: Item, w: WorkId, actions: seq<Action>)
    requires |actions| > 0
    ensures NoLateReport(i, w, actions) <==> !ReportsLate(i, w, actions[0]) && NoLateReport(i, w, actions[1..])
  {
    assert forall k | 0 < k < |actions| :: actions[k] == actions[1..][k - 1];
    if NoLateReport(i, w, actions) {
      assert forall k | 0 <= k < |actions[1..]| :: actions[1..][k] == actions[k + 1];
    }
  }

  /** A dead-lettered item is never leased and never becomes live again, and it stays exactly as it
      is if and only if nobody reports on its last claim with a clock reading from before the
      claim ran out. */
  lemma {:induction false} DeadForever(q: Queue, actions: seq<Action>, w: WorkId)
    requires Valid(q) && Legal(q, actions) && DeadIn(q, w)
    ensures var r := After(q, actions);
            && (w in r.items ==> r.items[w].dead) && ClaimsOf(r, w) == ClaimsOf(q, w)
            && (w in r.items && r.items[w] == q.items[w] <==> NoLateReport(q.items[w], w, actions))
    decreases |actions|
  {
    if |actions| > 0 {
      DeadStep(q, actions[0], w);
      StepKeeps(q, actions[0]);
      NoLateReportStep(q.items[w], w, actions);
      if ReportsLate(q.items[w], w, actions[0]) {
        SettledForever(Apply(q, actions[0]), actions[1..], w);
      } else {
        DeadForever(Apply(q, actions[0]), actions[1..], w);
      }
    }
  }

  /** The only item, claimed for the `k`th time at 10 * k, each claim running out at once. */
  function ClaimedAgain(q: Queue, w: WorkId, k: nat): Queue
    requires w in q.items
  {
    Leased(q, w, k, 10 * k, 0)
  }

  lemma ClaimAgain(q: Queue, w: WorkId, k: nat)
    requires 1 <= k <= MAX_WORK_ATTEMPTS && k !in q.issued
    requires q.items == map[w := Item(0, 0, k - 1, false, 0, if k == 1 then None else Some(k - 1),
             if k == 1 then None else Some(10 * (k - 1)))]
    ensures Legal(q, [ClaimNext(10 * k, 0, 0, k, Some(w))])
            && After(q, [ClaimNext(10 * k, 0, 0, k, Some(w))]) == ClaimedAgain(q, w, k)
    ensures ClaimedAgain(q, w, k).items == map[w := Item(0, 0, k, false, 0, Some(k), Some(10 * k))]
    ensures ClaimedAgain(q, w, k).issued.Keys == q.issued.Keys + {k}
  {
    var a := ClaimNext(10 * k, 0, 0, k, Some(w));
    assert [a][1..] == [] && Claimable(q.items[w], 0, 10 * k);
    assert Enabled(q, a);
  }

  lemma {:induction false} LegalConcat(q: Queue, one: seq<Action>, other: seq<Action>)
    requires Legal(q, one) && Legal(After(q, one), other)
    ensures Legal(q, one + other) && After(q, one + other) == After(After(q, one), other)
    decreases |one|
  {
    if |one| == 0 {
      assert one + other == other;
    } else {
      assert (one + other)[1..] == one[1..] + other;
      LegalConcat(Apply(q, one[0]), one[1..], other);
    }
  }

  /** An item that was claimed `n` times, by a run from the empty queue. */
  lemma {:induction false} ClaimedTimes(w: WorkId, n: nat) returns (actions: seq<Action>)
    requires n <= MAX_WORK_ATTEMPTS
    ensures Legal(EMPTY, actions)
    ensures After(EMPTY, actions).items == map[w := Item(0, 0, n, false, 0, if n == 0 then None else Some(n),
            if n == 0 then None else Some(10 * n))]
    ensures forall k | k in After(EMPTY, actions).issued :: k <= n
    decreases n
  {
    if n == 0 {
      actions := [Enqueue(0, w, 0)];
      assert actions[1..] == [];
    } else {
      var before := ClaimedTimes(w, n - 1);
      ClaimAgain(After(EMPTY, before), w, n);
      LegalConcat(EMPTY, before, [ClaimNext(10 * n, 0, 0, n, Some(w))]);
      actions := before + [ClaimNext(10 * n, 0, 0, n, Some(w))];
    }
  }

  /** Such a report: the fifth claim runs out at 50, the sweep at 60 dead-letters the item, and a
      completion whose clock read 49 removes it. */
  lemma LateReportRemoves(w: WorkId) returns (actions: seq<Action>)
    ensures Legal(EMPTY, actions) && DeadIn(After(EMPTY, actions), w)
    ensures w !in Apply(After(EMPTY, actions), Complete(49, w, MAX_WORK_ATTEMPTS)).items
  {
    var claimed := ClaimedTimes(w, MAX_WORK_ATTEMPTS);
    var q := After(EMPTY, claimed);
    assert Abandoned(q.items[w], 60);
    assert [Sweep(60)][1..] == [];
    LegalConcat(EMPTY, claimed, [Sweep(60)]);
    actions := claimed + [Sweep(60)];
  }

  // ---- Leases do not overlap ----

  /** Action `a` leases item `w` or is an accepted use of its claim. */
  predicate Touches(q: Queue, a: Action, w: WorkId) {
    match a
    case ClaimNext(_, _, _, _, pick) => pick == Some(w)
    case Complete(now, id, nonce) => id == w && Accepted(q, id, nonce, now)
    case Renew(now, id, nonce, _) => id == w && Owned(q, id, nonce, now)
    case FailUpdate(now, id, nonce, _, _, _) => id == w && Accepted(q, id, nonce, now)
    case Use(now, id, nonce) => id == w && Owned(q, id, nonce, now)
    case _ => false
  }

  /** No accepted use of this claim has read a time after `until`. */
  ghost predicate UsedBy(q: Queue, nonce: Nonce, until: Time) {
    forall x | x in q.accepts && x.nonce == nonce :: x.time <= until
  }

  /** What a worker must not do with its claim: read its clock before it got the claim, renew it to
      end before a time at which it already used it, or release it for a time before that. In which
      order its calls read their clocks does not matter. */
  ghost predicate Careful(q: Queue, a: Action) {
    match a
    case Complete(now, _, nonce) => nonce in q.issued && q.issued[nonce].time <= now
    case Use(now, _, nonce) => nonce in q.issued && q.issued[nonce].time <= now
    case Renew(now, _, nonce, ttl) =>
      nonce in q.issued && q.issued[nonce].time <= now && UsedBy(q, nonce, RenewedUntil(now, ttl))
    case FailUpdate(now, _, nonce, disposition, attempts, notBefore) =>
      && nonce in q.issued && q.issued[nonce].time <= now
      && (!Exhausted(disposition, attempts) ==> now < notBefore && UsedBy(q, nonce, notBefore - 1))
    case _ => true
  }

  /** A claim does not read its clock before the claim that it replaces did. */
  predicate AfterLast(q: Queue, a: Action, w: WorkId) {
    a.ClaimNext? && a.pick == Some(w) && w in q.items && q.items[w].nonce.Some? ==>
      q.items[w].nonce.value in q.issued && q.issued[q.items[w].nonce.value].time <= a.now
  }

  ghost predicate Prudent(q: Queue, w: WorkId, actions: seq<Action>)
    requires Legal(q, actions)
    decreases |actions|
  {
    |actions| > 0 ==>
      && (Touches(q, actions[0], w) ==> Careful(q, actions[0])) && AfterLast(q, actions[0], w)
      && Prudent(Apply(q, actions[0]), w, actions[1..])
  }

  /** What still keeps another worker away until after `a`. */
  predicate Bounds(i: Item, a: Accept) {
    && (i.nonce == Some(a.nonce) && i.expires.Some? ==> a.time <= i.expires.value)
    && (i.nonce.None? && !i.dead ==> a.time < i.notBefore)
  }

  ghost predicate UseOk(q: Queue, a: Accept) {
    && a.nonce in q.issued && q.issued[a.nonce].time <= a.time
    && (forall m | m in q.issued && q.issued[m].id == a.id && q.issued[m].attempt > q.issued[a.nonce].attempt ::
          a.time < q.issued[m].time)
    && (a.id in q.items ==> Bounds(q.items[a.id], a))
  }

  /** The uses of the claims of item `w` lie apart. */
  ghost predicate Apart(q: Queue, w: WorkId) {
    forall a | a in q.accepts && a.id == w :: UseOk(q, a)
  }

  lemma UntouchedUse(q: Queue, a: Action, w: WorkId, x: Accept)
    requires Valid(q) && Enabled(q, a) && !Touches(q, a, w) && x in q.accepts && x.id == w && UseOk(q, x)
    ensures UseOk(Apply(q, a), x)
  {
    assert AcceptOk(q, x);
    if a.Enqueue? {
      assert forall n | n in q.issued :: ClaimOk(q, n);
    }
    if w in q.items {
      assert ItemOk(q, w);
    }
  }

  lemma UntouchedAccepts(q: Queue, a: Action, w: WorkId, x: Accept)
    requires Enabled(q, a) && !Touches(q, a, w) && x in Apply(q, a).accepts && x.id == w
    ensures x in q.accepts
  {
  }

  lemma UntouchedStaysApart(q: Queue, a: Action, w: WorkId)
    requires Valid(q) && Enabled(q, a) && Apart(q, w) && !Touches(q, a, w)
    ensures Apart(Apply(q, a), w)
  {
    forall x | x in Apply(q, a).accepts && x.id == w
      ensures UseOk(Apply(q, a), x)
    {
      UntouchedAccepts(q, a, w, x);
      UntouchedUse(q, a, w, x);
    }
  }

  /** Whoever used an earlier claim of the item did so before now. */
  lemma LeaseIsLater(q: Queue, handler: Handler, id: WorkId, nonce: Nonce, now: Time, a: Accept)
    requires CanLease(q, handler, id, nonce, now) && Apart(q, id) && a in q.accepts && a.id == id
    requires q.items[id].nonce.Some? ==> q.items[id].nonce.value in q.issued && q.issued[q.items[id].nonce.value].time <= now
    ensures a.time < now
  {
    var i := q.items[id];
    assert UseOk(q, a) && AcceptOk(q, a) && ClaimOk(q, a.nonce) && ItemOk(q, id);
    if i.nonce.Some? && i.nonce.value != a.nonce {
      assert ClaimOk(q, i.nonce.value);
    }
  }

  lemma LeaseStaysApart(q: Queue, handler: Handler, id: WorkId, nonce: Nonce, now: Time, ttl: int)
    requires CanLease(q, handler, id, nonce, now) && Apart(q, id)
    requires q.items[id].nonce.Some? ==> q.items[id].nonce.value in q.issued && q.issued[q.items[id].nonce.value].time <= now
    ensures Apart(Leased(q, id, nonce, now, ttl), id)
  {
    var r := Leased(q, id, nonce, now, ttl);
    forall a | a in r.accepts && a.id == id
      ensures UseOk(r, a)
    {
      assert UseOk(q, a) && AcceptOk(q, a) && ClaimOk(q, a.nonce);
      LeaseIsLater(q, handler, id, nonce, now, a);
    }
  }

  lemma NoteStaysApart(q: Queue, id: WorkId, nonce: Nonce, now: Time)
    requires Valid(q) && Apart(q, id) && Accepted(q, id, nonce, now) && nonce in q.issued && q.issued[nonce].time <= now
    ensures Apart(Noted(q, id, nonce, now), id)
  {
    var r := Noted(q, id, nonce, now);
    assert ItemOk(q, id) && ClaimOk(q, nonce);
    forall a | a in r.accepts && a.id == id
      ensures UseOk(r, a)
    {
      if a in q.accepts {
        assert UseOk(q, a);
      } else {
        assert forall m | m in q.issued && q.issued[m].id == id :: ClaimOk(q, m);
      }
    }
  }

  /** Replacing the item by one that keeps others away as long. */
  lemma ItemStaysApart(q: Queue, r: Queue, w: WorkId)
    requires Apart(q, w) && r.issued == q.issued && r.accepts == q.accepts
    requires forall a | a in q.accepts && a.id == w && w in r.items :: Bounds(r.items[w], a)
    ensures Apart(r, w)
  {
    forall a | a in r.accepts && a.id == w
      ensures UseOk(r, a)
    {
      assert UseOk(q, a);
    }
  }

  /** All accepted uses of an item were of its current claim or lie before it. */
  lemma UsedBefore(q: Queue, w: WorkId, nonce: Nonce, x: Accept)
    requires Valid(q) && Apart(q, w) && Holds(q, w, nonce) && x in q.accepts && x.id == w
    ensures nonce in q.issued && (x.nonce == nonce || x.time < q.issued[nonce].time)
  {
    assert ItemOk(q, w) && UseOk(q, x) && AcceptOk(q, x) && ClaimOk(q, x.nonce) && ClaimOk(q, nonce);
  }

  lemma UseStaysApart(q: Queue, a: Action, w: WorkId)
    requires Valid(q) && Enabled(q, a) && !a.ClaimNext? && Touches(q, a, w) && Careful(q, a) && Apart(q, w)
    ensures Apart(Apply(q, a), w)
  {
    NoteStaysApart(q, w, a.nonce, a.now);
    var t, r := Noted(q, w, a.nonce, a.now), Apply(q, a);
    forall x | x in t.accepts && x.id == w && w in r.items
      ensures Bounds(r.items[w], x)
    {
      assert UseOk(t, x);
      if x in q.accepts {
        UsedBefore(q, w, a.nonce, x);
      }
    }
    ItemStaysApart(t, r, w);
  }

  lemma {:induction false} RunStaysApart(q: Queue, w: WorkId, actions: seq<Action>)
    requires Valid(q) && Legal(q, actions) && Prudent(q, w, actions) && Apart(q, w)
    ensures Apart(After(q, actions), w)
    decreases |actions|
  {
    if |actions| > 0 {
      var a := actions[0];
      StepKeeps(q, a);
      if !Touches(q, a, w) {
        UntouchedStaysApart(q, a, w);
      } else if a.ClaimNext? {
        LeaseStaysApart(q, a.handler, w, a.nonce, a.now, a.ttl);
      } else {
        UseStaysApart(q, a, w);
      }
      RunStaysApart(Apply(q, a), w, actions[1..]);
    }
  }

  /** The times at which two claims of one item are accepted do not overlap, in whatever order the
      calls of one worker read their clocks: every use of the earlier claim lies strictly before the
      later claim and all of its uses. */
  lemma LeasesDisjoint(actions: seq<Action>, w: WorkId, a: Accept, b: Accept)
    requires Legal(EMPTY, actions) && Prudent(EMPTY, w, actions)
    requires a in After(EMPTY, actions).accepts && b in After(EMPTY, actions).accepts && a.id == b.id == w
    ensures var issued := After(EMPTY, actions).issued;
            && a.nonce in issued && b.nonce in issued
            && (issued[a.nonce].attempt < issued[b.nonce].attempt ==> a.time < issued[b.nonce].time <= b.time)
            && (issued[a.nonce].attempt == issued[b.nonce].attempt ==> a.nonce == b.nonce)
  {
    EmptyIsValid();
    RunKeeps(EMPTY, actions);
    RunStaysApart(EMPTY, w, actions);
    var q := After(EMPTY, actions);
    assert UseOk(q, a) && UseOk(q, b) && AcceptOk(q, a) && AcceptOk(q, b);
    assert ClaimOk(q, a.nonce);
  }

  // ---- When the condition holds ----

  /** The current claim of an item does not run out before it was issued. */
  ghost predicate Lasting(q: Queue, w: WorkId) {
    w in q.items && q.items[w].nonce.Some? && q.items[w].expires.Some? ==>
      q.items[w].nonce.value in q.issued && q.issued[q.items[w].nonce.value].time <= q.items[w].expires.value
  }

  /** Every claim of item `w` is given at least no time, and its uses are careful. */
  ghost predicate GivesTime(q: Queue, w: WorkId, actions: seq<Action>)
    requires Legal(q, actions)
    decreases |actions|
  {
    |actions| > 0 ==>
      && (Touches(q, actions[0], w) ==> Careful(q, actions[0]) && (actions[0].ClaimNext? ==> actions[0].ttl >= 0))
      && GivesTime(Apply(q, actions[0]), w, actions[1..])
  }

  lemma LastingStep(q: Queue, a: Action, w: WorkId)
    requires Valid(q) && Enabled(q, a) && Lasting(q, w)
    requires Touches(q, a, w) ==> Careful(q, a) && (a.ClaimNext? ==> a.ttl >= 0)
    ensures Lasting(Apply(q, a), w) && AfterLast(q, a, w)
  {
    if w in q.items {
      assert ItemOk(q, w);
    }
  }

  /** Claims that are given a nonnegative time to live are in order by themselves. */
  lemma {:induction false} GivenTimeIsPrudent(q: Queue, w: WorkId, actions: seq<Action>)
    requires Valid(q) && Legal(q, actions) && GivesTime(q, w, actions) && Lasting(q, w)
    ensures Prudent(q, w, actions)
    decreases |actions|
  {
    if |actions| > 0 {
      LastingStep(q, actions[0], w);
      StepKeeps(q, actions[0]);
      GivenTimeIsPrudent(Apply(q, actions[0]), w, actions[1..]);
    }
  }

  function ReadAt(a: Action): Time {
    if a.FailRead? then 0 else a.now
  }

  /** Those that lease or use item `w` read their clocks in the order in which their updates apply,
      starting at `from`, and a failed item waits its delay from then. */
  ghost predicate InOrder(q: Queue, w: WorkId, from: Time, actions: seq<Action>)
    requires Legal(q, actions)
    decreases |actions|
  {
    |actions| > 0 ==>
      var a := actions[0];
      if Touches(q, a, w) then
        && ReadAt(a) >= from
        && (a.FailUpdate? ==> a.notBefore >= a.now + (if Exhausted(a.disposition, a.attempts) then 0 else 1000))
        && InOrder(Apply(q, a), w, ReadAt(a), actions[1..])
      else InOrder(Apply(q, a), w, from, actions[1..])
  }

  ghost predicate UpTo(q: Queue, w: WorkId, from: Time) {
    && (forall n | n in q.issued && q.issued[n].id == w :: q.issued[n].time <= from)
    && (forall a | a in q.accepts && a.id == w :: a.time <= from)
  }

  lemma OrderedStep(q: Queue, a: Action, w: WorkId, from: Time)
    requires Valid(q) && Enabled(q, a) && UpTo(q, w, from) && Touches(q, a, w) && ReadAt(a) >= from
    requires a.FailUpdate? ==> a.notBefore >= a.now + (if Exhausted(a.disposition, a.attempts) then 0 else 1000)
    ensures Careful(q, a) && AfterLast(q, a, w) && UpTo(Apply(q, a), w, ReadAt(a))
  {
    assert ItemOk(q, w);
    assert forall x | x in q.accepts :: AcceptOk(q, x);
  }

  /** So are the calls of workers whose clock readings are in order altogether. */
  lemma {:induction false} InOrderIsPrudent(q: Queue, w: WorkId, from: Time, actions: seq<Action>)
    requires Valid(q) && Legal(q, actions) && InOrder(q, w, from, actions) && UpTo(q, w, from)
    ensures Prudent(q, w, actions)
    decreases |actions|
  {
    if |actions| > 0 {
      var a := actions[0];
      StepKeeps(q, a);
      if Touches(q, a, w) {
        OrderedStep(q, a, w, from);
        InOrderIsPrudent(Apply(q, a), w, ReadAt(a), actions[1..]);
      } else {
        assert Apply(q, a).accepts == q.accepts || a.id != w;
        InOrderIsPrudent(Apply(q, a), w, from, actions[1..]);
      }
    }
  }

  /** Either way leases do not overlap. */
  lemma OrderedLeasesDisjoint(actions: seq<Action>, w: WorkId, from: Time, a: Accept, b: Accept)
    requires Legal(EMPTY, actions) && (InOrder(EMPTY, w, from, actions) || GivesTime(EMPTY, w, actions))
    requires a in After(EMPTY, actions).accepts && b in After(EMPTY, actions).accepts && a.id == b.id == w
    ensures var issued := After(EMPTY, actions).issued;
            a.nonce in issued && b.nonce in issued && (issued[a.nonce].attempt < issued[b.nonce].attempt ==> a.time < b.time)
  {
    EmptyIsValid();
    if InOrder(EMPTY, w, from, actions) {
      InOrderIsPrudent(EMPTY, w, from, actions);
    } else {
      GivenTimeIsPrudent(EMPTY, w, actions);
    }
    LeasesDisjoint(actions, w, a, b);
  }

  /** What a careful renewal must not do is what can go wrong: one that read its clock early and
      applies late shortens the lease below a use that was already accepted. */
  lemma EarlyRenewalOverlaps(w: WorkId)
    ensures var q1 := Apply(Apply(EMPTY, Enqueue(0, w, 0)), ClaimNext(0, 0, 100, 1, Some(w)));
            var q2 := Apply(Apply(q1, Use(90_000, w, 1)), Renew(50, w, 1, 1));
            var q3 := Apply(Apply(q2, ClaimNext(2_000, 0, 100, 2, Some(w))), Use(2_000, w, 2));
            && Legal(EMPTY, [Enqueue(0, w, 0), ClaimNext(0, 0, 100, 1, Some(w))])
            && Legal(q1, [Use(90_000, w, 1), Renew(50, w, 1, 1)])
            && Legal(q2, [ClaimNext(2_000, 0, 100, 2, Some(w)), Use(2_000, w, 2)])
            && Accept(w, 1, 90_000) in q3.accepts && Accept(w, 2, 2_000) in q3.accepts
            && q3.issued[1].attempt < q3.issued[2].attempt
            && !Careful(Apply(q1, Use(90_000, w, 1)), Renew(50, w, 1, 1))
  {
    assert Accept(w, 1, 90_000) in Apply(Apply(Apply(EMPTY, Enqueue(0, w, 0)), ClaimNext(0, 0, 100, 1, Some(w))),
           Use(90_000, w, 1)).accepts;
  }

  // ---- Failing in two steps ----

  /** Reading the attempts first and updating later is safe: in every reachable state, when the
      update is accepted, what was read is still what the item holds. */
  lemma ReadThenUpdate(actions: seq<Action>, a: Action)
    requires Legal(EMPTY, actions) && a.FailUpdate? && Enabled(After(EMPTY, actions), a)
    requires Accepted(After(EMPTY, actions), a.id, a.nonce, a.now)
    ensures var q := After(EMPTY, actions);
            && a.attempts == q.items[a.id].attempts
            && (Apply(q, a).items[a.id].dead <==> Exhausted(a.disposition, q.items[a.id].attempts))
  {
    EmptyIsValid();
    RunKeeps(EMPTY, actions);
    var q := After(EMPTY, actions);
    assert SeenOk(q, Seen(a.id, a.nonce, a.attempts)) && ItemOk(q, a.id);
  }

  /** `work_will_dead_letter`. */
  predicate WillDeadLetter(q: Queue, id: WorkId, nonce: Nonce, disposition: Disposition, now: Time) {
    Owned(q, id, nonce, now) && Exhausted(disposition, q.items[id].attempts)
  }

  /** Asked for a live claim, the prediction is what a later accepted failure with the same nonce
      and disposition does, whatever happened in between. */
  lemma PredictionAgrees(q: Queue, now: Time, actions: seq<Action>, a: Action)
    requires Valid(q) && Legal(q, actions) && a.FailUpdate? && Owned(q, a.id, a.nonce, now)
    requires Enabled(After(q, actions), a) && Accepted(After(q, actions), a.id, a.nonce, a.now)
    ensures Apply(After(q, actions), a).items[a.id].dead <==> WillDeadLetter(q, a.id, a.nonce, a.disposition, now)
  {
    RunKeeps(q, actions);
    assert SeenOk(After(q, actions), Seen(a.id, a.nonce, a.attempts));
    assert ItemOk(q, a.id) && ItemOk(After(q, actions), a.id);
  }
}
