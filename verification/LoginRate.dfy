/** The sliding window over failed login attempts. An attempt is checked when it starts and recorded
    when it has failed, so several can be under way at once. */
module LoginRate {
  import opened Common

  const WINDOW_SECS: nat := 60
  const MAX_ATTEMPTS: nat := 5
  /** Instants count nanoseconds; `as_secs` drops the fraction. */
  const SECOND: nat := 1_000_000_000

  type Instant = int

  /** Too old to count: strictly more than 60 whole seconds, so at least 61 seconds. */
  predicate Expired(at: Instant, now: Instant) {
    (now - at) / SECOND > WINDOW_SECS
  }

  ghost predicate Ordered(s: seq<Instant>) {
    forall i, j | 0 <= i <= j < |s| :: s[i] <= s[j]
  }

  /** How many of the failures still count at `now`. */
  function Recent(failures: seq<Instant>, now: Instant): nat
    decreases |failures|
  {
    if |failures| == 0 then 0 else (if Expired(failures[0], now) then 0 else 1) + Recent(failures[1..], now)
  }

  lemma {:induction false} AllRecent(failures: seq<Instant>, now: Instant)
    requires Ordered(failures) && (|failures| > 0 ==> !Expired(failures[0], now))
    ensures Recent(failures, now) == |failures|
    decreases |failures|
  {
    if |failures| > 1 {
      assert failures[0] <= failures[1];
      AllRecent(failures[1..], now);
    }
  }

  lemma {:induction false} ExpiredFront(gone: seq<Instant>, rest: seq<Instant>, now: Instant)
    requires forall i | 0 <= i < |gone| :: Expired(gone[i], now)
    ensures Recent(gone + rest, now) == Recent(rest, now)
    decreases |gone|
  {
    if |gone| == 0 {
      assert gone + rest == rest;
    } else {
      assert (gone + rest)[1..] == gone[1..] + rest;
      ExpiredFront(gone[1..], rest, now);
    }
  }

  /** `failures` is what is left of `all` after expired entries were dropped from the front. */
  ghost predicate IsWindow(all: seq<Instant>, failures: seq<Instant>, now: Instant) {
    && |failures| <= |all| && failures == all[|all| - |failures|..]
    && forall i | 0 <= i < |all| - |failures| :: Expired(all[i], now)
  }

  lemma StillExpired(gone: seq<Instant>, before: Instant, now: Instant)
    requires before <= now && forall i | 0 <= i < |gone| :: Expired(gone[i], before)
    ensures forall i | 0 <= i < |gone| :: Expired(gone[i], now)
  {
  }

  lemma DropFront(all: seq<Instant>, failures: seq<Instant>, now: Instant)
    requires IsWindow(all, failures, now) && |failures| > 0 && Expired(failures[0], now)
    ensures IsWindow(all, failures[1..], now)
  {
    var k := |all| - |failures|;
    assert all[k] == failures[0] && all[k + 1..] == failures[1..];
  }

  lemma WindowCounts(all: seq<Instant>, failures: seq<Instant>, now: Instant)
    requires Ordered(all) && IsWindow(all, failures, now) && (|failures| > 0 ==> !Expired(failures[0], now))
    ensures Recent(all, now) == |failures|
  {
    var k := |all| - |failures|;
    assert all == all[..k] + failures;
    ExpiredFront(all[..k], failures, now);
    AllRecent(failures, now);
  }

  lemma {:induction false} SuffixIsRecent(all: seq<Instant>, i: nat, now: Instant)
    requires Ordered(all) && i < |all| && !Expired(all[i], now)
    ensures Recent(all, now) >= |all| - i
    decreases |all|
  {
    if i == 0 {
      AllRecent(all, now);
    } else {
      SuffixIsRecent(all[1..], i - 1, now);
    }
  }

  lemma {:induction false} FewerLater(all: seq<Instant>, before: Instant, now: Instant)
    requires before <= now
    ensures Recent(all, now) <= Recent(all, before)
    decreases |all|
  {
    if |all| > 0 {
      FewerLater(all[1..], before, now);
    }
  }

  lemma {:induction false} OneMore(all: seq<Instant>, now: Instant)
    ensures Recent(all + [now], now) == Recent(all, now) + 1
    decreases |all|
  {
    if |all| > 0 {
      assert (all + [now])[1..] == all[1..] + [now];
      OneMore(all[1..], now);
    }
  }

  // ---- Attempts under way ----

  /** All failures ever recorded, the attempts that passed the check and have not ended, the most there
      were of those at once, and the latest instant seen. */
  datatype Book = Book(all: seq<Instant>, underway: nat, peak: nat, clock: Instant)

  /** `Leave` is an attempt that ends without being recorded as a failure. */
  datatype Action = Check(now: Instant) | Record(now: Instant) | Leave

  function Opening(start: Instant): Book {
    Book([], 0, 0, start)
  }

  predicate Allowed(b: Book, now: Instant) {
    Recent(b.all, now) < MAX_ATTEMPTS
  }

  function Apply(b: Book, a: Action): Book {
    match a
    case Check(now) =>
      if Allowed(b, now) then Book(b.all, b.underway + 1, Max(b.peak, b.underway + 1), now) else b.(clock := now)
    case Record(now) => Book(b.all + [now], Minus(b.underway, 1), b.peak, now)
    case Leave => b.(underway := Minus(b.underway, 1))
  }

  /** Instants do not go back, and only an attempt that passed the check ends. */
  predicate Enabled(b: Book, a: Action) {
    match a
    case Check(now) => now >= b.clock
    case Record(now) => now >= b.clock && b.underway > 0
    case Leave => b.underway > 0
  }

  predicate Legal(b: Book, actions: seq<Action>)
    decreases |actions|
  {
    |actions| > 0 ==> Enabled(b, actions[0]) && Legal(Apply(b, actions[0]), actions[1..])
  }

  function After(b: Book, actions: seq<Action>): Book
    decreases |actions|
  {
    if |actions| == 0 then b else After(Apply(b, actions[0]), actions[1..])
  }

  /** With at most `peak` attempts at once, the most failures that can be recent together. */
  function Most(peak: nat): nat {
    MAX_ATTEMPTS - 1 + peak
  }

  /** No more than that lie within 61 seconds. */
  ghost predicate Spaced(all: seq<Instant>, most: nat) {
    forall i: nat | i + most < |all| :: Expired(all[i], all[i + most])
  }

  /** Recent failures and attempts under way together stay within the bound. */
  ghost predicate BookOk(b: Book) {
    && Ordered(b.all) && (forall i | 0 <= i < |b.all| :: b.all[i] <= b.clock)
    && b.underway <= b.peak && Recent(b.all, b.clock) + b.underway <= Most(b.peak) && Spaced(b.all, Most(b.peak))
  }

  lemma RecordKeeps(b: Book, now: Instant)
    requires BookOk(b) && Enabled(b, Record(now))
    ensures BookOk(Apply(b, Record(now)))
  {
    FewerLater(b.all, b.clock, now);
    OneMore(b.all, now);
    var i := |b.all| - Most(b.peak);
    if i >= 0 && !Expired(b.all[i], now) {
      SuffixIsRecent(b.all, i, now);
    }
  }

  lemma SpacedMore(all: seq<Instant>, most: nat, more: nat)
    requires Ordered(all) && Spaced(all, most) && most <= more
    ensures Spaced(all, more)
  {
    forall i: nat | i + more < |all|
      ensures Expired(all[i], all[i + more])
    {
      assert Expired(all[i], all[i + most]) && all[i + most] <= all[i + more];
    }
  }

  lemma StepKeeps(b: Book, a: Action)
    requires BookOk(b) && Enabled(b, a)
    ensures BookOk(Apply(b, a)) && b.peak <= Apply(b, a).peak
  {
    match a
    case Check(now) =>
      FewerLater(b.all, b.clock, now);
      SpacedMore(b.all, Most(b.peak), Most(Apply(b, a).peak));
    case Record(now) => RecordKeeps(b, now);
    case Leave =>
  }

  lemma {:induction false} RunKeeps(b: Book, actions: seq<Action>)
    requires BookOk(b) && Legal(b, actions)
    ensures BookOk(After(b, actions)) && b.peak <= After(b, actions).peak
    decreases |actions|
  {
    if |actions| > 0 {
      StepKeeps(b, actions[0]);
      RunKeeps(Apply(b, actions[0]), actions[1..]);
    }
  }

  lemma SpanMore(all: seq<Instant>, most: nat, from: nat, to: nat)
    requires Ordered(all) && Spaced(all, most) && from + most < to <= |all|
    ensures (all[to - 1] - all[from]) / SECOND > WINDOW_SECS
  {
    assert Expired(all[from], all[from + most]);
    assert all[from + most] <= all[to - 1];
  }

  /** In any interval shorter than 61 seconds, hence in any of 60 seconds, at most four failures more
      than there ever were attempts under way at once: five if attempts never overlap. */
  lemma WindowBound(start: Instant, actions: seq<Action>, from: nat, to: nat)
    requires Legal(Opening(start), actions) && from < to <= |After(Opening(start), actions).all|
    requires var all := After(Opening(start), actions).all; (all[to - 1] - all[from]) / SECOND <= WINDOW_SECS
    ensures to - from <= Most(After(Opening(start), actions).peak)
  {
    RunKeeps(Opening(start), actions);
    var b := After(Opening(start), actions);
    if to - from > Most(b.peak) {
      SpanMore(b.all, Most(b.peak), from, to);
    }
  }

  // ---- The bound is reached ----

  function Times(a: Action, n: nat): seq<Action> {
    seq(n, _ => a)
  }

  lemma {:induction false} LegalConcat(b: Book, one: seq<Action>, other: seq<Action>)
    requires Legal(b, one) && Legal(After(b, one), other)
    ensures Legal(b, one + other) && After(b, one + other) == After(After(b, one), other)
    decreases |one|
  {
    if |one| == 0 {
      assert one + other == other;
    } else {
      assert (one + other)[1..] == one[1..] + other;
      LegalConcat(Apply(b, one[0]), one[1..], other);
    }
  }

  lemma {:induction false} ManyChecks(b: Book, n: nat)
    requires Allowed(b, b.clock) && b.underway <= b.peak
    ensures Legal(b, Times(Check(b.clock), n))
    ensures After(b, Times(Check(b.clock), n)) == Book(b.all, b.underway + n, Max(b.peak, b.underway + n), b.clock)
    decreases n
  {
    if n > 0 {
      assert Times(Check(b.clock), n)[1..] == Times(Check(b.clock), n - 1);
      ManyChecks(Apply(b, Check(b.clock)), n - 1);
    }
  }

  lemma {:induction false} ManyRecords(b: Book, n: nat)
    requires n <= b.underway
    ensures Legal(b, Times(Record(b.clock), n))
    ensures After(b, Times(Record(b.clock), n)) == Book(b.all + seq(n, _ => b.clock), b.underway - n, b.peak, b.clock)
    decreases n
  {
    if n == 0 {
      assert b.all + seq(0, _ => b.clock) == b.all;
    } else {
      assert Times(Record(b.clock), n)[1..] == Times(Record(b.clock), n - 1);
      ManyRecords(Apply(b, Record(b.clock)), n - 1);
      assert b.all + [b.clock] + seq(n - 1, _ => b.clock) == b.all + seq(n, _ => b.clock);
    }
  }

  lemma Burst(b: Book, n: nat) returns (actions: seq<Action>)
    requires Allowed(b, b.clock) && b.underway <= b.peak
    ensures Legal(b, actions)
    ensures After(b, actions) == Book(b.all + seq(n, _ => b.clock), b.underway, Max(b.peak, b.underway + n), b.clock)
  {
    var checked := After(b, Times(Check(b.clock), n));
    ManyChecks(b, n);
    ManyRecords(checked, n);
    LegalConcat(b, Times(Check(b.clock), n), Times(Record(b.clock), n));
    actions := Times(Check(b.clock), n) + Times(Record(b.clock), n);
  }

  lemma {:induction false} OneByOne(b: Book, n: nat) returns (actions: seq<Action>)
    requires Recent(b.all, b.clock) + n <= MAX_ATTEMPTS && b.underway == 0 && b.peak <= 1
    ensures Legal(b, actions) && var c := After(b, actions);
            && c.all == b.all + seq(n, _ => b.clock) && c.underway == 0 && c.peak <= 1 && c.clock == b.clock
            && Recent(c.all, c.clock) == Recent(b.all, b.clock) + n
    decreases n
  {
    if n == 0 {
      actions := [];
      assert b.all + seq(0, _ => b.clock) == b.all;
    } else {
      var first := Burst(b, 1);
      var c := After(b, first);
      assert c.all == b.all + [b.clock];
      OneMore(b.all, b.clock);
      var rest := OneByOne(c, n - 1);
      LegalConcat(b, first, rest);
      actions := first + rest;
      assert b.all + [b.clock] + seq(n - 1, _ => b.clock) == b.all + seq(n, _ => b.clock);
    }
  }

  /** The bound cannot be improved: four failures one after the other, then `k` attempts at once, and
      all of them fail at the same instant. With two at once that makes six. */
  lemma BoundIsReached(start: Instant, k: nat) returns (actions: seq<Action>)
    requires k > 0
    ensures Legal(Opening(start), actions)
    ensures After(Opening(start), actions).peak == k
    ensures After(Opening(start), actions).all == seq(Most(k), _ => start)
  {
    var four := OneByOne(Opening(start), MAX_ATTEMPTS - 1);
    var b := After(Opening(start), four);
    var last := Burst(b, k);
    LegalConcat(Opening(start), four, last);
    actions := four + last;
    assert b.all + seq(k, _ => start) == seq(Most(k), _ => start);
  }

  class LoginRate {
    /** The window's deque, oldest first. */
    var failures: seq<Instant>
    ghost var book: Book

    ghost predicate Valid()
      reads this
    {
      IsWindow(book.all, failures, book.clock) && BookOk(book)
    }

    constructor (start: Instant)
      ensures Valid() && book == Opening(start)
    {
      failures, book := [], Opening(start);
    }

    /** Popping expired entries from the front leaves what counting all recent failures counts. */
    method Allow(now: Instant) returns (ok: bool)
      requires Valid() && Enabled(book, Check(now))
      modifies this
      ensures Valid() && book == Apply(old(book), Check(now))
      ensures |failures| == Recent(book.all, now) && (ok <==> Allowed(old(book), now))
      ensures book.all == old(book.all)
      ensures ok <==> |book.all| < 5 || now - book.all[|book.all| - 5] >= 61_000_000_000
    {
      StillExpired(book.all[..|book.all| - |failures|], book.clock, now);
      StepKeeps(book, Check(now));
      while |failures| > 0 && Expired(failures[0], now)
        invariant IsWindow(book.all, failures, now) && book == old(book)
        decreases |failures|
      {
        DropFront(book.all, failures, now);
        failures := failures[1..];
      }
      WindowCounts(book.all, failures, now);
      ok := |failures| < MAX_ATTEMPTS;
      book := Apply(book, Check(now));
    }

    /** An attempt that passed the check has failed. */
    method Record(now: Instant)
      requires Valid() && Enabled(book, Action.Record(now))
      modifies this
      ensures Valid() && book == Apply(old(book), Action.Record(now)) && failures == old(failures) + [now]
    {
      StillExpired(book.all[..|book.all| - |failures|], book.clock, now);
      StepKeeps(book, Action.Record(now));
      failures := failures + [now];
      book := Apply(book, Action.Record(now));
    }

    /** An attempt that passed the check has ended otherwise; the window does not notice. */
    ghost method End()
      requires Valid() && Enabled(book, Leave)
      modifies this`book
      ensures Valid() && book == Apply(old(book), Leave)
    {
      StepKeeps(book, Leave);
      book := Apply(book, Leave);
    }
  }
}
