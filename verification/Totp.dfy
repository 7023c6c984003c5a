/** Time-based one-time codes (RFC 6238) and the replay guard of concurrent logins. */
module Totp {
  import opened Common
  import opened Text

  const WINDOW_SECS: int := 30

  // ---- Truncation (section 5.3 of RFC 4226) ----

  /** The code of a 20-byte digest; its offset nibble keeps every read inside the digest. */
  method TotpCode(digest: Bytes) returns (code: nat)
    requires |digest| == 20
    ensures code < 1_000_000
    ensures var offset := digest[19] as nat % 16;
            && offset + 3 < 20
            && code == (0x100_0000 * (digest[offset] as nat % 128) + 0x1_0000 * digest[offset + 1] as nat
                        + 0x100 * digest[offset + 2] as nat + digest[offset + 3] as nat) % 1_000_000
  {
    var offset := digest[19] as nat % 16;
    var binary := 0x100_0000 * (digest[offset] as nat % 128);
    binary := binary + 0x1_0000 * digest[offset + 1] as nat;
    binary := binary + 0x100 * digest[offset + 2] as nat;
    binary := binary + digest[offset + 3] as nat;
    code := binary % 1_000_000;
  }

  /** Comparing without stopping early. */
  method ConstantTimeEq(left: seq<bv8>, right: seq<bv8>) returns (equal: bool)
    ensures equal <==> left == right
  {
    if |left| != |right| {
      return false;
    }
    var diff: bv8 := 0;
    for k := 0 to |left|
      invariant diff == 0 <==> left[..k] == right[..k]
    {
      assert left[..k + 1] == left[..k] + [left[k]] && right[..k + 1] == right[..k] + [right[k]];
      Accumulate(diff, left[k], right[k]);
      diff := diff | (left[k] ^ right[k]);
    }
    assert left[..|left|] == left && right[..|left|] == right;
    return diff == 0;
  }

  lemma Accumulate(diff: bv8, a: bv8, b: bv8)
    ensures (diff | (a ^ b)) == 0 <==> diff == 0 && a == b
  {
  }

  // ---- Verification ----

  /** `codeAt` renders the six-digit code of a counter under the shared secret. */
  type Codes = nat -> seq<bv8>

  /** A counter that `verify_totp` may accept at `now`. */
  predicate Matches(codeAt: Codes, code: seq<bv8>, now: int, minimum: Option<int>, counter: int) {
    && now / WINDOW_SECS - 1 <= counter <= now / WINDOW_SECS + 1 && counter >= 0
    && (minimum.Some? ==> counter > minimum.value) && codeAt(counter) == code
  }

  /** The least acceptable counter within one window of now. */
  method VerifyTotp(codeAt: Codes, code: seq<bv8>, now: int, minimum: Option<int>) returns (matched: Option<int>)
    ensures matched.Some? ==> Matches(codeAt, code, now, minimum, matched.value)
    ensures matched.Some? ==> forall c | c < matched.value :: !Matches(codeAt, code, now, minimum, c)
    ensures matched.None? ==> forall c :: !Matches(codeAt, code, now, minimum, c)
    ensures matched.Some? ==>
              && matched.value >= 0 && codeAt(matched.value) == code && 30 * (matched.value - 1) <= now < 30 * (matched.value + 2)
              && (minimum.Some? ==> matched.value > minimum.value)
    ensures matched.None? ==>
              forall c: nat | 30 * (c - 1) <= now < 30 * (c + 2) && (minimum.Some? ==> c > minimum.value) :: codeAt(c) != code
  {
    var window := now / WINDOW_SECS;
    for candidate := window - 1 to window + 2
      invariant forall c | c < candidate :: !Matches(codeAt, code, now, minimum, c)
    {
      if candidate < 0 || (minimum.Some? && candidate <= minimum.value) {
        continue;
      }
      var equal := ConstantTimeEq(code, codeAt(candidate));
      if equal {
        return Some(candidate);
      }
    }
    forall c: nat | 30 * (c - 1) <= now < 30 * (c + 2) && (minimum.Some? ==> c > minimum.value)
      ensures codeAt(c) != code
    {
      assert !Matches(codeAt, code, now, minimum, c);
    }
    return None;
  }

  // ---- Concurrent logins ----

  type LoginId = nat

  /** `last` is the stored counter; `inFlight` what each login in flight has read; `accepted` is
      history, the counters accepted so far. */
  datatype Guard = Guard(last: Option<int>, inFlight: map<LoginId, int>, accepted: seq<int>)

  datatype Action =
    | Read(login: LoginId)
    | Submit(login: LoginId, counter: Option<int>)

  function Apply(g: Guard, a: Action): Guard {
    match a
    case Read(l) => g.(inFlight := g.inFlight[l := if g.last.Some? then g.last.value else -1])
    case Submit(l, counter) =>
      if l in g.inFlight && counter.Some? && g.last.Some? && g.last.value < counter.value
      then Guard(counter, g.inFlight - {l}, g.accepted + [counter.value])
      else g.(inFlight := g.inFlight - {l})
  }

  /** What is submitted was verified against what this login had read. */
  predicate Enabled(g: Guard, a: Action) {
    a.Submit? && a.counter.Some? ==> a.login in g.inFlight && a.counter.value > g.inFlight[a.login]
  }

  predicate Legal(g: Guard, actions: seq<Action>)
    decreases |actions|
  {
    |actions| > 0 ==> Enabled(g, actions[0]) && Legal(Apply(g, actions[0]), actions[1..])
  }

  function After(g: Guard, actions: seq<Action>): Guard
    decreases |actions|
  {
    if |actions| == 0 then g else After(Apply(g, actions[0]), actions[1..])
  }

  ghost predicate Increasing(s: seq<int>, from: int) {
    (forall i | 0 <= i < |s| :: s[i] > from) && (forall i, j | 0 <= i < j < |s| :: s[i] < s[j])
  }

  /** The stored counter is the last one accepted, or the one from enrolment. */
  ghost predicate Valid(g: Guard, enrolled: int) {
    && Increasing(g.accepted, enrolled)
    && g.last == Some(if |g.accepted| == 0 then enrolled else g.accepted[|g.accepted| - 1])
  }

  /** Single acceptance: over every interleaving of logins that read, verify and conditionally
      update, accepted counters strictly increase from the enrolment counter; so no counter is
      accepted twice. */
  lemma {:induction false} AcceptedCountersIncrease(g: Guard, enrolled: int, actions: seq<Action>)
    requires Valid(g, enrolled) && Legal(g, actions)
    ensures Valid(After(g, actions), enrolled)
    ensures g.accepted <= After(g, actions).accepted
    decreases |actions|
  {
    if |actions| > 0 {
      AcceptedCountersIncrease(Apply(g, actions[0]), enrolled, actions[1..]);
    }
  }

  /** Without a stored counter nothing is ever accepted. */
  lemma {:induction false} NothingBeforeEnrolment(g: Guard, actions: seq<Action>)
    requires g.last.None?
    ensures After(g, actions).last.None? && After(g, actions).accepted == g.accepted
    decreases |actions|
  {
    if |actions| > 0 {
      NothingBeforeEnrolment(Apply(g, actions[0]), actions[1..]);
    }
  }

  /** Two logins whose codes match the same counter: at most one is accepted. */
  lemma SameCounterOnce(g: Guard, enrolled: int, first: LoginId, second: LoginId, between: seq<Action>, counter: int)
    requires Valid(g, enrolled) && first in g.inFlight && Enabled(g, Submit(first, Some(counter))) && counter > g.last.value
    requires Legal(Apply(g, Submit(first, Some(counter))), between)
    ensures var late := After(Apply(g, Submit(first, Some(counter))), between);
            Apply(late, Submit(second, Some(counter))).accepted == late.accepted
  {
    var now := Apply(g, Submit(first, Some(counter)));
    assert Valid(now, enrolled);
    AcceptedCountersIncrease(now, enrolled, between);
    var late := After(now, between);
    assert late.accepted[|now.accepted| - 1] == counter;
  }

  // ---- When one code is accepted twice ----

  /** Every counter that is submitted has this code. */
  predicate AllPresent(codeAt: Codes, code: seq<bv8>, actions: seq<Action>) {
    forall k | 0 <= k < |actions| && actions[k].Submit? && actions[k].counter.Some? ::
      actions[k].counter.value >= 0 && codeAt(actions[k].counter.value) == code
  }

  /** A run in which logins that present `code`, and no others, are accepted at least twice. */
  ghost predicate AcceptsTwice(codeAt: Codes, code: seq<bv8>, enrolled: int, actions: seq<Action>) {
    var g := Guard(Some(enrolled), map[], []);
    Legal(g, actions) && AllPresent(codeAt, code, actions) && |After(g, actions).accepted| >= 2
  }

  ghost predicate Collide(codeAt: Codes, code: seq<bv8>, enrolled: int, x: int, y: int) {
    enrolled < x < y && x >= 0 && codeAt(x) == code && codeAt(y) == code
  }

  lemma {:induction false} AcceptedHaveCode(codeAt: Codes, code: seq<bv8>, g: Guard, actions: seq<Action>)
    requires AllPresent(codeAt, code, actions)
    requires forall i | 0 <= i < |g.accepted| :: g.accepted[i] >= 0 && codeAt(g.accepted[i]) == code
    ensures forall i | 0 <= i < |After(g, actions).accepted| ::
              After(g, actions).accepted[i] >= 0 && codeAt(After(g, actions).accepted[i]) == code
    decreases |actions|
  {
    if |actions| > 0 {
      assert forall k | 0 <= k < |actions[1..]| :: actions[1..][k] == actions[k + 1];
      AcceptedHaveCode(codeAt, code, Apply(g, actions[0]), actions[1..]);
    }
  }

  /** One login after the other: the counters `x` and then `y` are accepted. */
  lemma TwoLogins(codeAt: Codes, code: seq<bv8>, enrolled: int, x: int, y: int) returns (actions: seq<Action>)
    requires Collide(codeAt, code, enrolled, x, y)
    ensures AcceptsTwice(codeAt, code, enrolled, actions)
  {
    var g0 := Guard(Some(enrolled), map[], []);
    var g1 := Apply(g0, Read(0));
    var g2 := Apply(g1, Submit(0, Some(x)));
    var g3 := Apply(g2, Read(0));
    var rest3, rest2, rest1 := [Submit(0, Some(y))], [Read(0)] + [Submit(0, Some(y))], [Submit(0,
        Some(x))] + ([Read(0)] + [Submit(0, Some(y))]);
    actions := [Read(0)] + rest1;
    assert rest3[1..] == [] && rest2[1..] == rest3 && rest1[1..] == rest2 && actions[1..] == rest1;
    assert After(g3, rest3).accepted == [x, y] && Legal(g3, rest3);
    assert After(g2, rest2) == After(g3, rest3) && Legal(g2, rest2);
    assert After(g1, rest1) == After(g2, rest2) && Legal(g1, rest1);
  }

  /** It is the counter that is accepted once, not the six digits: for every code, some interleaving of
      logins that present it is accepted twice if and only if two counters after the enrolment
      have it. */
  lemma CodeTwiceIff(codeAt: Codes, code: seq<bv8>, enrolled: int)
    ensures (exists actions :: AcceptsTwice(codeAt, code, enrolled, actions))
            <==> (exists x, y :: Collide(codeAt, code, enrolled, x, y))
  {
    if actions :| AcceptsTwice(codeAt, code, enrolled, actions) {
      var g := Guard(Some(enrolled), map[], []);
      AcceptedCountersIncrease(g, enrolled, actions);
      AcceptedHaveCode(codeAt, code, g, actions);
      var accepted := After(g, actions).accepted;
      assert Collide(codeAt, code, enrolled, accepted[0], accepted[1]);
    }
    if x, y :| Collide(codeAt, code, enrolled, x, y) {
      var actions := TwoLogins(codeAt, code, enrolled, x, y);
    }
  }

  // ---- The owner's row ----

  class Owner {
    const codeAt: Codes
    /** Absent until a counter was stored. */
    var lastCounter: Option<int>
    var inFlight: map<LoginId, int>
    ghost var accepted: seq<int>

    ghost function Now(): Guard
      reads this
    {
      Guard(lastCounter, inFlight, accepted)
    }

    constructor (codeAt: Codes, enrolled: int)
      ensures Valid(Now(), enrolled) && this.codeAt == codeAt && accepted == []
    {
      this.codeAt := codeAt;
      lastCounter, inFlight, accepted := Some(enrolled), map[], [];
    }

    method ReadCounter(login: LoginId)
      modifies this`inFlight
      ensures Now() == Apply(old(Now()), Read(login))
      ensures inFlight == old(inFlight)[login := if lastCounter.Some? then lastCounter.value else -1]
    {
      inFlight := inFlight[login := if lastCounter.Some? then lastCounter.value else -1];
    }

    /** Verify the code against what was read, then update the row only if it still holds an
        older counter. */
    method Login(login: LoginId, code: seq<bv8>, now: int) returns (granted: bool, ghost counter: Option<int>)
      requires login in inFlight
      modifies this
      ensures Enabled(old(Now()), Submit(login, counter)) && Now() == Apply(old(Now()), Submit(login, counter))
      ensures counter.Some? ==> Matches(codeAt, code, now, Some(old(inFlight)[login]), counter.value)
      ensures counter.None? ==> forall c :: !Matches(codeAt, code, now, Some(old(inFlight)[login]), c)
      ensures granted <==> |accepted| == |old(accepted)| + 1
      ensures granted ==> counter.Some? && lastCounter == counter
      ensures granted <==> counter.Some? && old(lastCounter).Some? && counter.value > old(lastCounter).value
      ensures !granted ==> lastCounter == old(lastCounter) && accepted == old(accepted)
      ensures granted ==> accepted == old(accepted) + [counter.value]
      ensures inFlight == old(inFlight) - {login}
    {
      var matched := VerifyTotp(codeAt, code, now, Some(inFlight[login]));
      counter := matched;
      inFlight := inFlight - {login};
      granted := matched.Some? && lastCounter.Some? && lastCounter.value < matched.value;
      if granted {
        lastCounter := matched;
        accepted := accepted + [matched.value];
      }
    }
  }
}
