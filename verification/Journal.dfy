/** The operation journal: operations, their steps and the idempotency records, under any
    interleaving of workers, retries, finishes and recovery. Whether a caller still owns its
    work item is an input here; the queue decides it. */
module Journal {
  import opened Common

  type OpId = nat
  type Key = string
  type Json = string
  type Time = int

  datatype Status = Queued | Running | Succeeded | Failed | Canceled | NeedsAttention

  predicate Live(s: Status) {
    s == Queued || s == Running
  }

  datatype Operation = Operation(status: Status, currentStep: Option<Key>, progress: Option<Json>,
                                 result: Option<Json>, problem: Option<Json>)

  datatype StepId = StepId(op: OpId, key: Key)
  datatype StepStatus = StepRunning | StepSucceeded | StepFailed
  datatype Step = Step(status: StepStatus, reference: Option<string>, reconcile: bool)

  datatype Request = Request(key: Key, digest: string, expiresAt: Time)
  datatype Record = Record(digest: string, status: Status, op: OpId, expiresAt: Time)
  datatype Completion = Completion(status: Status, result: Option<Json>, problem: Option<Json>)

  /** `begun` is history: the steps for which a caller was told to run the effect. */
  datatype Journal = Journal(ops: map<OpId, Operation>, steps: map<StepId, Step>, records: map<Key, Record>,
                             begun: seq<StepId>)

  const EMPTY: Journal := Journal(map[], map[], map[], [])

  datatype Action =
    | Create(now: Time, op: OpId, request: Option<Request>)
    | BeginStep(owned: bool, op: OpId, key: Key)
    | CompleteStep(owned: bool, op: OpId, key: Key, reference: Option<string>)
    | Finish(op: OpId, completion: Completion)
    | FinishClaimed(owned: bool, op: OpId, completion: Completion)
    | Progress(owned: bool, op: OpId, step: Key, progress: Json)
    | Prune(now: Time)

  datatype StepState = AlreadySucceeded | RunStep | NeedsReconciliation
  datatype Outcome = New | Stored | Reused
  datatype Answer =
    | Created(op: OpId, outcome: Outcome) | KeyReused | Began(state: StepState)
    | Done | Changed(yes: bool) | StaleWorkClaim | NotFound

  // ---- What one action does, and what it answers ----

  predicate LiveOp(j: Journal, op: OpId) {
    op in j.ops && Live(j.ops[op].status)
  }

  /** The record that still speaks for a request. */
  predicate Found(j: Journal, request: Option<Request>, now: Time) {
    request.Some? && request.value.key in j.records && j.records[request.value.key].expiresAt >= now
  }

  function Answered(j: Journal, request: Request): Answer
    requires request.key in j.records
  {
    var r := j.records[request.key];
    if r.digest != request.digest then KeyReused
    else Created(r.op, if LiveOp(j, r.op) then Reused else Stored)
  }

  function Opened(j: Journal, op: OpId, request: Option<Request>): Journal {
    j.(ops := j.ops[op := Operation(Queued, None, None, None, None)],
       records := if request.None? then j.records
                  else j.records[request.value.key := Record(request.value.digest, Running, op, request.value.expiresAt)])
  }

  /** What a step's existing row means for a caller that wants to run it. */
  function StateOf(j: Journal, id: StepId): StepState {
    if id !in j.steps then RunStep
    else
      match j.steps[id].status
      case StepSucceeded => AlreadySucceeded
      case StepRunning => NeedsReconciliation
      case StepFailed => RunStep
  }

  function Begun(j: Journal, id: StepId): Journal
    requires id.op in j.ops
  {
    j.(steps := if id in j.steps then j.steps else j.steps[id := Step(StepRunning, None, false)],
       ops := j.ops[id.op := j.ops[id.op].(status := Running, currentStep := Some(id.key))],
       begun := if StateOf(j, id) == RunStep then j.begun + [id] else j.begun)
  }

  function Reconciled(steps: map<StepId, Step>, op: OpId): map<StepId, Step> {
    map id | id in steps ::
      if id.op == op && steps[id].status == StepRunning then steps[id].(status := StepFailed, reconcile := true) else steps[id]
  }

  function Mirrored(records: map<Key, Record>, op: OpId, status: Status): map<Key, Record> {
    map k | k in records :: if records[k].op == op then records[k].(status := status) else records[k]
  }

  function Finished(j: Journal, op: OpId, c: Completion): Journal
    requires op in j.ops
  {
    var o := j.ops[op];
    j.(ops := j.ops[op := o.(status := c.status, currentStep := None, result := Or(c.result, o.result), problem := Or(c.problem, o.problem))],
       steps := if c.status == NeedsAttention then Reconciled(j.steps, op) else j.steps,
       records := Mirrored(j.records, op, c.status))
  }

  function Completed(j: Journal, id: StepId, reference: Option<string>): Journal
    requires id in j.steps
  {
    j.(steps := j.steps[id := j.steps[id].(status := StepSucceeded, reference := Or(reference, j.steps[id].reference))])
  }

  function Apply(j: Journal, a: Action): Journal {
    match a
    case Create(now, op, request) =>
      if Found(j, request, now) then j else Opened(j, op, request)
    case BeginStep(owned, op, key) =>
      if owned && LiveOp(j, op) then Begun(j, StepId(op, key)) else j
    case CompleteStep(owned, op, key, reference) =>
      if owned && StepId(op, key) in j.steps then Completed(j, StepId(op, key), reference) else j
    case Finish(op, c) =>
      if op in j.ops then Finished(j, op, c) else j
    case FinishClaimed(owned, op, c) =>
      if owned && LiveOp(j, op) then Finished(j, op, c) else j
    case Progress(owned, op, step, progress) =>
      if owned && LiveOp(j, op) then
        j.(ops := j.ops[op := j.ops[op].(status := Running, currentStep := Some(step), progress := Some(progress))])
      else j
    case Prune(now) =>
      j.(records := map k | k in j.records && j.records[k].expiresAt >= now :: j.records[k])
  }

  function Reply(j: Journal, a: Action): Answer {
    match a
    case Create(now, op, request) =>
      if Found(j, request, now) then Answered(j, request.value) else Created(op, New)
    case BeginStep(owned, op, key) =>
      if owned && LiveOp(j, op) then Began(StateOf(j, StepId(op, key))) else StaleWorkClaim
    case CompleteStep(owned, op, key, _) =>
      if owned && StepId(op, key) in j.steps then Done else StaleWorkClaim
    case Finish(op, _) => if op in j.ops then Done else NotFound
    case FinishClaimed(owned, op, _) => Changed(owned && LiveOp(j, op))
    case Progress(owned, op, _, _) => Changed(owned && LiveOp(j, op))
    case Prune(_) => Done
  }

  /** Identifiers are fresh, and operations are finished with a terminal status. */
  predicate Enabled(j: Journal, a: Action) {
    match a
    case Create(_, op, _) => op !in j.ops
    case Finish(_, c) => !Live(c.status)
    case FinishClaimed(_, _, c) => !Live(c.status)
    case _ => true
  }

  predicate Legal(j: Journal, actions: seq<Action>)
    decreases |actions|
  {
    |actions| > 0 ==> Enabled(j, actions[0]) && Legal(Apply(j, actions[0]), actions[1..])
  }

  function After(j: Journal, actions: seq<Action>): Journal
    decreases |actions|
  {
    if |actions| == 0 then j else After(Apply(j, actions[0]), actions[1..])
  }

  // ---- The invariant ----

  predicate Distinct(s: seq<StepId>) {
    forall i, k | 0 <= i < k < |s| :: s[i] != s[k]
  }

  /** A step belongs to an operation; a failed one to a finished operation, and none is left
      running when the operation needs attention. */
  predicate StepOk(j: Journal, id: StepId)
    requires id in j.steps
  {
    && id.op in j.ops
    && (j.steps[id].status == StepFailed ==> !Live(j.ops[id.op].status))
    && (j.steps[id].status == StepRunning ==> j.ops[id.op].status != NeedsAttention)
  }

  /** An idempotency record shows the outcome of its operation, and `Running` until there is one. */
  predicate RecordOk(j: Journal, k: Key)
    requires k in j.records
  {
    var r := j.records[k];
    r.op in j.ops && r.status == if LiveOp(j, r.op) then Running else j.ops[r.op].status
  }

  ghost predicate Valid(j: Journal) {
    && (forall id | id in j.steps :: StepOk(j, id))
    && (forall k | k in j.records :: RecordOk(j, k))
    && (forall id :: id in j.begun <==> id in j.steps)
    && Distinct(j.begun)
  }

  lemma FinishKeeps(j: Journal, op: OpId, c: Completion)
    requires Valid(j) && op in j.ops && !Live(c.status)
    ensures Valid(Finished(j, op, c))
  {
    var r := Finished(j, op, c);
    assert r.steps.Keys == j.steps.Keys;
    assert forall id | id in r.steps :: StepOk(j, id);
    assert forall k | k in r.records :: RecordOk(j, k);
  }

  lemma BeginKeeps(j: Journal, id: StepId)
    requires Valid(j) && LiveOp(j, id.op)
    ensures Valid(Begun(j, id))
    ensures StateOf(j, id) == RunStep ==> id !in j.steps
  {
    var r := Begun(j, id);
    assert id in j.steps ==> StepOk(j, id);
    assert forall x | x in r.steps && x != id :: StepOk(j, x);
    assert forall k | k in r.records :: RecordOk(j, k);
  }

  lemma CreateKeeps(j: Journal, op: OpId, request: Option<Request>)
    requires Valid(j) && op !in j.ops
    ensures Valid(Opened(j, op, request))
  {
    var r := Opened(j, op, request);
    assert forall id | id in r.steps :: StepOk(j, id);
    assert forall k | k in j.records :: RecordOk(j, k);
  }

  lemma CompleteKeeps(j: Journal, id: StepId, reference: Option<string>)
    requires Valid(j) && id in j.steps
    ensures Valid(Completed(j, id, reference))
  {
    var r := Completed(j, id, reference);
    assert forall x | x in r.steps :: StepOk(j, x);
    assert forall k | k in r.records :: RecordOk(j, k);
  }

  lemma ProgressKeeps(j: Journal, a: Action)
    requires Valid(j) && a.Progress?
    ensures Valid(Apply(j, a))
  {
    var r := Apply(j, a);
    assert forall id | id in r.steps :: StepOk(j, id);
    assert forall k | k in r.records :: RecordOk(j, k);
  }

  lemma PruneKeeps(j: Journal, now: Time)
    requires Valid(j)
    ensures Valid(Apply(j, Prune(now)))
  {
    var r := Apply(j, Prune(now));
    assert forall id | id in j.steps :: StepOk(j, id);
    assert forall k | k in j.records :: RecordOk(j, k);
  }

  lemma StepKeeps(j: Journal, a: Action)
    requires Valid(j) && Enabled(j, a)
    ensures Valid(Apply(j, a))
  {
    match a
    case BeginStep(owned, op, key) => if owned && LiveOp(j, op) { BeginKeeps(j, StepId(op, key)); }
    case Finish(op, c) => if op in j.ops { FinishKeeps(j, op, c); }
    case FinishClaimed(owned, op, c) => if owned && LiveOp(j, op) { FinishKeeps(j, op, c); }
    case Create(_, op, request) => CreateKeeps(j, op, request);
    case CompleteStep(_, op, key, reference) => if StepId(op, key) in j.steps { CompleteKeeps(j, StepId(op, key), reference); }
    case Progress(_, _, _, _) => ProgressKeeps(j, a);
    case Prune(now) => PruneKeeps(j, now);
  }

  lemma {:induction false} RunKeeps(j: Journal, actions: seq<Action>)
    requires Valid(j) && Legal(j, actions)
    ensures Valid(After(j, actions))
    decreases |actions|
  {
    if |actions| > 0 {
      StepKeeps(j, actions[0]);
      RunKeeps(Apply(j, actions[0]), actions[1..]);
    }
  }

  // ---- What holds over whole runs ----

  function Told(j: Journal, a: Action, id: StepId): nat {
    if a.BeginStep? && StepId(a.op, a.key) == id && Reply(j, a) == Began(RunStep) then 1 else 0
  }

  /** How often a run answers "run this step". */
  function TimesRun(j: Journal, actions: seq<Action>, id: StepId): nat
    decreases |actions|
  {
    if |actions| == 0 then 0
    else
      Told(j, actions[0], id) + TimesRun(Apply(j, actions[0]), actions[1..], id)
  }

  /** At most once: whatever the interleaving, a caller is told to run a step at most once, and
      never when the step already has a row. */
  lemma {:induction false} StepRunsAtMostOnce(j: Journal, actions: seq<Action>, id: StepId)
    requires Valid(j) && Legal(j, actions)
    ensures TimesRun(j, actions, id) <= if id in j.steps then 0 else 1
    decreases |actions|
  {
    if |actions| > 0 {
      var a := actions[0];
      StepKeeps(j, a);
      StepRunsAtMostOnce(Apply(j, a), actions[1..], id);
      if a.BeginStep? && a.owned && LiveOp(j, a.op) {
        BeginKeeps(j, StepId(a.op, a.key));
      }
    }
  }

  /** In every reachable state, beginning a step that has a row never answers "run this step"; for a
      failed one the transaction is rolled back, so the branch that would re-run it never commits. */
  lemma FailedStepNeverRuns(actions: seq<Action>, a: Action)
    requires Legal(EMPTY, actions) && a.BeginStep? && StepId(a.op, a.key) in After(EMPTY, actions).steps
    ensures var j := After(EMPTY, actions);
            && Reply(j, a) != Began(RunStep)
            && (j.steps[StepId(a.op, a.key)].status == StepFailed ==> Reply(j, a) == StaleWorkClaim && Apply(j, a) == j)
  {
    RunKeeps(EMPTY, actions);
    assert StepOk(After(EMPTY, actions), StepId(a.op, a.key));
  }

  /** A finished operation stays finished, although a later finish may change how. */
  lemma {:induction false} TerminalForever(j: Journal, actions: seq<Action>, op: OpId)
    requires Legal(j, actions) && op in j.ops && !Live(j.ops[op].status)
    ensures op in After(j, actions).ops && !Live(After(j, actions).ops[op].status)
    decreases |actions|
  {
    if |actions| > 0 {
      TerminalForever(Apply(j, actions[0]), actions[1..], op);
    }
  }

  ghost predicate StepDone(j: Journal, id: StepId) {
    id in j.steps && j.steps[id].status == StepSucceeded
  }

  /** A succeeded step stays succeeded and keeps its reference unless a new one is given; beginning
      it again is answered with "already succeeded" for as long as the operation is live. */
  lemma {:induction false} SucceededForever(j: Journal, actions: seq<Action>, id: StepId)
    requires Legal(j, actions) && StepDone(j, id)
    ensures StepDone(After(j, actions), id)
    ensures j.steps[id].reference.Some? ==> After(j, actions).steps[id].reference.Some?
    ensures forall owned :: Reply(After(j, actions), BeginStep(owned, id.op, id.key))
                         == if owned && LiveOp(After(j, actions), id.op) then Began(AlreadySucceeded) else StaleWorkClaim
    decreases |actions|
  {
    if |actions| > 0 {
      SucceededForever(Apply(j, actions[0]), actions[1..], id);
    }
  }

  lemma TimesRunStep(j: Journal, a: Action, rest: seq<Action>, id: StepId)
    ensures TimesRun(j, [a] + rest, id) == Told(j, a, id) + TimesRun(Apply(j, a), rest, id)
  {
    assert ([a] + rest)[1..] == rest;
  }

  /** The condition on finish is needed: finishing with a live status lets a failed step run again. */
  lemma LiveFinishRunsTwice(key: Key)
    ensures var attention, live := Completion(NeedsAttention, None, None), Completion(Queued, None, None);
            TimesRun(EMPTY, [Create(0, 1, None)] + ([BeginStep(true, 1, key)] + ([Finish(1, attention)] + ([Finish(1, live)]
                     + [BeginStep(true, 1, key)]))), StepId(1, key)) >= 2
  {
    var attention, live := Completion(NeedsAttention, None, None), Completion(Queued, None, None);
    var id, begin := StepId(1, key), BeginStep(true, 1, key);
    var j1 := Apply(EMPTY, Create(0, 1, None));
    var j2 := Apply(j1, begin);
    var j3 := Apply(j2, Finish(1, attention));
    var j4 := Apply(j3, Finish(1, live));
    TimesRunStep(EMPTY, Create(0, 1, None), [begin] + ([Finish(1, attention)] + ([Finish(1, live)] + [begin])), id);
    TimesRunStep(j1, begin, [Finish(1, attention)] + ([Finish(1, live)] + [begin]), id);
    TimesRunStep(j2, Finish(1, attention), [Finish(1, live)] + [begin], id);
    TimesRunStep(j3, Finish(1, live), [begin], id);
    assert Told(j1, begin, id) == 1 && Told(j4, begin, id) == 1;
  }

  ghost predicate Speaks(j: Journal, request: Request, op: OpId) {
    request.key in j.records && j.records[request.key].op == op && j.records[request.key].digest == request.digest
    && j.records[request.key].expiresAt == request.expiresAt
  }

  /** The action reads a time after the request's window and clears or takes over its record. */
  predicate Replaces(a: Action, request: Request) {
    match a
    case Create(now, _, other) => other.Some? && other.value.key == request.key && now > request.expiresAt
    case Prune(now) => now > request.expiresAt
    case _ => false
  }

  ghost predicate Untouched(request: Request, actions: seq<Action>) {
    forall k | 0 <= k < |actions| :: !Replaces(actions[k], request)
  }

  lemma UntouchedStep(request: Request, actions: seq<Action>)
    requires |actions| > 0
    ensures Untouched(request, actions) <==> !Replaces(actions[0], request) && Untouched(request, actions[1..])
  {
    assert forall k | 0 < k < |actions| :: actions[k] == actions[1..][k - 1];
    if Untouched(request, actions) {
      assert forall k | 0 <= k < |actions[1..]| :: actions[1..][k] == actions[k + 1];
    }
  }

  /** Once another operation has the key, or nothing has, it never comes back to `op`. */
  lemma {:induction false} LostForGood(j: Journal, actions: seq<Action>, request: Request, op: OpId)
    requires Legal(j, actions) && op in j.ops && !(request.key in j.records && j.records[request.key].op == op)
    ensures !Speaks(After(j, actions), request, op)
    decreases |actions|
  {
    if |actions| > 0 {
      LostForGood(Apply(j, actions[0]), actions[1..], request, op);
    }
  }

  /** A record goes on speaking for its request exactly as long as no call whose clock has passed
      the window clears it or takes it over. */
  lemma {:induction false} RecordStaysIff(j: Journal, actions: seq<Action>, request: Request, op: OpId)
    requires Legal(j, actions) && Speaks(j, request, op) && op in j.ops
    ensures Speaks(After(j, actions), request, op) <==> Untouched(request, actions)
    decreases |actions|
  {
    if |actions| > 0 {
      UntouchedStep(request, actions);
      if Replaces(actions[0], request) {
        LostForGood(Apply(j, actions[0]), actions[1..], request, op);
      } else {
        RecordStaysIff(Apply(j, actions[0]), actions[1..], request, op);
      }
    }
  }

  /** A record that names the operation under this key is the one its request made. */
  lemma {:induction false} LateRecord(j: Journal, actions: seq<Action>, request: Request, op: OpId)
    requires Legal(j, actions) && op in j.ops
    requires request.key in j.records && j.records[request.key].op == op ==> Speaks(j, request, op)
    ensures op in After(j, actions).ops
    ensures var late := After(j, actions);
            request.key in late.records && late.records[request.key].op == op ==> Speaks(late, request, op)
    decreases |actions|
  {
    if |actions| > 0 {
      LateRecord(Apply(j, actions[0]), actions[1..], request, op);
    }
  }

  /** The same request made again inside its window creates nothing and is answered with the first
      operation, as stored exactly if that operation has finished, if and only if no call whose clock
      had passed the window cleared or took over the record in between. */
  lemma RetriedRequest(j: Journal, now: Time, op: OpId, request: Request, actions: seq<Action>, again: Action)
    requires Valid(j) && Enabled(j, Create(now, op, Some(request))) && Reply(j, Create(now, op, Some(request))) == Created(op, New)
    requires Legal(Apply(j, Create(now, op, Some(request))), actions)
    requires again.Create? && again.request == Some(request) && again.now <= request.expiresAt
    requires Enabled(After(Apply(j, Create(now, op, Some(request))), actions), again)
    ensures var late := After(Apply(j, Create(now, op, Some(request))), actions);
            (Apply(late, again) == late && Reply(late, again) == Created(op, if LiveOp(late, op) then Reused else Stored))
            <==> Untouched(request, actions)
  {
    var first := Apply(j, Create(now, op, Some(request)));
    var late := After(first, actions);
    RecordStaysIff(first, actions, request, op);
    LateRecord(first, actions, request, op);
  }

  /** In every reachable state an idempotency record shows its operation's outcome. */
  lemma RecordsShowOutcomes(actions: seq<Action>, k: Key)
    requires Legal(EMPTY, actions) && k in After(EMPTY, actions).records
    ensures var j := After(EMPTY, actions);
            && j.records[k].op in j.ops
            && (j.records[k].status == if LiveOp(j, j.records[k].op) then Running else j.ops[j.records[k].op].status)
  {
    RunKeeps(EMPTY, actions);
    assert RecordOk(After(EMPTY, actions), k);
  }

  // ---- Which outcome stands ----

  /** The action is an accepted finish of the operation. */
  predicate Finishes(j: Journal, a: Action, op: OpId) {
    || (a.Finish? && a.op == op && op in j.ops)
    || (a.FinishClaimed? && a.owned && a.op == op && LiveOp(j, op))
  }

  /** The completions that were accepted for an operation in a run, in order. */
  function Given(j: Journal, actions: seq<Action>, op: OpId): seq<Completion>
    decreases |actions|
  {
    if |actions| == 0 then []
    else (if Finishes(j, actions[0], op) then [actions[0].completion] else []) + Given(Apply(j, actions[0]), actions[1..], op)
  }

  /** The last value among the completions, or the one there was before. */
  ghost predicate LastOf(value: Option<Json>, before: Option<Json>, given: seq<Option<Json>>) {
    if forall i | 0 <= i < |given| :: given[i].None? then value == before
    else exists i :: 0 <= i < |given| && given[i].Some? && value == given[i] && forall k | i < k < |given| :: given[k].None?
  }

  function Results(given: seq<Completion>): seq<Option<Json>> {
    seq(|given|, i requires 0 <= i < |given| => given[i].result)
  }

  function Problems(given: seq<Completion>): seq<Option<Json>> {
    seq(|given|, i requires 0 <= i < |given| => given[i].problem)
  }

  lemma LastOfCons(value: Option<Json>, before: Option<Json>, first: Option<Json>, rest: seq<Option<Json>>)
    requires LastOf(value, if first.Some? then first else before, rest)
    ensures LastOf(value, before, [first] + rest)
  {
    var given := [first] + rest;
    if forall i | 0 <= i < |rest| :: rest[i].None? {
      if first.Some? {
        assert given[0] == first && forall k | 0 < k < |given| :: given[k] == rest[k - 1];
      } else {
        assert forall i | 0 <= i < |given| :: given[i].None?;
      }
    } else {
      var i :| 0 <= i < |rest| && rest[i].Some? && value == rest[i] && forall k | i < k < |rest| :: rest[k].None?;
      assert given[i + 1] == rest[i] && forall k | i + 1 < k < |given| :: given[k] == rest[k - 1];
    }
  }

  lemma OutcomeStep(j: Journal, a: Action, op: OpId)
    requires Enabled(j, a) && op in j.ops
    ensures var o, n := j.ops[op], Apply(j, a).ops;
            && op in n
            && (Finishes(j, a, op) ==> n[op].status == a.completion.status && n[op].result == Or(a.completion.result, o.result)
                                       && n[op].problem == Or(a.completion.problem, o.problem))
            && (!Finishes(j, a, op) ==> n[op].result == o.result && n[op].problem == o.problem
                                        && (Live(n[op].status) <==> Live(o.status)) && (!Live(o.status) ==> n[op].status == o.status))
  {
  }

  /** The status in the end, given the completions that were accepted. */
  ghost predicate StatusFrom(before: Status, after: Status, given: seq<Completion>) {
    if |given| > 0 then after == given[|given| - 1].status
    else (Live(after) <==> Live(before)) && (!Live(before) ==> after == before)
  }

  lemma FirstGiven(before: Option<Json>, value: Option<Json>, first: Completion, rest: seq<Completion>)
    ensures LastOf(value, Or(first.result, before), Results(rest)) ==> LastOf(value, before, Results([first] + rest))
    ensures LastOf(value, Or(first.problem, before), Problems(rest)) ==> LastOf(value, before, Problems([first] + rest))
  {
    assert Results([first] + rest) == [first.result] + Results(rest);
    assert Problems([first] + rest) == [first.problem] + Problems(rest);
    if LastOf(value, Or(first.result, before), Results(rest)) {
      LastOfCons(value, before, first.result, Results(rest));
    }
    if LastOf(value, Or(first.problem, before), Problems(rest)) {
      LastOfCons(value, before, first.problem, Problems(rest));
    }
  }

  /** What an operation shows in the end: once a finish was accepted, the status that the last accepted
      one gave, and the results and problems that were given last; without one it is as live as it was,
      with its old result and problem. */
  lemma {:induction false} OutcomeIsLastGiven(j: Journal, actions: seq<Action>, op: OpId)
    requires Legal(j, actions) && op in j.ops
    ensures var given, late := Given(j, actions, op), After(j, actions);
            && op in late.ops && StatusFrom(j.ops[op].status, late.ops[op].status, given)
            && LastOf(late.ops[op].result, j.ops[op].result, Results(given))
            && LastOf(late.ops[op].problem, j.ops[op].problem, Problems(given))
    decreases |actions|
  {
    if |actions| > 0 {
      var a, next := actions[0], Apply(j, actions[0]);
      OutcomeStep(j, a, op);
      OutcomeIsLastGiven(next, actions[1..], op);
      var rest, late := Given(next, actions[1..], op), After(j, actions);
      if Finishes(j, a, op) {
        FirstGiven(j.ops[op].result, late.ops[op].result, a.completion, rest);
        FirstGiven(j.ops[op].problem, late.ops[op].problem, a.completion, rest);
      } else {
        assert [] + rest == rest;
      }
    }
  }
}
