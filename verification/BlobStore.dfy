/** The content-addressed blob store: object files, object records and references are updated
    one after the other, any step may be the last one before a crash or an error, and
    references are dropped and temporary files cleaned without taking the storage lock. */
module BlobStore {
  import opened Common
  import opened Text

  type Sha = string
  type Token = nat
  type Time = int

  datatype State = Present | Trash
  datatype ObjectRecord = ObjectRecord(byteSize: nat, state: State)
  datatype Reference = Reference(ownerModule: string, ownerType: string, ownerId: string, purpose: string)
  datatype Intent = Intent(attempts: nat, nextAttemptAt: Time)

  /** Everything outside one operation: after how many steps it is cut off, and which references
      are dropped and whether temporary files are cleaned before each step. While the operation
      does not hold the storage lock, others also point references at stored objects (`links`);
      and they note deletions that failed (`notes`, with the time of the note). */
  datatype World = World(stopAt: nat, drops: nat -> set<Reference>, cleans: nat -> bool,
                         links: nat -> map<Reference, Sha>, notes: nat -> map<Reference, Time>)

  ghost predicate Quiet(world: World) {
    forall i :: world.drops(i) == {}
  }

  ghost predicate DroppedBefore(world: World, n: nat, r: Reference) {
    exists i | 0 <= i < n :: r in world.drops(i)
  }

  ghost predicate LinkedBefore(world: World, n: nat, r: Reference) {
    exists i | 0 <= i < n :: r in world.links(i)
  }

  ghost predicate NotedBefore(world: World, n: nat, r: Reference) {
    exists i | 0 <= i < n :: r in world.notes(i)
  }

  /** Nobody else has touched the reference or its intent. */
  ghost predicate LeftAlone(world: World, n: nat, r: Reference) {
    !DroppedBefore(world, n, r) && !LinkedBefore(world, n, r) && !NotedBefore(world, n, r)
  }

  ghost predicate CleanedBefore(world: World, n: nat) {
    exists i | 0 <= i < n :: world.cleans(i)
  }

  datatype WriteResult = Stored(sha: Sha) | LengthMismatch | WriteCutOff
  datatype SweepResult = Swept(count: nat) | SweepCutOff
  datatype CleanupResult = Recovered(count: nat) | StillFailing(reference: Reference) | CleanupCutOff

  ghost predicate Injective(hash: Bytes -> Sha) {
    forall a, b :: hash(a) == hash(b) ==> a == b
  }

  function Referenced(references: map<Reference, Sha>): set<Sha> {
    set r | r in references :: references[r]
  }

  /** A file's name is the hash of its content. */
  ghost predicate Named(hash: Bytes -> Sha, files: map<Sha, Bytes>) {
    forall sha | sha in files :: hash(files[sha]) == sha
  }

  /** A record's size is the length of the content its name stands for. */
  ghost predicate Sized(hash: Bytes -> Sha, records: map<Sha, ObjectRecord>) {
    forall sha | sha in records :: IsSize(hash, sha, records[sha].byteSize)
  }

  ghost predicate IsSize(hash: Bytes -> Sha, sha: Sha, size: nat) {
    forall b | hash(b) == sha :: |b| == size
  }

  /** Every reference has a record and a file. */
  ghost predicate Rooted(files: map<Sha, Bytes>, records: map<Sha, ObjectRecord>, references: map<Reference, Sha>) {
    forall r | r in references :: references[r] in records && references[r] in files
  }

  ghost predicate Safe(hash: Bytes -> Sha, files: map<Sha, Bytes>, records: map<Sha, ObjectRecord>, references: map<Reference, Sha>) {
    Injective(hash) && Named(hash, files) && Sized(hash, records) && Rooted(files, records, references)
  }

  /** What safety means to a reader: a reference leads to a file that holds exactly the content
      named, of the recorded length. */
  lemma ReferencesAreReadable(hash: Bytes -> Sha, files: map<Sha, Bytes>, records: map<Sha, ObjectRecord>,
                              references: map<Reference, Sha>, r: Reference, content: Bytes)
    requires Safe(hash, files, records, references) && r in references && references[r] == hash(content)
    ensures hash(content) in files && files[hash(content)] == content
    ensures hash(content) in records && records[hash(content)].byteSize == |content|
  {
    assert IsSize(hash, hash(content), records[hash(content)].byteSize);
  }

  /** `b` is `a` without some of its entries. */
  ghost predicate Within<K, V>(b: map<K, V>, a: map<K, V>) {
    forall k | k in b :: k in a && b[k] == a[k]
  }

  predicate SameEntry<K, V(==)>(a: map<K, V>, b: map<K, V>, k: K) {
    (k in a <==> k in b) && (k in a && k in b ==> a[k] == b[k])
  }

  /** An object without references is on its way out: nothing else has changed, and once the
      removal ran to its end neither the file nor the record is left. */
  ghost predicate Gone(sha: Sha, files: map<Sha, Bytes>, files': map<Sha, Bytes>,
                       records: map<Sha, ObjectRecord>, records': map<Sha, ObjectRecord>, done: bool) {
    && Within(files', files) && files.Keys <= files'.Keys + {sha}
    && (forall k | k != sha :: k in records' <==> k in records)
    && (forall k | k in records' && k != sha :: records'[k] == records[k])
    && (done ==> sha !in records' && sha !in files')
  }

  /** A sweep that still has the candidates `left` to visit. */
  ghost predicate Sweeping(candidates: map<Sha, ObjectRecord>, left: set<Sha>, referenced: set<Sha>,
                           records: map<Sha, ObjectRecord>, before: map<Sha, Bytes>, files: map<Sha, Bytes>) {
    && left <= candidates.Keys
    && (forall k :: k in records <==> k in left || (k in candidates && k in referenced))
    && (forall k | k in left :: records[k] == candidates[k])
    && (forall k | k in records && k !in left :: records[k].state == Present)
    && Within(files, before)
    && (forall k | k in before && k !in files :: k in candidates && k !in left && k !in referenced)
    && (forall k | k in candidates && k !in records :: k !in files)
  }

  lemma SweptOn(candidates: map<Sha, ObjectRecord>, left: set<Sha>, referenced: set<Sha>, records: map<Sha, ObjectRecord>,
                before: map<Sha, Bytes>, files: map<Sha, Bytes>, sha: Sha,
                records': map<Sha, ObjectRecord>, files': map<Sha, Bytes>)
    requires Sweeping(candidates, left, referenced, records, before, files) && sha in left
    requires sha in referenced ==> files' == files && records' == records[sha := records[sha].(state := Present)]
    requires sha !in referenced ==> Gone(sha, files, files', records, records', true)
    ensures Sweeping(candidates, left - {sha}, referenced, records', before, files')
  {
  }

  /** A sweep with nothing left to visit has kept exactly the referenced candidates. */
  lemma SweepDone(candidates: map<Sha, ObjectRecord>, referenced: set<Sha>, records: map<Sha, ObjectRecord>,
                  before: map<Sha, Bytes>, files: map<Sha, Bytes>)
    requires Sweeping(candidates, {}, referenced, records, before, files)
    ensures records.Keys == candidates.Keys * referenced
    ensures |candidates.Keys - referenced| == |candidates| - |records|
  {
    SplitCount(candidates.Keys, referenced);
  }

  lemma SplitCount(a: set<Sha>, b: set<Sha>)
    ensures |a - b| == |a| - |a * b|
  {
    assert a == (a - b) + a * b;
  }

  // ---- Single steps that keep safety ----

  lemma DropKeeps(hash: Bytes -> Sha, files: map<Sha, Bytes>, records: map<Sha, ObjectRecord>, references: map<Reference, Sha>,
                  fewer: map<Reference, Sha>)
    requires Safe(hash, files, records, references) && Within(fewer, references)
    ensures Safe(hash, files, records, fewer) && Referenced(fewer) <= Referenced(references)
  {
  }

  lemma RecordKeeps(hash: Bytes -> Sha, files: map<Sha, Bytes>, records: map<Sha, ObjectRecord>, references: map<Reference, Sha>,
                    content: Bytes, state: State)
    requires Safe(hash, files, records, references)
    ensures Safe(hash, files, records[hash(content) := ObjectRecord(|content|, state)], references)
    ensures hash(content) in records ==> records[hash(content)].byteSize == |content|
  {
    assert hash(content) in records ==> IsSize(hash, hash(content), records[hash(content)].byteSize);
    assert IsSize(hash, hash(content), |content|);
  }

  lemma StateKeeps(hash: Bytes -> Sha, files: map<Sha, Bytes>, records: map<Sha, ObjectRecord>, references: map<Reference, Sha>,
                   sha: Sha, state: State)
    requires Safe(hash, files, records, references) && sha in records
    ensures Safe(hash, files, records[sha := records[sha].(state := state)], references)
  {
  }

  lemma FileKeeps(hash: Bytes -> Sha, files: map<Sha, Bytes>, records: map<Sha, ObjectRecord>, references: map<Reference, Sha>,
                  content: Bytes)
    requires Safe(hash, files, records, references)
    ensures Safe(hash, files[hash(content) := content], records, references)
  {
  }

  lemma ReferKeeps(hash: Bytes -> Sha, files: map<Sha, Bytes>, records: map<Sha, ObjectRecord>, references: map<Reference, Sha>,
                   r: Reference, sha: Sha)
    requires Safe(hash, files, records, references) && sha in records && sha in files
    ensures Safe(hash, files, records, references[r := sha])
  {
  }

  lemma RemoveKeeps(hash: Bytes -> Sha, files: map<Sha, Bytes>, records: map<Sha, ObjectRecord>, references: map<Reference, Sha>,
                    sha: Sha)
    requires Safe(hash, files, records, references) && sha !in Referenced(references)
    ensures Safe(hash, files - {sha}, records, references) && Safe(hash, files, records - {sha}, references)
  {
    assert forall r | r in references :: references[r] in Referenced(references);
  }

  function Due(intents: map<Reference, Intent>, now: Time): set<Reference> {
    set r | r in intents && intents[r].nextAttemptAt <= now
  }

  /** The intent that noting a failed deletion leaves. */
  function Noted(intents: map<Reference, Intent>, r: Reference, now: Time): Intent {
    Intent(if r in intents then intents[r].attempts else 0, now)
  }

  function NotedAll(intents: map<Reference, Intent>, notes: map<Reference, Time>): map<Reference, Intent> {
    map r | r in intents.Keys + notes.Keys :: if r in notes then Noted(intents, r, notes[r]) else intents[r]
  }

  /** The new references that lead to stored objects. */
  function OfStored(links: map<Reference, Sha>, files: map<Sha, Bytes>, records: map<Sha, ObjectRecord>): map<Reference, Sha> {
    map r | r in links && links[r] in files && links[r] in records :: links[r]
  }

  lemma LinksKeep(hash: Bytes -> Sha, files: map<Sha, Bytes>, records: map<Sha, ObjectRecord>, references: map<Reference, Sha>,
                  links: map<Reference, Sha>)
    requires Safe(hash, files, records, references)
    ensures Safe(hash, files, records, references + OfStored(links, files, records))
  {
  }

  function Backoff(intent: Intent, later: Time): Intent {
    Intent(intent.attempts + 1, later + 1000 * Min(Pow2(Min(intent.attempts, 6)), 60))
  }

  /** The intent is still there, and as it was unless others noted it again. */
  ghost predicate StillNoted(before: map<Reference, Intent>, intents: map<Reference, Intent>, r: Reference, world: World, n: nat)
    requires r in before
  {
    && r in intents && intents[r].attempts == before[r].attempts
    && (intents[r] == before[r] || NotedBefore(world, n, r))
  }

  /** What is left of a deletion that was retried comes from others. */
  ghost predicate Cleaned(references: map<Reference, Sha>, intents: map<Reference, Intent>, r: Reference, world: World, n: nat) {
    (r in references ==> LinkedBefore(world, n, r)) && (r in intents ==> NotedBefore(world, n, r))
  }

  /** What a run that has deleted the references `deleted` and then forgotten the intents `handled` means for one
      reference, after `n` steps; `refs` and `notes` are what there was before. */
  ghost predicate Fate(refs: map<Reference, Sha>, notes: map<Reference, Intent>, references: map<Reference, Sha>,
                       intents: map<Reference, Intent>, deleted: set<Reference>, handled: set<Reference>, world: World, n: nat,
                       r: Reference) {
    && (r in refs && r !in references ==> r in deleted || DroppedBefore(world, n, r))
    && (r in references && (r !in refs || references[r] != refs[r]) ==> LinkedBefore(world, n, r))
    && (r in notes && r !in handled ==> StillNoted(notes, intents, r, world, n))
    && (r in intents && r !in notes ==> NotedBefore(world, n, r))
    && (r in handled ==> Cleaned(references, intents, r, world, n))
  }

  ghost predicate Recovering(refs: map<Reference, Sha>, notes: map<Reference, Intent>, references: map<Reference, Sha>,
                             intents: map<Reference, Intent>, deleted: set<Reference>, handled: set<Reference>, world: World, n: nat) {
    forall r :: Fate(refs, notes, references, intents, deleted, handled, world, n, r)
  }

  /** A reference goes only if it is due, no other intent is lost, and what is new comes from others. */
  ghost predicate GoesIfDue(refs: map<Reference, Sha>, notes: map<Reference, Intent>, references: map<Reference, Sha>,
                            intents: map<Reference, Intent>, due: set<Reference>, world: World, n: nat, r: Reference) {
    && (r in refs && r !in references ==> r in due || DroppedBefore(world, n, r))
    && (r in references && (r !in refs || references[r] != refs[r]) ==> LinkedBefore(world, n, r))
    && (r in notes && r !in due ==> StillNoted(notes, intents, r, world, n))
    && (r in intents && r !in notes ==> NotedBefore(world, n, r))
  }

  ghost predicate OnlyDueGo(refs: map<Reference, Sha>, notes: map<Reference, Intent>, references: map<Reference, Sha>,
                            intents: map<Reference, Intent>, due: set<Reference>, world: World, n: nat) {
    forall r :: GoesIfDue(refs, notes, references, intents, due, world, n, r)
  }

  /** An intent of `due`, except that of `but`, is forgotten only with its reference. */
  ghost predicate NoneForgotten(notes: map<Reference, Intent>, references: map<Reference, Sha>, intents: map<Reference, Intent>,
                                due: set<Reference>, but: set<Reference>, world: World, n: nat)
    requires due <= notes.Keys
  {
    forall r | r in due && r !in but :: Cleaned(references, intents, r, world, n) || StillNoted(notes, intents, r, world, n)
  }

  /** How a run of the recovery may end. */
  ghost predicate CleanupOk(result: CleanupResult, refs: map<Reference, Sha>, notes: map<Reference, Intent>,
                            references: map<Reference, Sha>, intents: map<Reference, Intent>, due: set<Reference>,
                            world: World, n: nat, later: Time)
    requires due <= notes.Keys
  {
    && OnlyDueGo(refs, notes, references, intents, due, world, n)
    && match result
       case CleanupCutOff => NoneForgotten(notes, references, intents, due, {}, world, n)
       case Recovered(count) => count == |due| && forall r | r in due :: Cleaned(references, intents, r, world, n)
       case StillFailing(r) =>
         && r in due && r in intents && intents[r] == Backoff(notes[r], later)
         && (r in refs && r !in references ==> DroppedBefore(world, n, r))
         && NoneForgotten(notes, references, intents, due, {r}, world, n)
  }

  lemma RecoveringCutOff(refs: map<Reference, Sha>, notes: map<Reference, Intent>, references: map<Reference, Sha>,
                         intents: map<Reference, Intent>, due: set<Reference>, deleted: set<Reference>, handled: set<Reference>,
                         world: World, n: nat, later: Time)
    requires Recovering(refs, notes, references, intents, deleted, handled, world, n)
    requires deleted <= due && handled <= due <= notes.Keys
    ensures CleanupOk(CleanupCutOff, refs, notes, references, intents, due, world, n, later)
    ensures handled == due ==> CleanupOk(Recovered(|due|), refs, notes, references, intents, due, world, n, later)
  {
    forall r: Reference
      ensures GoesIfDue(refs, notes, references, intents, due, world, n, r)
      ensures r in due ==> Cleaned(references, intents, r, world, n) || StillNoted(notes, intents, r, world, n)
      ensures r in handled ==> Cleaned(references, intents, r, world, n)
    {
      assert Fate(refs, notes, references, intents, deleted, handled, world, n, r);
    }
  }

  lemma RecoveringFails(refs: map<Reference, Sha>, notes: map<Reference, Intent>, references: map<Reference, Sha>,
                        intents: map<Reference, Intent>, due: set<Reference>, handled: set<Reference>, world: World, n: nat,
                        later: Time, r: Reference)
    requires Recovering(refs, notes, references, intents, handled, handled, world, n)
    requires handled <= due <= notes.Keys && r in due && r !in handled
    ensures r in intents
    ensures CleanupOk(StillFailing(r), refs, notes, references, intents[r := Backoff(intents[r], later)], due, world, n, later)
  {
    assert Fate(refs, notes, references, intents, handled, handled, world, n, r);
    var intents' := intents[r := Backoff(intents[r], later)];
    forall x: Reference
      ensures GoesIfDue(refs, notes, references, intents', due, world, n, x)
      ensures x in due && x != r ==> Cleaned(references, intents', x, world, n) || StillNoted(notes, intents', x, world, n)
    {
      assert Fate(refs, notes, references, intents, handled, handled, world, n, x);
    }
  }

  /** What a completed recovery at `now` leaves of a reference that others leave alone: with an intent due by then,
      neither the reference nor the intent; otherwise both as they were. Storing a reference does not clear an intent
      from a deletion that failed before, so a reference that was stored again goes with the next recovery. */
  lemma SurvivesIff(count: nat, refs: map<Reference, Sha>, notes: map<Reference, Intent>, references: map<Reference, Sha>,
                    intents: map<Reference, Intent>, now: Time, world: World, n: nat, later: Time, r: Reference)
    requires CleanupOk(Recovered(count), refs, notes, references, intents, Due(notes, now), world, n, later)
    requires LeftAlone(world, n, r)
    ensures r in references <==> r in refs && !(r in notes && notes[r].nextAttemptAt <= now)
    ensures r in references ==> references[r] == refs[r]
    ensures r in intents <==> r in notes && notes[r].nextAttemptAt > now
    ensures r in intents ==> intents[r] == notes[r]
  {
    assert GoesIfDue(refs, notes, references, intents, Due(notes, now), world, n, r);
    assert r in Due(notes, now) ==> Cleaned(references, intents, r, world, n);
  }

  /** A deletion that could not be made at `t`, and was noted then, is made by a completed recovery at `t` or later. */
  lemma FailedDropIsMade(count: nat, refs: map<Reference, Sha>, notes: map<Reference, Intent>, references: map<Reference, Sha>,
                         intents: map<Reference, Intent>, now: Time, world: World, n: nat, later: Time, r: Reference, t: Time)
    requires r in notes && notes[r].nextAttemptAt == t && t <= now && LeftAlone(world, n, r)
    requires CleanupOk(Recovered(count), refs, notes, references, intents, Due(notes, now), world, n, later)
    ensures r !in references && r !in intents
  {
    SurvivesIff(count, refs, notes, references, intents, now, world, n, later, r);
  }

  /** A recovery that is cut off or stopped by a failure forgets no deletion: a due intent that others leave alone is
      there, as it was, unless its reference is gone. */
  lemma NoDeletionIsForgotten(result: CleanupResult, refs: map<Reference, Sha>, notes: map<Reference, Intent>,
                              references: map<Reference, Sha>, intents: map<Reference, Intent>, now: Time, world: World, n: nat,
                              later: Time, r: Reference)
    requires CleanupOk(result, refs, notes, references, intents, Due(notes, now), world, n, later)
    requires LeftAlone(world, n, r) && r in notes && result != StillFailing(r)
    ensures r in intents ==> intents[r] == notes[r]
    ensures r !in intents ==> notes[r].nextAttemptAt <= now && r !in references
  {
    var due := Due(notes, now);
    assert GoesIfDue(refs, notes, references, intents, due, world, n, r);
    assert r in due ==> Cleaned(references, intents, r, world, n) || StillNoted(notes, intents, r, world, n);
  }

  /** How long a deletion that failed again waits, in seconds. */
  predicate BackedOff(before: Intent, after: Intent, later: Time) {
    && after.attempts == before.attempts + 1
    && after.nextAttemptAt == later + 1000 * (if before.attempts >= 6 then 60 else [1, 2, 4, 8, 16, 32][before.attempts])
  }

  /** What a completed recovery has done. */
  lemma RecoveredMeans(result: CleanupResult, refs: map<Reference, Sha>, notes: map<Reference, Intent>,
                       references: map<Reference, Sha>, intents: map<Reference, Intent>, now: Time, world: World, n: nat, later: Time)
    requires CleanupOk(result, refs, notes, references, intents, Due(notes, now), world, n, later)
    ensures result.Recovered? ==> result.count == |set r | r in notes && notes[r].nextAttemptAt <= now|
    ensures result.Recovered? ==> forall r | LeftAlone(world, n, r) ::
              if r in notes && notes[r].nextAttemptAt <= now
              then r !in references && r !in intents
              else SameEntry(references, refs, r) && SameEntry(intents, notes, r)
  {
    if result.Recovered? {
      assert Due(notes, now) == set r | r in notes && notes[r].nextAttemptAt <= now;
      forall r | LeftAlone(world, n, r)
        ensures if r in notes && notes[r].nextAttemptAt <= now then r !in references && r !in intents
                else SameEntry(references, refs, r) && SameEntry(intents, notes, r)
      {
        SurvivesIff(result.count, refs, notes, references, intents, now, world, n, later, r);
      }
    }
  }

  /** What a recovery that was stopped by a failure has done to the reference that failed. */
  lemma FailingMeans(result: CleanupResult, refs: map<Reference, Sha>, notes: map<Reference, Intent>,
                     references: map<Reference, Sha>, intents: map<Reference, Intent>, now: Time, world: World, n: nat, later: Time)
    requires CleanupOk(result, refs, notes, references, intents, Due(notes, now), world, n, later)
    ensures result.StillFailing? ==>
              var r := result.reference;
              && r in notes && notes[r].nextAttemptAt <= now && r in intents && BackedOff(notes[r], intents[r], later)
              && (LeftAlone(world, n, r) ==> SameEntry(references, refs, r))
  {
    if result.StillFailing? {
      BackoffIs(notes[result.reference], later);
      assert GoesIfDue(refs, notes, references, intents, Due(notes, now), world, n, result.reference);
    }
  }

  lemma BackoffIs(before: Intent, later: Time)
    ensures BackedOff(before, Backoff(before, later), later)
  {
    assert Pow2(0) == 1 && Pow2(2) == 4 && Pow2(4) == 16 && Pow2(6) == 64;
    assert Pow2(1) == 2 && Pow2(3) == 8 && Pow2(5) == 32;
  }

  lemma LaterBefore(world: World, n: nat, r: Reference)
    ensures DroppedBefore(world, n + 1, r) <==> DroppedBefore(world, n, r) || r in world.drops(n)
    ensures LinkedBefore(world, n + 1, r) <==> LinkedBefore(world, n, r) || r in world.links(n)
    ensures NotedBefore(world, n + 1, r) <==> NotedBefore(world, n, r) || r in world.notes(n)
  {
  }

  /** Others act between two steps. */
  lemma RecoveringPass(refs: map<Reference, Sha>, notes: map<Reference, Intent>, references: map<Reference, Sha>,
                       intents: map<Reference, Intent>, deleted: set<Reference>, handled: set<Reference>, world: World, n: nat,
                       references': map<Reference, Sha>)
    requires Recovering(refs, notes, references, intents, deleted, handled, world, n)
    requires forall r | r in references && r !in references' :: r in world.drops(n)
    requires forall r | r in references' :: SameEntry(references', references, r) || r in world.links(n)
    ensures Recovering(refs, notes, references', NotedAll(intents, world.notes(n)), deleted, handled, world, n + 1)
  {
    var intents', m := NotedAll(intents, world.notes(n)), n + 1;
    forall r: Reference
      ensures Fate(refs, notes, references', intents', deleted, handled, world, m, r)
    {
      assert Fate(refs, notes, references, intents, deleted, handled, world, n, r);
      LaterBefore(world, n, r);
    }
  }

  /** Deleting a due reference. */
  lemma RecoveringDeletes(refs: map<Reference, Sha>, notes: map<Reference, Intent>, references: map<Reference, Sha>,
                          intents: map<Reference, Intent>, deleted: set<Reference>, handled: set<Reference>, world: World, n: nat,
                          r: Reference)
    requires Recovering(refs, notes, references, intents, deleted, handled, world, n)
    ensures Recovering(refs, notes, references - {r}, intents, deleted + {r}, handled, world, n)
  {
    var references', deleted' := references - {r}, deleted + {r};
    forall x: Reference
      ensures Fate(refs, notes, references', intents, deleted', handled, world, n, x)
    {
      assert Fate(refs, notes, references, intents, deleted, handled, world, n, x);
    }
  }

  /** Forgetting the intent of a reference that only others can have made again. */
  lemma RecoveringForgets(refs: map<Reference, Sha>, notes: map<Reference, Intent>, references: map<Reference, Sha>,
                          intents: map<Reference, Intent>, deleted: set<Reference>, handled: set<Reference>, world: World, n: nat,
                          r: Reference)
    requires Recovering(refs, notes, references, intents, deleted, handled, world, n)
    requires r in references ==> LinkedBefore(world, n, r)
    ensures Recovering(refs, notes, references, intents - {r}, deleted, handled + {r}, world, n)
  {
    var intents', handled' := intents - {r}, handled + {r};
    forall x: Reference
      ensures Fate(refs, notes, references, intents', deleted, handled', world, n, x)
    {
      assert Fate(refs, notes, references, intents, deleted, handled, world, n, x);
    }
  }

  class Store {
    const hash: Bytes -> Sha
    var files: map<Sha, Bytes>
    var incoming: map<Token, Bytes>
    var records: map<Sha, ObjectRecord>
    var references: map<Reference, Sha>
    var intents: map<Reference, Intent>
    /** Steps taken by the running operation. */
    var step: nat

    ghost predicate Valid()
      reads this
    {
      Safe(hash, files, records, references)
    }

    constructor (hash: Bytes -> Sha)
      requires Injective(hash)
      ensures Valid() && references == map[] && records == map[] && files == map[]
    {
      this.hash := hash;
      files, incoming, records, references, intents, step := map[], map[], map[], map[], map[], 0;
    }

    /** Between two steps others may drop references and clean temporary files, and the operation may be cut off. */
    method Pass(world: World) returns (alive: bool)
      requires Valid()
      modifies this`references, this`incoming, this`step
      ensures Valid() && Within(references, old(references)) && Referenced(references) <= Referenced(old(references))
      ensures world.drops(old(step)) == {} ==> references == old(references)
      ensures references == old(references) - world.drops(old(step)) && step == old(step) + 1
      ensures incoming == if world.cleans(old(step)) then map[] else old(incoming)
      ensures alive <==> old(step) < world.stopAt
    {
      DropKeeps(hash, files, records, references, references - world.drops(step));
      references := references - world.drops(step);
      if world.cleans(step) {
        incoming := map[];
      }
      alive := step < world.stopAt;
      step := step + 1;
    }

    /** The same without the storage lock: others also add references and note failed deletions. */
    method PassUnlocked(world: World) returns (alive: bool)
      requires Valid()
      modifies this`references, this`incoming, this`intents, this`step
      ensures Valid() && step == old(step) + 1 && (alive <==> old(step) < world.stopAt)
      ensures intents == NotedAll(old(intents), world.notes(old(step)))
      ensures forall r | r in old(references) && r !in references :: r in world.drops(old(step))
      ensures forall r | r in references :: SameEntry(references, old(references), r) || r in world.links(old(step))
    {
      intents := NotedAll(intents, world.notes(step));
      ghost var n := step;
      alive := Pass(world);
      LinksKeep(hash, files, records, references, world.links(n));
      references := references + OfStored(world.links(step - 1), files, records);
    }

    /** One transaction: insert the record unless there is one, and point the reference at it. */
    method RegisterReference(sha: Sha, size: nat, reference: Reference, ghost content: Bytes)
      requires Valid() && sha in files && hash(content) == sha && |content| == size
      modifies this`records, this`references
      ensures Valid()
      ensures records == if sha in old(records) then old(records) else old(records)[sha := ObjectRecord(size, Present)]
      ensures references == old(references)[reference := sha]
    {
      RecordKeeps(hash, files, records, references, content, Present);
      if sha !in records {
        records := records[sha := ObjectRecord(size, Present)];
      }
      ReferKeeps(hash, files, records, references, reference, sha);
      references := references[reference := sha];
    }

    /** Check the recorded length of a present object; rebuild a lost record from the file. */
    method VerifyLength(sha: Sha, expected: nat) returns (ok: bool)
      requires Valid() && sha in files
      modifies this`records
      ensures Valid()
      ensures records == if sha in old(records) then old(records) else old(records)[sha := ObjectRecord(|files[sha]|, Present)]
      ensures ok <==> (sha in old(records) ==> old(records)[sha].byteSize == expected)
    {
      RecordKeeps(hash, files, records, references, files[sha], Present);
      if sha in records {
        return records[sha].byteSize == expected;
      }
      records := records[sha := ObjectRecord(|files[sha]|, Present)];
      return true;
    }

    /** A file of that name is there: check its recorded length, which always agrees. */
    method ConfirmFile(bytes: Bytes, sha: Sha, world: World) returns (known: bool, alive: bool)
      requires Valid() && sha == hash(bytes) && sha in files
      modifies this`records, this`references, this`incoming, this`step
      ensures Valid() && known && Within(references, old(references))
      ensures Quiet(world) ==> references == old(references)
      ensures records == if sha in old(records) then old(records) else old(records)[sha := ObjectRecord(|bytes|, Present)]
      ensures step == old(step) + 1 && (alive <==> old(step) < world.stopAt)
    {
      RecordKeeps(hash, files, records, references, bytes, Present);
      known := VerifyLength(sha, |bytes|);
      alive := Pass(world);
    }

    /** Write the content under a temporary name, then rename it into place. */
    method PlaceFile(bytes: Bytes, sha: Sha, token: Token, world: World) returns (alive: bool)
      requires Valid() && sha == hash(bytes) && sha !in files && token !in incoming
      modifies this`files, this`incoming, this`references, this`step
      ensures Valid() && Within(references, old(references))
      ensures Quiet(world) ==> references == old(references)
      ensures files == if sha in files then old(files)[sha := bytes] else old(files)
      ensures alive ==> sha in files
      ensures step <= old(step) + 3 && (alive ==> step <= world.stopAt)
      ensures !alive ==> world.stopAt < step || CleanedBefore(world, step)
    {
      incoming := incoming[token := []];
      alive := Pass(world);
      if !alive || token !in incoming { return false; }
      incoming := incoming[token := bytes];
      alive := Pass(world);
      if !alive || token !in incoming { return false; }
      FileKeeps(hash, files, records, references, bytes);
      files, incoming := files[sha := incoming[token]], incoming - {token};
      alive := Pass(world);
    }

    /** Confirm the file, or place it. */
    method EnsureFile(bytes: Bytes, sha: Sha, token: Token, world: World) returns (known: bool, alive: bool)
      requires Valid() && sha == hash(bytes) && token !in incoming
      modifies this`files, this`incoming, this`records, this`references, this`step
      ensures Valid() && known && Within(references, old(references)) && (alive ==> sha in files)
      ensures Quiet(world) ==> references == old(references)
      ensures files == if sha in files && sha !in old(files) then old(files)[sha := bytes] else old(files)
      ensures records == if sha in records && sha !in old(records) then old(records)[sha := ObjectRecord(|bytes|, Present)]
                         else old(records)
      ensures step <= old(step) + 3 && (!alive ==> world.stopAt < step || CleanedBefore(world, step))
    {
      known := true;
      if sha in files {
        known, alive := ConfirmFile(bytes, sha, world);
      } else {
        alive := PlaceFile(bytes, sha, token, world);
      }
    }

    /** However the write ends, every reference still leads to its content. A stored result means
        the reference is in place; a length mismatch is never reported. */
    method Write(bytes: Bytes, reference: Reference, token: Token, world: World) returns (result: WriteResult)
      requires Valid() && token !in incoming
      modifies this`files, this`incoming, this`records, this`references, this`step
      ensures Valid() && result != LengthMismatch
      ensures result.Stored? ==> result.sha == hash(bytes) && reference in references && references[reference] == hash(bytes)
      ensures Within(if result.Stored? then references - {reference} else references, old(references))
      ensures Quiet(world) ==> references == if result.Stored? then old(references)[reference := hash(bytes)] else old(references)
      ensures intents == old(intents)
      ensures files == if hash(bytes) in files && hash(bytes) !in old(files) then old(files)[hash(bytes) := bytes] else old(files)
      ensures records == if hash(bytes) in records && hash(bytes) !in old(records)
                         then old(records)[hash(bytes) := ObjectRecord(|bytes|, Present)] else old(records)
      ensures step <= 3 && (result.WriteCutOff? ==> world.stopAt < step || CleanedBefore(world, step))
    {
      step := 0;
      var sha := hash(bytes);
      var known, alive := EnsureFile(bytes, sha, token, world);
      if !known {
        result := LengthMismatch;
      } else if !alive {
        result := WriteCutOff;
      } else {
        RegisterReference(sha, |bytes|, reference, bytes);
        result := Stored(sha);
      }
    }

    /** Remove a reference, or note for later that it could not be removed. */
    method DropReference(reference: Reference, reachable: bool, now: Time) returns (existed: Option<bool>)
      requires Valid()
      modifies this`references, this`intents
      ensures Valid()
      ensures references == if reachable then old(references) - {reference} else old(references)
      ensures existed == if reachable then Some(reference in old(references)) else None
      ensures reachable ==> intents == old(intents)
      ensures !reachable ==> reference in intents && intents[reference].nextAttemptAt == now
                             && intents - {reference} == old(intents) - {reference}
                             && intents[reference].attempts == if reference in old(intents) then old(intents)[reference].attempts else 0
    {
      if reachable {
        existed := Some(reference in references);
        references := references - {reference};
      } else {
        intents := intents[reference := Noted(intents, reference, now)];
        existed := None;
      }
    }

    /** Others between two steps of the recovery; what they bring back is theirs. */
    method PassRecovering(world: World, ghost refs: map<Reference, Sha>, ghost notes: map<Reference, Intent>,
                          ghost deleted: set<Reference>, ghost handled: set<Reference>, ghost r: Reference) returns (alive: bool)
      requires Valid() && Recovering(refs, notes, references, intents, deleted, handled, world, step)
      modifies this`references, this`intents, this`incoming, this`step
      ensures Valid() && Recovering(refs, notes, references, intents, deleted, handled, world, step)
      ensures r !in old(references) && r in references ==> r in world.links(old(step))
      ensures step == old(step) + 1 && (alive <==> old(step) < world.stopAt)
    {
      ghost var references0, intents0, n := references, intents, step;
      alive := PassUnlocked(world);
      RecoveringPass(refs, notes, references0, intents0, deleted, handled, world, n, references);
    }

    /** Delete one due reference, then its intent. */
    method DeleteDue(r: Reference, world: World, ghost refs: map<Reference, Sha>, ghost notes: map<Reference, Intent>,
                     ghost handled: set<Reference>) returns (alive: bool)
      requires Valid() && Recovering(refs, notes, references, intents, handled, handled, world, step)
      modifies this`references, this`intents, this`incoming, this`step
      ensures Valid()
      ensures Recovering(refs, notes, references, intents, handled + {r}, if alive then handled + {r} else handled, world, step)
      ensures step == old(step) + 1 && (alive <==> old(step) < world.stopAt)
    {
      DropKeeps(hash, files, records, references, references - {r});
      RecoveringDeletes(refs, notes, references, intents, handled, handled, world, step, r);
      references := references - {r};
      ghost var n := step;
      alive := PassRecovering(world, refs, notes, handled + {r}, handled, r);
      if alive {
        LaterBefore(world, n, r);
        RecoveringForgets(refs, notes, references, intents, handled + {r}, handled, world, step, r);
        intents := intents - {r};
      }
    }

    /** One due intent: delete its reference and then the intent, or back it off and stop. */
    method RecoverOne(r: Reference, reachable: bool, later: Time, world: World, ghost refs: map<Reference, Sha>,
                      ghost notes: map<Reference, Intent>, ghost due: set<Reference>, ghost handled: set<Reference>)
      returns (stop: Option<CleanupResult>)
      requires Valid() && Recovering(refs, notes, references, intents, handled, handled, world, step)
      requires handled <= due <= notes.Keys && r in due && r !in handled && step <= world.stopAt
      modifies this`references, this`intents, this`incoming, this`step
      ensures Valid()
      ensures stop.None? ==> Recovering(refs, notes, references, intents, handled + {r}, handled + {r}, world, step)
      ensures stop.Some? ==> CleanupOk(stop.value, refs, notes, references, intents, due, world, step, later)
      ensures stop == Some(CleanupCutOff) <==> world.stopAt < step
      ensures old(step) < step <= old(step) + 2
      ensures if world.stopAt < step then true else if reachable then stop == None else stop == Some(StillFailing(r))
    {
      var alive := PassRecovering(world, refs, notes, handled, handled, r);
      RecoveringCutOff(refs, notes, references, intents, due, handled, handled, world, step, later);
      if !alive { return Some(CleanupCutOff); }
      if !reachable {
        RecoveringFails(refs, notes, references, intents, due, handled, world, step, later, r);
        intents := intents[r := Backoff(intents[r], later)];
        return Some(StillFailing(r));
      }
      alive := DeleteDue(r, world, refs, notes, handled);
      if alive { return None; }
      RecoveringCutOff(refs, notes, references, intents, due, handled + {r}, handled, world, step, later);
      return Some(CleanupCutOff);
    }

    /** Retry the deletions that failed. Whatever others do meanwhile, only due references go and no
        intent is lost that was not due. Reached to the end, a due reference is there only if others
        made it again and its intent only if others noted it again; an unreachable reference is
        backed off and stops the run. */
    method RecoverCleanup(now: Time, later: Time, reachable: set<Reference>, world: World) returns (result: CleanupResult)
      requires Valid()
      modifies this`references, this`intents, this`incoming, this`step
      ensures Valid()
      ensures CleanupOk(result, old(references), old(intents), references, intents, Due(old(intents), now), world, step, later)
      ensures result.CleanupCutOff? <==> world.stopAt < step
      ensures result.Recovered? ==>
                && result.count == |set r | r in old(intents) && old(intents)[r].nextAttemptAt <= now|
                && forall r | r in old(intents) && old(intents)[r].nextAttemptAt <= now :: r in reachable
      ensures result.Recovered? ==> forall r | LeftAlone(world, step, r) ::
                if r in old(intents) && old(intents)[r].nextAttemptAt <= now
                then r !in references && r !in intents
                else SameEntry(references, old(references), r) && SameEntry(intents, old(intents), r)
      ensures result.StillFailing? ==>
                var r := result.reference;
                && r in old(intents) && old(intents)[r].nextAttemptAt <= now && r !in reachable
                && r in intents && BackedOff(old(intents)[r], intents[r], later)
                && (LeftAlone(world, step, r) ==> SameEntry(references, old(references), r))
    {
      ghost var refs, notes := references, intents;
      result := RetryDue(Due(intents, now), later, reachable, world);
      RecoveredMeans(result, refs, notes, references, intents, now, world, step, later);
      FailingMeans(result, refs, notes, references, intents, now, world, step, later);
    }

    /** Retry `due` one after the other, up to the first that is unreachable. */
    method RetryDue(due: set<Reference>, later: Time, reachable: set<Reference>, world: World) returns (result: CleanupResult)
      requires Valid() && due <= intents.Keys
      modifies this`references, this`intents, this`incoming, this`step
      ensures Valid()
      ensures CleanupOk(result, old(references), old(intents), references, intents, due, world, step, later)
      ensures result.CleanupCutOff? <==> world.stopAt < step
      ensures result.Recovered? ==> due <= reachable
      ensures result.StillFailing? ==> result.reference !in reachable
    {
      step := 0;
      ghost var refs, notes, handled := references, intents, {};
      var left := due;
      var recovered := 0;
      while left != {}
        invariant due == left + handled && left !! handled && recovered == |handled| && Valid()
        invariant Recovering(refs, notes, references, intents, handled, handled, world, step)
        invariant step <= world.stopAt && handled <= reachable
        decreases left
      {
        var r :| r in left;
        var stop := RecoverOne(r, r in reachable, later, world, refs, notes, due, handled);
        if stop.Some? { return stop.value; }
        recovered, handled := recovered + 1, handled + {r};
        left := left - {r};
      }
      RecoveringCutOff(refs, notes, references, intents, due, handled, handled, world, step, later);
      return Recovered(recovered);
    }

    /** One candidate of the sweep: keep it if the snapshot of references names it, else mark it
        trash, delete its file, and delete its record. */
    method SweepOne(sha: Sha, state: State, referenced: set<Sha>, world: World) returns (alive: bool)
      requires Valid() && sha in records && records[sha].state == state && Referenced(references) <= referenced
      modifies this`files, this`incoming, this`records, this`references, this`step
      ensures Valid() && Within(references, old(references)) && Referenced(references) <= referenced
      ensures Quiet(world) ==> references == old(references)
      ensures sha in referenced ==> files == old(files) && records == old(records)[sha := old(records)[sha].(state := Present)]
      ensures sha !in referenced ==> Gone(sha, old(files), files, old(records), records, alive)
      ensures (alive ==> step <= world.stopAt) && (!alive ==> world.stopAt < step)
    {
      if sha in referenced {
        StateKeeps(hash, files, records, references, sha, Present);
        records := records[sha := records[sha].(state := Present)];
        alive := Pass(world);
      } else {
        alive := Discard(sha, state, world);
      }
    }

    /** Mark an object without references as trash, delete its file, then its record. */
    method Discard(sha: Sha, state: State, world: World) returns (alive: bool)
      requires Valid() && sha in records && records[sha].state == state && sha !in Referenced(references)
      modifies this`files, this`incoming, this`records, this`references, this`step
      ensures Valid() && Within(references, old(references)) && Referenced(references) <= Referenced(old(references))
      ensures Quiet(world) ==> references == old(references)
      ensures Gone(sha, old(files), files, old(records), records, alive)
      ensures (alive ==> step <= world.stopAt) && (!alive ==> world.stopAt < step)
    {
      if state == Present {
        StateKeeps(hash, files, records, references, sha, Trash);
        records := records[sha := records[sha].(state := Trash)];
      }
      alive := Pass(world);
      if !alive { return; }
      RemoveKeeps(hash, files, records, references, sha);
      files := files - {sha};
      alive := Pass(world);
      if !alive { return; }
      if sha in Referenced(references) {
        // Adding a reference takes the lock, so the final check for a new one finds none.
        assert false;
      }
      RemoveKeeps(hash, files, records, references, sha);
      if records[sha].state == Trash {
        records := records - {sha};
      } else {
        assert false;
      }
    }

    /** However the sweep ends, safety holds. A completed sweep leaves exactly the records that were
        referenced when it looked, all present, and no file of a record it removed; with nothing
        dropped meanwhile, exactly the records referenced now. */
    method SweepUnreferenced(world: World) returns (result: SweepResult)
      requires Valid()
      modifies this`files, this`incoming, this`records, this`references, this`step
      ensures Valid() && Within(references, old(references)) && Within(files, old(files))
      ensures forall sha | sha in old(files) && sha !in old(records) :: sha in files
      ensures records.Keys <= old(records).Keys
      ensures result.Swept? ==> forall sha | sha in records :: records[sha].state == Present && sha in Referenced(old(references))
      ensures result.Swept? ==> forall sha | sha in old(records) && sha !in records :: sha !in files
      ensures result.Swept? && Quiet(world) ==> references == old(references) && records.Keys == Referenced(references)
      ensures result.Swept? ==> result.count == |old(records)| - |records|
      ensures result.SweepCutOff? <==> world.stopAt < step
    {
      step := 0;
      var candidates := records;
      var alive := Pass(world);
      var referenced := Referenced(references);
      if !alive { return SweepCutOff; }
      var swept;
      ghost var before := files;
      alive, swept := SweepAll(candidates, referenced, world);
      if !alive { return SweepCutOff; }
      SweepDone(candidates, referenced, records, before, files);
      return Swept(swept);
    }

    /** Only candidates lose their file or record. */
    ghost predicate OnlyFrom(candidates: map<Sha, ObjectRecord>, before: map<Sha, Bytes>)
      reads this
    {
      && Within(files, before) && records.Keys <= candidates.Keys
      && forall sha | sha in before && sha !in files :: sha in candidates
    }

    /** Visit one candidate; the sweep goes on with the others. */
    method Visit(sha: Sha, candidates: map<Sha, ObjectRecord>, ghost left: set<Sha>, referenced: set<Sha>,
                 ghost before: map<Sha, Bytes>, world: World) returns (alive: bool)
      requires Valid() && Sweeping(candidates, left, referenced, records, before, files) && sha in left
      requires Referenced(references) <= referenced
      modifies this`files, this`incoming, this`records, this`references, this`step
      ensures Valid() && Within(references, old(references)) && Referenced(references) <= referenced
      ensures Quiet(world) ==> references == old(references)
      ensures alive ==> Sweeping(candidates, left - {sha}, referenced, records, before, files)
      ensures OnlyFrom(candidates, before)
      ensures (alive ==> step <= world.stopAt) && (!alive ==> world.stopAt < step)
    {
      ghost var records0, files0 := records, files;
      alive := SweepOne(sha, candidates[sha].state, referenced, world);
      if alive || sha in referenced {
        SweptOn(candidates, left, referenced, records0, before, files0, sha, records, files);
      }
    }

    /** Visit every candidate, unless cut off. */
    method SweepAll(candidates: map<Sha, ObjectRecord>, referenced: set<Sha>, world: World)
      returns (alive: bool, swept: nat)
      requires Valid() && candidates == records && Referenced(references) <= referenced
      modifies this`files, this`incoming, this`records, this`references, this`step
      ensures Valid() && Within(references, old(references))
      ensures Quiet(world) ==> references == old(references)
      ensures alive ==> Sweeping(candidates, {}, referenced, records, old(files), files)
      ensures alive ==> swept == |candidates.Keys - referenced|
      ensures OnlyFrom(candidates, old(files))
      ensures old(step) <= world.stopAt ==> (alive <==> step <= world.stopAt)
    {
      var left := candidates.Keys;
      alive, swept := true, 0;
      ghost var removed := {};
      while left != {}
        invariant Valid() && Within(references, old(references)) && Referenced(references) <= referenced
        invariant Quiet(world) ==> references == old(references)
        invariant Sweeping(candidates, left, referenced, records, old(files), files)
        invariant OnlyFrom(candidates, old(files))
        invariant old(step) <= world.stopAt ==> step <= world.stopAt
        invariant swept == |removed|
        invariant forall k :: k in removed <==> k in candidates && k !in left && k !in referenced
        decreases left
      {
        var sha :| sha in left;
        alive := Visit(sha, candidates, left, referenced, old(files), world);
        if !alive { return; }
        left := left - {sha};
        if sha !in referenced {
          swept, removed := swept + 1, removed + {sha};
        }
      }
      assert removed == candidates.Keys - referenced;
    }

    /** Remove what interrupted writes left behind. */
    method CleanIncoming()
      modifies this`incoming
      ensures incoming == map[]
    {
      var entries := incoming.Keys;
      while entries != {}
        invariant incoming.Keys == entries
        decreases |entries|
      {
        var token :| token in entries;
        incoming, entries := incoming - {token}, entries - {token};
      }
    }
  }
}
