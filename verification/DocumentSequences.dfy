/** One row of `document_sequences` under concurrent transactions.

    Each transaction runs `nextDocumentSequence` any number of times: an UPDATE that
    takes the row lock, and, when the UPDATE finds no row, an INSERT ... ON CONFLICT
    whose seed is read when the statement starts and whose row is written only once no
    other transaction holds the key. Versions are visible to others at commit. A
    transaction may also store documents, or renumber stored ones, with numbers typed by
    hand, as bills can be: those go past the counter. */
module DocumentSequences {
  import opened Options
  import References

  type Tx = nat

  type DocId = nat

  /** A version of the counter row. `seed` is the highest number in use when the row was made. */
  datatype Version = Version(value: nat, seed: nat)

  /** The row lock: free, or held by a transaction together with its uncommitted version. */
  datatype Lock = Free | Held(holder: Tx, version: Version)

  /** Where a transaction stands inside `nextDocumentSequence`. */
  datatype Phase = Ready | Missed | Inserting(seed: nat)

  datatype Txn = Txn(phase: Phase, taken: seq<nat>)

  /** A stored document of the series. `ahead` records that its number was typed by hand and stood
      above the counter when it was stored. */
  datatype Document = Document(number: nat, ahead: bool)

  datatype Db = Db(
    row: Option<Version>,
    lock: Lock,
    live: map<Tx, Txn>,
    docs: map<DocId, Document>,
    committed: seq<nat>)

  /** A commit stores new documents with numbers it took, and stores or renumbers documents with
      numbers typed by hand. A document given a number of another shape leaves the series, which is
      a deletion here. */
  datatype Step =
    | Begin(tx: Tx)
    | Update(tx: Tx)
    | InsertStart(tx: Tx)
    | InsertFinish(tx: Tx)
    | Commit(tx: Tx, written: map<DocId, nat>, typed: map<DocId, nat>)
    | Abort(tx: Tx)
    | DeleteDocument(id: DocId)

  ghost function Numbers(docs: map<DocId, Document>): set<nat> {
    set id | id in docs :: docs[id].number
  }

  /** `MAX(...)` over the numbers on stored documents, 0 when there are none. */
  ghost function Highest(docs: set<nat>): (h: nat)
    ensures forall d :: d in docs ==> d <= h
    ensures h in docs || (h == 0 && docs == {})
  {
    if docs == {} then 0
    else
      var d :| d in docs;
      var rest := Highest(docs - {d});
      assert docs == (docs - {d}) + {d};
      if rest < d || docs == {d} then d else rest
  }

  function Bump(v: Version): Version {
    Version(v.value + 1, v.seed)
  }

  /** The counter anyone can read; a counter that does not exist yet has issued nothing. */
  function LastValue(db: Db): nat {
    if db.row.Some? then db.row.value.value else 0
  }

  function PhaseOf(db: Db, t: Tx): Option<Phase> {
    if t in db.live then Some(db.live[t].phase) else None
  }

  /** The lock is held by a transaction other than `t`. */
  predicate LockedOut(db: Db, t: Tx) {
    db.lock.Held? && db.lock.holder != t
  }

  /** An UPDATE waits only for a row it can see; a row still being inserted is a miss. */
  ghost predicate Enabled(db: Db, step: Step) {
    match step
    case Begin(t) => t !in db.live
    case Update(t) => PhaseOf(db, t) == Some(Ready) && !(db.row.Some? && LockedOut(db, t))
    case InsertStart(t) => PhaseOf(db, t) == Some(Missed)
    case InsertFinish(t) => t in db.live && db.live[t].phase.Inserting? && !LockedOut(db, t)
    case Commit(t, written, typed) =>
      && PhaseOf(db, t) == Some(Ready)
      && forall id :: id in written ==> id !in db.docs && id !in typed && written[id] in db.live[t].taken
    case Abort(t) => t in db.live
    case DeleteDocument(id) => id in db.docs
  }

  /** Transaction `t` now holds the row at version `v` and has been given its number. */
  function Take(db: Db, t: Tx, v: Version): Db
    requires t in db.live
  {
    db.(lock := Held(t, v),
        live := db.live[t := Txn(Ready, db.live[t].taken + [v.value])])
  }

  /** The version of the row that `t` sees: its own, or else the committed one. */
  function Visible(db: Db, t: Tx): Option<Version> {
    if db.lock.Held? && db.lock.holder == t then Some(db.lock.version) else db.row
  }

  /** The documents after a commit. */
  function Stored(docs: map<DocId, Document>, written: map<DocId, nat>, typed: map<DocId, nat>, last: nat)
    : map<DocId, Document>
  {
    docs
    + (map id | id in written :: Document(written[id], false))
    + (map id | id in typed :: Document(typed[id], typed[id] > last))
  }

  ghost function Apply(db: Db, step: Step): Db
    requires Enabled(db, step)
  {
    match step
    case Begin(t) => db.(live := db.live[t := Txn(Ready, [])])
    case Update(t) =>
      var v := Visible(db, t);
      if v.Some? then Take(db, t, Bump(v.value))
      else db.(live := db.live[t := db.live[t].(phase := Missed)])
    case InsertStart(t) =>
      db.(live := db.live[t := db.live[t].(phase := Inserting(Highest(Numbers(db.docs))))])
    case InsertFinish(t) =>
      var v := Visible(db, t);
      var seed := db.live[t].phase.seed;
      Take(db, t, if v.Some? then Bump(v.value) else Version(seed + 1, seed))
    case Commit(t, written, typed) =>
      Db(Visible(db, t), Release(db, t), db.live - {t},
         Stored(db.docs, written, typed, LastValue(db)), db.committed + db.live[t].taken)
    case Abort(t) => db.(lock := Release(db, t), live := db.live - {t})
    case DeleteDocument(id) => db.(docs := db.docs - {id})
  }

  function Release(db: Db, t: Tx): Lock {
    if LockedOut(db, t) then db.lock else Free
  }

  ghost predicate ValidRun(db: Db, steps: seq<Step>)
    decreases |steps|
  {
    steps == [] || (Enabled(db, steps[0]) && ValidRun(Apply(db, steps[0]), steps[1..]))
  }

  ghost function RunFrom(db: Db, steps: seq<Step>): Db
    requires ValidRun(db, steps)
    decreases |steps|
  {
    if steps == [] then db else RunFrom(Apply(db, steps[0]), steps[1..])
  }

  /** A quiet database: no transaction open, and a document above the row counted as ahead of it. */
  ghost predicate Start(db: Db) {
    && db.lock == Free && db.live == map[] && db.committed == []
    && (db.row.Some? ==>
          && db.row.value.value == db.row.value.seed
          && forall id :: id in db.docs && !db.docs[id].ahead ==> db.docs[id].number <= db.row.value.value)
  }

  /** The upsert that seeds the table from the numbers already issued, keeping a row that is ahead. */
  ghost function MigrationSeed(row: Option<nat>, docs: set<nat>): Option<nat> {
    if docs == {} then row
    else if row.Some? && row.value >= Highest(docs) then row
    else Some(Highest(docs))
  }

  // ── The invariant ─────────────────────────────────────────────────────────

  /** The numbers lo+1, lo+2, ..., hi in order. */
  ghost predicate IsRun(s: seq<nat>, lo: nat, hi: nat) {
    lo + |s| == hi && forall i :: 0 <= i < |s| ==> s[i] == lo + 1 + i
  }

  /** The number below the first one the lock holder has taken. */
  function Base(db: Db): nat
    requires db.lock.Held?
  {
    if db.row.Some? then db.row.value.value else db.lock.version.seed
  }

  ghost predicate HolderInv(db: Db) {
    db.lock.Held? ==>
      && PhaseOf(db, db.lock.holder) == Some(Ready)
      && IsRun(db.live[db.lock.holder].taken, Base(db), db.lock.version.value)
      && db.live[db.lock.holder].taken != []
      && (db.row.Some? ==> db.lock.version.seed == db.row.value.seed)
  }

  ghost predicate OthersInv(db: Db) {
    forall t :: t in db.live && !(db.lock.Held? && db.lock.holder == t) ==> db.live[t].taken == []
  }

  ghost predicate CommittedInv(db: Db) {
    match db.row
    case None => db.committed == []
    case Some(v) => v.seed <= v.value && IsRun(db.committed, v.seed, v.value)
  }

  ghost predicate DocsInv(db: Db) {
    && (db.row.Some? ==> Below(db.docs, db.row.value.value))
    && (db.lock.Held? ==> Below(db.docs, Base(db)))
    && (db.row.None? ==>
          forall t :: t in db.live && db.live[t].phase.Inserting? ==> Below(db.docs, db.live[t].phase.seed))
  }

  /** Every document is at or below the bound, but for those typed ahead of the counter. */
  ghost predicate Below(docs: map<DocId, Document>, bound: nat) {
    forall id :: id in docs && !docs[id].ahead ==> docs[id].number <= bound
  }

  ghost predicate Inv(db: Db) {
    HolderInv(db) && OthersInv(db) && CommittedInv(db) && DocsInv(db)
  }

  lemma {:induction false} StartHolds(db: Db)
    requires Start(db)
    ensures Inv(db)
  {}

  /** The seeding migration leaves a start state with no document ahead of the counter, whatever
      row and documents it finds. */
  lemma {:induction false} MigrationStarts(row: Option<nat>, docs: map<DocId, Document>)
    requires forall id :: id in docs ==> !docs[id].ahead
    ensures var seeded := MigrationSeed(row, Numbers(docs));
            Start(Db(if seeded.Some? then Some(Version(seeded.value, seeded.value)) else None,
                     Free, map[], docs, []))
  {
    assert forall id :: id in docs ==> docs[id].number in Numbers(docs);
  }

  /** Seeding leaves a row at or above the one it finds and every document, and no higher than these. */
  lemma {:induction false} MigrationSeedIs(row: Option<nat>, docs: set<nat>)
    ensures var seeded := MigrationSeed(row, docs);
            && (row.Some? ==> seeded.Some? && row.value <= seeded.value)
            && (forall d :: d in docs ==> seeded.Some? && d <= seeded.value)
            && (seeded != row ==> seeded.Some? && seeded.value in docs)
  {}

  lemma {:induction false} TakeKeepsInv(db: Db, t: Tx, v: Version)
    requires Inv(db) && t in db.live && !LockedOut(db, t)
    requires Visible(db, t).Some? ==> v == Bump(Visible(db, t).value)
    requires Visible(db, t).None? ==> v.value == v.seed + 1 && Below(db.docs, v.seed)
    ensures Inv(Take(db, t, v))
  {
    var after := Take(db, t, v);
    assert after.live[t].taken == db.live[t].taken + [v.value];
  }

  lemma {:induction false} StoredBelow(docs: map<DocId, Document>, written: map<DocId, nat>, typed: map<DocId, nat>,
                                       last: nat, bound: nat)
    requires Below(docs, bound) && last <= bound && forall id :: id in written ==> written[id] <= bound
    ensures Below(Stored(docs, written, typed, last), bound)
  {}

  lemma {:induction false} CommitKeepsInv(db: Db, t: Tx, written: map<DocId, nat>, typed: map<DocId, nat>)
    requires Inv(db) && Enabled(db, Commit(t, written, typed))
    ensures Inv(Apply(db, Commit(t, written, typed)))
  {
    var after, last := Apply(db, Commit(t, written, typed)), LastValue(db);
    if db.lock.Held? && db.lock.holder == t {
      assert IsRun(db.live[t].taken, Base(db), db.lock.version.value);
      StoredBelow(db.docs, written, typed, last, db.lock.version.value);
    } else {
      assert db.live[t].taken == [] && written == map[];
      assert after.committed == db.committed;
      if db.row.Some? { StoredBelow(db.docs, written, typed, last, db.row.value.value); }
      if db.lock.Held? { StoredBelow(db.docs, written, typed, last, Base(db)); }
      forall u | u in after.live && after.live[u].phase.Inserting? && after.row.None?
        ensures Below(after.docs, after.live[u].phase.seed)
      {
        StoredBelow(db.docs, written, typed, last, db.live[u].phase.seed);
      }
    }
  }

  lemma {:induction false} StepKeepsInv(db: Db, step: Step)
    requires Inv(db) && Enabled(db, step)
    ensures Inv(Apply(db, step))
  {
    match step
    case Update(t) =>
      if Visible(db, t).Some? {
        TakeKeepsInv(db, t, Bump(Visible(db, t).value));
      }
    case InsertFinish(t) =>
      var v, seed := Visible(db, t), db.live[t].phase.seed;
      TakeKeepsInv(db, t, if v.Some? then Bump(v.value) else Version(seed + 1, seed));
    case Commit(t, written, typed) => CommitKeepsInv(db, t, written, typed);
    case Begin(_) =>
    case InsertStart(_) =>
      assert forall id :: id in db.docs ==> db.docs[id].number in Numbers(db.docs);
    case Abort(_) =>
    case DeleteDocument(_) =>
  }

  lemma {:induction false} RunKeepsInv(db: Db, steps: seq<Step>)
    requires Inv(db) && ValidRun(db, steps)
    ensures Inv(RunFrom(db, steps))
    decreases |steps|
  {
    if steps != [] {
      StepKeepsInv(db, steps[0]);
      RunKeepsInv(Apply(db, steps[0]), steps[1..]);
    }
  }

  // ── What every interleaving guarantees ────────────────────────────────────

  /** The numbers of committed transactions are the unbroken run above the seed, ending at `last_value`. */
  lemma {:induction false} CommittedNumbersUnbroken(start: Db, steps: seq<Step>)
    requires Start(start) && ValidRun(start, steps)
    ensures var db := RunFrom(start, steps);
            match db.row
            case None => db.committed == []
            case Some(v) =>
              && v.seed + |db.committed| == v.value
              && (forall i :: 0 <= i < |db.committed| ==> db.committed[i] == v.seed + 1 + i)
  {
    StartHolds(start);
    RunKeepsInv(start, steps);
  }

  /** Later commits only append larger numbers: nothing is issued twice, deletions or not. */
  lemma {:induction false} NeverIssuedAgain(start: Db, first: seq<Step>, later: seq<Step>)
    requires Start(start) && ValidRun(start, first + later)
    ensures ValidRun(start, first) && ValidRun(RunFrom(start, first), later)
    ensures var was, now := RunFrom(start, first).committed, RunFrom(start, first + later).committed;
            && was <= now
            && (forall i, j :: 0 <= i < j < |now| ==> now[i] < now[j])
  {
    RunSplits(start, first, later);
    StartHolds(start);
    RunKeepsInv(start, first);
    CommittedOnlyGrows(RunFrom(start, first), later);
    CommittedNumbersUnbroken(start, first + later);
  }

  /** The document numbers committed transactions print are all different, whichever of their own
      series' commits, or another series' numbers, they are set beside. */
  lemma {:induction false} PrintedNumbersDiffer(start: Db, steps: seq<Step>, series: string, year: nat, i: nat, j: nat,
                                                other: string, otherYear: nat, n: nat)
    requires Start(start) && ValidRun(start, steps)
    requires i < j < |RunFrom(start, steps).committed|
    requires References.NoDash(series) && References.NoDash(other) && (series != other || year != otherYear)
    ensures var numbers := RunFrom(start, steps).committed;
            && References.FormatYearlyRef(series, year, numbers[i]) != References.FormatYearlyRef(series, year, numbers[j])
            && References.FormatYearlyRef(series, year, numbers[i]) != References.FormatYearlyRef(other, otherYear, n)
  {
    CommittedNumbersUnbroken(start, steps);
    var numbers := RunFrom(start, steps).committed;
    References.RefInjective(series, year, numbers[i], series, year, numbers[j]);
    References.RefInjective(series, year, numbers[i], other, otherYear, n);
  }

  lemma {:induction false} RunSplits(db: Db, first: seq<Step>, later: seq<Step>)
    requires ValidRun(db, first + later)
    ensures ValidRun(db, first) && ValidRun(RunFrom(db, first), later)
    ensures RunFrom(db, first + later) == RunFrom(RunFrom(db, first), later)
    decreases |first|
  {
    if first == [] {
      assert first + later == later;
    } else {
      assert (first + later)[1..] == first[1..] + later;
      RunSplits(Apply(db, first[0]), first[1..], later);
    }
  }

  lemma {:induction false} RunJoins(db: Db, first: seq<Step>, later: seq<Step>)
    requires ValidRun(db, first) && ValidRun(RunFrom(db, first), later)
    ensures ValidRun(db, first + later)
    ensures RunFrom(db, first + later) == RunFrom(RunFrom(db, first), later)
    decreases |first|
  {
    if first == [] {
      assert first + later == later;
    } else {
      assert (first + later)[1..] == first[1..] + later;
      RunJoins(Apply(db, first[0]), first[1..], later);
    }
  }

  lemma {:induction false} CommittedOnlyGrows(db: Db, steps: seq<Step>)
    requires ValidRun(db, steps)
    ensures db.committed <= RunFrom(db, steps).committed
    decreases |steps|
  {
    if steps != [] {
      CommittedOnlyGrows(Apply(db, steps[0]), steps[1..]);
    }
  }

  /** A commit puts its numbers into the history and leaves the row where it took it, and free. */
  lemma {:induction false} CommitGives(db: Db, t: Tx, written: map<DocId, nat>, typed: map<DocId, nat>)
    requires Inv(db) && Enabled(db, Commit(t, written, typed))
    ensures var after, taken := Apply(db, Commit(t, written, typed)), db.live[t].taken;
            && after.live == db.live - {t} && after.committed == db.committed + taken
            && (if taken == [] then after.row == db.row && after.lock == db.lock
                else after.lock == Free && after.row.Some? && after.row.value.value == taken[|taken| - 1])
  {
    assert db.lock.Held? && db.lock.holder == t ==> db.live[t].taken != [];
  }

  /** It stores each document under its number, ahead of the counter only where that was typed and above
      it, and leaves the other documents alone. */
  lemma {:induction false} CommitStores(db: Db, t: Tx, written: map<DocId, nat>, typed: map<DocId, nat>)
    requires Enabled(db, Commit(t, written, typed))
    ensures var docs := Apply(db, Commit(t, written, typed)).docs;
            && docs.Keys == db.docs.Keys + written.Keys + typed.Keys
            && (forall id :: id in typed ==>
                  docs[id] == Document(typed[id], typed[id] > if db.row.Some? then db.row.value.value else 0))
            && (forall id :: id in written ==> docs[id] == Document(written[id], false) && written[id] in db.live[t].taken)
            && (forall id :: id in db.docs && id !in typed ==> docs[id] == db.docs[id])
  {}

  /** A deleted document is gone and gives no number back: the row, the history and the numbers held stay. */
  lemma {:induction false} DeletionGivesNothingBack(db: Db, id: DocId)
    requires Enabled(db, DeleteDocument(id))
    ensures var after := Apply(db, DeleteDocument(id));
            && id in db.docs && after.docs == db.docs - {id}
            && after.row == db.row && after.lock == db.lock && after.live == db.live && after.committed == db.committed
  {}

  // ── Numbers typed by hand ─────────────────────────────────────────────────

  predicate Carries(db: Db, id: DocId, n: nat) {
    id in db.docs && db.docs[id].number == n
  }

  /** A number a live transaction holds was never committed and is held by no other; and a stored
      document carries it exactly when one typed above the counter of its time still does. */
  lemma {:induction false} TakenNumberCollidesExactlyWhen(start: Db, steps: seq<Step>, t: Tx, n: nat)
    requires Start(start) && ValidRun(start, steps)
    requires var db := RunFrom(start, steps); t in db.live && n in db.live[t].taken
    ensures var db := RunFrom(start, steps);
            && n !in db.committed
            && (forall u :: u in db.live && u != t ==> n !in db.live[u].taken)
            && (n in Numbers(db.docs) <==> exists id :: Carries(db, id, n) && db.docs[id].ahead)
  {
    StartHolds(start);
    RunKeepsInv(start, steps);
    HeldNumber(RunFrom(start, steps), t, n);
  }

  lemma {:induction false} HeldNumber(db: Db, t: Tx, n: nat)
    requires Inv(db) && t in db.live && n in db.live[t].taken
    ensures n !in db.committed
    ensures forall u :: u in db.live && u != t ==> n !in db.live[u].taken
    ensures forall id :: Carries(db, id, n) ==> db.docs[id].ahead
    ensures n in Numbers(db.docs) <==> exists id :: Carries(db, id, n) && db.docs[id].ahead
  {
    assert db.lock.Held? && db.lock.holder == t;
    assert n > Base(db);
    if n in Numbers(db.docs) {
      var id :| id in db.docs && db.docs[id].number == n;
      assert Carries(db, id, n);
    }
  }

  /** What being ahead means: the document stood at the start, or a commit typed its number, above
      the counter it could have read just before. */
  lemma {:induction false} AheadWasTyped(start: Db, steps: seq<Step>, id: DocId) returns (k: nat)
    requires ValidRun(start, steps)
    requires id in RunFrom(start, steps).docs && RunFrom(start, steps).docs[id].ahead
    ensures k <= |steps|
    ensures k == |steps| ==> id in start.docs && start.docs[id] == RunFrom(start, steps).docs[id]
    ensures k < |steps| ==>
              && steps[k].Commit? && id in steps[k].typed
              && steps[k].typed[id] == RunFrom(start, steps).docs[id].number
              && ValidRun(start, steps[..k])
              && steps[k].typed[id] > LastValue(RunFrom(start, steps[..k]))
    decreases |steps|
  {
    if steps == [] {
      k := 0;
    } else {
      var step, after := steps[0], Apply(start, steps[0]);
      var later := AheadWasTyped(after, steps[1..], id);
      if later < |steps| - 1 {
        k := later + 1;
        assert steps[..k][0] == step && steps[..k][1..] == steps[1..][..later];
      } else if step.Commit? && id in step.typed {
        k := 0;
        assert steps[..0] == [];
      } else {
        k := |steps|;
      }
    }
  }

  ghost predicate NothingTyped(steps: seq<Step>) {
    forall i :: 0 <= i < |steps| && steps[i].Commit? ==> steps[i].typed == map[]
  }

  ghost predicate NoneAhead(db: Db) {
    forall id :: id in db.docs ==> !db.docs[id].ahead
  }

  lemma {:induction false} UntypedStaysBehind(db: Db, steps: seq<Step>)
    requires ValidRun(db, steps) && NoneAhead(db) && NothingTyped(steps)
    ensures NoneAhead(RunFrom(db, steps))
    decreases |steps|
  {
    if steps != [] {
      assert NothingTyped(steps[1..]) by {
        assert forall i :: 0 <= i < |steps| - 1 ==> steps[1..][i] == steps[i + 1];
      }
      UntypedStaysBehind(Apply(db, steps[0]), steps[1..]);
    }
  }

  /** In the series whose numbers nobody types, a number a live transaction holds is on no stored
      document: no unique index can reject it. */
  lemma {:induction false} TakenNumberIsFresh(start: Db, steps: seq<Step>, t: Tx, n: nat)
    requires Start(start) && ValidRun(start, steps) && NoneAhead(start) && NothingTyped(steps)
    requires var db := RunFrom(start, steps); t in db.live && n in db.live[t].taken
    ensures n !in Numbers(RunFrom(start, steps).docs)
  {
    UntypedStaysBehind(start, steps);
    TakenNumberCollidesExactlyWhen(start, steps, t, n);
  }

  /** Before the first commit of a number there is no document, so every seed is 0. */
  ghost predicate SeedsZero(db: Db) {
    && (match db.row
        case Some(v) => v.seed == 0
        case None =>
          db.docs == map[] && forall t :: t in db.live && db.live[t].phase.Inserting? ==> db.live[t].phase.seed == 0)
    && (db.lock.Held? ==> db.lock.version.seed == 0)
  }

  lemma {:induction false} StepSeedsZero(db: Db, step: Step)
    requires Inv(db) && SeedsZero(db) && Enabled(db, step) && (step.Commit? ==> step.typed == map[])
    ensures SeedsZero(Apply(db, step))
  {
    if step.Commit? && Visible(db, step.tx).None? {
      assert db.live[step.tx].taken == [];
      assert step.written == map[];
    }
    assert db.docs == map[] ==> Numbers(db.docs) == {};
  }

  lemma {:induction false} RunSeedsZero(db: Db, steps: seq<Step>)
    requires Inv(db) && SeedsZero(db) && ValidRun(db, steps) && NothingTyped(steps)
    ensures SeedsZero(RunFrom(db, steps))
    decreases |steps|
  {
    if steps != [] {
      StepSeedsZero(db, steps[0]);
      RunKeepsInv(db, steps[..1]);
      assert RunFrom(db, steps[..1]) == Apply(db, steps[0]);
      assert NothingTyped(steps[1..]) by {
        assert forall i :: 0 <= i < |steps| - 1 ==> steps[1..][i] == steps[i + 1];
      }
      RunSeedsZero(Apply(db, steps[0]), steps[1..]);
    }
  }

  /** In a series that starts with nothing and whose numbers nobody types, the committed numbers are
      1, 2, 3 and so on to the last value. */
  lemma {:induction false} NumbersStartAtOne(steps: seq<Step>)
    requires ValidRun(Db(None, Free, map[], map[], []), steps) && NothingTyped(steps)
    ensures var db := RunFrom(Db(None, Free, map[], map[], []), steps);
            && |db.committed| == LastValue(db)
            && forall i :: 0 <= i < |db.committed| ==> db.committed[i] == i + 1
  {
    var start := Db(None, Free, map[], map[], []);
    StartHolds(start);
    RunKeepsInv(start, steps);
    RunSeedsZero(start, steps);
  }

  /** The collision: a bill typed with the number after the last one, then one numbered for it. */
  lemma {:induction false} TypedNumberCollides(last: nat, t: Tx, u: Tx, id: DocId)
    requires t != u
    ensures var start := Db(Some(Version(last, last)), Free, map[], map[], []);
            var steps := [Begin(u), Commit(u, map[], map[id := last + 1]), Begin(t), Update(t)];
            && Start(start) && ValidRun(start, steps)
            && var db := RunFrom(start, steps);
               t in db.live && db.live[t].taken == [last + 1] && Carries(db, id, last + 1)
  {
    var start := Db(Some(Version(last, last)), Free, map[], map[], []);
    var a := Apply(start, Begin(u));
    var b := Apply(a, Commit(u, map[], map[id := last + 1]));
    var c := Apply(b, Begin(t));
    var d := Apply(c, Update(t));
    Unroll4(start, a, b, c, d, Begin(u), Commit(u, map[], map[id := last + 1]), Begin(t), Update(t));
  }

  lemma {:induction false} Unroll4(s: Db, a: Db, b: Db, c: Db, d: Db, e: Step, f: Step, g: Step, h: Step)
    requires Enabled(s, e) && a == Apply(s, e) && Enabled(a, f) && b == Apply(a, f)
    requires Enabled(b, g) && c == Apply(b, g) && Enabled(c, h) && d == Apply(c, h)
    ensures ValidRun(s, [e, f, g, h]) && RunFrom(s, [e, f, g, h]) == d
  {
    assert [e, f, g, h][1..] == [f, g, h] && [f, g, h][1..] == [g, h] && [g, h][1..] == [h] && [h][1..] == [];
    assert ValidRun(d, []) && RunFrom(d, []) == d;
    assert ValidRun(c, [h]) && RunFrom(c, [h]) == d;
    assert ValidRun(b, [g, h]) && RunFrom(b, [g, h]) == d;
    assert ValidRun(a, [f, g, h]) && RunFrom(a, [f, g, h]) == d;
  }

  /** Aborting leaves row, documents and history as they were, and the first number the aborted
      transaction held is the very one the row hands out next, so the run keeps no gap. Where the
      row itself was not committed yet, the next to insert it gets that number exactly when both read
      the same seed. */
  lemma {:induction false} AbortGivesNumbersBack(db: Db, t: Tx, u: Tx)
    requires Inv(db) && t in db.live && db.live[t].taken != []
    requires u != t && u in db.live
    ensures var undone, first := Apply(db, Abort(t)), db.live[t].taken[0];
            && undone.row == db.row && undone.docs == db.docs && undone.committed == db.committed
            && (PhaseOf(db, u) == Some(Ready) && db.row.Some? ==>
                  Enabled(undone, Update(u)) && Apply(undone, Update(u)).live[u].taken == [first])
            && (db.live[u].phase.Inserting? ==>
                  && Enabled(undone, InsertFinish(u))
                  && (Apply(undone, InsertFinish(u)).live[u].taken == [first]
                      <==> db.row.Some? || db.live[u].phase.seed == db.lock.version.seed))
  {
    assert db.live[t].taken[0] == Base(db) + 1 && db.live[u].taken == [];
    if db.live[u].phase.Inserting? {
      var next := if db.row.Some? then db.row.value.value + 1 else db.live[u].phase.seed + 1;
      var given := Apply(Apply(db, Abort(t)), InsertFinish(u)).live[u].taken;
      assert given == [next] && given[0] == next;
    }
  }

  /** A transaction is only ever kept waiting by one that can itself go on, take another number
      or commit: no two transactions of a series wait for each other. */
  lemma {:induction false} WaitingEnds(start: Db, steps: seq<Step>, t: Tx)
    requires Start(start) && ValidRun(start, steps)
    requires t in RunFrom(start, steps).live
    ensures var db := RunFrom(start, steps);
            || Enabled(db, Update(t)) || Enabled(db, InsertStart(t)) || Enabled(db, InsertFinish(t))
            || (db.lock.Held? && db.lock.holder != t
                && Enabled(db, Update(db.lock.holder)) && Enabled(db, Commit(db.lock.holder, map[], map[]))
                && !LockedOut(Apply(db, Commit(db.lock.holder, map[], map[])), t))
  {
    StartHolds(start);
    RunKeepsInv(start, steps);
  }

  // ── The function itself ───────────────────────────────────────────────────

  /** The `last_value` a transaction reads: its own, else the committed one. */
  function Last(db: Db, t: Tx): nat {
    if db.lock.Held? && db.lock.holder == t then db.lock.version.value
    else if db.row.Some? then db.row.value.value
    else 0
  }

  /** A transaction that missed the row and still waits for it has taken nothing, so it holds no lock. */
  lemma {:induction false} MissedHoldsNothing(db: Db, t: Tx)
    requires Inv(db) && t in db.live && !db.live[t].phase.Ready?
    ensures Visible(db, t) == db.row && (db.row.Some? ==> Last(db, t) == db.row.value.value)
  {}

  /** A new row's first number: 1 where no document stands, else the number after the highest on one. */
  ghost predicate FollowsDocuments(docs: map<DocId, Document>, value: nat) {
    && (docs == map[] ==> value == 1)
    && (docs != map[] ==> exists id :: id in docs && value == docs[id].number + 1)
    && (forall id :: id in docs ==> docs[id].number < value)
  }

  predicate By(step: Step, t: Tx) {
    !step.DeleteDocument? && step.tx == t
  }

  predicate NoneBy(steps: seq<Step>, t: Tx) {
    forall i :: 0 <= i < |steps| ==> !By(steps[i], t)
  }

  /** Steps of others leave a transaction's own standing alone. */
  lemma {:induction false} OthersLeaveTxn(db: Db, steps: seq<Step>, t: Tx)
    requires ValidRun(db, steps) && NoneBy(steps, t) && t in db.live
    ensures t in RunFrom(db, steps).live && RunFrom(db, steps).live[t] == db.live[t]
    decreases |steps|
  {
    if steps != [] {
      OthersLeaveTxn(Apply(db, steps[0]), steps[1..], t);
    }
  }

  /** The table, and the statements `nextDocumentSequence` sends to it. */
  class SequenceTable {
    var db: Db

    constructor (db: Db)
      ensures this.db == db
    {
      this.db := db;
    }

    /** UPDATE ... RETURNING last_value: the new value, or nothing when no row is visible. */
    method UpdateReturning(t: Tx) returns (value: Option<nat>)
      requires Enabled(db, Update(t))
      modifies this
      ensures db == Apply(old(db), Update(t))
      ensures value.Some? <==> Visible(old(db), t).Some?
      ensures value.Some? ==> value.value == Last(old(db), t) + 1
      ensures value.Some? ==> t in db.live && db.live[t] == Txn(Ready, old(db.live[t].taken) + [value.value])
    {
      var v := Visible(db, t);
      if v.Some? {
        db := Take(db, t, Bump(v.value));
        return Some(v.value.value + 1);
      }
      db := db.(live := db.live[t := db.live[t].(phase := Missed)]);
      return None;
    }

    /** The seed subquery, read from the documents stored when the INSERT starts. */
    method ReadSeed(t: Tx)
      requires Enabled(db, InsertStart(t))
      modifies this
      ensures db == Apply(old(db), InsertStart(t))
      ensures t in db.live && db.live[t].phase.Inserting? && db.live[t].taken == old(db).live[t].taken
      ensures FollowsDocuments(db.docs, db.live[t].phase.seed + 1)
    {
      var highest, rest := 0, db.docs.Keys;
      while rest != {}
        invariant rest <= db.docs.Keys && db == old(db)
        invariant forall id :: id in db.docs && id !in rest ==> db.docs[id].number <= highest
        invariant highest in Numbers(db.docs) || (highest == 0 && rest == db.docs.Keys)
        decreases |rest|
      {
        var id :| id in rest;
        if highest < db.docs[id].number || rest == db.docs.Keys {
          highest := db.docs[id].number;
        }
        rest := rest - {id};
      }
      assert db.docs.Keys == {} ==> Numbers(db.docs) == {};
      assert highest == Highest(Numbers(db.docs));
      db := db.(live := db.live[t := db.live[t].(phase := Inserting(highest))]);
    }

    /** INSERT ... ON CONFLICT DO UPDATE ... RETURNING last_value, once the key is not held by others. */
    method InsertOnConflict(t: Tx) returns (value: nat)
      requires Enabled(db, InsertFinish(t))
      modifies this
      ensures db == Apply(old(db), InsertFinish(t))
      ensures t in db.live && db.live[t] == Txn(Ready, old(db.live[t].taken) + [value])
      ensures value == 1 + if Visible(old(db), t).Some? then Last(old(db), t) else old(db).live[t].phase.seed
    {
      var v, seed := Visible(db, t), db.live[t].phase.seed;
      var next := if v.Some? then Bump(v.value) else Version(seed + 1, seed);
      db := Take(db, t, next);
      value := next.value;
    }

    /** Other transactions run; nothing is promised but that each step they take is one of theirs. */
    method Interleave(t: Tx, ghost others: seq<Step>, after: Db)
      requires ValidRun(db, others) && NoneBy(others, t) && after == RunFrom(db, others)
      modifies this
      ensures db == RunFrom(old(db), others)
    {
      db := after;
    }

    /** The INSERT of a first number, with `others` run by other transactions before it starts and
        `waiting` while it waits for the key. */
    method InsertFirst(t: Tx, ghost others: seq<Step>, afterOthers: Db, ghost waiting: seq<Step>, afterWaiting: Db)
      returns (value: nat, ghost trace: seq<Step>)
      requires Inv(db) && PhaseOf(db, t) == Some(Missed) && NoneBy(others, t) && NoneBy(waiting, t)
      requires ValidRun(db, others) && afterOthers == RunFrom(db, others) && Enabled(afterOthers, InsertStart(t))
      requires ValidRun(Apply(afterOthers, InsertStart(t)), waiting)
      requires afterWaiting == RunFrom(Apply(afterOthers, InsertStart(t)), waiting)
      requires Enabled(afterWaiting, InsertFinish(t))
      modifies this
      ensures ValidRun(old(db), trace) && db == RunFrom(old(db), trace)
      ensures t in db.live && db.live[t] == Txn(Ready, old(db.live[t].taken) + [value])
      ensures if afterWaiting.row.Some? then value == afterWaiting.row.value.value + 1
              else FollowsDocuments(afterOthers.docs, value)
    {
      ghost var start := db;
      Interleave(t, others, afterOthers);
      OthersLeaveTxn(start, others, t);
      ReadSeed(t);
      RunJoins(start, others, [InsertStart(t)]);
      trace := others + [InsertStart(t)];
      Interleave(t, waiting, afterWaiting);
      RunJoins(start, trace, waiting);
      OthersLeaveTxn(Apply(afterOthers, InsertStart(t)), waiting, t);
      trace := trace + waiting;
      RunKeepsInv(start, trace);
      MissedHoldsNothing(afterWaiting, t);
      value := InsertOnConflict(t);
      RunJoins(start, trace, [InsertFinish(t)]);
      trace := trace + [InsertFinish(t)];
    }

    /** The next number, with `others` run by other transactions between the missed UPDATE and the
        INSERT, and `waiting` while the INSERT waits for the key. */
    method NextDocumentSequence(t: Tx, ghost others: seq<Step>, afterOthers: Db,
                                ghost waiting: seq<Step>, afterWaiting: Db)
      returns (value: nat, ghost trace: seq<Step>)
      requires Inv(db) && Enabled(db, Update(t))
      requires NoneBy(others, t) && NoneBy(waiting, t)
      requires Visible(db, t).None? ==>
                 && ValidRun(Apply(db, Update(t)), others)
                 && afterOthers == RunFrom(Apply(db, Update(t)), others)
                 && Enabled(afterOthers, InsertStart(t))
                 && ValidRun(Apply(afterOthers, InsertStart(t)), waiting)
                 && afterWaiting == RunFrom(Apply(afterOthers, InsertStart(t)), waiting)
                 && Enabled(afterWaiting, InsertFinish(t))
      modifies this
      ensures ValidRun(old(db), trace) && db == RunFrom(old(db), trace)
      ensures Inv(db)
      ensures t in db.live && db.live[t] == Txn(Ready, old(db.live[t].taken) + [value])
      ensures Visible(old(db), t).Some? ==> value == Last(old(db), t) + 1
      ensures Visible(old(db), t).None? ==>
                if afterWaiting.row.Some? then value == afterWaiting.row.value.value + 1
                else FollowsDocuments(afterOthers.docs, value)
      ensures value !in db.committed && forall id :: Carries(db, id, value) ==> db.docs[id].ahead
      ensures forall u :: u in db.live && u != t ==> value !in db.live[u].taken
    {
      ghost var start := db;
      var bumped := UpdateReturning(t);
      trace := [Update(t)];
      if bumped.Some? {
        value := bumped.value;
      } else {
        RunKeepsInv(start, trace);
        ghost var rest;
        value, rest := InsertFirst(t, others, afterOthers, waiting, afterWaiting);
        RunJoins(start, [Update(t)], rest);
        trace := [Update(t)] + rest;
      }
      RunKeepsInv(start, trace);
      assert value in db.live[t].taken;
      HeldNumber(db, t, value);
    }
  }
}
