/** One journal entry, posted and voided by transactions that read its status without locking it.

    A transaction reads the entry, decides by the status it saw, and writes its postings and the new
    status when it commits: the row lock its update takes puts the writes in the order of the commits.
    Other postings may move the same accounts in between. */
module EntryLife {
  import opened Options
  import opened Posting
  import opened LedgerTriggers

  type Tx = nat

  datatype Action = ToPost | ToVoid

  /** What a transaction set out to do, and the status it read. */
  datatype Doing = Doing(action: Action, seen: Status)

  datatype Db = Db(status: Status, books: Books, live: map<Tx, Doing>)

  datatype Step =
    | Read(tx: Tx, action: Action)
    | Commit(tx: Tx)
    | Abort(tx: Tx)
    | Elsewhere(other: seq<Line>)

  /** Only a draft is posted, and only a voided entry is not voided again. */
  predicate Admits(status: Status, action: Action) {
    if action == ToPost then status == Draft else status != Void
  }

  predicate Enabled(db: Db, lines: seq<Line>, step: Step) {
    match step
    case Read(t, action) => t !in db.live && Admits(db.status, action)
    case Commit(t) => t in db.live && AccountsExist(db.books, lines)
    case Abort(t) => t in db.live
    case Elsewhere(other) => AccountsExist(db.books, other) && Debits(other) == Credits(other)
  }

  /** Posting writes the entry's lines, voiding what was posted when it looked writes them swapped. */
  function Writes(d: Doing, lines: seq<Line>): seq<Line> {
    if d.action == ToPost then lines else if d.seen == Posted then Reversal(lines) else []
  }

  lemma {:induction false} WritesExist(b: Books, d: Doing, lines: seq<Line>)
    requires AccountsExist(b, lines)
    ensures AccountsExist(b, Writes(d, lines))
  {}

  function Apply(db: Db, lines: seq<Line>, step: Step): Db
    requires Enabled(db, lines, step)
  {
    match step
    case Read(t, action) => db.(live := db.live[t := Doing(action, db.status)])
    case Commit(t) =>
      var d := db.live[t];
      WritesExist(db.books, d, lines);
      Db(if d.action == ToPost then Posted else Void, PostLines(db.books, Writes(d, lines)), db.live - {t})
    case Abort(t) => db.(live := db.live - {t})
    case Elsewhere(other) => db.(books := PostLines(db.books, other))
  }

  predicate ValidRun(db: Db, lines: seq<Line>, steps: seq<Step>)
    decreases |steps|
  {
    steps == []
    || (Enabled(db, lines, steps[0]) && ValidRun(Apply(db, lines, steps[0]), lines, steps[1..]))
  }

  function RunFrom(db: Db, lines: seq<Line>, steps: seq<Step>): Db
    requires ValidRun(db, lines, steps)
    decreases |steps|
  {
    if steps == [] then db else RunFrom(Apply(db, lines, steps[0]), lines, steps[1..])
  }

  /** Reading and giving up change neither the entry nor the books, and an end takes the transaction away. */
  lemma {:induction false} OnlyCommitsWrite(db: Db, lines: seq<Line>, step: Step)
    requires Enabled(db, lines, step)
    ensures var after := Apply(db, lines, step);
            && (step.Read? || step.Abort? ==> after.status == db.status && after.books == db.books)
            && (step.Elsewhere? ==> after.status == db.status && after.live == db.live)
            && (step.Read? ==> after.live == db.live[step.tx := Doing(step.action, db.status)])
            && (step.Commit? || step.Abort? ==> after.live == db.live - {step.tx})
            && (step.Commit? ==> after.status == if db.live[step.tx].action == ToPost then Posted else Void)
  {}

  // ── How often the entry stands in the ledger ──────────────────────────────

  /** Copies of the entry a step adds to the ledger, a reversal counting against one. */
  function Copies(db: Db, step: Step): int {
    if step.Commit? && step.tx in db.live then
      var d := db.live[step.tx];
      if d.action == ToPost then 1 else if d.seen == Posted then -1 else 0
    else 0
  }

  function Net(db: Db, lines: seq<Line>, steps: seq<Step>): int
    requires ValidRun(db, lines, steps)
    decreases |steps|
  {
    if steps == [] then 0 else Copies(db, steps[0]) + Net(Apply(db, lines, steps[0]), lines, steps[1..])
  }

  /** What the other postings of a run moved one account by. */
  function MovedElsewhere(db: Db, lines: seq<Line>, steps: seq<Step>, a: AccountId, kind: AccountType): int
    requires ValidRun(db, lines, steps)
    decreases |steps|
  {
    if steps == [] then 0
    else
      (if steps[0].Elsewhere? then Delta(steps[0].other, |steps[0].other|, a, kind) else 0)
      + MovedElsewhere(Apply(db, lines, steps[0]), lines, steps[1..], a, kind)
  }

  lemma {:induction false} StepBalance(db: Db, lines: seq<Line>, step: Step, a: AccountId)
    requires Enabled(db, lines, step) && a in db.books.accounts
    ensures var was, after := db.books.accounts[a], Apply(db, lines, step).books;
            && a in after.accounts && after.accounts[a].kind == was.kind
            && after.accounts[a].balance
               == was.balance + Copies(db, step) * Delta(lines, |lines|, a, was.kind)
                  + if step.Elsewhere? then Delta(step.other, |step.other|, a, was.kind) else 0
  {
    if step.Commit? {
      var d := db.live[step.tx];
      WritesExist(db.books, d, lines);
      PostedBalance(db.books, Writes(d, lines), |Writes(d, lines)|, a);
      ReversalDelta(lines, |lines|, a, db.books.accounts[a].kind);
    } else if step.Elsewhere? {
      PostedBalance(db.books, step.other, |step.other|, a);
    }
  }

  lemma {:induction false} Distributes(c: int, n: int, d: int)
    ensures (c + n) * d == c * d + n * d
  {}

  /** Every balance moves by the entry's lines as often as the entry stands in the ledger, besides what
      the other postings move it by. */
  lemma {:induction false} BalanceCountsCopies(db: Db, lines: seq<Line>, steps: seq<Step>, a: AccountId)
    requires ValidRun(db, lines, steps) && a in db.books.accounts
    ensures var was, after := db.books.accounts[a], RunFrom(db, lines, steps).books;
            && a in after.accounts && after.accounts[a].kind == was.kind
            && after.accounts[a].balance
               == was.balance + Net(db, lines, steps) * Delta(lines, |lines|, a, was.kind)
                  + MovedElsewhere(db, lines, steps, a, was.kind)
    decreases |steps|
  {
    if steps != [] {
      var next := Apply(db, lines, steps[0]);
      StepBalance(db, lines, steps[0], a);
      BalanceCountsCopies(next, lines, steps[1..], a);
      Distributes(Copies(db, steps[0]), Net(next, lines, steps[1..]), Delta(lines, |lines|, a, db.books.accounts[a].kind));
    }
  }

  /** Whatever the interleaving, the trial balance sees nothing: sound books stay sound. */
  lemma {:induction false} RunKeepsSound(db: Db, lines: seq<Line>, steps: seq<Step>)
    requires ValidRun(db, lines, steps) && Sound(db.books) && Debits(lines) == Credits(lines)
    ensures Sound(RunFrom(db, lines, steps).books)
    decreases |steps|
  {
    if steps != [] {
      var step := steps[0];
      if step.Commit? {
        var d := db.live[step.tx];
        WritesExist(db.books, d, lines);
        PostingMoves(db.books, Writes(d, lines), |Writes(d, lines)|);
        ReversalDelta(lines, |lines|, 0, Asset);
      } else if step.Elsewhere? {
        PostingMoves(db.books, step.other, |step.other|);
      }
      RunKeepsSound(Apply(db, lines, step), lines, steps[1..]);
    }
  }

  // ── The ledger against the status ─────────────────────────────────────────

  /** How often an entry of this status ought to stand in the ledger. */
  function Standing(status: Status): int {
    if status == Posted then 1 else 0
  }

  /** Somebody posted the entry since this transaction found it a draft to post. */
  predicate PostsTwice(db: Db, d: Doing) {
    d.action == ToPost && db.status == Posted
  }

  /** Somebody posted the entry since this transaction found it a draft to void. */
  predicate VoidsUnreversed(db: Db, d: Doing) {
    d.action == ToVoid && d.seen == Draft && db.status == Posted
  }

  /** Somebody voided the entry since this transaction found it posted. */
  predicate ReversesTwice(db: Db, d: Doing) {
    d.action == ToVoid && d.seen == Posted && db.status == Void
  }

  /** How far a step takes the ledger from the status. */
  function Excess(db: Db, step: Step): int {
    if step.Commit? && step.tx in db.live then
      var d := db.live[step.tx];
      if PostsTwice(db, d) || VoidsUnreversed(db, d) then 1 else if ReversesTwice(db, d) then -1 else 0
    else 0
  }

  function TotalExcess(db: Db, lines: seq<Line>, steps: seq<Step>): int
    requires ValidRun(db, lines, steps)
    decreases |steps|
  {
    if steps == [] then 0 else Excess(db, steps[0]) + TotalExcess(Apply(db, lines, steps[0]), lines, steps[1..])
  }

  /** What a transaction read was true once: only drafts were seen by those who post, and an entry once
      seen posted is no draft again. */
  predicate ReadOnce(db: Db) {
    forall t :: t in db.live ==>
      var d := db.live[t];
      Admits(d.seen, d.action) && (d.seen == Posted ==> db.status != Draft)
  }

  lemma {:induction false} StepReadOnce(db: Db, lines: seq<Line>, step: Step)
    requires ReadOnce(db) && Enabled(db, lines, step)
    ensures ReadOnce(Apply(db, lines, step))
    ensures Standing(db.status) + Copies(db, step) == Standing(Apply(db, lines, step).status) + Excess(db, step)
  {}

  lemma {:induction false} NetIs(db: Db, lines: seq<Line>, steps: seq<Step>)
    requires ReadOnce(db) && ValidRun(db, lines, steps)
    ensures Standing(db.status) + Net(db, lines, steps)
         == Standing(RunFrom(db, lines, steps).status) + TotalExcess(db, lines, steps)
    decreases |steps|
  {
    if steps != [] {
      StepReadOnce(db, lines, steps[0]);
      NetIs(Apply(db, lines, steps[0]), lines, steps[1..]);
    }
  }

  /** Over any run on a draft, the ledger holds the entry as often as its status says, once more for
      each second posting and each void that found a draft where a posting has come in between, and
      once less for each second reversal. */
  lemma {:induction false} LedgerFollowsStatus(db: Db, lines: seq<Line>, steps: seq<Step>)
    requires db.status == Draft && db.live == map[] && ValidRun(db, lines, steps)
    ensures Net(db, lines, steps)
         == Standing(RunFrom(db, lines, steps).status) + TotalExcess(db, lines, steps)
  {
    NetIs(db, lines, steps);
  }

  /** In every state of the run the ledger holds the entry as its status says, `n` copies at first. */
  predicate AlwaysFollows(db: Db, lines: seq<Line>, steps: seq<Step>, n: int)
    requires ValidRun(db, lines, steps)
    decreases |steps|
  {
    && n == Standing(db.status)
    && (steps == [] || AlwaysFollows(Apply(db, lines, steps[0]), lines, steps[1..], n + Copies(db, steps[0])))
  }

  /** No commit of the run comes after the status it relied on was changed in one of the three ways. */
  predicate NoneMisses(db: Db, lines: seq<Line>, steps: seq<Step>)
    requires ValidRun(db, lines, steps)
    decreases |steps|
  {
    steps == [] || (Excess(db, steps[0]) == 0 && NoneMisses(Apply(db, lines, steps[0]), lines, steps[1..]))
  }

  /** So ledger and status agree throughout exactly when no such commit occurs. */
  lemma {:induction false} FollowsExactlyWhen(db: Db, lines: seq<Line>, steps: seq<Step>, n: int)
    requires ReadOnce(db) && ValidRun(db, lines, steps) && n == Standing(db.status)
    ensures AlwaysFollows(db, lines, steps, n) <==> NoneMisses(db, lines, steps)
    decreases |steps|
  {
    if steps != [] {
      var next := Apply(db, lines, steps[0]);
      StepReadOnce(db, lines, steps[0]);
      if Excess(db, steps[0]) == 0 {
        FollowsExactlyWhen(next, lines, steps[1..], n + Copies(db, steps[0]));
      }
    }
  }

  /** Transactions on the entry come one after the other. */
  predicate OneAtATime(db: Db, lines: seq<Line>, steps: seq<Step>)
    requires ValidRun(db, lines, steps)
    decreases |steps|
  {
    steps == [] || ((steps[0].Read? ==> db.live == map[]) && OneAtATime(Apply(db, lines, steps[0]), lines, steps[1..]))
  }

  /** One after the other they never miss, so every failure above needs two at once. */
  lemma {:induction false} SerialNeverMisses(db: Db, lines: seq<Line>, steps: seq<Step>)
    requires ValidRun(db, lines, steps) && OneAtATime(db, lines, steps)
    requires forall t :: t in db.live ==> db.live == map[t := db.live[t]]
    requires forall t :: t in db.live ==> db.live[t].seen == db.status && Admits(db.status, db.live[t].action)
    ensures NoneMisses(db, lines, steps)
    decreases |steps|
  {
    if steps != [] {
      SerialNeverMisses(Apply(db, lines, steps[0]), lines, steps[1..]);
    }
  }

  /** One after the other, an entry goes from draft to posted to void, or from draft to void, and never
      back; and it is posted once at most. */
  lemma {:induction false} SerialStatus(db: Db, lines: seq<Line>, steps: seq<Step>)
    requires ValidRun(db, lines, steps) && OneAtATime(db, lines, steps)
    requires forall t :: t in db.live ==> db.live == map[t := db.live[t]]
    requires forall t :: t in db.live ==> db.live[t].seen == db.status && Admits(db.status, db.live[t].action)
    ensures var after := RunFrom(db, lines, steps).status;
            && (db.status == Void ==> after == Void)
            && (db.status == Posted ==> after != Draft)
            && -1 <= Net(db, lines, steps) <= 1
            && Net(db, lines, steps) == Standing(after) - Standing(db.status)
    decreases |steps|
  {
    if steps != [] {
      SerialStatus(Apply(db, lines, steps[0]), lines, steps[1..]);
    }
  }

  lemma {:induction false} RunCons(db: Db, lines: seq<Line>, step: Step, rest: seq<Step>)
    requires Enabled(db, lines, step) && ValidRun(Apply(db, lines, step), lines, rest)
    ensures ValidRun(db, lines, [step] + rest)
    ensures RunFrom(db, lines, [step] + rest) == RunFrom(Apply(db, lines, step), lines, rest)
  {
    assert ([step] + rest)[1..] == rest;
  }

  /** One after the other, a posted entry can be voided, and then every balance is what it was. */
  lemma {:induction false} PostedThenVoided(b: Books, lines: seq<Line>, t: Tx, u: Tx)
    requires AccountsExist(b, lines)
    ensures var start := Db(Draft, b, map[]);
            var steps := [Read(t, ToPost)] + ([Commit(t)] + ([Read(u, ToVoid)] + ([Commit(u)] + [])));
            && ValidRun(start, lines, steps)
            && var after := RunFrom(start, lines, steps);
               after.status == Void && after.live == map[] && after.books.accounts == b.accounts
  {
    var start := Db(Draft, b, map[]);
    var s1 := Apply(start, lines, Read(t, ToPost));
    var s2 := Apply(s1, lines, Commit(t));
    var s3 := Apply(s2, lines, Read(u, ToVoid));
    assert AccountsExist(s3.books, lines);
    var s4 := Apply(s3, lines, Commit(u));
    assert s4.live == map[];
    ReversalRestoresBalances(b, lines);
    RunCons(s3, lines, Commit(u), []);
    RunCons(s2, lines, Read(u, ToVoid), [Commit(u)] + []);
    RunCons(s1, lines, Commit(t), [Read(u, ToVoid)] + ([Commit(u)] + []));
    RunCons(start, lines, Read(t, ToPost), [Commit(t)] + ([Read(u, ToVoid)] + ([Commit(u)] + [])));
  }

  /** Two postings at once: both found the draft, both commit, and its lines are in the ledger twice. */
  lemma {:induction false} PostedTwice(b: Books, lines: seq<Line>, t: Tx, u: Tx)
    requires t != u && AccountsExist(b, lines)
    ensures var start := Db(Draft, b, map[]);
            var steps := [Read(t, ToPost)] + ([Read(u, ToPost)] + ([Commit(t)] + ([Commit(u)] + [])));
            && ValidRun(start, lines, steps)
            && RunFrom(start, lines, steps) == Db(Posted, PostLines(PostLines(b, lines), lines), map[])
  {
    var start := Db(Draft, b, map[]);
    var s1 := Apply(start, lines, Read(t, ToPost));
    var s2 := Apply(s1, lines, Read(u, ToPost));
    var s3 := Apply(s2, lines, Commit(t));
    var s4 := Apply(s3, lines, Commit(u));
    assert s4.live == map[];
    RunCons(s3, lines, Commit(u), []);
    RunCons(s2, lines, Commit(t), [Commit(u)] + []);
    RunCons(s1, lines, Read(u, ToPost), [Commit(t)] + ([Commit(u)] + []));
    RunCons(start, lines, Read(t, ToPost), [Read(u, ToPost)] + ([Commit(t)] + ([Commit(u)] + [])));
  }
}
