/** `journal_entries` and `journal_entry_lines` under the two deferred balance triggers.

    A statement changes the tables and queues one check per row it touched; the checks run at
    commit, on the tables as they stand then. Amounts are integers in units of 0.0001. */
module LedgerTriggers {
  import opened Options
  import Posting

  type EntryId = nat
  type LineId = nat

  datatype Status = Draft | Posted | Void

  datatype JLine = JLine(id: LineId, entry: EntryId, debit: int, credit: int)

  datatype Tables = Tables(entries: map<EntryId, Status>, lines: seq<JLine>)

  /** The tables inside a transaction, and the entry ids its trigger events will look up. */
  datatype Session = Session(tables: Tables, queue: seq<EntryId>)

  datatype Statement =
    | InsertEntry(entry: EntryId, status: Status)
    | SetStatus(entry: EntryId, status: Status)
    | UpdateOtherColumns(entry: EntryId)
    | DeleteEntry(entry: EntryId)
    | InsertLine(line: JLine)
    | UpdateLine(line: JLine)
    | DeleteLine(id: LineId)

  datatype DbError = DuplicateKey | ForeignKey | CheckViolation

  // ── Rows ──────────────────────────────────────────────────────────────────

  /** The first row with this id, or the length of the table. */
  function Find(lines: seq<JLine>, id: LineId): (i: nat)
    ensures i <= |lines|
    ensures i < |lines| ==> lines[i].id == id
    ensures i == |lines| ==> forall j :: 0 <= j < |lines| ==> lines[j].id != id
  {
    if lines == [] then 0
    else if lines[0].id == id then 0
    else 1 + Find(lines[1..], id)
  }

  /** chk_line_shape and chk_non_negative. */
  predicate LineChecks(l: JLine) {
    && ((l.debit > 0 && l.credit == 0) || (l.credit > 0 && l.debit == 0))
    && l.debit >= 0 && l.credit >= 0
  }

  function SumDebit(lines: seq<JLine>, e: EntryId): int {
    if lines == [] then 0
    else (if lines[0].entry == e then lines[0].debit else 0) + SumDebit(lines[1..], e)
  }

  function SumCredit(lines: seq<JLine>, e: EntryId): int {
    if lines == [] then 0
    else (if lines[0].entry == e then lines[0].credit else 0) + SumCredit(lines[1..], e)
  }

  function Without(lines: seq<JLine>, e: EntryId): seq<JLine> {
    if lines == [] then []
    else (if lines[0].entry == e then [] else [lines[0]]) + Without(lines[1..], e)
  }

  /** One queued check per line the cascade deletes. */
  function CascadeEvents(lines: seq<JLine>, e: EntryId): seq<EntryId> {
    if lines == [] then []
    else (if lines[0].entry == e then [e] else []) + CascadeEvents(lines[1..], e)
  }

  // ── Statements and commit ─────────────────────────────────────────────────

  function Execute(s: Session, st: Statement): Result<Session, DbError> {
    var t := s.tables;
    match st
    case InsertEntry(e, status) =>
      if e in t.entries then Err(DuplicateKey)
      else Ok(Session(t.(entries := t.entries[e := status]), s.queue + [e]))
    case SetStatus(e, status) =>
      if e !in t.entries then Ok(s)
      else Ok(Session(t.(entries := t.entries[e := status]), s.queue + [e]))
    case UpdateOtherColumns(_) => Ok(s)
    case DeleteEntry(e) =>
      if e !in t.entries then Ok(s)
      else Ok(Session(Tables(t.entries - {e}, Without(t.lines, e)), s.queue + CascadeEvents(t.lines, e)))
    case InsertLine(l) =>
      if Find(t.lines, l.id) < |t.lines| then Err(DuplicateKey)
      else if !LineChecks(l) then Err(CheckViolation)
      else if l.entry !in t.entries then Err(ForeignKey)
      else Ok(Session(t.(lines := t.lines + [l]), s.queue + [l.entry]))
    case UpdateLine(l) =>
      var i := Find(t.lines, l.id);
      if i == |t.lines| then Ok(s)
      else if !LineChecks(l) then Err(CheckViolation)
      else if l.entry !in t.entries then Err(ForeignKey)
      else Ok(Session(t.(lines := t.lines[i := l]), s.queue + [l.entry]))
    case DeleteLine(id) =>
      var i := Find(t.lines, id);
      if i == |t.lines| then Ok(s)
      else Ok(Session(t.(lines := t.lines[..i] + t.lines[i + 1..]), s.queue + [t.lines[i].entry]))
  }

  function ExecuteAll(s: Session, sts: seq<Statement>): Result<Session, DbError>
    decreases |sts|
  {
    if sts == [] then Ok(s)
    else
      match Execute(s, sts[0])
      case Ok(next) => ExecuteAll(next, sts[1..])
      case Err(e) => Err(e)
  }

  /** What `finmatrix_assert_entry_balanced` lets pass: a missing entry, a draft, or equal sides. */
  predicate Passes(t: Tables, e: EntryId) {
    e in t.entries && t.entries[e] != Draft ==> SumDebit(t.lines, e) == SumCredit(t.lines, e)
  }

  /** The transaction's commit succeeds. */
  predicate CommitAccepts(s: Session) {
    forall i :: 0 <= i < |s.queue| ==> Passes(s.tables, s.queue[i])
  }

  /** Every non-draft entry balances. */
  ghost predicate AllBalanced(t: Tables) {
    forall e :: e in t.entries ==> Passes(t, e)
  }

  // ── What the constraints keep ─────────────────────────────────────────────

  /** Line ids differ, every line is of a stored entry, and every line has one side. */
  ghost predicate Constrained(t: Tables) {
    && (forall i, j :: 0 <= i < j < |t.lines| ==> t.lines[i].id != t.lines[j].id)
    && (forall i :: 0 <= i < |t.lines| ==> t.lines[i].entry in t.entries)
    && (forall i :: 0 <= i < |t.lines| ==>
          var l := t.lines[i]; l.debit >= 0 && l.credit >= 0 && (l.debit > 0 <==> l.credit == 0))
  }

  lemma {:induction false} WithoutIs(lines: seq<JLine>, e: EntryId)
    requires forall i, j :: 0 <= i < j < |lines| ==> lines[i].id != lines[j].id
    ensures var kept := Without(lines, e);
            && (forall l :: l in kept <==> l in lines && l.entry != e)
            && (forall i, j :: 0 <= i < j < |kept| ==> kept[i].id != kept[j].id)
  {
    if lines != [] {
      WithoutIs(lines[1..], e);
      assert lines == [lines[0]] + lines[1..];
    }
  }

  lemma {:induction false} DeleteKeepsConstraints(s: Session, e: EntryId)
    requires Constrained(s.tables)
    ensures Constrained(Execute(s, DeleteEntry(e)).value.tables)
  {
    if e in s.tables.entries {
      WithoutIs(s.tables.lines, e);
      var kept := Without(s.tables.lines, e);
      forall i | 0 <= i < |kept| ensures kept[i] in s.tables.lines && kept[i].entry != e {
        assert kept[i] in kept;
      }
    }
  }

  lemma {:induction false} LineKeepsConstraints(s: Session, st: Statement)
    requires Constrained(s.tables) && Execute(s, st).Ok? && (st.InsertLine? || st.UpdateLine? || st.DeleteLine?)
    ensures Constrained(Execute(s, st).value.tables)
  {}

  /** Every statement keeps the keys unique, the lines owned and one-sided: a deleted entry takes its
      lines with it. */
  lemma {:induction false} StatementKeepsConstraints(s: Session, st: Statement)
    requires Constrained(s.tables) && Execute(s, st).Ok?
    ensures Constrained(Execute(s, st).value.tables)
  {
    match st
    case DeleteEntry(e) => DeleteKeepsConstraints(s, e);
    case InsertLine(_) => LineKeepsConstraints(s, st);
    case UpdateLine(_) => LineKeepsConstraints(s, st);
    case DeleteLine(_) => LineKeepsConstraints(s, st);
    case _ =>
  }

  lemma {:induction false} StatementsKeepConstraints(s: Session, sts: seq<Statement>)
    requires Constrained(s.tables) && ExecuteAll(s, sts).Ok?
    ensures Constrained(ExecuteAll(s, sts).value.tables)
    decreases |sts|
  {
    if sts != [] {
      StatementKeepsConstraints(s, sts[0]);
      StatementsKeepConstraints(Execute(s, sts[0]).value, sts[1..]);
    }
  }

  /** What a statement does to the two tables: no row but those it names changes, a line insert or update
      that breaks a key or a check is refused, and nothing else is. */
  lemma {:induction false} StatementDoes(s: Session, st: Statement)
    requires Constrained(s.tables)
    ensures var t, r := s.tables, Execute(s, st);
            match st
            case InsertEntry(e, status) =>
              if e in t.entries then r == Err(DuplicateKey)
              else r.Ok? && r.value.tables == Tables(t.entries[e := status], t.lines)
            case SetStatus(e, status) =>
              r.Ok? && r.value.tables == if e in t.entries then Tables(t.entries[e := status], t.lines) else t
            case UpdateOtherColumns(_) => r == Ok(s)
            case DeleteEntry(e) =>
              && r.Ok? && r.value.tables.entries == t.entries - {e}
              && forall l :: l in r.value.tables.lines <==> l in t.lines && l.entry != e
            case InsertLine(l) =>
              if exists x :: x in t.lines && x.id == l.id then r == Err(DuplicateKey)
              else if !((l.debit > 0 && l.credit == 0) || (l.credit > 0 && l.debit == 0)) then r == Err(CheckViolation)
              else if l.entry !in t.entries then r == Err(ForeignKey)
              else r.Ok? && r.value.tables == Tables(t.entries, t.lines + [l])
            case UpdateLine(l) =>
              if forall x :: x in t.lines ==> x.id != l.id then r == Ok(s)
              else if !((l.debit > 0 && l.credit == 0) || (l.credit > 0 && l.debit == 0)) then r == Err(CheckViolation)
              else if l.entry !in t.entries then r == Err(ForeignKey)
              else
                && r.Ok? && r.value.tables.entries == t.entries
                && forall x :: x in r.value.tables.lines <==> x == l || (x in t.lines && x.id != l.id)
            case DeleteLine(id) =>
              && r.Ok? && r.value.tables.entries == t.entries
              && forall x :: x in r.value.tables.lines <==> x in t.lines && x.id != id
  {
    var t := s.tables;
    match st
    case DeleteEntry(e) =>
      WithoutIs(t.lines, e);
      if e !in t.entries {
        assert t.entries - {e} == t.entries;
      }
    case InsertLine(l) => FoundExactlyWhen(t.lines, l.id);
    case UpdateLine(l) =>
      FoundExactlyWhen(t.lines, l.id);
      var i := Find(t.lines, l.id);
      if i < |t.lines| { ReplacedAt(t.lines, i, l); }
    case DeleteLine(id) =>
      FoundExactlyWhen(t.lines, id);
      var i := Find(t.lines, id);
      if i < |t.lines| { CutAt(t.lines, i); }
    case _ =>
  }

  lemma {:induction false} CascadeIs(lines: seq<JLine>, e: EntryId)
    ensures forall i :: 0 <= i < |CascadeEvents(lines, e)| ==> CascadeEvents(lines, e)[i] == e
    ensures CascadeEvents(lines, e) != [] <==> exists l :: l in lines && l.entry == e
  {
    if lines != [] {
      CascadeIs(lines[1..], e);
      assert lines == [lines[0]] + lines[1..];
    }
  }

  /** What an accepted statement queues: the entry of a header inserted or given a status, the entry a
      changed line is of now, or was of when it is deleted, and for a deleted entry itself when it had
      lines; nothing for a statement that meets no row or other columns only. */
  lemma {:induction false} StatementQueues(s: Session, st: Statement, e: EntryId)
    requires Constrained(s.tables) && Execute(s, st).Ok?
    ensures var t, after := s.tables, Execute(s, st).value.queue;
            && s.queue <= after
            && (e in after[|s.queue|..] <==>
                  match st
                  case InsertEntry(f, _) => e == f
                  case SetStatus(f, _) => e == f && f in t.entries
                  case UpdateOtherColumns(_) => false
                  case DeleteEntry(f) => e == f && f in t.entries && exists l :: l in t.lines && l.entry == f
                  case InsertLine(l) => e == l.entry
                  case UpdateLine(l) => e == l.entry && exists x :: x in t.lines && x.id == l.id
                  case DeleteLine(id) => exists x :: x in t.lines && x.id == id && x.entry == e)
  {
    var t := s.tables;
    match st
    case DeleteEntry(f) =>
      CascadeIs(t.lines, f);
      var events := CascadeEvents(t.lines, f);
      if f in t.entries {
        assert Execute(s, st).value.queue[|s.queue|..] == events;
        assert events != [] ==> events[0] == f;
      }
    case UpdateLine(l) => FoundExactlyWhen(t.lines, l.id);
    case DeleteLine(id) =>
      FoundExactlyWhen(t.lines, id);
      var i := Find(t.lines, id);
      assert i < |t.lines| ==> forall x :: x in t.lines && x.id == id ==> x == t.lines[i];
    case _ =>
  }

  lemma {:induction false} FoundExactlyWhen(lines: seq<JLine>, id: LineId)
    ensures Find(lines, id) < |lines| <==> exists x :: x in lines && x.id == id
  {
    if x :| x in lines && x.id == id {
      var j :| 0 <= j < |lines| && lines[j] == x;
    }
  }

  lemma {:induction false} ReplacedAt(lines: seq<JLine>, i: nat, l: JLine)
    requires i < |lines| && lines[i].id == l.id
    requires forall j, k :: 0 <= j < k < |lines| ==> lines[j].id != lines[k].id
    ensures forall x :: x in lines[i := l] <==> x == l || (x in lines && x.id != l.id)
  {
    var next := lines[i := l];
    forall x | x in lines && x.id != l.id ensures x in next {
      var j :| 0 <= j < |lines| && lines[j] == x;
      assert next[j] == x;
    }
    assert next[i] == l;
  }

  lemma {:induction false} CutAt(lines: seq<JLine>, i: nat)
    requires i < |lines| && forall j, k :: 0 <= j < k < |lines| ==> lines[j].id != lines[k].id
    ensures forall x :: x in lines[..i] + lines[i + 1..] <==> x in lines && x.id != lines[i].id
  {
    var cut := lines[..i] + lines[i + 1..];
    forall x | x in lines && x.id != lines[i].id ensures x in cut {
      var j :| 0 <= j < |lines| && lines[j] == x;
      assert cut[if j < i then j else j - 1] == x;
    }
  }

  // ── What a statement can unbalance ────────────────────────────────────────

  /** The entry a line update takes the line away from, when that is another one. */
  function Vacated(t: Tables, st: Statement): set<EntryId> {
    if st.UpdateLine? then
      var i := Find(t.lines, st.line.id);
      if i < |t.lines| && t.lines[i].entry != st.line.entry then {t.lines[i].entry} else {}
    else {}
  }

  function AllVacated(s: Session, sts: seq<Statement>): set<EntryId>
    decreases |sts|
  {
    if sts == [] || Execute(s, sts[0]).Err? then {}
    else Vacated(s.tables, sts[0]) + AllVacated(Execute(s, sts[0]).value, sts[1..])
  }

  /** No statement moves a line to another entry. */
  predicate NoMoves(s: Session, sts: seq<Statement>)
    decreases |sts|
  {
    sts == [] || Execute(s, sts[0]).Err?
    || (Vacated(s.tables, sts[0]) == {} && NoMoves(Execute(s, sts[0]).value, sts[1..]))
  }

  lemma {:induction false} SumsAppend(a: seq<JLine>, b: seq<JLine>, e: EntryId)
    ensures SumDebit(a + b, e) == SumDebit(a, e) + SumDebit(b, e)
    ensures SumCredit(a + b, e) == SumCredit(a, e) + SumCredit(b, e)
  {
    if a == [] {
      assert a + b == b;
    } else {
      SumsAppend(a[1..], b, e);
      assert (a + b)[1..] == a[1..] + b;
    }
  }

  /** Dropping or replacing one row changes only the sums of the entries it belonged or belongs to. */
  lemma {:induction false} SumsAround(lines: seq<JLine>, i: nat, e: EntryId)
    requires i < |lines| && lines[i].entry != e
    ensures var cut := lines[..i] + lines[i + 1..];
            SumDebit(cut, e) == SumDebit(lines, e) && SumCredit(cut, e) == SumCredit(lines, e)
    ensures forall l: JLine :: l.entry != e ==>
              && SumDebit(lines[i := l], e) == SumDebit(lines, e)
              && SumCredit(lines[i := l], e) == SumCredit(lines, e)
  {
    assert lines == lines[..i] + ([lines[i]] + lines[i + 1..]);
    SumsAppend(lines[..i], [lines[i]] + lines[i + 1..], e);
    SumsAppend(lines[..i], lines[i + 1..], e);
    forall l: JLine | l.entry != e
      ensures SumDebit(lines[i := l], e) == SumDebit(lines, e) && SumCredit(lines[i := l], e) == SumCredit(lines, e)
    {
      assert lines[i := l] == lines[..i] + ([l] + lines[i + 1..]);
      SumsAppend(lines[..i], [l] + lines[i + 1..], e);
    }
  }

  lemma {:induction false} SumsWithout(lines: seq<JLine>, gone: EntryId, e: EntryId)
    requires e != gone
    ensures SumDebit(Without(lines, gone), e) == SumDebit(lines, e)
    ensures SumCredit(Without(lines, gone), e) == SumCredit(lines, e)
  {
    if lines != [] {
      SumsWithout(lines[1..], gone, e);
      var head := if lines[0].entry == gone then [] else [lines[0]];
      SumsAppend(head, Without(lines[1..], gone), e);
    }
  }

  /** A statement that leaves an entry in place without queueing it, or taking a line away from it,
      leaves its status and both its sums as they were. */
  lemma {:induction false} UntouchedStays(s: Session, st: Statement, e: EntryId)
    requires Execute(s, st).Ok?
    requires var after := Execute(s, st).value;
             e in after.tables.entries && e !in after.queue[|s.queue|..] && e !in Vacated(s.tables, st)
    ensures var before, after := s.tables, Execute(s, st).value.tables;
            && e in before.entries && after.entries[e] == before.entries[e]
            && SumDebit(after.lines, e) == SumDebit(before.lines, e)
            && SumCredit(after.lines, e) == SumCredit(before.lines, e)
  {
    var t, after := s.tables, Execute(s, st).value;
    match st
    case InsertEntry(f, _) => assert after.queue[|s.queue|..] == [f];
    case SetStatus(f, _) => assert f in t.entries ==> after.queue[|s.queue|..] == [f];
    case UpdateOtherColumns(_) =>
    case DeleteEntry(f) =>
      if f in t.entries {
        SumsWithout(t.lines, f, e);
      }
    case InsertLine(l) =>
      assert after.queue[|s.queue|..] == [l.entry];
      SumsAppend(t.lines, [l], e);
    case UpdateLine(l) =>
      var i := Find(t.lines, l.id);
      if i < |t.lines| {
        assert after.queue[|s.queue|..] == [l.entry];
        SumsAround(t.lines, i, e);
      }
    case DeleteLine(id) =>
      var i := Find(t.lines, id);
      if i < |t.lines| {
        assert after.queue[|s.queue|..] == [t.lines[i].entry];
        SumsAround(t.lines, i, e);
      }
  }

  lemma {:induction false} QueueGrows(s: Session, st: Statement)
    requires Execute(s, st).Ok?
    ensures s.queue <= Execute(s, st).value.queue
  {}

  lemma {:induction false} AllQueuesGrow(s: Session, sts: seq<Statement>)
    requires ExecuteAll(s, sts).Ok?
    ensures s.queue <= ExecuteAll(s, sts).value.queue
    decreases |sts|
  {
    if sts != [] {
      QueueGrows(s, sts[0]);
      AllQueuesGrow(Execute(s, sts[0]).value, sts[1..]);
    }
  }

  /** Over a whole transaction: an entry never queued and never vacated ends as it began. */
  lemma {:induction false} UntouchedStaysAll(s: Session, sts: seq<Statement>, e: EntryId)
    requires ExecuteAll(s, sts).Ok?
    requires var after := ExecuteAll(s, sts).value;
             e in after.tables.entries && e !in after.queue && e !in AllVacated(s, sts)
    ensures e in s.tables.entries
    ensures Passes(ExecuteAll(s, sts).value.tables, e) <==> Passes(s.tables, e)
    decreases |sts|
  {
    if sts != [] {
      var next := Execute(s, sts[0]).value;
      var after := ExecuteAll(s, sts).value;
      AllQueuesGrow(next, sts[1..]);
      assert forall i :: 0 <= i < |next.queue| ==> next.queue[i] == after.queue[i];
      UntouchedStaysAll(next, sts[1..], e);
      UntouchedStays(s, sts[0], e);
    }
  }

  // ── The triggers suffice, moves aside ─────────────────────────────────────

  /** From balanced books, the tables after a transaction balance exactly when its commit is accepted
      and every entry it moved a line away from balances too: moved-from entries are all that the two
      triggers can miss. */
  lemma {:induction false} TriggersMissOnlyVacated(t: Tables, sts: seq<Statement>)
    requires AllBalanced(t) && ExecuteAll(Session(t, []), sts).Ok?
    ensures var after := ExecuteAll(Session(t, []), sts).value;
            AllBalanced(after.tables) <==>
            CommitAccepts(after) && forall e :: e in AllVacated(Session(t, []), sts) ==> Passes(after.tables, e)
  {
    var s := Session(t, []);
    var after := ExecuteAll(s, sts).value;
    if CommitAccepts(after) && forall e :: e in AllVacated(s, sts) ==> Passes(after.tables, e) {
      forall e | e in after.tables.entries ensures Passes(after.tables, e) {
        if e in after.queue {
          var i :| 0 <= i < |after.queue| && after.queue[i] == e;
          assert Passes(after.tables, after.queue[i]);
        } else if e !in AllVacated(s, sts) {
          UntouchedStaysAll(s, sts, e);
        }
      }
    }
  }

  lemma {:induction false} NoMovesVacateNothing(s: Session, sts: seq<Statement>)
    requires NoMoves(s, sts)
    ensures AllVacated(s, sts) == {}
    decreases |sts|
  {
    if sts != [] && Execute(s, sts[0]).Ok? {
      NoMovesVacateNothing(Execute(s, sts[0]).value, sts[1..]);
    }
  }

  /** For transactions that move no line between entries, the commit is accepted exactly when every
      non-draft entry balances afterwards, the untouched ones included. */
  lemma {:induction false} TriggersSuffice(t: Tables, sts: seq<Statement>)
    requires AllBalanced(t) && ExecuteAll(Session(t, []), sts).Ok? && NoMoves(Session(t, []), sts)
    ensures var after := ExecuteAll(Session(t, []), sts).value;
            CommitAccepts(after) <==> AllBalanced(after.tables)
  {
    TriggersMissOnlyVacated(t, sts);
    NoMovesVacateNothing(Session(t, []), sts);
  }

  /** Serially run transactions: a refused one is rolled back, an accepted one stays. */
  function Serial(t: Tables, txs: seq<seq<Statement>>): Tables
    decreases |txs|
  {
    if txs == [] then t
    else
      var after := ExecuteAll(Session(t, []), txs[0]);
      Serial(if after.Ok? && CommitAccepts(after.value) then after.value.tables else t, txs[1..])
  }

  predicate SerialNoMoves(t: Tables, txs: seq<seq<Statement>>)
    decreases |txs|
  {
    txs == [] ||
    var after := ExecuteAll(Session(t, []), txs[0]);
    && NoMoves(Session(t, []), txs[0])
    && SerialNoMoves(if after.Ok? && CommitAccepts(after.value) then after.value.tables else t, txs[1..])
  }

  /** Over any number of transactions the books stay balanced. */
  lemma {:induction false} BooksStayBalanced(t: Tables, txs: seq<seq<Statement>>)
    requires AllBalanced(t) && SerialNoMoves(t, txs)
    ensures AllBalanced(Serial(t, txs))
    decreases |txs|
  {
    if txs != [] {
      var after := ExecuteAll(Session(t, []), txs[0]);
      if after.Ok? && CommitAccepts(after.value) {
        TriggersSuffice(t, txs[0]);
        BooksStayBalanced(after.value.tables, txs[1..]);
      } else {
        BooksStayBalanced(t, txs[1..]);
      }
    }
  }

  lemma {:induction false} TwoLineSums(a: JLine, b: JLine, e: EntryId)
    ensures SumDebit([a, b], e) == (if a.entry == e then a.debit else 0) + (if b.entry == e then b.debit else 0)
    ensures SumCredit([a, b], e) == (if a.entry == e then a.credit else 0) + (if b.entry == e then b.credit else 0)
  {
    assert [a, b][1..] == [b] && [b][1..] == [];
    assert SumDebit([b], e) == if b.entry == e then b.debit else 0;
    assert SumCredit([b], e) == if b.entry == e then b.credit else 0;
  }

  /** The boundary: moving one line of a posted entry under a draft is accepted and unbalances the
      entry it left. */
  lemma {:induction false} MoveEscapes()
    ensures var t := Tables(map[1 := Posted, 2 := Draft], [JLine(10, 1, 5, 0), JLine(11, 1, 0, 5)]);
            var move := [UpdateLine(JLine(11, 2, 0, 5))];
            && AllBalanced(t)
            && ExecuteAll(Session(t, []), move).Ok?
            && CommitAccepts(ExecuteAll(Session(t, []), move).value)
            && !AllBalanced(ExecuteAll(Session(t, []), move).value.tables)
  {
    var l1, l2, l2' := JLine(10, 1, 5, 0), JLine(11, 1, 0, 5), JLine(11, 2, 0, 5);
    var t := Tables(map[1 := Posted, 2 := Draft], [l1, l2]);
    var move := [UpdateLine(l2')];
    assert [l1, l2][1..] == [l2] && [l1, l2'][1..] == [l2'] && [l2][1..] == [] && [l2'][1..] == [];
    assert Find([l1, l2], 11) == 1;
    assert [l1, l2][1 := l2'] == [l1, l2'];
    var after := Execute(Session(t, []), move[0]).value;
    assert after == Session(t.(lines := [l1, l2']), [2]);
    assert move[1..] == [];
    assert ExecuteAll(Session(t, []), move) == Ok(after);
    TwoLineSums(l1, l2', 1);
    TwoLineSums(l1, l2, 1);
    assert !Passes(after.tables, 1);
  }

  // ── What the application's own writes meet at commit ──────────────────────

  /** The inserts `createEntry` makes for the lines of entry `e`, with ids from `first` on. */
  function LineInserts(e: EntryId, lines: seq<Posting.Line>, first: LineId): seq<Statement> {
    if lines == [] then []
    else [InsertLine(JLine(first, e, lines[0].debit, lines[0].credit))] + LineInserts(e, lines[1..], first + 1)
  }

  function HeadDebits(lines: seq<Posting.Line>): int {
    if lines == [] then 0 else lines[0].debit + HeadDebits(lines[1..])
  }

  function HeadCredits(lines: seq<Posting.Line>): int {
    if lines == [] then 0 else lines[0].credit + HeadCredits(lines[1..])
  }

  predicate FreshFrom(lines: seq<JLine>, first: LineId) {
    forall i :: 0 <= i < |lines| ==> lines[i].id < first
  }

  lemma {:induction false} LineInsertsRun(s: Session, e: EntryId, lines: seq<Posting.Line>, first: LineId)
    requires e in s.tables.entries && FreshFrom(s.tables.lines, first)
    requires forall i :: 0 <= i < |lines| ==> Posting.GoodLine(lines[i])
    ensures var result := ExecuteAll(s, LineInserts(e, lines, first));
            && result.Ok? && result.value.tables.entries == s.tables.entries
            && NoMoves(s, LineInserts(e, lines, first))
            && s.queue <= result.value.queue
            && SumDebit(result.value.tables.lines, e) == SumDebit(s.tables.lines, e) + HeadDebits(lines)
            && SumCredit(result.value.tables.lines, e) == SumCredit(s.tables.lines, e) + HeadCredits(lines)
    decreases |lines|
  {
    if lines != [] {
      var l := JLine(first, e, lines[0].debit, lines[0].credit);
      var sts := LineInserts(e, lines, first);
      assert sts[0] == InsertLine(l) && sts[1..] == LineInserts(e, lines[1..], first + 1);
      var next := Execute(s, sts[0]).value;
      SumsAppend(s.tables.lines, [l], e);
      LineInsertsRun(next, e, lines[1..], first + 1);
    }
  }

  lemma {:induction false} HeadSums(lines: seq<Posting.Line>)
    ensures HeadDebits(lines) == Posting.Debits(lines) && HeadCredits(lines) == Posting.Credits(lines)
  {
    if lines != [] {
      HeadSums(lines[1..]);
      SumShift(lines, |lines|);
    }
  }

  lemma {:induction false} SumShift(lines: seq<Posting.Line>, n: nat)
    requires 1 <= n <= |lines|
    ensures Posting.DebitsTo(lines, n) == lines[0].debit + Posting.DebitsTo(lines[1..], n - 1)
    ensures Posting.CreditsTo(lines, n) == lines[0].credit + Posting.CreditsTo(lines[1..], n - 1)
  {
    if n > 1 {
      SumShift(lines, n - 1);
    }
  }

  /** A fresh id has no lines yet. */
  lemma {:induction false} NoLinesNoSums(lines: seq<JLine>, e: EntryId)
    requires forall i :: 0 <= i < |lines| ==> lines[i].entry != e
    ensures SumDebit(lines, e) == 0 && SumCredit(lines, e) == 0
  {
    if lines != [] {
      NoLinesNoSums(lines[1..], e);
    }
  }

  /** A new posted entry survives its commit exactly when its sides are equal: the one-unit difference
      the application tolerates is refused here. */
  lemma {:induction false} PostedEntryCommits(t: Tables, e: EntryId, lines: seq<Posting.Line>, first: LineId)
    requires AllBalanced(t) && e !in t.entries && FreshFrom(t.lines, first)
    requires forall i :: 0 <= i < |t.lines| ==> t.lines[i].entry in t.entries
    requires forall i :: 0 <= i < |lines| ==> Posting.GoodLine(lines[i])
    ensures var result := ExecuteAll(Session(t, []), [InsertEntry(e, Posted)] + LineInserts(e, lines, first));
            result.Ok? && (CommitAccepts(result.value) <==> Posting.Debits(lines) == Posting.Credits(lines))
  {
    var s := Session(t, []);
    var sts := [InsertEntry(e, Posted)] + LineInserts(e, lines, first);
    var next := Execute(s, sts[0]).value;
    assert sts[1..] == LineInserts(e, lines, first);
    LineInsertsRun(next, e, lines, first);
    NoLinesNoSums(t.lines, e);
    HeadSums(lines);
    var after := ExecuteAll(s, sts).value;
    assert next.queue[0] == e && after.queue[0] == e;
    assert NoMoves(s, sts);
    TriggersSuffice(t, sts);
    if Posting.Debits(lines) == Posting.Credits(lines) {
      forall f | f in after.tables.entries ensures Passes(after.tables, f) {
        if f != e {
          InsertsLeaveOthers(next, e, lines, first, f);
        }
      }
    }
  }

  lemma {:induction false} InsertsLeaveOthers(s: Session, e: EntryId, lines: seq<Posting.Line>, first: LineId,
      f: EntryId)
    requires e in s.tables.entries && f != e
    requires ExecuteAll(s, LineInserts(e, lines, first)).Ok?
    ensures var after := ExecuteAll(s, LineInserts(e, lines, first)).value.tables;
            && after.entries == s.tables.entries
            && SumDebit(after.lines, f) == SumDebit(s.tables.lines, f)
            && SumCredit(after.lines, f) == SumCredit(s.tables.lines, f)
    decreases |lines|
  {
    if lines != [] {
      var l := JLine(first, e, lines[0].debit, lines[0].credit);
      var sts := LineInserts(e, lines, first);
      assert sts[0] == InsertLine(l) && sts[1..] == LineInserts(e, lines[1..], first + 1);
      SumsAppend(s.tables.lines, [l], f);
      InsertsLeaveOthers(Execute(s, sts[0]).value, e, lines[1..], first + 1, f);
    }
  }

  /** Posting or voiding a draft changes only its status, so it commits exactly when the draft's lines
      balance: an unbalanced draft cannot be voided, though the service means to allow it. */
  lemma {:induction false} LeavingDraftCommits(t: Tables, e: EntryId, status: Status)
    requires AllBalanced(t) && e in t.entries && t.entries[e] == Draft && status != Draft
    ensures var result := ExecuteAll(Session(t, []), [SetStatus(e, status)]);
            result.Ok? && (CommitAccepts(result.value) <==> SumDebit(t.lines, e) == SumCredit(t.lines, e))
  {
    var s := Session(t, []);
    var sts := [SetStatus(e, status)];
    assert sts[1..] == [];
    var after := Execute(s, sts[0]).value;
    assert ExecuteAll(after, []) == Ok(after);
    assert after.queue == [e];
    assert after.queue[0] == e;
  }

  // ── Two transactions at once ──────────────────────────────────────────────

  /** Two transactions whose checks ran before either committed: one posts a draft, the other's
      statements leave that entry's header alone. Each check saw its own changes only; afterwards the
      tables hold both. */
  function PostedMeanwhile(t: Tables, sts: seq<Statement>, e: EntryId): Tables
    requires ExecuteAll(Session(t, []), sts).Ok?
  {
    var other := ExecuteAll(Session(t, []), sts).value.tables;
    other.(entries := other.entries[e := Posted])
  }

  /** Statements that touch nothing but the lines of draft `e`. */
  predicate EditsDraft(s: Session, sts: seq<Statement>, e: EntryId)
    decreases |sts|
  {
    sts == [] || (EditsLineOf(s.tables, sts[0], e) && Execute(s, sts[0]).Ok?
                  && EditsDraft(Execute(s, sts[0]).value, sts[1..], e))
  }

  predicate EditsLineOf(t: Tables, st: Statement, e: EntryId) {
    match st
    case InsertLine(l) => l.entry == e
    case UpdateLine(l) => l.entry == e && OwnLine(t.lines, l.id, e)
    case DeleteLine(id) => OwnLine(t.lines, id, e)
    case _ => false
  }

  predicate OwnLine(lines: seq<JLine>, id: LineId, e: EntryId) {
    var i := Find(lines, id);
    i < |lines| ==> lines[i].entry == e
  }

  /** Edits of a draft's own lines are accepted at commit whatever they leave: the draft passes unread. */
  lemma {:induction false} DraftEditsCommit(s: Session, sts: seq<Statement>, e: EntryId)
    requires e in s.tables.entries && s.tables.entries[e] == Draft && CommitAccepts(s)
    requires forall i :: 0 <= i < |s.queue| ==> s.queue[i] == e
    requires EditsDraft(s, sts, e)
    ensures var result := ExecuteAll(s, sts);
            && result.Ok? && CommitAccepts(result.value) && NoMoves(s, sts)
            && result.value.tables.entries == s.tables.entries
    decreases |sts|
  {
    if sts != [] {
      var next := Execute(s, sts[0]).value;
      assert next.tables.entries == s.tables.entries;
      assert next.queue == s.queue || next.queue == s.queue + [e];
      DraftEditsCommit(next, sts[1..], e);
    }
  }

  /** The posting's commit is accepted, because the draft it posts balances in its eyes. Whatever else
      the other transaction did, once its own commit is accepted too the books balance exactly when it
      left the draft's lines balanced. */
  lemma {:induction false} PostedWhileEdited(t: Tables, sts: seq<Statement>, e: EntryId)
    requires AllBalanced(t) && e in t.entries && t.entries[e] == Draft
    requires SumDebit(t.lines, e) == SumCredit(t.lines, e)
    requires ExecuteAll(Session(t, []), sts).Ok? && NoMoves(Session(t, []), sts)
    requires var other := ExecuteAll(Session(t, []), sts).value;
             CommitAccepts(other) && e in other.tables.entries && other.tables.entries[e] == Draft
    ensures var post := ExecuteAll(Session(t, []), [SetStatus(e, Posted)]);
            post.Ok? && CommitAccepts(post.value)
    ensures var both := PostedMeanwhile(t, sts, e);
            AllBalanced(both) <==> SumDebit(both.lines, e) == SumCredit(both.lines, e)
  {
    LeavingDraftCommits(t, e, Posted);
    TriggersSuffice(t, sts);
    var other, both := ExecuteAll(Session(t, []), sts).value.tables, PostedMeanwhile(t, sts, e);
    forall f | f in both.entries && f != e ensures Passes(both, f) {
      assert Passes(other, f);
    }
    assert e in both.entries && both.entries[e] == Posted;
  }

  /** A draft posted while its lines are edited: both commits are accepted, the one because the draft
      balances in its eyes, the other because the entry is a draft in its own. */
  lemma {:induction false} BothCommit(t: Tables, sts: seq<Statement>, e: EntryId)
    requires AllBalanced(t) && e in t.entries && t.entries[e] == Draft
    requires SumDebit(t.lines, e) == SumCredit(t.lines, e) && EditsDraft(Session(t, []), sts, e)
    ensures var post, edit := ExecuteAll(Session(t, []), [SetStatus(e, Posted)]), ExecuteAll(Session(t, []), sts);
            post.Ok? && CommitAccepts(post.value) && edit.Ok? && CommitAccepts(edit.value)
    ensures var both := PostedMeanwhile(t, sts, e);
            AllBalanced(both) <==> SumDebit(both.lines, e) == SumCredit(both.lines, e)
  {
    DraftEditsCommit(Session(t, []), sts, e);
    PostedWhileEdited(t, sts, e);
  }

  /** They need not: one line added to the draft while it is being posted. */
  lemma {:induction false} PostedWhileLineAdded(t: Tables, e: EntryId, l: JLine)
    requires AllBalanced(t) && e in t.entries && t.entries[e] == Draft
    requires SumDebit(t.lines, e) == SumCredit(t.lines, e)
    requires l.entry == e && LineChecks(l) && Find(t.lines, l.id) == |t.lines|
    ensures var edit := ExecuteAll(Session(t, []), [InsertLine(l)]);
            edit.Ok? && CommitAccepts(edit.value) && !AllBalanced(PostedMeanwhile(t, [InsertLine(l)], e))
  {
    var s, sts := Session(t, []), [InsertLine(l)];
    assert sts[1..] == [];
    var after := Execute(s, sts[0]).value;
    assert ExecuteAll(after, []) == Ok(after);
    assert after.queue == [e];
    SumsAppend(t.lines, [l], e);
    assert [l][1..] == [];
    assert SumDebit([l], e) == l.debit && SumCredit([l], e) == l.credit;
    var both := PostedMeanwhile(t, sts, e);
    assert both.lines == t.lines + [l] && e in both.entries && !Passes(both, e);
  }

  // ── The trigger function and the commit loop ──────────────────────────────

  class Transaction {
    var tables: Tables
    var queue: seq<EntryId>

    constructor (tables: Tables)
      ensures State() == Session(tables, [])
    {
      this.tables, this.queue := tables, [];
    }

    function State(): Session
      reads this
    {
      Session(tables, queue)
    }

    /** One statement; an error leaves the tables to be rolled back by the caller. */
    method Run(st: Statement) returns (error: Option<DbError>)
      modifies this
      ensures match Execute(old(State()), st)
              case Ok(next) => error == None && State() == next
              case Err(e) => error == Some(e) && State() == old(State())
    {
      match Execute(State(), st)
      case Ok(next) => tables, queue := next.tables, next.queue; error := None;
      case Err(e) => error := Some(e);
    }

    /** `finmatrix_assert_entry_balanced` for one looked-up entry. */
    method AssertEntryBalanced(e: EntryId) returns (raises: bool)
      ensures raises <==> !Passes(tables, e)
    {
      if e !in tables.entries || tables.entries[e] == Draft {
        return false;
      }
      var debits, credits, i := 0, 0, |tables.lines|;
      while i > 0
        invariant 0 <= i <= |tables.lines|
        invariant debits == SumDebit(tables.lines[i..], e) && credits == SumCredit(tables.lines[i..], e)
      {
        i := i - 1;
        assert tables.lines[i..][1..] == tables.lines[i + 1..];
        if tables.lines[i].entry == e {
          debits, credits := debits + tables.lines[i].debit, credits + tables.lines[i].credit;
        }
      }
      return debits != credits;
    }

    /** The deferred checks, in the order they were queued; the first that raises refuses the commit. */
    method Commit() returns (accepted: bool)
      ensures accepted <==> CommitAccepts(State())
    {
      for i := 0 to |queue|
        invariant forall j :: 0 <= j < i ==> Passes(tables, queue[j])
      {
        var raises := AssertEntryBalanced(queue[i]);
        if raises {
          return false;
        }
      }
      return true;
    }
  }
}
