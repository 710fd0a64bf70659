/** The posting engine: a journal entry's lines move account balances and append ledger rows.
    Amounts are integers in units of 0.0001. */
module Posting {
  import opened Options

  type AccountId = nat

  datatype AccountType = Asset | Liability | Equity | Revenue | Expense

  datatype Account = Account(
    number: string,
    kind: AccountType,
    subType: string,
    parent: Option<AccountId>,
    balance: int,
    active: bool)

  datatype Line = Line(account: AccountId, debit: int, credit: int)

  datatype GlRow = GlRow(account: AccountId, debit: int, credit: int, running: int)

  datatype Books = Books(accounts: map<AccountId, Account>, ledger: seq<GlRow>)

  datatype PostingError =
    | InsufficientLines | BadLine | AccountMissing | AccountInactive | Unbalanced | PeriodLocked

  /** 0.0001, the tolerance of `moneyEquals`. */
  const TOLERANCE := 1

  function Abs(x: int): int {
    if x < 0 then -x else x
  }

  /** Assets and expenses grow with a debit, everything else with a credit. */
  function Signed(kind: AccountType, debit: int, credit: int): int {
    if kind.Asset? || kind.Expense? then debit - credit else credit - debit
  }

  predicate GoodLine(l: Line) {
    (l.debit > 0 && l.credit == 0) || (l.credit > 0 && l.debit == 0)
  }

  /** Total debit of the first `n` lines. */
  function DebitsTo(lines: seq<Line>, n: nat): int
    requires n <= |lines|
  {
    if n == 0 then 0 else DebitsTo(lines, n - 1) + lines[n - 1].debit
  }

  function CreditsTo(lines: seq<Line>, n: nat): int
    requires n <= |lines|
  {
    if n == 0 then 0 else CreditsTo(lines, n - 1) + lines[n - 1].credit
  }

  function Debits(lines: seq<Line>): int {
    DebitsTo(lines, |lines|)
  }

  function Credits(lines: seq<Line>): int {
    CreditsTo(lines, |lines|)
  }

  // ── The simple form: one line at a time ───────────────────────────────────

  /** Move the account by the line and write the balance it now stands at. */
  function PostLine(b: Books, l: Line): Books
    requires l.account in b.accounts
  {
    var a := b.accounts[l.account];
    var now := a.balance + Signed(a.kind, l.debit, l.credit);
    Books(b.accounts[l.account := a.(balance := now)],
          b.ledger + [GlRow(l.account, l.debit, l.credit, now)])
  }

  predicate AccountsExist(b: Books, lines: seq<Line>) {
    forall i :: 0 <= i < |lines| ==> lines[i].account in b.accounts
  }

  /** The first `n` lines posted in turn. */
  function PostTo(b: Books, lines: seq<Line>, n: nat): (after: Books)
    requires n <= |lines| && AccountsExist(b, lines)
    ensures after.accounts.Keys == b.accounts.Keys
  {
    if n == 0 then b else PostLine(PostTo(b, lines, n - 1), lines[n - 1])
  }

  function PostLines(b: Books, lines: seq<Line>): (after: Books)
    requires AccountsExist(b, lines)
    ensures after.accounts.Keys == b.accounts.Keys
  {
    PostTo(b, lines, |lines|)
  }

  /** What a posted entry does: every check in the order it is made, then the lines. */
  function CreateEntry(b: Books, lines: seq<Line>, periodLocked: bool): Result<Books, PostingError> {
    if |lines| < 2 then Err(InsufficientLines)
    else if periodLocked then Err(PeriodLocked)
    else if exists i :: 0 <= i < |lines| && !GoodLine(lines[i]) then Err(BadLine)
    else if !AccountsExist(b, lines) then Err(AccountMissing)
    else if exists i :: 0 <= i < |lines| && !b.accounts[lines[i].account].active then Err(AccountInactive)
    else if Abs(Debits(lines) - Credits(lines)) > TOLERANCE then Err(Unbalanced)
    else Ok(PostLines(b, lines))
  }

  /** CreateEntry, then the commit at which the balance trigger demands equal sides. */
  function CreateAndCommit(b: Books, lines: seq<Line>, periodLocked: bool): Result<Books, PostingError> {
    var posted := CreateEntry(b, lines, periodLocked);
    if posted.Ok? && Debits(lines) != Credits(lines) then Err(Unbalanced) else posted
  }

  /** An entry is posted exactly when it has two lines or more, its period is open, each line is on one side
      of an active account and the sides differ by 0.0001 at most; each refusal says which of these fails. */
  lemma {:induction false} PostedExactlyWhen(b: Books, lines: seq<Line>, periodLocked: bool)
    ensures var r := CreateEntry(b, lines, periodLocked);
            && (r.Ok? <==>
                  && |lines| >= 2 && !periodLocked
                  && (forall i :: 0 <= i < |lines| ==>
                        && lines[i].debit >= 0 && lines[i].credit >= 0 && (lines[i].debit > 0 <==> lines[i].credit == 0)
                        && lines[i].account in b.accounts && b.accounts[lines[i].account].active)
                  && -1 <= Debits(lines) - Credits(lines) <= 1)
            && (r.Err? ==>
                  match r.error
                  case InsufficientLines => |lines| < 2
                  case PeriodLocked => periodLocked
                  case BadLine => exists i :: 0 <= i < |lines| && !GoodLine(lines[i])
                  case AccountMissing => exists i :: 0 <= i < |lines| && lines[i].account !in b.accounts
                  case AccountInactive =>
                    exists i :: 0 <= i < |lines| && lines[i].account in b.accounts && !b.accounts[lines[i].account].active
                  case Unbalanced => !(-1 <= Debits(lines) - Credits(lines) <= 1))
  {
    if forall i :: 0 <= i < |lines| ==> GoodLine(lines[i]) && lines[i].account in b.accounts {
      assert AccountsExist(b, lines);
    }
  }

  // ── Sums over the ledger ──────────────────────────────────────────────────

  /** Signed movement of account `a`, read under type `kind`. */
  function Movement(ledger: seq<GlRow>, a: AccountId, kind: AccountType): int {
    if ledger == [] then 0
    else
      var r := ledger[|ledger| - 1];
      Movement(ledger[..|ledger| - 1], a, kind) + if r.account == a then Signed(kind, r.debit, r.credit) else 0
  }

  function TotalDebits(ledger: seq<GlRow>): int {
    if ledger == [] then 0 else TotalDebits(ledger[..|ledger| - 1]) + ledger[|ledger| - 1].debit
  }

  function TotalCredits(ledger: seq<GlRow>): int {
    if ledger == [] then 0 else TotalCredits(ledger[..|ledger| - 1]) + ledger[|ledger| - 1].credit
  }

  predicate HasRow(ledger: seq<GlRow>, a: AccountId) {
    exists i :: 0 <= i < |ledger| && ledger[i].account == a
  }

  ghost predicate RowsOwned(b: Books) {
    forall i :: 0 <= i < |b.ledger| ==> b.ledger[i].account in b.accounts
  }

  ghost predicate BalancesAgree(b: Books) {
    forall a :: a in b.accounts ==> b.accounts[a].balance == Movement(b.ledger, a, b.accounts[a].kind)
  }

  /** Rows belong to accounts, balances are what the rows add up to, and the sides agree. */
  ghost predicate Sound(b: Books) {
    RowsOwned(b) && BalancesAgree(b) && TotalDebits(b.ledger) == TotalCredits(b.ledger)
  }

  lemma {:induction false} MovementAppend(ledger: seq<GlRow>, r: GlRow, a: AccountId, kind: AccountType)
    ensures Movement(ledger + [r], a, kind)
         == Movement(ledger, a, kind) + if r.account == a then Signed(kind, r.debit, r.credit) else 0
    ensures TotalDebits(ledger + [r]) == TotalDebits(ledger) + r.debit
    ensures TotalCredits(ledger + [r]) == TotalCredits(ledger) + r.credit
  {
    assert (ledger + [r])[..|ledger|] == ledger;
  }

  lemma {:induction false} NoRowNoMovement(ledger: seq<GlRow>, a: AccountId, kind: AccountType)
    requires !HasRow(ledger, a)
    ensures Movement(ledger, a, kind) == 0
  {
    if ledger != [] {
      var n := |ledger| - 1;
      assert ledger[n].account != a;
      assert !HasRow(ledger[..n], a) by {
        assert forall i :: 0 <= i < n ==> ledger[..n][i] == ledger[i];
      }
      NoRowNoMovement(ledger[..n], a, kind);
    }
  }

  lemma {:induction false} PostLineMoves(b: Books, l: Line)
    requires l.account in b.accounts && RowsOwned(b) && BalancesAgree(b)
    ensures var after := PostLine(b, l);
            && RowsOwned(after) && BalancesAgree(after)
            && TotalDebits(after.ledger) == TotalDebits(b.ledger) + l.debit
            && TotalCredits(after.ledger) == TotalCredits(b.ledger) + l.credit
  {
    var after := PostLine(b, l);
    var row := after.ledger[|b.ledger|];
    forall a | a in after.accounts
      ensures after.accounts[a].balance == Movement(after.ledger, a, after.accounts[a].kind)
    {
      MovementAppend(b.ledger, row, a, after.accounts[a].kind);
    }
    MovementAppend(b.ledger, row, l.account, Asset);
  }

  /** Posting keeps every balance equal to its rows, and moves the two totals by the lines'. */
  lemma {:induction false} PostingMoves(b: Books, lines: seq<Line>, n: nat)
    requires n <= |lines| && AccountsExist(b, lines) && RowsOwned(b) && BalancesAgree(b)
    ensures var after := PostTo(b, lines, n);
            && RowsOwned(after) && BalancesAgree(after)
            && TotalDebits(after.ledger) == TotalDebits(b.ledger) + DebitsTo(lines, n)
            && TotalCredits(after.ledger) == TotalCredits(b.ledger) + CreditsTo(lines, n)
            && b.ledger <= after.ledger
  {
    if n > 0 {
      PostingMoves(b, lines, n - 1);
      PostLineMoves(PostTo(b, lines, n - 1), lines[n - 1]);
    }
  }

  /** A committed posting keeps the books sound. */
  lemma {:induction false} CommitKeepsSound(b: Books, lines: seq<Line>, periodLocked: bool)
    requires Sound(b) && CreateAndCommit(b, lines, periodLocked).Ok?
    ensures var after := CreateAndCommit(b, lines, periodLocked).value;
            Sound(after) && b.ledger <= after.ledger
  {
    PostingMoves(b, lines, |lines|);
  }

  /** The application admits a difference of one unit that the database then refuses: among the
      entries CreateEntry accepts, the commit accepts exactly those with equal sides. */
  lemma {:induction false} ToleranceIsRefusedAtCommit(b: Books, lines: seq<Line>, periodLocked: bool)
    requires CreateEntry(b, lines, periodLocked).Ok?
    ensures CreateAndCommit(b, lines, periodLocked).Err? <==> Abs(Debits(lines) - Credits(lines)) == 1
  {}

  /** The reversal of a posting swaps the sides of every line. */
  function Reversal(lines: seq<Line>): seq<Line> {
    seq(|lines|, i requires 0 <= i < |lines| => Line(lines[i].account, lines[i].credit, lines[i].debit))
  }

  /** What the first `n` lines move one account by, read under its type. */
  function Delta(lines: seq<Line>, n: nat, a: AccountId, kind: AccountType): int
    requires n <= |lines|
  {
    if n == 0 then 0
    else
      var l := lines[n - 1];
      Delta(lines, n - 1, a, kind) + if l.account == a then Signed(kind, l.debit, l.credit) else 0
  }

  /** Swapping the sides negates the movement and exchanges the totals. */
  lemma {:induction false} ReversalDelta(lines: seq<Line>, n: nat, a: AccountId, kind: AccountType)
    requires n <= |lines|
    ensures Delta(Reversal(lines), n, a, kind) == -Delta(lines, n, a, kind)
    ensures DebitsTo(Reversal(lines), n) == CreditsTo(lines, n) && CreditsTo(Reversal(lines), n) == DebitsTo(lines, n)
  {
    if n > 0 {
      ReversalDelta(lines, n - 1, a, kind);
    }
  }

  /** A line's row carries the old balance plus the lines of its account so far. */
  function RowAt(b: Books, lines: seq<Line>, i: nat): GlRow
    requires i < |lines| && AccountsExist(b, lines)
  {
    var l := lines[i];
    var a := b.accounts[l.account];
    GlRow(l.account, l.debit, l.credit, a.balance + Delta(lines, i + 1, l.account, a.kind))
  }

  /** The rows of the first `n` lines. */
  function RowsTo(b: Books, lines: seq<Line>, n: nat): seq<GlRow>
    requires n <= |lines| && AccountsExist(b, lines)
  {
    if n == 0 then [] else RowsTo(b, lines, n - 1) + [RowAt(b, lines, n - 1)]
  }

  /** In closed form, each balance moves by the sum of its lines, and nothing else of an account changes. */
  lemma {:induction false} PostedBalance(b: Books, lines: seq<Line>, n: nat, a: AccountId)
    requires n <= |lines| && AccountsExist(b, lines) && a in b.accounts
    ensures var was := b.accounts[a];
            PostTo(b, lines, n).accounts[a] == was.(balance := was.balance + Delta(lines, n, a, was.kind))
  {
    if n > 0 {
      PostedBalance(b, lines, n - 1, a);
    }
  }

  lemma {:induction false} LastRow(b: Books, lines: seq<Line>, i: nat)
    requires i < |lines| && AccountsExist(b, lines)
    ensures PostTo(b, lines, i + 1).ledger == PostTo(b, lines, i).ledger + [RowAt(b, lines, i)]
  {
    PostedBalance(b, lines, i, lines[i].account);
  }

  /** In closed form, the ledger grows by exactly those rows. */
  lemma {:induction false} PostedRows(b: Books, lines: seq<Line>, n: nat)
    requires n <= |lines| && AccountsExist(b, lines)
    ensures PostTo(b, lines, n).ledger == b.ledger + RowsTo(b, lines, n)
  {
    if n > 0 {
      PostedRows(b, lines, n - 1);
      LastRow(b, lines, n - 1);
      Appended(b.ledger, RowsTo(b, lines, n - 1), RowAt(b, lines, n - 1));
    }
  }

  lemma {:induction false} Appended(ledger: seq<GlRow>, rows: seq<GlRow>, row: GlRow)
    ensures (ledger + rows) + [row] == ledger + (rows + [row])
  {}

  /** Posting an entry and then its reversal puts every balance back. */
  lemma {:induction false} ReversalRestoresBalances(b: Books, lines: seq<Line>)
    requires AccountsExist(b, lines)
    ensures AccountsExist(PostLines(b, lines), Reversal(lines))
    ensures PostLines(PostLines(b, lines), Reversal(lines)).accounts == b.accounts
  {
    var mid := PostLines(b, lines);
    forall a | a in b.accounts
      ensures PostLines(mid, Reversal(lines)).accounts[a] == b.accounts[a]
    {
      PostedBalance(b, lines, |lines|, a);
      PostedBalance(mid, Reversal(lines), |lines|, a);
      ReversalDelta(lines, |lines|, a, b.accounts[a].kind);
    }
  }

  // ── The form the source runs: deltas first, rows second ───────────────────

  /** Balances moved by the aggregated deltas are the balances of the posted lines. */
  lemma {:induction false} BalancesArePosted(b: Books, lines: seq<Line>, accounts: map<AccountId, Account>,
      deltas: map<AccountId, int>)
    requires AccountsExist(b, lines) && accounts.Keys == b.accounts.Keys
    requires forall a :: a in deltas ==> a in b.accounts && deltas[a] == Delta(lines, |lines|, a, b.accounts[a].kind)
    requires forall a :: a !in deltas && a in b.accounts ==> Delta(lines, |lines|, a, b.accounts[a].kind) == 0
    requires forall a :: a in accounts ==>
               accounts[a] == b.accounts[a].(balance := b.accounts[a].balance + if a in deltas then deltas[a] else 0)
    ensures accounts == PostLines(b, lines).accounts
  {
    forall a | a in b.accounts ensures accounts[a] == PostLines(b, lines).accounts[a] {
      PostedBalance(b, lines, |lines|, a);
    }
  }

  /** Accounts touched by the first `n` lines are recorded at their balance so far; the others have not moved. */
  ghost predicate RunningSoFar(b: Books, lines: seq<Line>, n: nat, touched: map<AccountId, int>)
    requires n <= |lines|
  {
    && touched.Keys <= b.accounts.Keys
    && forall a :: a in b.accounts ==>
         var moved := Delta(lines, n, a, b.accounts[a].kind);
         if a in touched then touched[a] == b.accounts[a].balance + moved else moved == 0
  }

  lemma {:induction false} RunningStep(b: Books, lines: seq<Line>, n: nat, touched: map<AccountId, int>, prior: int)
    requires n < |lines| && AccountsExist(b, lines) && RunningSoFar(b, lines, n, touched)
    requires var l := lines[n]; prior == if l.account in touched then touched[l.account] else b.accounts[l.account].balance
    ensures var l := lines[n]; var a := b.accounts[l.account];
            var running := prior + Signed(a.kind, l.debit, l.credit);
            && running == a.balance + Delta(lines, n + 1, l.account, a.kind)
            && RunningSoFar(b, lines, n + 1, touched[l.account := running])
  {}

  /** The accounts of the first `n` lines have their movement so far; the others have not moved. */
  ghost predicate DeltasSoFar(accounts: map<AccountId, Account>, lines: seq<Line>, n: nat, deltas: map<AccountId, int>)
    requires n <= |lines|
  {
    && (forall i :: 0 <= i < n ==> lines[i].account in deltas)
    && (forall a :: a in deltas ==> a in accounts && deltas[a] == Delta(lines, n, a, accounts[a].kind))
    && (forall a :: a !in deltas && a in accounts ==> Delta(lines, n, a, accounts[a].kind) == 0)
  }

  lemma {:induction false} DeltasStep(accounts: map<AccountId, Account>, lines: seq<Line>, n: nat,
      deltas: map<AccountId, int>)
    requires n < |lines| && lines[n].account in accounts && DeltasSoFar(accounts, lines, n, deltas)
    ensures var l := lines[n];
            var prior := if l.account in deltas then deltas[l.account] else 0;
            var moved := prior + Signed(accounts[l.account].kind, l.debit, l.credit);
            DeltasSoFar(accounts, lines, n + 1, deltas[l.account := moved])
  {}

  class PostingService {
    var accounts: map<AccountId, Account>
    var ledger: seq<GlRow>

    constructor (books: Books)
      ensures State() == books
    {
      accounts, ledger := books.accounts, books.ledger;
    }

    function State(): Books
      reads this
    {
      Books(accounts, ledger)
    }

    /** The first loop of `applyPosting`: one aggregated delta per account touched. */
    method AggregateDeltas(lines: seq<Line>) returns (deltas: map<AccountId, int>)
      requires AccountsExist(State(), lines)
      ensures DeltasSoFar(accounts, lines, |lines|, deltas)
    {
      deltas := map[];
      for i := 0 to |lines|
        invariant DeltasSoFar(accounts, lines, i, deltas)
      {
        DeltasStep(accounts, lines, i, deltas);
        var l := lines[i];
        var prior := if l.account in deltas then deltas[l.account] else 0;
        deltas := deltas[l.account := prior + Signed(accounts[l.account].kind, l.debit, l.credit)];
      }
    }

    /** The second loop: one balance update per account, in any order. */
    method ApplyDeltas(deltas: map<AccountId, int>)
      requires deltas.Keys <= accounts.Keys
      modifies this`accounts
      ensures accounts.Keys == old(accounts).Keys
      ensures forall a :: a in accounts ==>
                accounts[a] == old(accounts)[a].(balance := old(accounts)[a].balance + if a in deltas then deltas[a] else 0)
    {
      var rest := deltas.Keys;
      while rest != {}
        invariant rest <= deltas.Keys && accounts.Keys == old(accounts).Keys
        invariant forall a :: a in accounts ==>
                    accounts[a] == old(accounts)[a].(
                      balance := old(accounts)[a].balance + if a in deltas && a !in rest then deltas[a] else 0)
        decreases |rest|
      {
        var a :| a in rest;
        accounts := accounts[a := accounts[a].(balance := accounts[a].balance + deltas[a])];
        rest := rest - {a};
      }
    }

    /** The whole of `applyPosting` equals posting the lines one at a time. */
    method ApplyPosting(lines: seq<Line>)
      requires AccountsExist(State(), lines)
      modifies this
      ensures State() == PostLines(old(State()), lines)
    {
      ghost var before := State();
      var deltas := AggregateDeltas(lines);
      ApplyDeltas(deltas);
      BalancesArePosted(before, lines, accounts, deltas);
      WriteRows(lines, deltas, before);
      PostedRows(before, lines, |lines|);
    }

    /** The third loop: rows with a running balance, continued per account from line to line. */
    method WriteRows(lines: seq<Line>, deltas: map<AccountId, int>, ghost before: Books)
      requires AccountsExist(before, lines) && accounts.Keys == before.accounts.Keys
      requires forall a :: a in accounts ==>
                 && accounts[a].kind == before.accounts[a].kind
                 && accounts[a].balance == before.accounts[a].balance + Delta(lines, |lines|, a, accounts[a].kind)
      requires forall i :: 0 <= i < |lines| ==> lines[i].account in deltas
      requires forall a :: a in deltas ==>
                 a in before.accounts && deltas[a] == Delta(lines, |lines|, a, before.accounts[a].kind)
      modifies `ledger
      ensures ledger == old(ledger) + RowsTo(before, lines, |lines|)
    {
      var rows: seq<GlRow> := [];
      var touched: map<AccountId, int> := map[];
      for i := 0 to |lines|
        invariant ledger == old(ledger)
        invariant RunningSoFar(before, lines, i, touched)
        invariant rows == RowsTo(before, lines, i)
      {
        var l := lines[i];
        var a := accounts[l.account];
        var prior := if l.account in touched then touched[l.account] else a.balance - deltas[l.account];
        var running := prior + Signed(a.kind, l.debit, l.credit);
        RunningStep(before, lines, i, touched, prior);
        assert GlRow(l.account, l.debit, l.credit, running) == RowAt(before, lines, i);
        touched := touched[l.account := running];
        rows := rows + [GlRow(l.account, l.debit, l.credit, running)];
      }
      ledger := ledger + rows;
    }

    /** `createEntry` for a posted entry; nothing changes when it is refused. */
    method PostEntry(lines: seq<Line>, periodLocked: bool) returns (refused: Option<PostingError>)
      modifies this
      ensures var result := CreateEntry(old(State()), lines, periodLocked);
              match result
              case Ok(after) => refused == None && State() == after
              case Err(e) => refused == Some(e) && State() == old(State())
    {
      if |lines| < 2 {
        return Some(InsufficientLines);
      }
      if periodLocked {
        return Some(PeriodLocked);
      }
      var debits, credits := 0, 0;
      for i := 0 to |lines|
        invariant forall j :: 0 <= j < i ==> GoodLine(lines[j])
        invariant debits == DebitsTo(lines, i) && credits == CreditsTo(lines, i)
      {
        if (lines[i].debit > 0) == (lines[i].credit > 0) || lines[i].debit < 0 || lines[i].credit < 0 {
          assert !GoodLine(lines[i]);
          return Some(BadLine);
        }
        debits, credits := debits + lines[i].debit, credits + lines[i].credit;
      }
      if exists i :: 0 <= i < |lines| && lines[i].account !in accounts {
        return Some(AccountMissing);
      }
      if exists i :: 0 <= i < |lines| && !accounts[lines[i].account].active {
        return Some(AccountInactive);
      }
      if Abs(debits - credits) > TOLERANCE {
        return Some(Unbalanced);
      }
      ApplyPosting(lines);
      refused := None;
    }
  }
}
