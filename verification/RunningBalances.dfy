/** The stored running balance of general ledger rows, and its rebuild.

    Rows are ordered within an account by (created_at, id). The rebuilt figure of a row is the account's
    balance less the movement of the rows after it. Amounts are integers in units of 0.0001. */
module RunningBalances {
  import opened Posting

  datatype Row = Row(id: nat, createdAt: int, account: AccountId, debit: int, credit: int, stored: int)

  datatype Ledger = Ledger(accounts: map<AccountId, Account>, rows: seq<Row>)

  /** `ORDER BY created_at, id`. */
  predicate Before(r: Row, s: Row) {
    r.createdAt < s.createdAt || (r.createdAt == s.createdAt && r.id < s.id)
  }

  predicate AtOrBefore(r: Row, s: Row) {
    r.createdAt < s.createdAt || (r.createdAt == s.createdAt && r.id <= s.id)
  }

  predicate IdsUnique(rows: seq<Row>) {
    forall i, j :: 0 <= i < j < |rows| ==> rows[i].id != rows[j].id
  }

  function MoveOf(r: Row, kind: AccountType): int {
    Signed(kind, r.debit, r.credit)
  }

  /** The window sum of the first `n` table rows falling at or before `at` in its account. */
  function Cumulative(rows: seq<Row>, n: nat, at: Row, kind: AccountType): int
    requires n <= |rows|
  {
    if n == 0 then 0
    else
      var r := rows[n - 1];
      Cumulative(rows, n - 1, at, kind)
      + if r.account == at.account && AtOrBefore(r, at) then MoveOf(r, kind) else 0
  }

  function Total(rows: seq<Row>, n: nat, a: AccountId, kind: AccountType): int
    requires n <= |rows|
  {
    if n == 0 then 0
    else Total(rows, n - 1, a, kind) + if rows[n - 1].account == a then MoveOf(rows[n - 1], kind) else 0
  }

  /** `account_balance - total + cumulative`. */
  function Rebuilt(l: Ledger, r: Row): int
    requires r.account in l.accounts
  {
    var a := l.accounts[r.account];
    a.balance - Total(l.rows, |l.rows|, r.account, a.kind) + Cumulative(l.rows, |l.rows|, r, a.kind)
  }

  /** `ABS(stored - rebuilt) > 0.00005`, half of one unit. */
  predicate Drifts(l: Ledger, r: Row) {
    r.account in l.accounts && 2 * Abs(r.stored - Rebuilt(l, r)) > 1
  }

  function DriftCount(l: Ledger, n: nat): nat
    requires n <= |l.rows|
  {
    if n == 0 then 0 else DriftCount(l, n - 1) + if Drifts(l, l.rows[n - 1]) then 1 else 0
  }

  // ── What the rebuilt figures mean ─────────────────────────────────────────

  /** `s` follows `r` directly in their account. */
  predicate IsNext(rows: seq<Row>, r: Row, s: Row) {
    && r.account == s.account && Before(r, s)
    && forall i :: 0 <= i < |rows| && rows[i].account == r.account && Before(r, rows[i]) ==> AtOrBefore(s, rows[i])
  }

  predicate IsLast(rows: seq<Row>, r: Row) {
    forall i :: 0 <= i < |rows| && rows[i].account == r.account ==> AtOrBefore(rows[i], r)
  }

  lemma {:induction false} CumulativeNext(rows: seq<Row>, n: nat, r: Row, j: nat, kind: AccountType)
    requires n <= |rows| && IdsUnique(rows) && j < |rows| && IsNext(rows, r, rows[j])
    ensures Cumulative(rows, n, rows[j], kind)
         == Cumulative(rows, n, r, kind) + if j < n then MoveOf(rows[j], kind) else 0
  {
    if n > 0 {
      CumulativeNext(rows, n - 1, r, j, kind);
      assert n - 1 != j ==> rows[n - 1].id != rows[j].id;
    }
  }

  lemma {:induction false} CumulativeLast(rows: seq<Row>, n: nat, r: Row, kind: AccountType)
    requires n <= |rows| && IsLast(rows, r)
    ensures Cumulative(rows, n, r, kind) == Total(rows, n, r.account, kind)
  {
    if n > 0 {
      CumulativeLast(rows, n - 1, r, kind);
    }
  }

  /** Consecutive rows of an account differ by exactly the later row's signed movement. */
  lemma {:induction false} RebuiltSteps(l: Ledger, i: nat, j: nat)
    requires IdsUnique(l.rows) && i < |l.rows| && j < |l.rows|
    requires IsNext(l.rows, l.rows[i], l.rows[j]) && l.rows[i].account in l.accounts
    ensures Rebuilt(l, l.rows[j]) - Rebuilt(l, l.rows[i])
         == MoveOf(l.rows[j], l.accounts[l.rows[j].account].kind)
  {
    CumulativeNext(l.rows, |l.rows|, l.rows[i], j, l.accounts[l.rows[i].account].kind);
  }

  /** An account's last row carries the account's balance. */
  lemma {:induction false} RebuiltEndsAtBalance(l: Ledger, i: nat)
    requires i < |l.rows| && l.rows[i].account in l.accounts && IsLast(l.rows, l.rows[i])
    ensures Rebuilt(l, l.rows[i]) == l.accounts[l.rows[i].account].balance
  {
    CumulativeLast(l.rows, |l.rows|, l.rows[i], l.accounts[l.rows[i].account].kind);
  }

  /** Figures for the rows, by table position, that step by the movements and end at the balances. */
  ghost predicate IsRunning(l: Ledger, figures: seq<int>) {
    && |figures| == |l.rows|
    && (forall i, j :: 0 <= i < |l.rows| && 0 <= j < |l.rows| && IsNext(l.rows, l.rows[i], l.rows[j])
                       && l.rows[i].account in l.accounts ==>
          figures[j] - figures[i] == MoveOf(l.rows[j], l.accounts[l.rows[j].account].kind))
    && (forall i :: 0 <= i < |l.rows| && IsLast(l.rows, l.rows[i]) && l.rows[i].account in l.accounts ==>
          figures[i] == l.accounts[l.rows[i].account].balance)
  }

  /** Rows of the account of `r` that come after it, among the first `n`. */
  function RowsAfter(rows: seq<Row>, n: nat, r: Row): nat
    requires n <= |rows|
  {
    if n == 0 then 0
    else RowsAfter(rows, n - 1, r) + if rows[n - 1].account == r.account && Before(r, rows[n - 1]) then 1 else 0
  }

  lemma {:induction false} RowsAfterShrinks(rows: seq<Row>, n: nat, r: Row, s: Row)
    requires n <= |rows| && r.account == s.account && Before(r, s)
    ensures RowsAfter(rows, n, s) <= RowsAfter(rows, n, r)
    ensures s in rows[..n] ==> RowsAfter(rows, n, s) < RowsAfter(rows, n, r)
  {
    if n > 0 {
      RowsAfterShrinks(rows, n - 1, r, s);
      assert rows[..n] == rows[..n - 1] + [rows[n - 1]];
    }
  }

  /** A row that is not last has a next one: the earliest of those after it. */
  lemma {:induction false} FindNext(rows: seq<Row>, r: Row) returns (j: nat)
    requires !IsLast(rows, r)
    ensures j < |rows| && IsNext(rows, r, rows[j])
  {
    j :| j < |rows| && rows[j].account == r.account && !AtOrBefore(rows[j], r);
    for k := 0 to |rows|
      invariant j < |rows| && rows[j].account == r.account && Before(r, rows[j])
      invariant forall i :: 0 <= i < k && rows[i].account == r.account && Before(r, rows[i]) ==> AtOrBefore(rows[j], rows[i])
    {
      if rows[k].account == r.account && Before(r, rows[k]) && !AtOrBefore(rows[j], rows[k]) {
        j := k;
      }
    }
  }

  /** The rebuilt figures are the only ones that step by the movements and end at the balances. */
  lemma {:induction false} OnlyRunningFigures(l: Ledger, figures: seq<int>, i: nat)
    requires IdsUnique(l.rows) && IsRunning(l, figures)
    requires i < |l.rows| && l.rows[i].account in l.accounts
    ensures figures[i] == Rebuilt(l, l.rows[i])
    decreases RowsAfter(l.rows, |l.rows|, l.rows[i])
  {
    if IsLast(l.rows, l.rows[i]) {
      RebuiltEndsAtBalance(l, i);
    } else {
      var j := FindNext(l.rows, l.rows[i]);
      assert l.rows[..|l.rows|] == l.rows;
      RowsAfterShrinks(l.rows, |l.rows|, l.rows[i], l.rows[j]);
      OnlyRunningFigures(l, figures, j);
      RebuiltSteps(l, i, j);
    }
  }

  /** And they are such figures. */
  lemma {:induction false} RebuiltIsRunning(l: Ledger)
    requires IdsUnique(l.rows) && forall i :: 0 <= i < |l.rows| ==> l.rows[i].account in l.accounts
    ensures IsRunning(l, seq(|l.rows|, i requires 0 <= i < |l.rows| => Rebuilt(l, l.rows[i])))
  {
    forall i, j | 0 <= i < |l.rows| && 0 <= j < |l.rows| && IsNext(l.rows, l.rows[i], l.rows[j])
      ensures Rebuilt(l, l.rows[j]) - Rebuilt(l, l.rows[i]) == MoveOf(l.rows[j], l.accounts[l.rows[j].account].kind)
    {
      RebuiltSteps(l, i, j);
    }
    forall i | 0 <= i < |l.rows| && IsLast(l.rows, l.rows[i])
      ensures Rebuilt(l, l.rows[i]) == l.accounts[l.rows[i].account].balance
    {
      RebuiltEndsAtBalance(l, i);
    }
  }

  // ── Writing them ──────────────────────────────────────────────────────────

  /** Two tables alike but for the stored figures. */
  ghost predicate SameButStored(rows: seq<Row>, other: seq<Row>) {
    |rows| == |other| && forall i :: 0 <= i < |rows| ==> other[i] == rows[i].(stored := other[i].stored)
  }

  lemma {:induction false} SumsIgnoreStored(rows: seq<Row>, other: seq<Row>, n: nat, at: Row, at': Row,
      kind: AccountType)
    requires SameButStored(rows, other) && n <= |rows| && at' == at.(stored := at'.stored)
    ensures Cumulative(other, n, at', kind) == Cumulative(rows, n, at, kind)
    ensures Total(other, n, at.account, kind) == Total(rows, n, at.account, kind)
  {
    if n > 0 {
      SumsIgnoreStored(rows, other, n - 1, at, at', kind);
    }
  }

  lemma {:induction false} RebuiltIgnoresStored(l: Ledger, other: seq<Row>, i: nat)
    requires SameButStored(l.rows, other) && i < |other| && l.rows[i].account in l.accounts
    ensures Rebuilt(l.(rows := other), other[i]) == Rebuilt(l, l.rows[i])
  {
    SumsIgnoreStored(l.rows, other, |other|, l.rows[i], other[i], l.accounts[l.rows[i].account].kind);
  }

  lemma {:induction false} NoneDriftNoneCount(l: Ledger, n: nat)
    requires n <= |l.rows| && forall i :: 0 <= i < n ==> !Drifts(l, l.rows[i])
    ensures DriftCount(l, n) == 0
  {
    if n > 0 {
      NoneDriftNoneCount(l, n - 1);
    }
  }

  class GeneralLedger {
    const accounts: map<AccountId, Account>
    var rows: seq<Row>

    constructor (l: Ledger)
      ensures State() == l
    {
      accounts, rows := l.accounts, l.rows;
    }

    function State(): Ledger
      reads this
    {
      Ledger(accounts, rows)
    }

    /** `rebuildLedgerRunningBalances`: writes only the rows that differ by more than half a unit, yet
        afterwards every row of a known account carries its rebuilt figure and none drifts. */
    method Rebuild() returns (changed: nat)
      modifies this
      ensures changed == DriftCount(old(State()), |old(rows)|)
      ensures SameButStored(old(rows), rows)
      ensures forall i :: 0 <= i < |rows| ==>
                rows[i].stored == if rows[i].account in accounts then Rebuilt(old(State()), old(rows)[i])
                                  else old(rows)[i].stored
      ensures DriftCount(State(), |rows|) == 0
      ensures changed == 0 ==> rows == old(rows)
    {
      var was := State();
      changed := 0;
      for i := 0 to |rows|
        invariant SameButStored(was.rows, rows) && changed == DriftCount(was, i)
        invariant changed == 0 ==> rows == was.rows
        invariant forall j :: i <= j < |rows| ==> rows[j] == was.rows[j]
        invariant forall j :: 0 <= j < i ==>
                    rows[j].stored == if rows[j].account in accounts then Rebuilt(was, was.rows[j])
                                      else was.rows[j].stored
      {
        if Drifts(was, was.rows[i]) {
          rows := rows[i := rows[i].(stored := Rebuilt(was, was.rows[i]))];
          changed := changed + 1;
        }
      }
      forall i | 0 <= i < |rows| ensures !Drifts(State(), rows[i]) {
        if rows[i].account in accounts {
          RebuiltIgnoresStored(was, rows, i);
        }
      }
      NoneDriftNoneCount(State(), |rows|);
    }

    /** Rebuilding again writes nothing. */
    method RebuildTwice() returns (again: nat)
      modifies this
      ensures again == 0 && DriftCount(State(), |rows|) == 0
      ensures SameButStored(old(rows), rows)
    {
      var first := Rebuild();
      again := Rebuild();
    }
  }

  // ── Posting and the rebuild ───────────────────────────────────────────────

  ghost predicate NoDrift(l: Ledger) {
    forall i :: 0 <= i < |l.rows| && l.rows[i].account in l.accounts ==> l.rows[i].stored == Rebuilt(l, l.rows[i])
  }

  /** The ledger after posting one row, which carries the account's new balance. */
  function Post(l: Ledger, r: Row): Ledger
    requires r.account in l.accounts
  {
    var a := l.accounts[r.account];
    var now := a.balance + MoveOf(r, a.kind);
    Ledger(l.accounts[r.account := a.(balance := now)], l.rows + [r.(stored := now)])
  }

  lemma {:induction false} SumsAppend(rows: seq<Row>, extra: Row, n: nat, at: Row, kind: AccountType)
    requires n <= |rows|
    ensures Cumulative(rows + [extra], n, at, kind) == Cumulative(rows, n, at, kind)
    ensures Total(rows + [extra], n, at.account, kind) == Total(rows, n, at.account, kind)
  {
    if n > 0 {
      SumsAppend(rows, extra, n - 1, at, kind);
    }
  }

  /** Posting shifts the rebuilt figure of a row by the new movement if the row sorts at or after the
      new one, and leaves it alone otherwise. */
  lemma {:induction false} PostShifts(l: Ledger, r: Row, at: Row)
    requires r.account in l.accounts && at.account in l.accounts
    ensures Rebuilt(Post(l, r), at)
         == Rebuilt(l, at) + if at.account == r.account && AtOrBefore(r, at)
                             then MoveOf(r, l.accounts[r.account].kind) else 0
  {
    var after, kind := Post(l, r), l.accounts[at.account].kind;
    SumsAppend(l.rows, after.rows[|l.rows|], |l.rows|, at, kind);
    assert after.rows == l.rows + [after.rows[|l.rows|]];
  }

  /** A posting of a non-zero amount leaves the ledger free of drift exactly when its row sorts after
      every other row of its account; a row given an earlier (created_at, id) than one already there
      makes the stored figures disagree with a rebuild. */
  lemma {:induction false} PostedRowMustSortLast(l: Ledger, r: Row)
    requires NoDrift(l) && r.account in l.accounts && MoveOf(r, l.accounts[r.account].kind) != 0
    requires forall i :: 0 <= i < |l.rows| ==> l.rows[i].id != r.id
    ensures NoDrift(Post(l, r)) <==> IsLast(l.rows, r)
  {
    var after := Post(l, r);
    var posted := after.rows[|l.rows|];
    var kind := l.accounts[r.account].kind;
    if IsLast(l.rows, r) {
      forall i | 0 <= i < |after.rows| && after.rows[i].account in after.accounts
        ensures after.rows[i].stored == Rebuilt(after, after.rows[i])
      {
        if i < |l.rows| {
          PostShifts(l, r, l.rows[i]);
        } else {
          assert IsLast(after.rows, posted);
          RebuiltEndsAtBalance(after, i);
        }
      }
    } else {
      var i :| 0 <= i < |l.rows| && l.rows[i].account == r.account && !AtOrBefore(l.rows[i], r);
      PostShifts(l, r, l.rows[i]);
      assert after.rows[i] == l.rows[i];
      assert after.rows[i].stored != Rebuilt(after, after.rows[i]);
    }
  }

  // ── A whole entry ─────────────────────────────────────────────────────────

  predicate Known(l: Ledger, rs: seq<Row>) {
    forall i :: 0 <= i < |rs| ==> rs[i].account in l.accounts
  }

  /** The first `n` rows of an entry posted in turn. Rows of one entry share `created_at`, and their ids
      are random. */
  function PostAll(l: Ledger, rs: seq<Row>, n: nat): (after: Ledger)
    requires n <= |rs| && Known(l, rs)
    ensures after.accounts.Keys == l.accounts.Keys
  {
    if n == 0 then l else Post(PostAll(l, rs, n - 1), rs[n - 1])
  }

  /** Balances after `n` rows: moved by the rows' sums. */
  lemma {:induction false} PostAllBalance(l: Ledger, rs: seq<Row>, n: nat, a: AccountId)
    requires n <= |rs| && Known(l, rs)
    requires a in l.accounts
    ensures var was := l.accounts[a];
            PostAll(l, rs, n).accounts[a] == was.(balance := was.balance + Total(rs, n, a, was.kind))
  {
    if n > 0 {
      PostAllBalance(l, rs, n - 1, a);
    }
  }

  /** The figure row `k` is written with. */
  function Written(l: Ledger, rs: seq<Row>, k: nat): int
    requires k < |rs| && rs[k].account in l.accounts
  {
    var a := l.accounts[rs[k].account];
    a.balance + Total(rs, k + 1, rs[k].account, a.kind)
  }

  function WrittenRows(l: Ledger, rs: seq<Row>, n: nat): (rows: seq<Row>)
    requires n <= |rs| && Known(l, rs)
    ensures |rows| == n
  {
    if n == 0 then [] else WrittenRows(l, rs, n - 1) + [rs[n - 1].(stored := Written(l, rs, n - 1))]
  }

  lemma {:induction false} WrittenRow(l: Ledger, rs: seq<Row>, n: nat, k: nat)
    requires k < n <= |rs| && Known(l, rs)
    ensures WrittenRows(l, rs, n)[k] == rs[k].(stored := Written(l, rs, k))
  {
    if k < n - 1 {
      WrittenRow(l, rs, n - 1, k);
    }
  }

  lemma {:induction false} LastWritten(l: Ledger, rs: seq<Row>, n: nat)
    requires n < |rs| && Known(l, rs)
    ensures PostAll(l, rs, n + 1).rows == PostAll(l, rs, n).rows + [rs[n].(stored := Written(l, rs, n))]
  {
    PostAllBalance(l, rs, n, rs[n].account);
  }

  /** Rows after `n` rows: the old ones, then those. */
  lemma {:induction false} PostAllRows(l: Ledger, rs: seq<Row>, n: nat)
    requires n <= |rs| && Known(l, rs)
    ensures PostAll(l, rs, n).rows == l.rows + WrittenRows(l, rs, n)
  {
    if n > 0 {
      PostAllRows(l, rs, n - 1);
      LastWritten(l, rs, n - 1);
      Joined(l.rows, WrittenRows(l, rs, n - 1), rs[n - 1].(stored := Written(l, rs, n - 1)));
    }
  }

  lemma {:induction false} Joined(rows: seq<Row>, more: seq<Row>, r: Row)
    ensures (rows + more) + [r] == rows + (more + [r])
  {}

  lemma {:induction false} SumsJoin(rows: seq<Row>, more: seq<Row>, n: nat, at: Row, kind: AccountType)
    requires n <= |more|
    ensures Cumulative(rows + more, |rows| + n, at, kind)
         == Cumulative(rows, |rows|, at, kind) + Cumulative(more, n, at, kind)
    ensures Total(rows + more, |rows| + n, at.account, kind)
         == Total(rows, |rows|, at.account, kind) + Total(more, n, at.account, kind)
  {
    if n > 0 {
      SumsJoin(rows, more, n - 1, at, kind);
    } else {
      SumsPrefix(rows, more, |rows|, at, kind);
    }
  }

  lemma {:induction false} SumsPrefix(rows: seq<Row>, more: seq<Row>, n: nat, at: Row, kind: AccountType)
    requires n <= |rows|
    ensures Cumulative(rows + more, n, at, kind) == Cumulative(rows, n, at, kind)
    ensures Total(rows + more, n, at.account, kind) == Total(rows, n, at.account, kind)
  {
    if n > 0 {
      SumsPrefix(rows, more, n - 1, at, kind);
    }
  }

  lemma {:induction false} WrittenSameButStored(l: Ledger, rs: seq<Row>)
    requires Known(l, rs)
    ensures SameButStored(rs, WrittenRows(l, rs, |rs|))
  {
    forall k | 0 <= k < |rs| ensures WrittenRows(l, rs, |rs|)[k] == rs[k].(stored := Written(l, rs, k)) {
      WrittenRow(l, rs, |rs|, k);
    }
  }

  /** Posting shifts the rebuilt figure of a row by those of the entry's rows that sort at or before it. */
  lemma {:induction false} PostAllShifts(l: Ledger, rs: seq<Row>, at: Row)
    requires Known(l, rs) && at.account in l.accounts
    ensures Rebuilt(PostAll(l, rs, |rs|), at) == Rebuilt(l, at) + Cumulative(rs, |rs|, at, l.accounts[at.account].kind)
  {
    var more, kind := WrittenRows(l, rs, |rs|), l.accounts[at.account].kind;
    PostAllBalance(l, rs, |rs|, at.account);
    PostAllRows(l, rs, |rs|);
    SumsJoin(l.rows, more, |rs|, at, kind);
    WrittenSameButStored(l, rs);
    SumsIgnoreStored(rs, more, |rs|, at, at, kind);
  }

  /** `x` lies no further than `y` along a direction. */
  predicate NoFurther(up: bool, x: int, y: int) {
    if up then x <= y else y <= x
  }

  /** The rows of account `a` all move it in that direction. */
  predicate OneWay(rs: seq<Row>, a: AccountId, kind: AccountType, up: bool) {
    forall i :: 0 <= i < |rs| && rs[i].account == a ==> !NoFurther(up, MoveOf(rs[i], kind), 0)
  }

  /** The entry moves each account one way only, as every entry does whose accounts stand on one side. */
  predicate OneSided(l: Ledger, rs: seq<Row>) {
    forall i :: 0 <= i < |rs| && rs[i].account in l.accounts ==>
      var kind := l.accounts[rs[i].account].kind;
      OneWay(rs, rs[i].account, kind, true) || OneWay(rs, rs[i].account, kind, false)
  }

  lemma {:induction false} CumulativeGrows(rs: seq<Row>, n: nat, r: Row, later: Row, kind: AccountType, up: bool)
    requires n <= |rs| && OneWay(rs, r.account, kind, up)
    requires later.account == r.account && Before(r, later)
    ensures var x, y := Cumulative(rs, n, r, kind), Cumulative(rs, n, later, kind);
            NoFurther(up, x, y) && ((exists k :: 0 <= k < n && rs[k] == later) ==> x != y)
  {
    if n > 0 {
      CumulativeGrows(rs, n - 1, r, later, kind, up);
      assert rs[n - 1].account == r.account ==> !NoFurther(up, MoveOf(rs[n - 1], kind), 0);
    }
  }

  lemma {:induction false} CumulativeSign(rs: seq<Row>, n: nat, at: Row, kind: AccountType, up: bool)
    requires n <= |rs| && OneWay(rs, at.account, kind, up)
    ensures NoFurther(up, 0, Cumulative(rs, n, at, kind))
    ensures Cumulative(rs, n, at, kind) == 0 ==>
              forall k :: 0 <= k < n && rs[k].account == at.account ==> !AtOrBefore(rs[k], at)
  {
    if n > 0 {
      CumulativeSign(rs, n - 1, at, kind, up);
      assert rs[n - 1].account == at.account ==> !NoFurther(up, MoveOf(rs[n - 1], kind), 0);
    }
  }

  lemma {:induction false} TotalGrows(rs: seq<Row>, j: nat, k: nat, a: AccountId, kind: AccountType, up: bool)
    requires j <= k <= |rs| && OneWay(rs, a, kind, up)
    ensures NoFurther(up, Total(rs, j, a, kind), Total(rs, k, a, kind))
    ensures j < k && rs[k - 1].account == a ==> Total(rs, j, a, kind) != Total(rs, k, a, kind)
  {
    if j < k {
      TotalGrows(rs, j, k - 1, a, kind, up);
      assert rs[k - 1].account == a ==> !NoFurther(up, MoveOf(rs[k - 1], kind), 0);
    }
  }

  /** Every row of the entry sorts after the rows its account had, and after the entry's earlier ones. */
  predicate InPostingOrder(rows: seq<Row>, rs: seq<Row>) {
    && (forall k :: 0 <= k < |rs| ==> IsLast(rows, rs[k]))
    && (forall j, k :: 0 <= j < k < |rs| && rs[j].account == rs[k].account ==> AtOrBefore(rs[j], rs[k]))
  }

  /** The rows at or before an entry's row are, in order, those written up to it. */
  lemma {:induction false} OrderedSum(rs: seq<Row>, n: nat, k: nat, kind: AccountType)
    requires n <= |rs| && k < |rs| && IdsUnique(rs) && InPostingOrder([], rs)
    ensures Cumulative(rs, n, rs[k], kind) == Total(rs, if n <= k then n else k + 1, rs[k].account, kind)
  {
    if n > 0 {
      OrderedSum(rs, n - 1, k, kind);
    }
  }

  lemma {:induction false} NoneBefore(rs: seq<Row>, n: nat, at: Row, kind: AccountType)
    requires n <= |rs| && forall k :: 0 <= k < n && rs[k].account == at.account ==> !AtOrBefore(rs[k], at)
    ensures Cumulative(rs, n, at, kind) == 0
  {
    if n > 0 {
      NoneBefore(rs, n - 1, at, kind);
    }
  }

  /** What the rebuilt figure of an entry's row is once it sorts after the old rows. */
  lemma {:induction false} NewRowRebuilt(l: Ledger, rs: seq<Row>, k: nat)
    requires Known(l, rs) && k < |rs| && IsLast(l.rows, rs[k])
    ensures var after, a := PostAll(l, rs, |rs|), l.accounts[rs[k].account];
            && |after.rows| == |l.rows| + |rs|
            && after.rows[|l.rows| + k] == rs[k].(stored := Written(l, rs, k))
            && Rebuilt(after, after.rows[|l.rows| + k]) == a.balance + Cumulative(rs, |rs|, rs[k], a.kind)
  {
    var kind := l.accounts[rs[k].account].kind;
    PostAllRows(l, rs, |rs|);
    WrittenRow(l, rs, |rs|, k);
    var row := rs[k].(stored := Written(l, rs, k));
    PostAllShifts(l, rs, row);
    CumulativeLast(l.rows, |l.rows|, row, kind);
    SumsIgnoreStored(rs, rs, |rs|, rs[k], row, kind);
  }

  lemma {:induction false} OldRowRebuilt(l: Ledger, rs: seq<Row>, i: nat)
    requires Known(l, rs) && i < |l.rows| && l.rows[i].account in l.accounts
    ensures var after := PostAll(l, rs, |rs|);
            && i < |after.rows| && after.rows[i] == l.rows[i]
            && Rebuilt(after, l.rows[i])
               == Rebuilt(l, l.rows[i]) + Cumulative(rs, |rs|, l.rows[i], l.accounts[l.rows[i].account].kind)
  {
    PostAllRows(l, rs, |rs|);
    PostAllShifts(l, rs, l.rows[i]);
  }

  lemma {:induction false} SortedNeverDrifts(l: Ledger, rs: seq<Row>, i: nat)
    requires NoDrift(l) && IdsUnique(l.rows + rs) && Known(l, rs) && InPostingOrder(l.rows, rs)
    requires i < |PostAll(l, rs, |rs|).rows| && PostAll(l, rs, |rs|).rows[i].account in l.accounts
    ensures var after := PostAll(l, rs, |rs|); after.rows[i].stored == Rebuilt(after, after.rows[i])
  {
    PostAllRows(l, rs, |rs|);
    if i < |l.rows| {
      OldRowRebuilt(l, rs, i);
      forall k | 0 <= k < |rs| && rs[k].account == l.rows[i].account ensures !AtOrBefore(rs[k], l.rows[i]) {
        assert (l.rows + rs)[i].id != (l.rows + rs)[|l.rows| + k].id;
        assert IsLast(l.rows, rs[k]);
      }
      NoneBefore(rs, |rs|, l.rows[i], l.accounts[l.rows[i].account].kind);
    } else {
      var k := i - |l.rows|;
      NewRowRebuilt(l, rs, k);
      IdsOfPart(l.rows, rs);
      OrderedSum(rs, |rs|, k, l.accounts[rs[k].account].kind);
    }
  }

  lemma {:induction false} IdsOfPart(rows: seq<Row>, rs: seq<Row>)
    requires IdsUnique(rows + rs)
    ensures IdsUnique(rs)
  {
    forall i, j | 0 <= i < j < |rs| ensures rs[i].id != rs[j].id {
      assert (rows + rs)[|rows| + i].id != (rows + rs)[|rows| + j].id;
    }
  }

  /** A row the account already had keeps its figure only if the entry's rows sort after it. */
  lemma {:induction false} OldRowsFirst(l: Ledger, rs: seq<Row>, i: nat, k: nat)
    requires NoDrift(l) && IdsUnique(l.rows + rs) && OneSided(l, rs)
    requires Known(l, rs)
    requires NoDrift(PostAll(l, rs, |rs|))
    requires i < |l.rows| && k < |rs| && l.rows[i].account == rs[k].account
    ensures AtOrBefore(l.rows[i], rs[k])
  {
    var kind := l.accounts[rs[k].account].kind;
    OldRowRebuilt(l, rs, i);
    CumulativeSign(rs, |rs|, l.rows[i], kind, OneWay(rs, rs[k].account, kind, true));
  }

  lemma {:induction false} NewRowsInOrder(l: Ledger, rs: seq<Row>, j: nat, k: nat)
    requires NoDrift(l) && IdsUnique(l.rows + rs) && OneSided(l, rs)
    requires Known(l, rs)
    requires NoDrift(PostAll(l, rs, |rs|))
    requires j < k < |rs| && rs[j].account == rs[k].account
    ensures AtOrBefore(rs[j], rs[k])
  {
    var a, kind := rs[k].account, l.accounts[rs[k].account].kind;
    NewRowFigure(l, rs, j);
    NewRowFigure(l, rs, k);
    OutOfOrder(rs, j, k, kind, OneWay(rs, a, kind, true));
  }

  /** Were the later row to sort first, the sums would grow both ways. */
  lemma {:induction false} OutOfOrder(rs: seq<Row>, j: nat, k: nat, kind: AccountType, up: bool)
    requires j < k < |rs| && rs[j].account == rs[k].account && OneWay(rs, rs[k].account, kind, up)
    requires Cumulative(rs, |rs|, rs[j], kind) == Total(rs, j + 1, rs[j].account, kind)
    requires Cumulative(rs, |rs|, rs[k], kind) == Total(rs, k + 1, rs[k].account, kind)
    ensures AtOrBefore(rs[j], rs[k])
  {
    TotalGrows(rs, j + 1, k + 1, rs[k].account, kind, up);
    if !AtOrBefore(rs[j], rs[k]) {
      CumulativeGrows(rs, |rs|, rs[k], rs[j], kind, up);
    }
  }

  /** Without drift a row's rank among the entry's rows is the order it was written in. */
  lemma {:induction false} NewRowFigure(l: Ledger, rs: seq<Row>, k: nat)
    requires NoDrift(l) && IdsUnique(l.rows + rs) && OneSided(l, rs)
    requires Known(l, rs)
    requires NoDrift(PostAll(l, rs, |rs|)) && k < |rs|
    ensures var kind := l.accounts[rs[k].account].kind;
            Cumulative(rs, |rs|, rs[k], kind) == Total(rs, k + 1, rs[k].account, kind)
  {
    forall i | 0 <= i < |l.rows| && l.rows[i].account == rs[k].account ensures AtOrBefore(l.rows[i], rs[k]) {
      OldRowsFirst(l, rs, i, k);
    }
    NewRowRebuilt(l, rs, k);
  }

  /** An entry whose rows sort in the order they were posted leaves the ledger free of drift, and one that
      moves each account one way does so only then: ids being random, an account with two such rows in
      one entry drifts whenever they fall the other way round. */
  lemma {:induction false} PostedEntryMustSort(l: Ledger, rs: seq<Row>)
    requires NoDrift(l) && IdsUnique(l.rows + rs) && Known(l, rs)
    ensures InPostingOrder(l.rows, rs) ==> NoDrift(PostAll(l, rs, |rs|))
    ensures OneSided(l, rs) && NoDrift(PostAll(l, rs, |rs|)) ==> InPostingOrder(l.rows, rs)
  {
    if InPostingOrder(l.rows, rs) {
      forall i | 0 <= i < |PostAll(l, rs, |rs|).rows| && PostAll(l, rs, |rs|).rows[i].account in l.accounts
        ensures var after := PostAll(l, rs, |rs|); after.rows[i].stored == Rebuilt(after, after.rows[i])
      {
        SortedNeverDrifts(l, rs, i);
      }
    }
    if OneSided(l, rs) && NoDrift(PostAll(l, rs, |rs|)) {
      forall i, k | 0 <= k < |rs| && 0 <= i < |l.rows| && l.rows[i].account == rs[k].account
        ensures AtOrBefore(l.rows[i], rs[k])
      {
        OldRowsFirst(l, rs, i, k);
      }
      forall j, k | 0 <= j < k < |rs| && rs[j].account == rs[k].account
        ensures AtOrBefore(rs[j], rs[k])
      {
        NewRowsInOrder(l, rs, j, k);
      }
    }
  }

  lemma {:induction false} FourRowSums(rs: seq<Row>, at: Row, kind: AccountType)
    requires |rs| == 4 && forall i :: 0 <= i < 4 ==> rs[i].account == at.account
    ensures Cumulative(rs, 4, at, kind)
         == (if AtOrBefore(rs[0], at) then MoveOf(rs[0], kind) else 0)
            + (if AtOrBefore(rs[1], at) then MoveOf(rs[1], kind) else 0)
            + (if AtOrBefore(rs[2], at) then MoveOf(rs[2], kind) else 0)
            + (if AtOrBefore(rs[3], at) then MoveOf(rs[3], kind) else 0)
  {
    assert Cumulative(rs, 1, at, kind) == Cumulative(rs, 0, at, kind)
             + if AtOrBefore(rs[0], at) then MoveOf(rs[0], kind) else 0;
    assert Cumulative(rs, 2, at, kind) == Cumulative(rs, 1, at, kind)
             + if AtOrBefore(rs[1], at) then MoveOf(rs[1], kind) else 0;
    assert Cumulative(rs, 3, at, kind) == Cumulative(rs, 2, at, kind)
             + if AtOrBefore(rs[2], at) then MoveOf(rs[2], kind) else 0;
  }

  lemma {:induction false} FourRowTotals(rs: seq<Row>, a: AccountId, kind: AccountType)
    requires |rs| == 4 && forall i :: 0 <= i < 4 ==> rs[i].account == a
    ensures Total(rs, 1, a, kind) == MoveOf(rs[0], kind)
    ensures Total(rs, 2, a, kind) == Total(rs, 1, a, kind) + MoveOf(rs[1], kind)
    ensures Total(rs, 3, a, kind) == Total(rs, 2, a, kind) + MoveOf(rs[2], kind)
    ensures Total(rs, 4, a, kind) == Total(rs, 3, a, kind) + MoveOf(rs[3], kind)
  {
    assert Total(rs, 0, a, kind) == 0;
  }

  /** An entry that moves an account both ways can be out of order unnoticed: the same amount in, out, in
      and out, the second pair sorting before the first. */
  lemma {:induction false} OutOfOrderCanCancel(a: AccountId, account: Account, at: int, amount: nat)
    requires account.kind == Asset && amount > 0
    ensures var l := Ledger(map[a := account], []);
            var rs := [Row(3, at, a, amount, 0, 0), Row(4, at, a, 0, amount, 0),
                       Row(1, at, a, amount, 0, 0), Row(2, at, a, 0, amount, 0)];
            Known(l, rs) && NoDrift(PostAll(l, rs, 4)) && !InPostingOrder([], rs)
  {
    var l := Ledger(map[a := account], []);
    var rs := [Row(3, at, a, amount, 0, 0), Row(4, at, a, 0, amount, 0),
               Row(1, at, a, amount, 0, 0), Row(2, at, a, 0, amount, 0)];
    FourRowTotals(rs, a, Asset);
    PostAllRows(l, rs, 4);
    forall i | 0 <= i < 4
      ensures var after := PostAll(l, rs, 4);
              after.rows[i].account == a && after.rows[i].stored == Rebuilt(after, after.rows[i])
    {
      NewRowRebuilt(l, rs, i);
      FourRowSums(rs, rs[i], Asset);
    }
    assert !AtOrBefore(rs[0], rs[2]);
  }
}
