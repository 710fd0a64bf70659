/** The status a document shows, three times over: in the application, in SQL and as a list filter;
    and the counts on the list's tabs. Source: src/common/utils/document-status.util.ts. */
module DocumentStatus {
  import opened Options
  import opened Text

  /** Balances are in units of 0.0001; dates are `YYYY-MM-DD`, and SQL holds no empty one. */
  datatype Document = Document(status: string, dueDate: Option<string>, balance: Option<int>)

  const OVERDUE: string := "overdue"

  // ── In the application ─────────────────────────────────────────────────────

  function DerivedStatus(doc: Document, open: seq<string>, today: string): string {
    var owes := doc.balance.Some? && doc.balance.value > 0;
    if owes && doc.dueDate.Some? && doc.dueDate.value != "" && Less(doc.dueDate.value, today) && doc.status in open
    then OVERDUE else doc.status
  }

  /** A document is overdue when its stored status says so, or when that status is an open one, it owes
      something and its date has passed; otherwise it shows its stored status. */
  lemma {:induction false} OverdueExactlyWhen(doc: Document, open: seq<string>, today: string)
    requires Stored(doc)
    ensures var shown := DerivedStatus(doc, open, today);
            && (shown == "overdue" <==>
                  || doc.status == "overdue"
                  || (doc.status in open && doc.balance.Some? && doc.balance.value > 0
                      && doc.dueDate.Some? && Less(doc.dueDate.value, today)))
            && (shown != "overdue" ==> shown == doc.status)
  {}

  // ── In SQL, where a comparison with NULL is neither true nor false ─────────

  datatype Truth = True | False | Unknown

  function And(a: Truth, b: Truth): Truth {
    if a == False || b == False then False else if a == True && b == True then True else Unknown
  }

  function Or(a: Truth, b: Truth): Truth {
    if a == True || b == True then True else if a == False && b == False then False else Unknown
  }

  function Not(a: Truth): Truth {
    match a
    case True => False
    case False => True
    case Unknown => Unknown
  }

  function Known(b: bool): Truth {
    if b then True else False
  }

  function PastDueSql(doc: Document, today: string): Truth {
    And(And(if doc.balance.Some? then Known(doc.balance.value > 0) else Unknown,
            Known(doc.dueDate.Some?)),
        if doc.dueDate.Some? then Known(Less(doc.dueDate.value, today)) else Unknown)
  }

  function DerivedStatusSql(doc: Document, open: seq<string>, today: string): string {
    if And(Known(doc.status in open), PastDueSql(doc, today)) == True then OVERDUE else doc.status
  }

  /** Whether a row passes the list's status filter; no status means no filter. */
  predicate Passes(doc: Document, status: string, open: seq<string>, today: string) {
    || status == ""
    || (if status == OVERDUE then
          Or(Known(doc.status == OVERDUE), And(Known(doc.status in open), PastDueSql(doc, today)))
        else if status in open then
          And(Known(doc.status == status), Not(PastDueSql(doc, today)))
        else Known(doc.status == status)) == True
  }

  /** A stored row: it has a status, and its date is a date or NULL. */
  predicate Stored(doc: Document) {
    doc.status != "" && doc.dueDate != Some("")
  }

  /** The two rules give one status, NULL balances included. */
  lemma {:induction false} SqlTwinAgrees(doc: Document, open: seq<string>, today: string)
    requires Stored(doc)
    ensures DerivedStatusSql(doc, open, today) == DerivedStatus(doc, open, today)
  {}

  /** An open document past its date whose balance is NULL: it shows its own status, and no tab
      lists it. */
  predicate Unlisted(doc: Document, open: seq<string>, today: string) {
    && doc.balance.None? && doc.status in open && doc.status != OVERDUE
    && doc.dueDate.Some? && Less(doc.dueDate.value, today)
  }

  predicate ListedAsShown(doc: Document, status: string, open: seq<string>, today: string) {
    Passes(doc, status, open, today) <==> DerivedStatus(doc, open, today) == status
  }

  /** The filter lists a document under exactly the status it shows, unless it is unlisted. */
  lemma {:induction false} FilterAgrees(doc: Document, open: seq<string>, today: string)
    requires Stored(doc)
    ensures !Unlisted(doc, open, today) <==>
              forall status :: status != "" ==> ListedAsShown(doc, status, open, today)
    ensures Unlisted(doc, open, today) ==> forall status :: status != "" ==> !Passes(doc, status, open, today)
  {
    if Unlisted(doc, open, today) {
      assert !ListedAsShown(doc, doc.status, open, today);
    }
  }

  // ── Counting and adding up ─────────────────────────────────────────────────

  function Balance(doc: Document): int {
    if doc.balance.Some? then doc.balance.value else 0
  }

  /** How many of the first `n` documents show a status of the set. */
  function CountIn(docs: seq<Document>, n: nat, statuses: set<string>, open: seq<string>, today: string): nat
    requires n <= |docs|
  {
    if n == 0 then 0
    else CountIn(docs, n - 1, statuses, open, today) + if DerivedStatus(docs[n - 1], open, today) in statuses then 1 else 0
  }

  /** What those documents still owe; SQL's SUM passes over NULL. */
  function SumIn(docs: seq<Document>, n: nat, statuses: set<string>, open: seq<string>, today: string): int
    requires n <= |docs|
  {
    if n == 0 then 0
    else
      SumIn(docs, n - 1, statuses, open, today)
      + if DerivedStatus(docs[n - 1], open, today) in statuses then Balance(docs[n - 1]) else 0
  }

  lemma {:induction false} CountJoin(docs: seq<Document>, n: nat, a: set<string>, b: set<string>,
      open: seq<string>, today: string)
    requires n <= |docs| && a !! b
    ensures CountIn(docs, n, a + b, open, today) == CountIn(docs, n, a, open, today) + CountIn(docs, n, b, open, today)
    ensures SumIn(docs, n, a + b, open, today) == SumIn(docs, n, a, open, today) + SumIn(docs, n, b, open, today)
  {
    if n > 0 {
      CountJoin(docs, n - 1, a, b, open, today);
    }
  }

  lemma {:induction false} CountSame(docs: seq<Document>, n: nat, a: set<string>, b: set<string>,
      open: seq<string>, today: string)
    requires n <= |docs|
    requires forall i :: 0 <= i < n ==>
               (DerivedStatus(docs[i], open, today) in a <==> DerivedStatus(docs[i], open, today) in b)
    ensures CountIn(docs, n, a, open, today) == CountIn(docs, n, b, open, today)
    ensures SumIn(docs, n, a, open, today) == SumIn(docs, n, b, open, today)
  {
    if n > 0 {
      CountSame(docs, n - 1, a, b, open, today);
    }
  }

  lemma {:induction false} CountAll(docs: seq<Document>, n: nat, statuses: set<string>, open: seq<string>,
      today: string)
    requires n <= |docs| && forall i :: 0 <= i < n ==> DerivedStatus(docs[i], open, today) in statuses
    ensures CountIn(docs, n, statuses, open, today) == n
  {
    if n > 0 {
      CountAll(docs, n - 1, statuses, open, today);
    }
  }

  lemma {:induction false} CountNone(docs: seq<Document>, n: nat, open: seq<string>, today: string)
    requires n <= |docs|
    ensures CountIn(docs, n, {}, open, today) == 0 && SumIn(docs, n, {}, open, today) == 0
  {
    if n > 0 {
      CountNone(docs, n - 1, open, today);
    }
  }

  // ── The list behind a tab ──────────────────────────────────────────────────

  /** The documents a tab lists, in the list's order. */
  function Listed(docs: seq<Document>, n: nat, status: string, open: seq<string>, today: string): seq<Document>
    requires n <= |docs|
  {
    if n == 0 then []
    else
      var rest := Listed(docs, n - 1, status, open, today);
      if Passes(docs[n - 1], status, open, today) then rest + [docs[n - 1]] else rest
  }

  function Owed(docs: seq<Document>, n: nat): int
    requires n <= |docs|
  {
    if n == 0 then 0 else Owed(docs, n - 1) + Balance(docs[n - 1])
  }

  lemma {:induction false} OwedPrefix(docs: seq<Document>, doc: Document, n: nat)
    requires n <= |docs|
    ensures Owed(docs + [doc], n) == Owed(docs, n)
  {
    if n > 0 {
      OwedPrefix(docs, doc, n - 1);
    }
  }

  /** What documents owe is the sum of their balances, a missing one owing nothing. */
  lemma {:induction false} OwedNext(docs: seq<Document>, doc: Document)
    ensures Owed([], 0) == 0
    ensures Owed(docs + [doc], |docs| + 1) == Owed(docs, |docs|) + match doc.balance case Some(x) => x case None => 0
  {
    OwedPrefix(docs, doc, |docs|);
  }

  predicate AllListed(docs: seq<Document>, open: seq<string>, today: string) {
    forall i :: 0 <= i < |docs| ==> Stored(docs[i]) && !Unlisted(docs[i], open, today)
  }

  /** A tab lists as many documents as show its status, and they owe what those owe. */
  lemma {:induction false} TabIsStatus(docs: seq<Document>, n: nat, status: string, open: seq<string>, today: string)
    requires n <= |docs| && status != "" && AllListed(docs, open, today)
    ensures var tab := Listed(docs, n, status, open, today);
            && |tab| == CountIn(docs, n, {status}, open, today)
            && Owed(tab, |tab|) == SumIn(docs, n, {status}, open, today)
  {
    if n > 0 {
      TabIsStatus(docs, n - 1, status, open, today);
      var rest := Listed(docs, n - 1, status, open, today);
      FilterAgrees(docs[n - 1], open, today);
      assert ListedAsShown(docs[n - 1], status, open, today);
      OwedPrefix(rest, docs[n - 1], |rest|);
    }
  }

  // ── The summary over the grouped rows ──────────────────────────────────────

  datatype Group = Group(status: string, count: nat, balance: int)

  /** What GROUP BY returns, in whatever order: a row per status shown, with its count and sum. */
  ghost predicate IsGrouping(rows: seq<Group>, docs: seq<Document>, open: seq<string>, today: string) {
    && (forall i, j :: 0 <= i < j < |rows| ==> rows[i].status != rows[j].status)
    && (forall i :: 0 <= i < |rows| ==>
          && rows[i].count == CountIn(docs, |docs|, {rows[i].status}, open, today)
          && rows[i].balance == SumIn(docs, |docs|, {rows[i].status}, open, today))
    && (forall d :: 0 <= d < |docs| ==> DerivedStatus(docs[d], open, today) in StatusesOf(rows, |rows|))
  }

  function StatusesOf(rows: seq<Group>, n: nat): set<string>
    requires n <= |rows|
  {
    if n == 0 then {} else StatusesOf(rows, n - 1) + {rows[n - 1].status}
  }

  lemma {:induction false} StatusAmong(rows: seq<Group>, n: nat, x: string) returns (i: nat)
    requires n <= |rows| && x in StatusesOf(rows, n)
    ensures i < n && rows[i].status == x
  {
    if rows[n - 1].status == x {
      i := n - 1;
    } else {
      i := StatusAmong(rows, n - 1, x);
    }
  }

  lemma {:induction false} AmongStatuses(rows: seq<Group>, n: nat, i: nat)
    requires i < n <= |rows|
    ensures rows[i].status in StatusesOf(rows, n)
  {
    if i < n - 1 {
      AmongStatuses(rows, n - 1, i);
    }
  }

  lemma {:induction false} StatusIsNew(rows: seq<Group>, n: nat)
    requires n < |rows| && forall i, j :: 0 <= i < j < |rows| ==> rows[i].status != rows[j].status
    ensures rows[n].status !in StatusesOf(rows, n)
  {
    if rows[n].status in StatusesOf(rows, n) {
      var i := StatusAmong(rows, n, rows[n].status);
      assert false;
    }
  }

  datatype Summary = Summary(count: nat, outstanding: int, overdue: int, byStatus: map<string, (nat, int)>)

  /** The statuses of unpaid documents: the open ones of the kind, and overdue. */
  function Owing(open: seq<string>): set<string> {
    (set x | x in open) + {OVERDUE}
  }

  /** The tiles and tabs agree with the documents: the count is all of them, each tab has the count
      and balance of its status, and the two totals are those of the owing and the overdue. */
  ghost predicate Describes(s: Summary, docs: seq<Document>, open: seq<string>, today: string) {
    && s.count == |docs|
    && s.outstanding == SumIn(docs, |docs|, Owing(open), open, today)
    && s.overdue == SumIn(docs, |docs|, {OVERDUE}, open, today)
    && (forall x :: x in s.byStatus ==>
          s.byStatus[x] == (CountIn(docs, |docs|, {x}, open, today), SumIn(docs, |docs|, {x}, open, today)))
    && (forall d :: 0 <= d < |docs| ==> DerivedStatus(docs[d], open, today) in s.byStatus)
  }

  function RowCount(rows: seq<Group>, n: nat): nat
    requires n <= |rows|
  {
    if n == 0 then 0 else RowCount(rows, n - 1) + rows[n - 1].count
  }

  function RowBalance(rows: seq<Group>, n: nat, among: set<string>): int
    requires n <= |rows|
  {
    if n == 0 then 0 else RowBalance(rows, n - 1, among) + if rows[n - 1].status in among then rows[n - 1].balance else 0
  }

  method DocumentListSummary(rows: seq<Group>, open: seq<string>, today: string,
      ghost docs: seq<Document>) returns (s: Summary)
    requires IsGrouping(rows, docs, open, today)
    ensures Describes(s, docs, open, today)
    ensures s.outstanding == SumIn(docs, |docs|, (set x | x in open) + {"overdue"}, open, today)
    ensures s.overdue == SumIn(docs, |docs|, {"overdue"}, open, today)
  {
    var owing := Owing(open);
    var count: nat, outstanding, overdue := 0, 0, 0;
    var byStatus: map<string, (nat, int)> := map[];
    for i := 0 to |rows|
      invariant count == RowCount(rows, i)
      invariant outstanding == RowBalance(rows, i, owing)
      invariant overdue == RowBalance(rows, i, {OVERDUE})
      invariant byStatus.Keys == StatusesOf(rows, i)
      invariant forall x :: x in byStatus ==>
                  byStatus[x] == (CountIn(docs, |docs|, {x}, open, today), SumIn(docs, |docs|, {x}, open, today))
    {
      var r := rows[i];
      count := count + r.count;
      byStatus := byStatus[r.status := (r.count, r.balance)];
      if r.status in owing { outstanding := outstanding + r.balance; }
      if r.status == OVERDUE { overdue := overdue + r.balance; }
    }
    s := Summary(count, outstanding, overdue, byStatus);
    RowsAreAll(rows, docs, open, today);
    RowsAreSum(rows, docs, owing, open, today);
    RowsAreSum(rows, docs, {OVERDUE}, open, today);
  }

  lemma {:induction false} RowsCount(rows: seq<Group>, docs: seq<Document>, n: nat, open: seq<string>, today: string)
    requires IsGrouping(rows, docs, open, today) && n <= |rows|
    ensures RowCount(rows, n) == CountIn(docs, |docs|, StatusesOf(rows, n), open, today)
  {
    CountNone(docs, |docs|, open, today);
    if n > 0 {
      RowsCount(rows, docs, n - 1, open, today);
      StatusIsNew(rows, n - 1);
      CountJoin(docs, |docs|, StatusesOf(rows, n - 1), {rows[n - 1].status}, open, today);
    }
  }

  lemma {:induction false} RowsAreAll(rows: seq<Group>, docs: seq<Document>, open: seq<string>, today: string)
    requires IsGrouping(rows, docs, open, today)
    ensures RowCount(rows, |rows|) == |docs|
  {
    RowsCount(rows, docs, |rows|, open, today);
    CountAll(docs, |docs|, StatusesOf(rows, |rows|), open, today);
  }

  lemma {:induction false} RowsSum(rows: seq<Group>, docs: seq<Document>, n: nat, among: set<string>,
      open: seq<string>, today: string)
    requires IsGrouping(rows, docs, open, today) && n <= |rows|
    ensures RowBalance(rows, n, among) == SumIn(docs, |docs|, StatusesOf(rows, n) * among, open, today)
  {
    if n == 0 {
      assert StatusesOf(rows, 0) * among == {};
      CountNone(docs, |docs|, open, today);
    } else {
      RowsSum(rows, docs, n - 1, among, open, today);
      StatusIsNew(rows, n - 1);
      AddedTo(docs, StatusesOf(rows, n - 1), rows[n - 1].status, among, open, today);
    }
  }

  lemma {:induction false} RowsAreSum(rows: seq<Group>, docs: seq<Document>, among: set<string>,
      open: seq<string>, today: string)
    requires IsGrouping(rows, docs, open, today)
    ensures RowBalance(rows, |rows|, among) == SumIn(docs, |docs|, among, open, today)
  {
    RowsSum(rows, docs, |rows|, among, open, today);
    CountSame(docs, |docs|, StatusesOf(rows, |rows|) * among, among, open, today);
  }

  lemma {:induction false} AddedTo(docs: seq<Document>, seen: set<string>, status: string, among: set<string>,
      open: seq<string>, today: string)
    requires status !in seen
    ensures SumIn(docs, |docs|, (seen + {status}) * among, open, today)
            == SumIn(docs, |docs|, seen * among, open, today)
               + if status in among then SumIn(docs, |docs|, {status}, open, today) else 0
  {
    if status in among {
      assert (seen + {status}) * among == seen * among + {status};
      CountJoin(docs, |docs|, seen * among, {status}, open, today);
    } else {
      assert (seen + {status}) * among == seen * among;
    }
  }

  /** A summary's tabs are the filtered lists: same counts, same balances. */
  lemma {:induction false} SummaryIsTabs(s: Summary, docs: seq<Document>, status: string, open: seq<string>,
      today: string)
    requires Describes(s, docs, open, today) && AllListed(docs, open, today) && status != ""
    ensures var tab := Listed(docs, |docs|, status, open, today);
            && (status in s.byStatus ==> s.byStatus[status] == (|tab|, Owed(tab, |tab|)))
            && (status !in s.byStatus ==> tab == [])
  {
    TabIsStatus(docs, |docs|, status, open, today);
    if status !in s.byStatus {
      CountNone(docs, |docs|, open, today);
      CountSame(docs, |docs|, {status}, {}, open, today);
    }
  }
}
