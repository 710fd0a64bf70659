/** Moving the unapplied remainders of legacy receipts from 1100 to 2400, and the check of the
    control account against its subledger. Sources: src/database/lib/ledger-repair.ts,
    src/database/repair-customer-advances.ts. Amounts are integers in units of 0.0001. */
module ReceiptRepair {
  import opened Options
  import opened Posting

  datatype Receipt = Receipt(amount: int, applied: int, advancePosted: bool)

  /** A customer's stored balance, and what open invoices and open credit memos come to. */
  datatype Customer = Customer(stored: int, invoices: int, creditMemos: int)

  /** One company: its books, the accounts numbered 1100 and 2400 if it has them, its receipts,
      and what its open invoices and open credit memos come to. */
  datatype Company = Company(
    books: Books,
    ar: Option<AccountId>,
    advances: Option<AccountId>,
    receipts: seq<Receipt>,
    openInvoices: int,
    openCreditMemos: int,
    customers: seq<Customer>)

  datatype RepairError = NoReceivables | Refused(reason: PostingError)

  predicate Valid(c: Company) {
    && (c.ar.Some? ==> c.ar.value in c.books.accounts)
    && (c.advances.Some? ==> c.advances.value in c.books.accounts && c.ar != c.advances)
  }

  /** An id for 2400, should it have to be made. */
  predicate Fresh(c: Company, newId: AccountId) {
    c.advances.None? ==> newId !in c.books.accounts
  }

  function Unapplied(r: Receipt): int {
    r.amount - r.applied
  }

  /** `getOrCreateSystemAccount` for 2400: switched on, or made as a liability. */
  function WithAdvances(c: Company, newId: AccountId): Company
    requires Valid(c)
  {
    var id := if c.advances.Some? then c.advances.value else newId;
    var account := if c.advances.Some? then c.books.accounts[id].(active := true)
                   else Account("2400", Liability, "Other Liability", None, 0, true);
    c.(books := c.books.(accounts := c.books.accounts[id := account]), advances := Some(id))
  }

  function ReclassLines(ar: AccountId, advances: AccountId, amount: int): seq<Line> {
    [Line(ar, amount, 0), Line(advances, 0, amount)]
  }

  /** One receipt in its own transaction: a remainder above the tolerance is posted, and the
      receipt is marked. */
  function Reclassify(c: Company, i: nat, newId: AccountId, locked: bool): Result<Company, RepairError>
    requires i < |c.receipts| && Valid(c)
  {
    var r := c.receipts[i];
    var marked := c.receipts[i := r.(advancePosted := true)];
    if r.advancePosted then Ok(c)
    else if Unapplied(r) <= TOLERANCE then Ok(c.(receipts := marked))
    else if c.ar.None? then Err(NoReceivables)
    else
      var w := WithAdvances(c, newId);
      match CreateAndCommit(w.books, ReclassLines(w.ar.value, w.advances.value, Unapplied(r)), locked)
      case Err(e) => Err(Refused(e))
      case Ok(books) => Ok(w.(books := books, receipts := marked))
  }

  /** What a receipt's transaction leaves behind; a refusal is caught and rolled back. */
  function AfterOne(c: Company, i: nat, newId: AccountId, locked: bool): Company
    requires i < |c.receipts| && Valid(c)
  {
    var r := Reclassify(c, i, newId, locked);
    if r.Ok? then r.value else c
  }

  // ── One receipt ────────────────────────────────────────────────────────────

  /** Whether a posting to 1100 goes through at all. */
  predicate CanPost(c: Company, locked: bool)
    requires Valid(c)
  {
    !locked && c.ar.Some? && c.books.accounts[c.ar.value].active
  }

  function BalanceOf(b: Books, id: Option<AccountId>): int {
    if id.Some? && id.value in b.accounts then b.accounts[id.value].balance else 0
  }

  /** The type of an account, or what it would be made with. */
  function KindOf(b: Books, id: Option<AccountId>, otherwise: AccountType): AccountType {
    if id.Some? && id.value in b.accounts then b.accounts[id.value].kind else otherwise
  }

  function ArKind(c: Company): AccountType {
    KindOf(c.books, c.ar, Asset)
  }

  function AdvancesKind(c: Company): AccountType {
    KindOf(c.books, c.advances, Liability)
  }

  /** What the repair takes out of a receipt's account in 1100. */
  function MovedBy(r: Receipt, canPost: bool): int {
    if !r.advancePosted && Unapplied(r) > TOLERANCE && canPost then Unapplied(r) else 0
  }

  /** The receipt after the repair. */
  function Repaired(r: Receipt, canPost: bool): Receipt {
    if Unapplied(r) > TOLERANCE && !canPost then r else r.(advancePosted := true)
  }

  lemma {:induction false} LinesPost(b: Books, ar: AccountId, advances: AccountId, amount: int, locked: bool)
    requires ar in b.accounts && advances in b.accounts && ar != advances && amount > 0 && b.accounts[advances].active
    ensures var r := CreateAndCommit(b, ReclassLines(ar, advances, amount), locked);
            && (r.Ok? <==> !locked && b.accounts[ar].active)
            && (r.Ok? ==> r.value == PostLines(b, ReclassLines(ar, advances, amount)))
  {
    var lines := ReclassLines(ar, advances, amount);
    assert DebitsTo(lines, 1) == amount && CreditsTo(lines, 1) == 0;
    assert Debits(lines) == amount && Credits(lines) == amount;
  }

  lemma {:induction false} LinesMove(b: Books, ar: AccountId, advances: AccountId, amount: int, id: AccountId)
    requires ar in b.accounts && advances in b.accounts && ar != advances && id in b.accounts
    ensures var after, was := PostLines(b, ReclassLines(ar, advances, amount)), b.accounts[id];
            after.accounts[id] == was.(balance := was.balance
              + if id == ar then Signed(was.kind, amount, 0)
                else if id == advances then Signed(was.kind, 0, amount) else 0)
  {
    var lines := ReclassLines(ar, advances, amount);
    PostedBalance(b, lines, 2, id);
    assert Delta(lines, 1, id, b.accounts[id].kind) == if id == ar then Signed(b.accounts[id].kind, amount, 0) else 0;
  }

  /** Everything one receipt's transaction does. */
  lemma {:induction false} OneReceipt(c: Company, i: nat, newId: AccountId, locked: bool)
    requires i < |c.receipts| && Valid(c) && Fresh(c, newId)
    ensures var d, m := AfterOne(c, i, newId, locked), MovedBy(c.receipts[i], CanPost(c, locked));
            && Valid(d) && d.ar == c.ar && ArKind(d) == ArKind(c) && AdvancesKind(d) == AdvancesKind(c)
            && CanPost(d, locked) == CanPost(c, locked)
            && Fresh(d, newId)
            && (c.advances.Some? ==> d.advances == c.advances)
            && BalanceOf(d.books, d.ar) == BalanceOf(c.books, c.ar) + Signed(ArKind(c), m, 0)
            && BalanceOf(d.books, d.advances) == BalanceOf(c.books, c.advances) + Signed(AdvancesKind(c), 0, m)
            && d.receipts == c.receipts[i := Repaired(c.receipts[i], CanPost(c, locked))]
            && d.openInvoices == c.openInvoices && d.openCreditMemos == c.openCreditMemos && d.customers == c.customers
  {
    var r := c.receipts[i];
    if !r.advancePosted && Unapplied(r) > TOLERANCE && c.ar.Some? {
      var w := WithAdvances(c, newId);
      var ar, adv := w.ar.value, w.advances.value;
      LinesPost(w.books, ar, adv, Unapplied(r), locked);
      LinesMove(w.books, ar, adv, Unapplied(r), ar);
      LinesMove(w.books, ar, adv, Unapplied(r), adv);
    }
  }

  // ── The whole list ─────────────────────────────────────────────────────────

  /** The repair of the first `n` receipts, one transaction each. */
  function Repair(c: Company, n: nat, newId: AccountId, locked: bool): (d: Company)
    requires n <= |c.receipts| && Valid(c) && Fresh(c, newId)
    ensures Valid(d) && Fresh(d, newId) && |d.receipts| == |c.receipts|
    ensures d.ar == c.ar && ArKind(d) == ArKind(c) && AdvancesKind(d) == AdvancesKind(c)
    ensures CanPost(d, locked) == CanPost(c, locked)
  {
    if n == 0 then c
    else
      var before := Repair(c, n - 1, newId, locked);
      OneReceipt(before, n - 1, newId, locked);
      AfterOne(before, n - 1, newId, locked)
  }

  /** What the first `n` receipts move out of 1100. */
  function Moved(receipts: seq<Receipt>, n: nat, canPost: bool): (m: int)
    requires n <= |receipts|
    ensures m >= 0
  {
    if n == 0 then 0 else Moved(receipts, n - 1, canPost) + MovedBy(receipts[n - 1], canPost)
  }

  lemma {:induction false} RepairReceipts(c: Company, n: nat, newId: AccountId, locked: bool)
    requires n <= |c.receipts| && Valid(c) && Fresh(c, newId)
    ensures var d := Repair(c, n, newId, locked);
            && (forall i :: 0 <= i < |c.receipts| ==>
                  d.receipts[i] == if i < n then Repaired(c.receipts[i], CanPost(c, locked)) else c.receipts[i])
            && d.openInvoices == c.openInvoices && d.openCreditMemos == c.openCreditMemos && d.customers == c.customers
  {
    if n > 0 {
      RepairReceipts(c, n - 1, newId, locked);
      OneReceipt(Repair(c, n - 1, newId, locked), n - 1, newId, locked);
    }
  }

  lemma {:induction false} OneMoves(c: Company, i: nat, newId: AccountId, locked: bool, r: Receipt)
    requires i < |c.receipts| && Valid(c) && Fresh(c, newId) && r == c.receipts[i]
    ensures var d, m := AfterOne(c, i, newId, locked), MovedBy(r, CanPost(c, locked));
            && BalanceOf(d.books, d.ar) == BalanceOf(c.books, c.ar) + Signed(ArKind(c), m, 0)
            && BalanceOf(d.books, d.advances) == BalanceOf(c.books, c.advances) + Signed(AdvancesKind(c), 0, m)
  {
    OneReceipt(c, i, newId, locked);
  }

  /** 1100 and 2400 move by the same amount, each by its own normal side. */
  lemma {:induction false} RepairMoves(c: Company, n: nat, newId: AccountId, locked: bool)
    requires n <= |c.receipts| && Valid(c) && Fresh(c, newId)
    ensures var d, m := Repair(c, n, newId, locked), Moved(c.receipts, n, CanPost(c, locked));
            && BalanceOf(d.books, d.ar) == BalanceOf(c.books, c.ar) + Signed(ArKind(c), m, 0)
            && BalanceOf(d.books, d.advances) == BalanceOf(c.books, c.advances) + Signed(AdvancesKind(c), 0, m)
  {
    if n > 0 {
      RepairMoves(c, n - 1, newId, locked);
      RepairReceipts(c, n - 1, newId, locked);
      OneMoves(Repair(c, n - 1, newId, locked), n - 1, newId, locked, c.receipts[n - 1]);
    }
  }

  /** With 1100 an asset and 2400 a liability both rise by the same total. */
  lemma {:induction false} BothRiseTogether(c: Company, newId: AccountId, locked: bool)
    requires Valid(c) && Fresh(c, newId) && ArKind(c) == Asset && AdvancesKind(c) == Liability
    ensures var d := Repair(c, |c.receipts|, newId, locked);
            BalanceOf(d.books, d.ar) - BalanceOf(c.books, c.ar)
            == BalanceOf(d.books, d.advances) - BalanceOf(c.books, c.advances)
            == Moved(c.receipts, |c.receipts|, CanPost(c, locked))
  {
    RepairMoves(c, |c.receipts|, newId, locked);
  }

  // ── The control account against its subledger ──────────────────────────────

  /** Remainders still inside 1100, among the first `n` receipts. */
  function Legacy(receipts: seq<Receipt>, n: nat): int
    requires n <= |receipts|
  {
    if n == 0 then 0
    else
      var r := receipts[n - 1];
      Legacy(receipts, n - 1) + if !r.advancePosted && Unapplied(r) > 0 then Unapplied(r) else 0
  }

  datatype Check = Check(arControl: int, advances: int, expected: int, difference: int)

  /** The check has no answer for a company without 1100 or 2400: the figure it reads is then NULL,
      which is no number. */
  function SubledgerCheck(c: Company): Option<Check>
    requires Valid(c)
  {
    if c.ar.None? || c.advances.None? then None
    else
      var ar := c.books.accounts[c.ar.value].balance;
      var expected := c.openInvoices - c.openCreditMemos - Legacy(c.receipts, |c.receipts|);
      Some(Check(ar, c.books.accounts[c.advances.value].balance, expected, ar - expected))
  }

  /** Receipts among the first `n` whose remainder is exactly the tolerance: marked, never posted. */
  function Slivers(receipts: seq<Receipt>, n: nat): nat
    requires n <= |receipts|
  {
    if n == 0 then 0
    else
      var r := receipts[n - 1];
      Slivers(receipts, n - 1) + if !r.advancePosted && Unapplied(r) == TOLERANCE then 1 else 0
  }

  lemma {:induction false} LegacyAfter(before: seq<Receipt>, after: seq<Receipt>, n: nat, canPost: bool)
    requires n <= |before| == |after| && forall i :: 0 <= i < |before| ==> after[i] == Repaired(before[i], canPost)
    ensures Legacy(after, n) == Legacy(before, n) - Moved(before, n, canPost) - Slivers(before, n)
  {
    if n > 0 {
      LegacyAfter(before, after, n - 1, canPost);
    }
  }

  /** The repair leaves the difference alone, except for one unit per sliver. */
  lemma {:induction false} DifferenceDropsBySlivers(c: Company, newId: AccountId, locked: bool)
    requires Valid(c) && Fresh(c, newId) && ArKind(c) == Asset && SubledgerCheck(c).Some?
    ensures var d := Repair(c, |c.receipts|, newId, locked);
            && SubledgerCheck(d).Some?
            && SubledgerCheck(d).value.difference == SubledgerCheck(c).value.difference - Slivers(c.receipts, |c.receipts|)
            && 0 <= Slivers(c.receipts, |c.receipts|) <= |c.receipts|
  {
    var n, d := |c.receipts|, Repair(c, |c.receipts|, newId, locked);
    RepairReceipts(c, n, newId, locked);
    RepairMoves(c, n, newId, locked);
    LegacyAfter(c.receipts, d.receipts, n, CanPost(c, locked));
    AdvancesStay(c, n, newId, locked);
    SliversBound(c.receipts, n);
  }

  lemma {:induction false} SliversBound(receipts: seq<Receipt>, n: nat)
    requires n <= |receipts|
    ensures Slivers(receipts, n) <= n
  {
    if n > 0 {
      SliversBound(receipts, n - 1);
    }
  }

  lemma {:induction false} AdvancesStay(c: Company, n: nat, newId: AccountId, locked: bool)
    requires n <= |c.receipts| && Valid(c) && Fresh(c, newId)
    ensures c.advances.Some? ==> Repair(c, n, newId, locked).advances == c.advances
  {
    if n > 0 {
      AdvancesStay(c, n - 1, newId, locked);
      OneReceipt(Repair(c, n - 1, newId, locked), n - 1, newId, locked);
    }
  }

  /** A receipt still holding a remainder the repair should have moved. */
  predicate Outstanding(r: Receipt) {
    !r.advancePosted && Unapplied(r) > TOLERANCE
  }

  /** Every remainder is gone afterwards exactly when there was none to post or posting works:
      an open period and an active 1100. */
  lemma {:induction false} RepairCompletes(c: Company, newId: AccountId, locked: bool)
    requires Valid(c) && Fresh(c, newId)
    ensures var d := Repair(c, |c.receipts|, newId, locked);
            (forall i :: 0 <= i < |d.receipts| ==> !Outstanding(d.receipts[i]))
            <==> CanPost(c, locked) || forall i :: 0 <= i < |c.receipts| ==> !Outstanding(c.receipts[i])
    ensures var d := Repair(c, |c.receipts|, newId, locked);
            CanPost(c, locked) ==> Legacy(d.receipts, |d.receipts|) == 0
  {
    var d := Repair(c, |c.receipts|, newId, locked);
    RepairReceipts(c, |c.receipts|, newId, locked);
    if CanPost(c, locked) {
      assert forall i :: 0 <= i < |d.receipts| ==> d.receipts[i].advancePosted;
      NothingLegacy(d.receipts, |d.receipts|);
    } else {
      forall i | 0 <= i < |c.receipts| ensures Outstanding(d.receipts[i]) <==> Outstanding(c.receipts[i]) {}
    }
  }

  lemma {:induction false} NothingLegacy(receipts: seq<Receipt>, n: nat)
    requires n <= |receipts| && forall i :: 0 <= i < |receipts| ==> receipts[i].advancePosted
    ensures Legacy(receipts, n) == 0
  {
    if n > 0 {
      NothingLegacy(receipts, n - 1);
    }
  }

  lemma {:induction false} SettledStays(c: Company, n: nat, newId: AccountId, locked: bool)
    requires n <= |c.receipts| && Valid(c) && Fresh(c, newId)
    requires forall i :: 0 <= i < |c.receipts| ==>
               c.receipts[i].advancePosted || (Outstanding(c.receipts[i]) && !CanPost(c, locked))
    ensures Repair(c, n, newId, locked) == c
  {
    if n > 0 {
      SettledStays(c, n - 1, newId, locked);
      var r := c.receipts[n - 1];
      if !r.advancePosted && c.ar.Some? {
        var w := WithAdvances(c, newId);
        LinesPost(w.books, w.ar.value, w.advances.value, Unapplied(r), locked);
      }
    }
  }

  /** A second run changes nothing at all. */
  lemma {:induction false} RepairTwice(c: Company, newId: AccountId, locked: bool)
    requires Valid(c) && Fresh(c, newId)
    ensures var d := Repair(c, |c.receipts|, newId, locked);
            Repair(d, |d.receipts|, newId, locked) == d
  {
    var d := Repair(c, |c.receipts|, newId, locked);
    RepairReceipts(c, |c.receipts|, newId, locked);
    forall i | 0 <= i < |d.receipts|
      ensures d.receipts[i].advancePosted || (Outstanding(d.receipts[i]) && !CanPost(d, locked))
    {
      assert d.receipts[i] == Repaired(c.receipts[i], CanPost(c, locked));
    }
    SettledStays(d, |d.receipts|, newId, locked);
  }

  lemma {:induction false} NewAccountKeepsSound(c: Company, newId: AccountId)
    requires Valid(c) && Fresh(c, newId) && Sound(c.books)
    ensures Sound(WithAdvances(c, newId).books)
  {
    var w := WithAdvances(c, newId);
    if c.advances.None? {
      assert !HasRow(c.books.ledger, newId);
      NoRowNoMovement(c.books.ledger, newId, Liability);
    }
  }

  /** The books stay sound throughout: balances agree with their rows and the sides agree. */
  lemma {:induction false} RepairKeepsSound(c: Company, n: nat, newId: AccountId, locked: bool)
    requires n <= |c.receipts| && Valid(c) && Fresh(c, newId) && Sound(c.books)
    ensures Sound(Repair(c, n, newId, locked).books)
  {
    if n > 0 {
      RepairKeepsSound(c, n - 1, newId, locked);
      var before := Repair(c, n - 1, newId, locked);
      var r := before.receipts[n - 1];
      if Outstanding(r) && before.ar.Some? {
        var w := WithAdvances(before, newId);
        NewAccountKeepsSound(before, newId);
        var lines := ReclassLines(w.ar.value, w.advances.value, Unapplied(r));
        if CreateAndCommit(w.books, lines, locked).Ok? {
          CommitKeepsSound(w.books, lines, locked);
        }
      }
    }
  }

  // ── Customer balances ─────────────────────────────────────────────────────

  function Expected(x: Customer): int {
    x.invoices - x.creditMemos
  }

  /** The first `n` customers with their balances set from their documents. */
  function Recomputed(customers: seq<Customer>, n: nat): (r: seq<Customer>)
    requires n <= |customers|
    ensures |r| == n && forall i :: 0 <= i < n ==> r[i] == customers[i].(stored := Expected(customers[i]))
  {
    if n == 0 then [] else Recomputed(customers, n - 1) + [customers[n - 1].(stored := Expected(customers[n - 1]))]
  }

  /** How many of the first `n` stored balances differ from their documents. */
  function Wrong(customers: seq<Customer>, n: nat): nat
    requires n <= |customers|
  {
    if n == 0 then 0 else Wrong(customers, n - 1) + if customers[n - 1].stored != Expected(customers[n - 1]) then 1 else 0
  }

  /** A customer's balance is invoices less credit memos. */
  predicate Agrees(x: Customer) {
    x.stored + x.creditMemos == x.invoices
  }

  function Disagreeing(customers: seq<Customer>, n: nat): set<nat>
    requires n <= |customers|
  {
    set i: nat | i < n && !Agrees(customers[i])
  }

  lemma {:induction false} WrongDisagree(customers: seq<Customer>, n: nat)
    requires n <= |customers|
    ensures Wrong(customers, n) == |Disagreeing(customers, n)|
  {
    if n > 0 {
      WrongDisagree(customers, n - 1);
      var was, now := Disagreeing(customers, n - 1), Disagreeing(customers, n);
      assert now == if Agrees(customers[n - 1]) then was else was + {n - 1};
    } else {
      assert Disagreeing(customers, 0) == {};
    }
  }

  /** After the recomputation every balance is invoices less credit memos, one that was already is left
      alone, and those that were not are counted. */
  lemma {:induction false} RecomputedAgree(customers: seq<Customer>)
    ensures var after := Recomputed(customers, |customers|);
            && |after| == |customers|
            && (forall i :: 0 <= i < |after| ==> Agrees(after[i]) && after[i] == customers[i].(stored := after[i].stored))
            && (forall i :: 0 <= i < |after| && Agrees(customers[i]) ==> after[i] == customers[i])
    ensures Wrong(customers, |customers|) == |set i: nat | i < |customers| && !Agrees(customers[i])|
  {
    WrongDisagree(customers, |customers|);
    assert Disagreeing(customers, |customers|) == set i: nat | i < |customers| && !Agrees(customers[i]);
  }

  function SumStored(customers: seq<Customer>, n: nat): int
    requires n <= |customers|
  {
    if n == 0 then 0 else SumStored(customers, n - 1) + customers[n - 1].stored
  }

  function SumInvoices(customers: seq<Customer>, n: nat): int
    requires n <= |customers|
  {
    if n == 0 then 0 else SumInvoices(customers, n - 1) + customers[n - 1].invoices
  }

  function SumCreditMemos(customers: seq<Customer>, n: nat): int
    requires n <= |customers|
  {
    if n == 0 then 0 else SumCreditMemos(customers, n - 1) + customers[n - 1].creditMemos
  }

  lemma {:induction false} AgreeingAddUp(customers: seq<Customer>, after: seq<Customer>, n: nat)
    requires n <= |customers| == |after|
    requires forall i :: 0 <= i < |after| ==> Agrees(after[i]) && after[i] == customers[i].(stored := after[i].stored)
    ensures SumStored(after, n) == SumInvoices(customers, n) - SumCreditMemos(customers, n)
  {
    if n > 0 {
      AgreeingAddUp(customers, after, n - 1);
    }
  }

  /** When the company's totals are those of its customers, the balances after a run add up to what the
      check expects of 1100 and what is still held inside it. */
  lemma {:induction false} BalancesAddUp(c: Company, newId: AccountId, locked: bool)
    requires Valid(c) && Fresh(c, newId)
    requires c.openInvoices == SumInvoices(c.customers, |c.customers|)
    requires c.openCreditMemos == SumCreditMemos(c.customers, |c.customers|)
    ensures var d := AfterRun(c, newId, locked);
            && SumStored(d.customers, |d.customers|) == c.openInvoices - c.openCreditMemos
            && (SubledgerCheck(d).Some? ==>
                  SumStored(d.customers, |d.customers|)
                  == SubledgerCheck(d).value.expected + Legacy(d.receipts, |d.receipts|))
  {
    RepairReceipts(c, |c.receipts|, newId, locked);
    RecomputedAgree(c.customers);
    AgreeingAddUp(c.customers, Recomputed(c.customers, |c.customers|), |c.customers|);
  }

  /** More than 0.005 away from the documents. */
  predicate Drifts(x: Customer) {
    Abs(x.stored - Expected(x)) > 50
  }

  lemma {:induction false} NoneWrong(customers: seq<Customer>, n: nat)
    requires n <= |customers| && forall i :: 0 <= i < |customers| ==> customers[i].stored == Expected(customers[i])
    ensures Wrong(customers, n) == 0
  {
    if n > 0 {
      NoneWrong(customers, n - 1);
    }
  }

  /** Something the script would repair: a remainder inside 1100, or a customer's balance adrift. */
  predicate Found(c: Company) {
    (exists i :: 0 <= i < |c.receipts| && Outstanding(c.receipts[i]))
    || exists i :: 0 <= i < |c.customers| && Drifts(c.customers[i])
  }

  function AfterRun(c: Company, newId: AccountId, locked: bool): Company
    requires Valid(c) && Fresh(c, newId)
  {
    var d := Repair(c, |c.receipts|, newId, locked);
    d.(customers := Recomputed(d.customers, |d.customers|))
  }

  lemma {:induction false} CheckIgnoresCustomers(c: Company, customers: seq<Customer>)
    requires Valid(c)
    ensures SubledgerCheck(c.(customers := customers)) == SubledgerCheck(c)
  {}

  lemma {:induction false} RepairKeepsAr(c: Company, n: nat, newId: AccountId, locked: bool)
    requires n <= |c.receipts| && Valid(c) && Fresh(c, newId) && SubledgerCheck(c).Some?
    ensures SubledgerCheck(Repair(c, n, newId, locked)).Some?
  {
    AdvancesStay(c, n, newId, locked);
  }

  lemma {:induction false} RunChecks(c: Company, newId: AccountId, locked: bool)
    requires Valid(c) && Fresh(c, newId) && SubledgerCheck(c).Some?
    ensures SubledgerCheck(AfterRun(c, newId, locked)).Some?
    ensures ArKind(c) == Asset ==>
              SubledgerCheck(AfterRun(c, newId, locked)).value.difference
              == SubledgerCheck(c).value.difference - Slivers(c.receipts, |c.receipts|)
    ensures var was, now := SubledgerCheck(c).value, SubledgerCheck(AfterRun(c, newId, locked)).value;
            var moved := Moved(c.receipts, |c.receipts|, CanPost(c, locked));
            && (ArKind(c) == Asset ==> now.arControl == was.arControl + moved)
            && (AdvancesKind(c) == Liability ==> now.advances == was.advances + moved)
  {
    var d := Repair(c, |c.receipts|, newId, locked);
    RepairKeepsAr(c, |c.receipts|, newId, locked);
    CheckIgnoresCustomers(d, Recomputed(d.customers, |d.customers|));
    RepairMoves(c, |c.receipts|, newId, locked);
    if ArKind(c) == Asset {
      DifferenceDropsBySlivers(c, newId, locked);
    }
  }

  /** After a run with an open period and an active 1100 nothing is found any more, no balance is wrong,
      and a second run changes nothing. */
  lemma {:induction false} RunSettles(c: Company, newId: AccountId, locked: bool)
    requires Valid(c) && Fresh(c, newId)
    ensures var d := AfterRun(c, newId, locked);
            && Wrong(d.customers, |d.customers|) == 0
            && (CanPost(c, locked) ==> !Found(d))
            && AfterRun(d, newId, locked) == d
  {
    var r := Repair(c, |c.receipts|, newId, locked);
    var d := AfterRun(c, newId, locked);
    NoneWrong(d.customers, |d.customers|);
    RepairCompletes(c, newId, locked);
    RepairReceipts(c, |c.receipts|, newId, locked);
    forall i | 0 <= i < |d.receipts|
      ensures d.receipts[i].advancePosted || (Outstanding(d.receipts[i]) && !CanPost(d, locked))
    {
      assert d.receipts[i] == Repaired(c.receipts[i], CanPost(c, locked));
    }
    SettledStays(d, |d.receipts|, newId, locked);
    assert Recomputed(d.customers, |d.customers|) == d.customers;
  }

  // ── The script ─────────────────────────────────────────────────────────────

  /** How many of the first `n` receipts a run moves. */
  function MovedCount(receipts: seq<Receipt>, n: nat, canPost: bool): nat
    requires n <= |receipts|
  {
    if n == 0 then 0 else MovedCount(receipts, n - 1, canPost) + if MovedBy(receipts[n - 1], canPost) > 0 then 1 else 0
  }

  /** A run moves the receipts with a remainder above 0.0001, each once, or none when posting does not work. */
  lemma {:induction false} MovedAre(receipts: seq<Receipt>, n: nat, canPost: bool)
    requires n <= |receipts|
    ensures MovedCount(receipts, n, canPost)
         == |set i: nat | i < n && canPost && !receipts[i].advancePosted && receipts[i].amount - receipts[i].applied > 1|
  {
    var now := set i: nat | i < n && canPost && !receipts[i].advancePosted && receipts[i].amount - receipts[i].applied > 1;
    if n > 0 {
      MovedAre(receipts, n - 1, canPost);
      var r := receipts[n - 1];
      var was := set i: nat | i < n - 1 && canPost && !receipts[i].advancePosted && receipts[i].amount - receipts[i].applied > 1;
      assert now == if canPost && !r.advancePosted && r.amount - r.applied > 1 then was + {n - 1} else was;
    } else {
      assert now == {};
    }
  }

  /** How a company fares in a run of the script. */
  datatype Outcome =
    | Skipped
    | NoCheck
    | Listed(before: Check)
    | Settled(before: Check, after: Check, moved: nat, corrected: nat)

  class AdvancesRepair {
    var company: Company
    const newId: AccountId

    constructor (company: Company, newId: AccountId)
      requires Valid(company) && Fresh(company, newId)
      ensures this.company == company && this.newId == newId
    {
      this.company, this.newId := company, newId;
    }

    /** The amount moved, nothing for a receipt already marked, or the refusal. */
    method ReclassifyLegacyReceipt(i: nat, locked: bool) returns (r: Result<Option<int>, RepairError>)
      requires i < |company.receipts| && Valid(company) && Fresh(company, newId)
      modifies `company
      ensures company == AfterOne(old(company), i, newId, locked)
      ensures r.Ok? <==> Reclassify(old(company), i, newId, locked).Ok?
      ensures r.Ok? ==> r.value == if old(company).receipts[i].advancePosted then None
                                   else Some(MovedBy(old(company).receipts[i], CanPost(old(company), locked)))
    {
      var was := company;
      var payment := was.receipts[i];
      if payment.advancePosted { return Ok(None); }
      var unapplied := payment.amount - payment.applied;
      var marked := was.receipts[i := payment.(advancePosted := true)];
      if unapplied > TOLERANCE {
        if was.ar.None? { return Err(NoReceivables); }
        var w := WithAdvances(was, newId);
        LinesPost(w.books, w.ar.value, w.advances.value, unapplied, locked);
        var posted := CreateAndCommit(w.books, ReclassLines(w.ar.value, w.advances.value, unapplied), locked);
        if posted.Err? { return Err(Refused(posted.error)); }
        company := w.(books := posted.value, receipts := marked);
        return Ok(Some(unapplied));
      }
      company := was.(receipts := marked);
      return Ok(Some(0));
    }

    /** The loop over a company's legacy receipts: a refused one is passed over. */
    method RepairAll(locked: bool) returns (reclassified: nat)
      requires Valid(company) && Fresh(company, newId)
      modifies `company
      ensures company == Repair(old(company), |old(company).receipts|, newId, locked)
      ensures reclassified == MovedCount(old(company).receipts, |old(company).receipts|, CanPost(old(company), locked))
    {
      var was := company;
      reclassified := 0;
      for i := 0 to |was.receipts|
        invariant company == Repair(was, i, newId, locked)
        invariant reclassified == MovedCount(was.receipts, i, CanPost(was, locked))
      {
        RepairReceipts(was, i, newId, locked);
        OneReceipt(company, i, newId, locked);
        if !was.receipts[i].advancePosted {
          var amount := ReclassifyLegacyReceipt(i, locked);
          if amount.Ok? && amount.value.Some? && amount.value.value > TOLERANCE {
            reclassified := reclassified + 1;
          }
        }
      }
    }

    /** `recomputeCustomerBalances`: writes only the balances that differ, and counts them. */
    method RecomputeCustomerBalances() returns (changed: nat)
      modifies `company
      ensures company == old(company).(customers := Recomputed(old(company).customers, |old(company).customers|))
      ensures changed == Wrong(old(company).customers, |old(company).customers|)
      ensures |company.customers| == |old(company).customers|
      ensures forall i :: 0 <= i < |company.customers| ==>
                var was, now := old(company).customers[i], company.customers[i];
                && now.stored + now.creditMemos == now.invoices && now == was.(stored := now.stored)
                && (was.stored + was.creditMemos == was.invoices ==> now == was)
      ensures changed == |set i: nat | i < |old(company).customers| && !Agrees(old(company).customers[i])|
    {
      RecomputedAgree(company.customers);
      var was := company.customers;
      var customers: seq<Customer> := [];
      changed := 0;
      for i := 0 to |was|
        invariant customers == Recomputed(was, i) && changed == Wrong(was, i) && company == old(company)
      {
        var x := was[i];
        if Abs(x.stored - Expected(x)) >= 1 {
          x := x.(stored := Expected(x));
          changed := changed + 1;
        }
        customers := customers + [x];
      }
      company := company.(customers := customers);
    }

    /** One company of the script. It is passed over when nothing is found; a check without an answer
        ends the run before anything is written; without `apply` or an owner it is only listed. `named`
        stands for a company asked for by id, or one with suspects or stale running balances. */
    method RunCompany(named: bool, apply: bool, owner: bool, locked: bool) returns (outcome: Outcome)
      requires Valid(company) && Fresh(company, newId)
      modifies `company
      ensures outcome.Skipped? <==> !named && !Found(old(company))
      ensures outcome.Skipped? ==>
                && (forall i :: 0 <= i < |company.customers| ==>
                      var x := company.customers[i]; -50 <= x.stored + x.creditMemos - x.invoices <= 50)
                && (forall i :: 0 <= i < |company.receipts| ==>
                      var r := company.receipts[i]; r.advancePosted || r.amount - r.applied <= TOLERANCE)
      ensures !outcome.Skipped? && !named ==>
                || (exists i :: 0 <= i < |old(company).customers| &&
                      var x := old(company).customers[i]; !(-50 <= x.stored + x.creditMemos - x.invoices <= 50))
                || (exists i :: 0 <= i < |old(company).receipts| &&
                      var r := old(company).receipts[i]; !r.advancePosted && r.amount - r.applied > TOLERANCE)
      ensures outcome.NoCheck? <==> (named || Found(old(company))) && SubledgerCheck(old(company)).None?
      ensures outcome.Listed? || outcome.Settled? ==> SubledgerCheck(old(company)) == Some(outcome.before)
      ensures outcome.Settled? ==> apply && owner
      ensures (named || Found(old(company))) && SubledgerCheck(old(company)).Some? && apply && owner ==> outcome.Settled?
      ensures company == if outcome.Settled? then AfterRun(old(company), newId, locked) else old(company)
      ensures outcome.Settled? ==>
                && SubledgerCheck(company) == Some(outcome.after)
                && outcome.corrected == |set i: nat | i < |old(company).customers| && !Agrees(old(company).customers[i])|
                && outcome.moved == MovedCount(old(company).receipts, |old(company).receipts|, CanPost(old(company), locked))
                && forall i :: 0 <= i < |company.customers| ==> Agrees(company.customers[i])
      ensures outcome.Settled? && ArKind(old(company)) == Asset ==>
                outcome.after.difference
                == outcome.before.difference - Slivers(old(company).receipts, |old(company).receipts|)
    {
      if !named && !Found(company) { return Skipped; }
      var before := SubledgerCheck(company);
      if before.None? { return NoCheck; }
      if !apply || !owner { return Listed(before.value); }
      RunChecks(company, newId, locked);
      RecomputedAgree(company.customers);
      RepairReceipts(company, |company.receipts|, newId, locked);
      var moved := RepairAll(locked);
      var corrected := RecomputeCustomerBalances();
      var after := SubledgerCheck(company);
      outcome := Settled(before.value, after.value, moved, corrected);
    }
  }
}
