/** The chart of accounts: create, edit, toggle, delete, lazy system accounts and posting. */
module Accounts {
  import opened Options
  import opened Posting
  import Text

  const OPENING_BALANCE_EQUITY := "3900"

  /** The numbers automatic posting depends on. */
  const SYSTEM_NUMBERS: set<string> := {
    "1000", "1010", "1100", "1200", "1250", "2050", "2000", "2300", "3900", "4000",
    "5000", "6400", "1300", "6200", "2400", "2310", "5400", "5410", "5420", "5430"
  }

  /** The system accounts that can be created lazily, with their type and kind. */
  function SystemDef(number: string): Option<(AccountType, string)> {
    match number
    case "3900" => Some((Equity, "Opening Balance Equity"))
    case "2050" => Some((Liability, "Other Liability"))
    case "6400" => Some((Expense, "Operating"))
    case "5400" => Some((Expense, "Cost of Goods"))
    case "5410" => Some((Expense, "Cost of Goods"))
    case "5420" => Some((Expense, "Cost of Goods"))
    case "5430" => Some((Expense, "Cost of Goods"))
    case "1300" => Some((Asset, "Other Asset"))
    case "1250" => Some((Asset, "Inventory"))
    case "2400" => Some((Liability, "Other Liability"))
    case "2310" => Some((Liability, "Other Liability"))
    case _ => None
  }

  function SubTypes(kind: AccountType): set<string> {
    match kind
    case Asset => {"Cash", "Bank", "Accounts Receivable", "Inventory", "Prepaid", "Fixed Asset", "Other Asset"}
    case Liability => {"Accounts Payable", "Credit Card", "Payroll Liability", "Tax Payable", "Notes Payable",
                       "Other Liability"}
    case Equity => {"Owner Equity", "Retained Earnings", "Owner Draws", "Opening Balance Equity", "Other Equity"}
    case Revenue => {"Sales", "Service", "Interest", "Other Revenue"}
    case Expense => {"Cost of Goods", "Operating", "Payroll", "Tax", "Depreciation", "Other Expense"}
  }

  datatype NewAccount = NewAccount(
    number: string, kind: AccountType, subType: string, parent: Option<AccountId>, opening: int)

  /** Absent fields keep what the account has; `parent` may be given as none. */
  datatype Edit = Edit(
    number: Option<string>, kind: Option<AccountType>, subType: Option<string>,
    parent: Option<Option<AccountId>>, active: Option<bool>)

  datatype Error =
    | InvalidSubType | DuplicateNumber | NotFound
    | SystemAccountFixed | AccountInUse | HasChildren | NumberTooShort | OwnParent | ParentTypeMismatch
    | SystemAccountRequired | HasBalance
    | SystemAccountProtected | HasTransactions
    | NotDefined
    | PostingRefused(reason: PostingError)

  predicate IsSystem(a: Account) {
    a.number in SYSTEM_NUMBERS
  }

  predicate Holds(b: Books, id: AccountId, number: string) {
    id in b.accounts && b.accounts[id].number == number
  }

  predicate Taken(b: Books, number: string) {
    exists id :: id in b.accounts && Holds(b, id, number)
  }

  predicate HasChild(b: Books, id: AccountId) {
    exists c :: c in b.accounts && b.accounts[c].parent == Some(id)
  }

  /** The account found by its number; numbers are unique, so there is no choice to make. */
  ghost function Holder(b: Books, number: string): (id: AccountId)
    requires Taken(b, number)
    ensures Holds(b, id, number)
  {
    var id :| id in b.accounts && Holds(b, id, number); id
  }

  // ── The operations ────────────────────────────────────────────────────────

  ghost function GetOrCreateSystem(b: Books, number: string, newId: AccountId): Result<(Books, AccountId), Error> {
    if Taken(b, number) then
      var id := Holder(b, number);
      Ok((b.(accounts := b.accounts[id := b.accounts[id].(active := true)]), id))
    else
      match SystemDef(number)
      case None => Err(NotDefined)
      case Some((kind, subType)) =>
        Ok((b.(accounts := b.accounts[newId := Account(number, kind, subType, None, 0, true)]), newId))
  }

  /** The opening posting: the account's normal side when the opening balance is positive. */
  function OpeningLines(id: AccountId, kind: AccountType, opening: int, equity: AccountId): seq<Line> {
    var debitNormal := kind == Asset || kind == Expense;
    var magnitude := Abs(opening);
    if debitNormal == (opening > 0) then [Line(id, magnitude, 0), Line(equity, 0, magnitude)]
    else [Line(id, 0, magnitude), Line(equity, magnitude, 0)]
  }

  ghost function Create(b: Books, id: AccountId, equityId: AccountId, dto: NewAccount, locked: bool)
    : Result<Books, Error>
  {
    if dto.subType !in SubTypes(dto.kind) then Err(InvalidSubType)
    else if Taken(b, dto.number) then Err(DuplicateNumber)
    else if dto.parent.Some? && dto.parent.value !in b.accounts then Err(NotFound)
    else
      var added := b.(accounts := b.accounts[id := Account(dto.number, dto.kind, dto.subType, dto.parent, 0, true)]);
      if dto.opening == 0 || dto.number == OPENING_BALANCE_EQUITY then Ok(added)
      else
        match GetOrCreateSystem(added, OPENING_BALANCE_EQUITY, equityId)
        case Err(e) => Err(e)
        case Ok((withEquity, equity)) =>
          match CreateAndCommit(withEquity, OpeningLines(id, dto.kind, dto.opening, equity), locked)
          case Ok(posted) => Ok(posted)
          case Err(reason) => Err(PostingRefused(reason))
  }

  function CannotDeactivate(number: string, balance: int): Option<Error> {
    if number in SYSTEM_NUMBERS then Some(SystemAccountRequired)
    else if balance != 0 then Some(HasBalance)
    else None
  }

  /** The gate on retyping and renumbering; `references` counts uses outside the ledger. */
  function StructureError(b: Books, id: AccountId, number: string, kind: AccountType, references: nat): Option<Error>
    requires id in b.accounts
  {
    var a := b.accounts[id];
    if number == a.number && kind == a.kind then None
    else if HasRow(b.ledger, id) || references > 0 then Some(AccountInUse)
    else if kind != a.kind && HasChild(b, id) then Some(HasChildren)
    else if number != a.number && |number| < 2 then Some(NumberTooShort)
    else if number != a.number && Taken(b, number) then Some(DuplicateNumber)
    else None
  }

  /** `structureOf(...).editable`: what the edit form unlocks. */
  predicate StructureEditable(b: Books, id: AccountId, references: nat)
    requires id in b.accounts
  {
    !IsSystem(b.accounts[id]) && !HasRow(b.ledger, id) && references == 0 && !HasChild(b, id)
  }

  /** The parent after an edit: one of another type is refused when chosen now, let go when inherited. */
  function NextParent(b: Books, id: AccountId, kind: AccountType, dto: Edit): Result<Option<AccountId>, Error>
    requires id in b.accounts
  {
    var a := b.accounts[id];
    var next := if dto.parent.Some? then dto.parent.value else a.parent;
    if next.None? then Ok(None)
    else if next.value == id then Err(OwnParent)
    else if next.value !in b.accounts then Err(NotFound)
    else if b.accounts[next.value].kind == kind then Ok(next)
    else if dto.parent.Some? && dto.parent.value != a.parent then Err(ParentTypeMismatch)
    else Ok(None)
  }

  function Update(b: Books, id: AccountId, dto: Edit, references: nat): Result<Books, Error> {
    if id !in b.accounts then Err(NotFound)
    else
      var a := b.accounts[id];
      var number := if dto.number.Some? then Text.Trim(dto.number.value) else a.number;
      var kind := if dto.kind.Some? then dto.kind.value else a.kind;
      var subType := if dto.subType.Some? then dto.subType.value else a.subType;
      if IsSystem(a) && !(kind == a.kind && number == a.number && subType == a.subType) then Err(SystemAccountFixed)
      else
        var structure := StructureError(b, id, number, kind, references);
        if structure.Some? then Err(structure.value)
        else if subType !in SubTypes(kind) then Err(InvalidSubType)
        else
          match NextParent(b, id, kind, dto)
          case Err(e) => Err(e)
          case Ok(parent) =>
            var active := if dto.active.Some? then dto.active.value else a.active;
            var refusal := if a.active && !active then CannotDeactivate(number, a.balance) else None;
            if refusal.Some? then Err(refusal.value)
            else Ok(b.(accounts := b.accounts[id := Account(number, kind, subType, parent, a.balance, active)]))
  }

  function Toggle(b: Books, id: AccountId): Result<Books, Error> {
    if id !in b.accounts then Err(NotFound)
    else
      var a := b.accounts[id];
      var refusal := if a.active then CannotDeactivate(a.number, a.balance) else None;
      if refusal.Some? then Err(refusal.value)
      else Ok(b.(accounts := b.accounts[id := a.(active := !a.active)]))
  }

  function Delete(b: Books, id: AccountId): Result<Books, Error> {
    if id !in b.accounts then Err(NotFound)
    else if IsSystem(b.accounts[id]) then Err(SystemAccountProtected)
    else if HasRow(b.ledger, id) then Err(HasTransactions)
    else if HasChild(b, id) then Err(HasChildren)
    else Ok(b.(accounts := b.accounts - {id}))
  }

  // ── Runs ──────────────────────────────────────────────────────────────────

  datatype Op =
    | OpCreate(id: AccountId, equityId: AccountId, dto: NewAccount, locked: bool)
    | OpUpdate(id: AccountId, edit: Edit, references: nat)
    | OpToggle(id: AccountId)
    | OpDelete(id: AccountId)
    | OpEnsureSystem(number: string, newId: AccountId)
    | OpPost(lines: seq<Line>, locked: bool)

  /** Ids the database hands out are new. */
  predicate FreshIds(b: Books, op: Op) {
    match op
    case OpCreate(id, equityId, _, _) => id !in b.accounts && equityId !in b.accounts && id != equityId
    case OpEnsureSystem(_, newId) => newId !in b.accounts
    case _ => true
  }

  /** A refused operation is rolled back. */
  ghost function Step(b: Books, op: Op): Books {
    match op
    case OpCreate(id, equityId, dto, locked) =>
      var r := Create(b, id, equityId, dto, locked); if r.Ok? then r.value else b
    case OpUpdate(id, edit, references) => var r := Update(b, id, edit, references); if r.Ok? then r.value else b
    case OpToggle(id) => var r := Toggle(b, id); if r.Ok? then r.value else b
    case OpDelete(id) => var r := Delete(b, id); if r.Ok? then r.value else b
    case OpEnsureSystem(number, newId) =>
      var r := GetOrCreateSystem(b, number, newId); if r.Ok? then r.value.0 else b
    case OpPost(lines, locked) => var r := CreateAndCommit(b, lines, locked); if r.Ok? then r.value else b
  }

  ghost predicate FreshRun(b: Books, ops: seq<Op>)
    decreases |ops|
  {
    ops == [] || (FreshIds(b, ops[0]) && FreshRun(Step(b, ops[0]), ops[1..]))
  }

  ghost function Run(b: Books, ops: seq<Op>): Books
    decreases |ops|
  {
    if ops == [] then b else Run(Step(b, ops[0]), ops[1..])
  }

  // ── What every operation keeps ────────────────────────────────────────────

  ghost predicate NumbersUnique(b: Books) {
    forall i, j :: i in b.accounts && j in b.accounts && b.accounts[i].number == b.accounts[j].number ==> i == j
  }

  ghost predicate ParentsExist(b: Books) {
    forall i :: i in b.accounts && b.accounts[i].parent.Some? ==> b.accounts[i].parent.value in b.accounts
  }

  ghost predicate Inv(b: Books) {
    Sound(b) && NumbersUnique(b) && ParentsExist(b)
  }

  /** What may never be undone between an earlier state and a later one. */
  ghost predicate Kept(was: Books, now: Books) {
    && was.ledger <= now.ledger
    && (forall id :: id in was.accounts && HasRow(was.ledger, id) ==>
          && id in now.accounts
          && now.accounts[id].number == was.accounts[id].number
          && now.accounts[id].kind == was.accounts[id].kind)
    && (forall id :: id in was.accounts && IsSystem(was.accounts[id]) ==>
          && id in now.accounts
          && now.accounts[id].number == was.accounts[id].number
          && now.accounts[id].kind == was.accounts[id].kind
          && now.accounts[id].subType == was.accounts[id].subType
          && (was.accounts[id].active ==> now.accounts[id].active))
  }

  lemma {:induction false} RowsPersist(ledger: seq<GlRow>, longer: seq<GlRow>, id: AccountId)
    requires ledger <= longer && HasRow(ledger, id)
    ensures HasRow(longer, id)
  {
    var i :| 0 <= i < |ledger| && ledger[i].account == id;
    assert longer[i] == ledger[i];
  }

  lemma {:induction false} KeptTransitive(a: Books, b: Books, c: Books)
    requires Kept(a, b) && Kept(b, c)
    ensures Kept(a, c)
  {
    forall id | id in a.accounts && HasRow(a.ledger, id)
      ensures id in c.accounts && c.accounts[id].number == a.accounts[id].number
              && c.accounts[id].kind == a.accounts[id].kind
    {
      RowsPersist(a.ledger, b.ledger, id);
    }
  }

  /** An account no row belongs to stands at zero, so it may be retyped, added or removed at no cost. */
  lemma {:induction false} NoRowsNoBalance(b: Books, id: AccountId)
    requires Sound(b) && id in b.accounts && !HasRow(b.ledger, id)
    ensures b.accounts[id].balance == 0 && forall kind :: Movement(b.ledger, id, kind) == 0
  {
    forall kind ensures Movement(b.ledger, id, kind) == 0 {
      NoRowNoMovement(b.ledger, id, kind);
    }
  }

  lemma {:induction false} AddKeeps(b: Books, id: AccountId, a: Account)
    requires Inv(b) && id !in b.accounts && a.balance == 0 && !Taken(b, a.number)
    requires a.parent.Some? ==> a.parent.value in b.accounts
    ensures var after := b.(accounts := b.accounts[id := a]); Inv(after) && Kept(b, after)
  {
    assert !HasRow(b.ledger, id);
    NoRowNoMovement(b.ledger, id, a.kind);
    forall i | i in b.accounts ensures b.accounts[i].number != a.number {
      assert !Holds(b, i, a.number);
    }
  }

  /** Posting changes nothing of an account but its balance. */
  lemma {:induction false} PostToOnlyBalances(b: Books, lines: seq<Line>, n: nat)
    requires n <= |lines| && AccountsExist(b, lines)
    ensures var after := PostTo(b, lines, n).accounts;
            forall id :: id in b.accounts ==>
              id in after && after[id] == b.accounts[id].(balance := after[id].balance)
  {
    forall id | id in b.accounts
      ensures id in PostTo(b, lines, n).accounts
      ensures var now := PostTo(b, lines, n).accounts[id]; now == b.accounts[id].(balance := now.balance)
    {
      PostedBalance(b, lines, n, id);
    }
  }

  lemma {:induction false} PostKeeps(b: Books, lines: seq<Line>, locked: bool)
    requires Inv(b) && CreateAndCommit(b, lines, locked).Ok?
    ensures var after := CreateAndCommit(b, lines, locked).value; Inv(after) && Kept(b, after)
  {
    CommitKeepsSound(b, lines, locked);
    PostToOnlyBalances(b, lines, |lines|);
  }

  lemma {:induction false} EnsureSystemKeeps(b: Books, number: string, newId: AccountId)
    requires Inv(b) && newId !in b.accounts && GetOrCreateSystem(b, number, newId).Ok?
    ensures var (after, id) := GetOrCreateSystem(b, number, newId).value;
            Inv(after) && Kept(b, after) && Holds(after, id, number) && after.accounts[id].active
  {
    if !Taken(b, number) {
      var (kind, subType) := SystemDef(number).value;
      AddKeeps(b, newId, Account(number, kind, subType, None, 0, true));
    }
  }

  lemma {:induction false} CreateKeeps(b: Books, id: AccountId, equityId: AccountId, dto: NewAccount, locked: bool)
    requires Inv(b) && FreshIds(b, OpCreate(id, equityId, dto, locked)) && Create(b, id, equityId, dto, locked).Ok?
    ensures var after := Create(b, id, equityId, dto, locked).value; Inv(after) && Kept(b, after)
  {
    var a := Account(dto.number, dto.kind, dto.subType, dto.parent, 0, true);
    var added := b.(accounts := b.accounts[id := a]);
    AddKeeps(b, id, a);
    if dto.opening != 0 && dto.number != OPENING_BALANCE_EQUITY {
      EnsureSystemKeeps(added, OPENING_BALANCE_EQUITY, equityId);
      var (withEquity, equity) := GetOrCreateSystem(added, OPENING_BALANCE_EQUITY, equityId).value;
      PostKeeps(withEquity, OpeningLines(id, dto.kind, dto.opening, equity), locked);
      KeptTransitive(b, added, withEquity);
      KeptTransitive(b, withEquity, Create(b, id, equityId, dto, locked).value);
    }
  }

  function Replaced(b: Books, id: AccountId, a: Account): Books
    requires id in b.accounts
  {
    b.(accounts := b.accounts[id := a])
  }

  lemma {:induction false} ReplacedSound(b: Books, id: AccountId, a: Account)
    requires id in b.accounts && Sound(b) && a.balance == b.accounts[id].balance
    requires a.kind != b.accounts[id].kind ==> !HasRow(b.ledger, id)
    ensures Sound(Replaced(b, id, a))
  {
    if a.kind != b.accounts[id].kind {
      NoRowsNoBalance(b, id);
    }
  }

  lemma {:induction false} ReplacedUnique(b: Books, id: AccountId, a: Account)
    requires id in b.accounts && NumbersUnique(b) && ParentsExist(b)
    requires a.number != b.accounts[id].number ==> !Taken(b, a.number)
    requires a.parent.Some? ==> a.parent.value in b.accounts
    ensures NumbersUnique(Replaced(b, id, a)) && ParentsExist(Replaced(b, id, a))
  {
    if a.number != b.accounts[id].number {
      forall i | i in b.accounts ensures b.accounts[i].number != a.number {
        assert !Holds(b, i, a.number);
      }
    }
  }

  lemma {:induction false} ReplacedKept(b: Books, id: AccountId, a: Account)
    requires id in b.accounts
    requires HasRow(b.ledger, id) || IsSystem(b.accounts[id]) ==>
               a.number == b.accounts[id].number && a.kind == b.accounts[id].kind
    requires IsSystem(b.accounts[id]) ==> a.subType == b.accounts[id].subType && (b.accounts[id].active ==> a.active)
    ensures Kept(b, Replaced(b, id, a))
  {}

  lemma {:induction false} UpdateKeeps(b: Books, id: AccountId, edit: Edit, references: nat)
    requires Inv(b) && Update(b, id, edit, references).Ok?
    ensures var after := Update(b, id, edit, references).value; Inv(after) && Kept(b, after)
  {
    var now := Update(b, id, edit, references).value.accounts[id];
    ReplacedSound(b, id, now);
    ReplacedUnique(b, id, now);
    ReplacedKept(b, id, now);
  }

  lemma {:induction false} ToggleKeeps(b: Books, id: AccountId)
    requires Inv(b) && Toggle(b, id).Ok?
    ensures Inv(Toggle(b, id).value) && Kept(b, Toggle(b, id).value)
  {
    var now := b.accounts[id].(active := !b.accounts[id].active);
    assert Toggle(b, id).value == Replaced(b, id, now);
    ReplacedSound(b, id, now);
    ReplacedUnique(b, id, now);
    ReplacedKept(b, id, now);
  }

  function Removed(b: Books, id: AccountId): Books {
    b.(accounts := b.accounts - {id})
  }

  lemma {:induction false} RemovedSound(b: Books, id: AccountId)
    requires id in b.accounts && Sound(b) && !HasRow(b.ledger, id)
    ensures Sound(Removed(b, id))
  {
    forall i | 0 <= i < |b.ledger| ensures b.ledger[i].account in Removed(b, id).accounts {
      assert b.ledger[i].account != id;
    }
  }

  lemma {:induction false} RemovedKept(b: Books, id: AccountId)
    requires id in b.accounts && NumbersUnique(b) && ParentsExist(b)
    requires !HasRow(b.ledger, id) && !IsSystem(b.accounts[id]) && !HasChild(b, id)
    ensures NumbersUnique(Removed(b, id)) && ParentsExist(Removed(b, id)) && Kept(b, Removed(b, id))
  {}

  lemma {:induction false} DeleteKeeps(b: Books, id: AccountId)
    requires Inv(b) && Delete(b, id).Ok?
    ensures var after := Delete(b, id).value; Inv(after) && Kept(b, after)
  {
    assert Delete(b, id).value == Removed(b, id);
    RemovedSound(b, id);
    RemovedKept(b, id);
  }

  lemma {:induction false} StepKeeps(b: Books, op: Op)
    requires Inv(b) && FreshIds(b, op)
    ensures Inv(Step(b, op)) && Kept(b, Step(b, op))
  {
    var after := Step(b, op);
    if after == b {
      return;
    }
    match op
    case OpCreate(id, equityId, dto, locked) => CreateKeeps(b, id, equityId, dto, locked);
    case OpUpdate(id, edit, references) => UpdateKeeps(b, id, edit, references);
    case OpToggle(id) => ToggleKeeps(b, id);
    case OpDelete(id) => DeleteKeeps(b, id);
    case OpEnsureSystem(number, newId) => EnsureSystemKeeps(b, number, newId);
    case OpPost(lines, locked) => PostKeeps(b, lines, locked);
  }

  /** Over any run of operations: balances equal the signed sums of their rows under the current types,
      every row has its account, debits equal credits, numbers stay unique and parents exist; the ledger
      only grows, an account with history keeps its number and type, and one holding a system number is
      never retyped, renumbered, deleted or switched off. */
  lemma {:induction false} ChartStaysSound(b: Books, ops: seq<Op>)
    requires Inv(b) && FreshRun(b, ops)
    ensures Inv(Run(b, ops)) && Kept(b, Run(b, ops))
    decreases |ops|
  {
    if ops != [] {
      StepKeeps(b, ops[0]);
      ChartStaysSound(Step(b, ops[0]), ops[1..]);
      KeptTransitive(b, Step(b, ops[0]), Run(b, ops));
    }
  }

  // ── What each operation changes and when it is refused ─────────────────────

  /** Nothing but account `id` differs, and it is there in both. */
  ghost predicate OnlyAccount(was: Books, now: Books, id: AccountId) {
    && now.ledger == was.ledger && id in was.accounts && now.accounts.Keys == was.accounts.Keys
    && forall other :: other in was.accounts && other != id ==> now.accounts[other] == was.accounts[other]
  }

  /** The number an edit leaves: the one given, trimmed. */
  function EditedNumber(a: Account, dto: Edit): string {
    match dto.number case Some(n) => Text.Trim(n) case None => a.number
  }

  function EditedKind(a: Account, dto: Edit): AccountType {
    match dto.kind case Some(k) => k case None => a.kind
  }

  function EditedSubType(a: Account, dto: Edit): string {
    match dto.subType case Some(x) => x case None => a.subType
  }

  /** The parent asked for, or kept. */
  function AskedParent(a: Account, dto: Edit): Option<AccountId> {
    match dto.parent case Some(p) => p case None => a.parent
  }

  /** An accepted edit gives the account what was asked for and leaves the rest of it and of the books
      alone; a parent that no longer fits by type is let go; only an account that is no system account
      and stands at zero is switched off. */
  lemma {:induction false} AcceptedEdit(b: Books, id: AccountId, dto: Edit, references: nat)
    requires Update(b, id, dto, references).Ok?
    ensures var after := Update(b, id, dto, references).value;
            && OnlyAccount(b, after, id)
            && var was, now := b.accounts[id], after.accounts[id];
               && now.balance == was.balance
               && now.number == EditedNumber(was, dto) && now.kind == EditedKind(was, dto)
               && now.subType == EditedSubType(was, dto)
               && (dto.active.Some? ==> now.active == dto.active.value)
               && (dto.active.None? ==> now.active == was.active)
               && (now.parent != AskedParent(was, dto) ==>
                     && now.parent == None && AskedParent(was, dto) == was.parent
                     && b.accounts[was.parent.value].kind != now.kind)
               && (now.parent.Some? ==> now.parent.value != id && b.accounts[now.parent.value].kind == now.kind)
               && (was.active && !now.active ==> was.number !in SYSTEM_NUMBERS && now.number !in SYSTEM_NUMBERS && was.balance == 0)
  {}

  /** An edit is accepted exactly when none of the rules forbids it. */
  lemma {:induction false} EditAcceptedExactlyWhen(b: Books, id: AccountId, dto: Edit, references: nat)
    ensures Update(b, id, dto, references).Ok? <==>
              && id in b.accounts
              && var a := b.accounts[id];
                 var number, kind, parent := EditedNumber(a, dto), EditedKind(a, dto), AskedParent(a, dto);
                 && (a.number in SYSTEM_NUMBERS ==>
                       number == a.number && kind == a.kind && EditedSubType(a, dto) == a.subType)
                 && (number != a.number || kind != a.kind ==> !HasRow(b.ledger, id) && references == 0)
                 && (kind != a.kind ==> forall c :: c in b.accounts ==> b.accounts[c].parent != Some(id))
                 && (number != a.number ==>
                       |number| >= 2 && forall c :: c in b.accounts ==> b.accounts[c].number != number)
                 && EditedSubType(a, dto) in SubTypes(kind)
                 && (parent.Some? ==>
                       && parent.value != id && parent.value in b.accounts
                       && (b.accounts[parent.value].kind == kind || parent == a.parent))
                 && (a.active && dto.active == Some(false) ==> number !in SYSTEM_NUMBERS && a.balance == 0)
  {
    if id in b.accounts {
      var number := EditedNumber(b.accounts[id], dto);
      assert Taken(b, number) <==> exists c :: c in b.accounts && b.accounts[c].number == number;
    }
  }

  /** What each refusal of an edit says. */
  predicate Explains(e: Error, b: Books, id: AccountId, dto: Edit, references: nat) {
    if id !in b.accounts then e == NotFound
    else
      var a := b.accounts[id];
      var number, kind, parent := EditedNumber(a, dto), EditedKind(a, dto), AskedParent(a, dto);
      match e
      case NotFound => parent.Some? && parent.value !in b.accounts
      case SystemAccountFixed => IsSystem(a) && !(number == a.number && kind == a.kind && EditedSubType(a, dto) == a.subType)
      case AccountInUse => HasRow(b.ledger, id) || references > 0
      case HasChildren => kind != a.kind && HasChild(b, id)
      case NumberTooShort => number != a.number && |number| < 2
      case DuplicateNumber => number != a.number && Taken(b, number)
      case InvalidSubType => EditedSubType(a, dto) !in SubTypes(kind)
      case OwnParent => parent == Some(id)
      case ParentTypeMismatch =>
        parent.Some? && parent != a.parent && parent.value in b.accounts && b.accounts[parent.value].kind != kind
      case SystemAccountRequired => a.active && dto.active == Some(false) && number in SYSTEM_NUMBERS
      case HasBalance => a.active && dto.active == Some(false) && a.balance != 0
      case _ => false
  }

  lemma {:induction false} EditRefusalExplained(b: Books, id: AccountId, dto: Edit, references: nat)
    requires Update(b, id, dto, references).Err?
    ensures Explains(Update(b, id, dto, references).error, b, id, dto, references)
  {
    if id in b.accounts {
      var a := b.accounts[id];
      var structure := StructureError(b, id, EditedNumber(a, dto), EditedKind(a, dto), references);
      var parent := NextParent(b, id, EditedKind(a, dto), dto);
      assert structure.Some? || parent.Err? || Update(b, id, dto, references).error in
               {SystemAccountFixed, InvalidSubType, SystemAccountRequired, HasBalance};
    }
  }

  /** A toggle switches the account over; it is refused exactly for an account that is not there, or is
      active and either a system account or not at zero. */
  lemma {:induction false} ToggleExactlyWhen(b: Books, id: AccountId)
    ensures var r := Toggle(b, id);
            if id !in b.accounts then r == Err(NotFound)
            else
              var was := b.accounts[id];
              if was.active && was.number in SYSTEM_NUMBERS then r == Err(SystemAccountRequired)
              else if was.active && was.balance != 0 then r == Err(HasBalance)
              else
                && r.Ok? && OnlyAccount(b, r.value, id)
                && r.value.accounts[id] == Account(was.number, was.kind, was.subType, was.parent, was.balance, !was.active)
  {}

  /** A deletion takes the account away and nothing else; it is refused exactly for an account that is
      not there, is a system account, has ledger rows or is some account's parent. */
  lemma {:induction false} DeleteExactlyWhen(b: Books, id: AccountId)
    ensures var r := Delete(b, id);
            if id !in b.accounts then r == Err(NotFound)
            else if b.accounts[id].number in SYSTEM_NUMBERS then r == Err(SystemAccountProtected)
            else if exists i :: 0 <= i < |b.ledger| && b.ledger[i].account == id then r == Err(HasTransactions)
            else if exists c :: c in b.accounts && b.accounts[c].parent == Some(id) then r == Err(HasChildren)
            else
              && r.Ok? && r.value.ledger == b.ledger && r.value.accounts.Keys == b.accounts.Keys - {id}
              && forall other :: other in r.value.accounts ==> r.value.accounts[other] == b.accounts[other]
  {}

  /** The account under a system number: the one that has it, switched on and otherwise as it was, or a
      new one at zero of the defined type and kind, or none when the number is not defined. */
  lemma {:induction false} SystemAccountIs(b: Books, number: string, newId: AccountId)
    requires newId !in b.accounts
    ensures var r := GetOrCreateSystem(b, number, newId);
            if exists id :: id in b.accounts && b.accounts[id].number == number then
              && r.Ok? && var (after, id) := r.value;
                 && OnlyAccount(b, after, id) && b.accounts[id].number == number
                 && after.accounts[id] == b.accounts[id].(active := true)
            else if SystemDef(number).None? then r == Err(NotDefined)
            else
              && r.Ok? && var (after, id) := r.value;
                 && id == newId && after.ledger == b.ledger && after.accounts.Keys == b.accounts.Keys + {newId}
                 && (forall other :: other in b.accounts ==> after.accounts[other] == b.accounts[other])
                 && var a := after.accounts[id];
                    && a.number == number && (a.kind, a.subType) == SystemDef(number).value
                    && a.parent == None && a.balance == 0 && a.active
  {
    assert Taken(b, number) <==> exists id :: id in b.accounts && b.accounts[id].number == number;
  }

  /** One request of a run leaves what its operation gives, or, refused, the books as they were. */
  lemma {:induction false} StepIs(b: Books, op: Op, after: Books)
    requires after == Step(b, op)
    ensures match op
            case OpCreate(id, equityId, dto, locked) =>
              var r := Create(b, id, equityId, dto, locked); (r.Ok? && after == r.value) || (r.Err? && after == b)
            case OpUpdate(id, edit, references) =>
              var r := Update(b, id, edit, references); (r.Ok? && after == r.value) || (r.Err? && after == b)
            case OpToggle(id) => var r := Toggle(b, id); (r.Ok? && after == r.value) || (r.Err? && after == b)
            case OpDelete(id) => var r := Delete(b, id); (r.Ok? && after == r.value) || (r.Err? && after == b)
            case OpEnsureSystem(number, newId) =>
              var r := GetOrCreateSystem(b, number, newId); (r.Ok? && after == r.value.0) || (r.Err? && after == b)
            case OpPost(lines, locked) =>
              var r := CreateAndCommit(b, lines, locked); (r.Ok? && after == r.value) || (r.Err? && after == b)
  {}

  /** Every definition is of a required number and names a kind its type has. */
  lemma {:induction false} DefinitionsFit(number: string)
    requires SystemDef(number).Some?
    ensures number in SYSTEM_NUMBERS && SystemDef(number).value.1 in SubTypes(SystemDef(number).value.0)
  {}

  /** A create is refused at once for a kind its type does not have, a number in use or a parent that is
      not there, in this order. */
  lemma {:induction false} CreateRefused(b: Books, id: AccountId, equityId: AccountId, dto: NewAccount, locked: bool)
    ensures var r := Create(b, id, equityId, dto, locked);
            if dto.subType !in SubTypes(dto.kind) then r == Err(InvalidSubType)
            else if exists c :: c in b.accounts && b.accounts[c].number == dto.number then r == Err(DuplicateNumber)
            else if dto.parent.Some? && dto.parent.value !in b.accounts then r == Err(NotFound)
            else r.Err? ==> r.error.NotDefined? || r.error.PostingRefused?
  {
    assert Taken(b, dto.number) <==> exists c :: c in b.accounts && b.accounts[c].number == dto.number;
  }

  // ── Opening balances ──────────────────────────────────────────────────────

  lemma {:induction false} TwoLineTotals(lines: seq<Line>)
    requires |lines| == 2
    ensures Debits(lines) == lines[0].debit + lines[1].debit && Credits(lines) == lines[0].credit + lines[1].credit
  {
    assert DebitsTo(lines, 0) == 0 && CreditsTo(lines, 0) == 0;
    assert DebitsTo(lines, 1) == lines[0].debit && CreditsTo(lines, 1) == lines[0].credit;
  }

  lemma {:induction false} OpeningPosts(b: Books, id: AccountId, kind: AccountType, opening: int,
      equity: AccountId, locked: bool)
    requires id in b.accounts && equity in b.accounts && id != equity && opening != 0
    requires b.accounts[id].kind == kind && b.accounts[id].active && b.accounts[equity].active
    ensures var r := CreateAndCommit(b, OpeningLines(id, kind, opening, equity), locked);
            if locked then r == Err(PeriodLocked)
            else r.Ok? && r.value.accounts.Keys == b.accounts.Keys
                 && r.value.accounts[id] == b.accounts[id].(balance := b.accounts[id].balance + opening)
                 && (forall other :: other in b.accounts && other != id && other != equity ==>
                       r.value.accounts[other] == b.accounts[other])
                 && |r.value.ledger| == |b.ledger| + 2
  {
    var lines := OpeningLines(id, kind, opening, equity);
    assert GoodLine(lines[0]) && GoodLine(lines[1]);
    TwoLineTotals(lines);
    assert AccountsExist(b, lines);
    var first := PostTo(b, lines, 1);
    assert first == PostLine(PostTo(b, lines, 0), lines[0]);
    assert PostLines(b, lines) == PostLine(first, lines[1]);
  }

  /** The equity account found or made for a new account is another one, and the new one is untouched. */
  lemma {:induction false} EquityIsAnother(b: Books, id: AccountId, equityId: AccountId)
    requires Inv(b) && id in b.accounts && equityId !in b.accounts && b.accounts[id].number != OPENING_BALANCE_EQUITY
    ensures GetOrCreateSystem(b, OPENING_BALANCE_EQUITY, equityId).Ok?
    ensures var (after, equity) := GetOrCreateSystem(b, OPENING_BALANCE_EQUITY, equityId).value;
            && equity != id && equity in after.accounts && after.accounts[equity].active
            && id in after.accounts && after.accounts[id] == b.accounts[id] && after.ledger == b.ledger
            && (forall other :: other in b.accounts && other != equity ==>
                  other in after.accounts && after.accounts[other] == b.accounts[other])
            && (equity in b.accounts ==> b.accounts[equity].number == OPENING_BALANCE_EQUITY)
  {}

  /** A created account stands at its opening balance, posted against equity, unless it is the equity
      account itself; the posting can fail only because the period is closed. */
  lemma {:induction false} CreatePostsOpening(b: Books, id: AccountId, equityId: AccountId, dto: NewAccount,
      locked: bool)
    requires Inv(b) && FreshIds(b, OpCreate(id, equityId, dto, locked))
    requires dto.subType in SubTypes(dto.kind) && !Taken(b, dto.number)
    requires dto.parent.Some? ==> dto.parent.value in b.accounts
    ensures var r := Create(b, id, equityId, dto, locked);
            var posts := dto.opening != 0 && dto.number != OPENING_BALANCE_EQUITY;
            if posts && locked then r == Err(PostingRefused(PeriodLocked))
            else
              && r.Ok? && id in r.value.accounts
              && r.value.accounts[id]
                 == Account(dto.number, dto.kind, dto.subType, dto.parent, if posts then dto.opening else 0, true)
              && (forall other :: other in b.accounts && b.accounts[other].number != OPENING_BALANCE_EQUITY ==>
                    other in r.value.accounts && r.value.accounts[other] == b.accounts[other])
              && |r.value.ledger| == |b.ledger| + (if posts then 2 else 0)
  {
    var a := Account(dto.number, dto.kind, dto.subType, dto.parent, 0, true);
    var added := b.(accounts := b.accounts[id := a]);
    AddKeeps(b, id, a);
    if dto.opening != 0 && dto.number != OPENING_BALANCE_EQUITY {
      EquityIsAnother(added, id, equityId);
      var (withEquity, equity) := GetOrCreateSystem(added, OPENING_BALANCE_EQUITY, equityId).value;
      OpeningPosts(withEquity, id, dto.kind, dto.opening, equity, locked);
    }
  }

  // ── Where the rules stop ──────────────────────────────────────────────────

  /** The form's lock and the server's gate agree on retyping; on renumbering they differ exactly where
      sub-accounts alone stand in the way, which the server lets pass. */
  lemma {:induction false} StructureGate(b: Books, id: AccountId, number: string, kind: AccountType, references: nat)
    requires id in b.accounts && !IsSystem(b.accounts[id])
    requires number != b.accounts[id].number ==> |number| >= 2 && !Taken(b, number)
    ensures kind != b.accounts[id].kind ==>
              (StructureError(b, id, number, kind, references) == None <==> StructureEditable(b, id, references))
    ensures kind == b.accounts[id].kind && number != b.accounts[id].number ==>
              (StructureError(b, id, number, kind, references) == None
               <==> StructureEditable(b, id, references) || (HasChild(b, id) && !HasRow(b.ledger, id) && references == 0))
  {}

  /** Parents can come to form a loop: only an account naming itself is refused. */
  lemma {:induction false} ParentLoopReachable()
    ensures var a := Account("60", Expense, "Operating", None, 0, true);
            var b0 := Books(map[1 := a, 2 := a.(number := "61", parent := Some(1))], []);
            var loop := Edit(None, None, None, Some(Some(2)), None);
            && Inv(b0)
            && Update(b0, 1, loop, 0).Ok?
            && Update(b0, 1, loop, 0).value.accounts[1].parent == Some(2)
            && Update(b0, 1, loop, 0).value.accounts[2].parent == Some(1)
  {
    var a := Account("60", Expense, "Operating", None, 0, true);
    var b0 := Books(map[1 := a, 2 := a.(number := "61", parent := Some(1))], []);
    assert "60"[1] != "61"[1];
    assert Inv(b0);
    assert "60" !in SYSTEM_NUMBERS by {
      assert "60"[0] == '6';
    }
  }

  /** A missing system number can be taken by an account of the wrong type, which is from then on the
      account automatic posting finds under it. */
  lemma {:induction false} WrongTypeCanTakeSystemNumber()
    ensures var b0 := Books(map[], []);
            var dto := NewAccount("2400", Asset, "Other Asset", None, 0);
            var made := Create(b0, 1, 2, dto, false);
            && made.Ok?
            && var found := GetOrCreateSystem(made.value, "2400", 3);
               found.Ok? && found.value.1 == 1 && found.value.0.accounts[1].kind == Asset
               && SystemDef("2400") == Some((Liability, "Other Liability"))
  {
    var b0 := Books(map[], []);
    var dto := NewAccount("2400", Asset, "Other Asset", None, 0);
    var made := Create(b0, 1, 2, dto, false);
    assert !Taken(b0, "2400");
    assert Holds(made.value, 1, "2400");
    assert Taken(made.value, "2400");
  }

  // ── The accounting equation ───────────────────────────────────────────────

  predicate DebitNormal(kind: AccountType) {
    kind.Asset? || kind.Expense?
  }

  /** Total balance of the listed accounts of one type. */
  ghost function TypeTotal(accounts: map<AccountId, Account>, ids: set<AccountId>, kind: AccountType): int
    requires ids <= accounts.Keys
  {
    if ids == {} then 0
    else
      var id :| id in ids;
      TypeTotal(accounts, ids - {id}, kind) + Share(accounts, id, kind)
  }

  function Share(accounts: map<AccountId, Account>, id: AccountId, kind: AccountType): int
    requires id in accounts
  {
    if accounts[id].kind == kind then accounts[id].balance else 0
  }

  lemma {:induction false} TypeTotalRemove(accounts: map<AccountId, Account>, ids: set<AccountId>,
      kind: AccountType, id: AccountId)
    requires ids <= accounts.Keys && id in ids
    ensures TypeTotal(accounts, ids, kind) == TypeTotal(accounts, ids - {id}, kind) + Share(accounts, id, kind)
    decreases |ids|
  {
    var first :| first in ids && TypeTotal(accounts, ids, kind)
                               == TypeTotal(accounts, ids - {first}, kind) + Share(accounts, first, kind);
    if first != id {
      TypeTotalRemove(accounts, ids - {first}, kind, id);
      TypeTotalRemove(accounts, ids - {id}, kind, first);
      assert ids - {first} - {id} == ids - {id} - {first};
    }
  }

  /** The sum of signed nets, debit-normal accounts counted up and the rest down. */
  ghost function Net(accounts: map<AccountId, Account>, ids: set<AccountId>): int
    requires ids <= accounts.Keys
  {
    TypeTotal(accounts, ids, Asset) + TypeTotal(accounts, ids, Expense)
    - TypeTotal(accounts, ids, Liability) - TypeTotal(accounts, ids, Equity) - TypeTotal(accounts, ids, Revenue)
  }

  function NetShare(a: Account): int {
    if DebitNormal(a.kind) then a.balance else -a.balance
  }

  lemma {:induction false} NetRemove(accounts: map<AccountId, Account>, ids: set<AccountId>, id: AccountId)
    requires ids <= accounts.Keys && id in ids
    ensures Net(accounts, ids) == Net(accounts, ids - {id}) + NetShare(accounts[id])
  {
    TypeTotalRemove(accounts, ids, Asset, id);
    TypeTotalRemove(accounts, ids, Expense, id);
    TypeTotalRemove(accounts, ids, Liability, id);
    TypeTotalRemove(accounts, ids, Equity, id);
    TypeTotalRemove(accounts, ids, Revenue, id);
  }

  /** Debits less credits of the rows belonging to the listed accounts. */
  function NetOfRows(ledger: seq<GlRow>, ids: set<AccountId>): int {
    if ledger == [] then 0
    else
      var r := ledger[|ledger| - 1];
      NetOfRows(ledger[..|ledger| - 1], ids) + if r.account in ids then r.debit - r.credit else 0
  }

  lemma {:induction false} NetOfRowsSplit(ledger: seq<GlRow>, ids: set<AccountId>, id: AccountId)
    requires id in ids
    ensures NetOfRows(ledger, ids) == NetOfRows(ledger, ids - {id}) + Movement(ledger, id, Asset)
  {
    if ledger != [] {
      NetOfRowsSplit(ledger[..|ledger| - 1], ids, id);
    }
  }

  lemma {:induction false} MovementSides(ledger: seq<GlRow>, id: AccountId, kind: AccountType)
    ensures Movement(ledger, id, Asset)
            == if DebitNormal(kind) then Movement(ledger, id, kind) else -Movement(ledger, id, kind)
  {
    if ledger != [] {
      MovementSides(ledger[..|ledger| - 1], id, kind);
    }
  }

  lemma {:induction false} NetIsRows(b: Books, ids: set<AccountId>)
    requires BalancesAgree(b) && ids <= b.accounts.Keys
    ensures Net(b.accounts, ids) == NetOfRows(b.ledger, ids)
    decreases |ids|
  {
    if ids == {} {
      NoIdsNoNet(b.ledger);
    } else {
      var id :| id in ids;
      NetRemove(b.accounts, ids, id);
      NetOfRowsSplit(b.ledger, ids, id);
      MovementSides(b.ledger, id, b.accounts[id].kind);
      NetIsRows(b, ids - {id});
    }
  }

  lemma {:induction false} NoIdsNoNet(ledger: seq<GlRow>)
    ensures NetOfRows(ledger, {}) == 0
  {
    if ledger != [] {
      NoIdsNoNet(ledger[..|ledger| - 1]);
    }
  }

  lemma {:induction false} AllIdsNet(ledger: seq<GlRow>, ids: set<AccountId>)
    requires forall i :: 0 <= i < |ledger| ==> ledger[i].account in ids
    ensures NetOfRows(ledger, ids) == TotalDebits(ledger) - TotalCredits(ledger)
  {
    if ledger != [] {
      AllIdsNet(ledger[..|ledger| - 1], ids);
    }
  }

  /** In sound books the chart's summary obeys the accounting equation. */
  lemma {:induction false} AccountingEquation(b: Books)
    requires Sound(b)
    ensures var all := b.accounts.Keys;
            TypeTotal(b.accounts, all, Asset) + TypeTotal(b.accounts, all, Expense) ==
            TypeTotal(b.accounts, all, Liability) + TypeTotal(b.accounts, all, Equity) + TypeTotal(b.accounts, all, Revenue)
  {
    NetIsRows(b, b.accounts.Keys);
    AllIdsNet(b.ledger, b.accounts.Keys);
  }

  // ── The service ───────────────────────────────────────────────────────────

  class AccountsService {
    var accounts: map<AccountId, Account>
    var ledger: seq<GlRow>

    constructor (books: Books)
      ensures State() == books
    {
      accounts, ledger := books.accounts, books.ledger;
    }

    function State(): Books
      reads this
    {
      Books(accounts, ledger)
    }

    /** `findOne` by number. */
    method FindByNumber(number: string) returns (found: Option<AccountId>)
      ensures found.Some? <==> Taken(State(), number)
      ensures found.Some? ==> Holds(State(), found.value, number)
    {
      var rest := accounts.Keys;
      while rest != {}
        invariant rest <= accounts.Keys
        invariant forall id :: id in accounts && id !in rest ==> !Holds(State(), id, number)
        decreases |rest|
      {
        var id :| id in rest;
        if accounts[id].number == number {
          assert Holds(State(), id, number);
          return Some(id);
        }
        rest := rest - {id};
      }
      found := None;
    }

    method GetOrCreateSystemAccount(number: string, newId: AccountId) returns (result: Result<AccountId, Error>)
      requires NumbersUnique(State())
      modifies this
      ensures match GetOrCreateSystem(old(State()), number, newId)
              case Ok((after, id)) => result == Ok(id) && State() == after
              case Err(e) => result == Err(e) && State() == old(State())
    {
      var existing := FindByNumber(number);
      if existing.Some? {
        var id := existing.value;
        assert id == Holder(State(), number);
        accounts := accounts[id := accounts[id].(active := true)];
        return Ok(id);
      }
      match SystemDef(number)
      case None => return Err(NotDefined);
      case Some((kind, subType)) =>
        accounts := accounts[newId := Account(number, kind, subType, None, 0, true)];
        return Ok(newId);
    }

    /** The account and its opening entry land together or not at all. */
    method CreateAccount(id: AccountId, equityId: AccountId, dto: NewAccount, locked: bool)
      returns (error: Option<Error>)
      requires Inv(State()) && FreshIds(State(), OpCreate(id, equityId, dto, locked))
      modifies this
      ensures match Create(old(State()), id, equityId, dto, locked)
              case Ok(after) => error == None && State() == after
              case Err(e) => error == Some(e) && State() == old(State())
    {
      if dto.subType !in SubTypes(dto.kind) {
        return Some(InvalidSubType);
      }
      var duplicate := FindByNumber(dto.number);
      if duplicate.Some? {
        return Some(DuplicateNumber);
      }
      if dto.parent.Some? && dto.parent.value !in accounts {
        return Some(NotFound);
      }
      var before := State();
      var a := Account(dto.number, dto.kind, dto.subType, dto.parent, 0, true);
      AddKeeps(before, id, a);
      accounts := accounts[id := a];
      if dto.opening != 0 && dto.number != OPENING_BALANCE_EQUITY {
        var equity := GetOrCreateSystemAccount(OPENING_BALANCE_EQUITY, equityId);
        var refused := PostAndCommit(OpeningLines(id, dto.kind, dto.opening, equity.value), locked);
        if refused.Some? {
          accounts, ledger := before.accounts, before.ledger;
          return Some(PostingRefused(refused.value));
        }
      }
      error := None;
    }

    /** A posted entry followed by the commit's balance check. */
    method PostAndCommit(lines: seq<Line>, locked: bool) returns (refused: Option<PostingError>)
      modifies this
      ensures match CreateAndCommit(old(State()), lines, locked)
              case Ok(after) => refused == None && State() == after
              case Err(e) => refused == Some(e) && State() == old(State())
    {
      var posting := new PostingService(State());
      refused := posting.PostEntry(lines, locked);
      if refused == None {
        if Debits(lines) != Credits(lines) {
          return Some(Unbalanced);
        }
        accounts, ledger := posting.accounts, posting.ledger;
      }
    }

    method UpdateAccount(id: AccountId, dto: Edit, references: nat) returns (error: Option<Error>)
      modifies this`accounts
      ensures match Update(old(State()), id, dto, references)
              case Ok(after) => error == None && State() == after
              case Err(e) => error == Some(e) && State() == old(State())
    {
      if id !in accounts {
        return Some(NotFound);
      }
      var a := accounts[id];
      var number := if dto.number.Some? then Text.Trim(dto.number.value) else a.number;
      var kind := if dto.kind.Some? then dto.kind.value else a.kind;
      var subType := if dto.subType.Some? then dto.subType.value else a.subType;
      if IsSystem(a) && (kind != a.kind || number != a.number || subType != a.subType) {
        return Some(SystemAccountFixed);
      }
      var structure := StructureError(State(), id, number, kind, references);
      if structure.Some? {
        return structure;
      }
      if subType !in SubTypes(kind) {
        return Some(InvalidSubType);
      }
      var parent := NextParent(State(), id, kind, dto);
      if parent.Err? {
        return Some(parent.error);
      }
      a := a.(number := number, kind := kind, subType := subType, parent := parent.value);
      if dto.active.Some? {
        if a.active && !dto.active.value {
          var refusal := CannotDeactivate(a.number, a.balance);
          if refusal.Some? {
            return refusal;
          }
        }
        a := a.(active := dto.active.value);
      }
      accounts := accounts[id := a];
      error := None;
    }

    method ToggleAccount(id: AccountId) returns (error: Option<Error>)
      modifies this`accounts
      ensures match Toggle(old(State()), id)
              case Ok(after) => error == None && State() == after
              case Err(e) => error == Some(e) && State() == old(State())
    {
      if id !in accounts {
        return Some(NotFound);
      }
      if accounts[id].active {
        var refusal := CannotDeactivate(accounts[id].number, accounts[id].balance);
        if refusal.Some? {
          return refusal;
        }
      }
      accounts := accounts[id := accounts[id].(active := !accounts[id].active)];
      error := None;
    }

    method DeleteAccount(id: AccountId) returns (error: Option<Error>)
      modifies this`accounts
      ensures match Delete(old(State()), id)
              case Ok(after) => error == None && State() == after
              case Err(e) => error == Some(e) && State() == old(State())
    {
      if id !in accounts {
        return Some(NotFound);
      }
      if IsSystem(accounts[id]) {
        return Some(SystemAccountProtected);
      }
      if HasRow(ledger, id) {
        return Some(HasTransactions);
      }
      if HasChild(State(), id) {
        return Some(HasChildren);
      }
      accounts := accounts - {id};
      error := None;
    }

    /** `summarize`: the totals per type, which in sound books satisfy the accounting equation. */
    method Summarize() returns (totals: map<AccountType, int>)
      ensures totals.Keys == {Asset, Liability, Equity, Revenue, Expense}
      ensures forall kind :: kind in totals ==> totals[kind] == TypeTotal(accounts, accounts.Keys, kind)
      ensures Sound(State()) ==> totals[Asset] + totals[Expense] == totals[Liability] + totals[Equity] + totals[Revenue]
    {
      totals := map[Asset := 0, Liability := 0, Equity := 0, Revenue := 0, Expense := 0];
      var rest := accounts.Keys;
      while rest != {}
        invariant rest <= accounts.Keys && totals.Keys == {Asset, Liability, Equity, Revenue, Expense}
        invariant forall kind :: kind in totals ==>
                    totals[kind] + TypeTotal(accounts, rest, kind) == TypeTotal(accounts, accounts.Keys, kind)
        decreases |rest|
      {
        var id :| id in rest;
        forall kind { TypeTotalRemove(accounts, rest, kind, id); }
        totals := totals[accounts[id].kind := totals[accounts[id].kind] + accounts[id].balance];
        rest := rest - {id};
      }
      if Sound(State()) {
        AccountingEquation(State());
      }
    }
  }
}
