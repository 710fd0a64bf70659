/** Two things the chart of accounts should keep and does not always: parents without a loop, and
    system numbers on accounts of the defined type. Source: src/modules/accounts/accounts.service.ts. */
module ChartShape {
  import opened Options
  import opened Posting
  import opened Accounts
  import Text

  // ── Ancestors ─────────────────────────────────────────────────────────────

  /** The `n`-th account up the parents of `id`, itself for 0. */
  function Up(b: Books, id: AccountId, n: nat): Option<AccountId> {
    if n == 0 then Some(id)
    else
      var below := Up(b, id, n - 1);
      if below.Some? && below.value in b.accounts then b.accounts[below.value].parent else None
  }

  ghost predicate LoopFree(b: Books) {
    forall id, n: nat :: id in b.accounts && n > 0 ==> Up(b, id, n) != Some(id)
  }

  /** `d` is `id` or an account below it. */
  ghost predicate Under(b: Books, d: AccountId, id: AccountId) {
    exists n: nat :: Up(b, d, n) == Some(id)
  }

  lemma {:induction false} UpAdds(b: Books, id: AccountId, mid: AccountId, m: nat, n: nat)
    requires Up(b, id, m) == Some(mid)
    ensures Up(b, id, m + n) == Up(b, mid, n)
  {
    if n > 0 {
      UpAdds(b, id, mid, m, n - 1);
    }
  }

  /** The two charts agree on every parent but that of `id`. */
  ghost predicate SameBut(b: Books, c: Books, id: AccountId) {
    && b.accounts.Keys == c.accounts.Keys
    && forall a :: a in b.accounts && a != id ==> c.accounts[a].parent == b.accounts[a].parent
  }

  /** A path that does not go through `id` is the same in both. */
  lemma {:induction false} UpSame(b: Books, c: Books, id: AccountId, x: AccountId, n: nat)
    requires SameBut(b, c, id) && forall k: nat :: k < n ==> Up(b, x, k) != Some(id)
    ensures Up(c, x, n) == Up(b, x, n)
  {
    if n > 0 {
      UpSame(b, c, id, x, n - 1);
    }
  }

  /** The first time a path meets `id`, given that it does. */
  lemma {:induction false} FirstMeet(b: Books, x: AccountId, id: AccountId, n: nat) returns (m: nat)
    requires Up(b, x, n) == Some(id)
    ensures m <= n && Up(b, x, m) == Some(id) && forall k: nat :: k < m ==> Up(b, x, k) != Some(id)
  {
    m := 0;
    while Up(b, x, m) != Some(id)
      invariant m <= n && forall k: nat :: k < m ==> Up(b, x, k) != Some(id)
      decreases n - m
    {
      m := m + 1;
    }
  }

  lemma {:induction false} MeetInBoth(b: Books, c: Books, id: AccountId, x: AccountId, n: nat)
    requires SameBut(b, c, id) && Up(b, x, n) == Some(id)
    ensures Under(c, x, id)
  {
    var m := FirstMeet(b, x, id, n);
    UpSame(b, c, id, x, m);
  }

  /** Giving `id` a parent leaves no loop exactly when the parent is not `id` or below it. */
  lemma {:induction false} ReparentLoopFree(b: Books, c: Books, id: AccountId)
    requires LoopFree(b) && id in b.accounts && SameBut(b, c, id)
    ensures LoopFree(c) <==> c.accounts[id].parent.None? || !Under(b, c.accounts[id].parent.value, id)
  {
    var parent := c.accounts[id].parent;
    if parent.Some? && Under(b, parent.value, id) {
      var n: nat :| Up(b, parent.value, n) == Some(id);
      MeetInBoth(b, c, id, parent.value, n);
      var m: nat :| Up(c, parent.value, m) == Some(id);
      assert Up(c, id, 0) == Some(id);
      assert Up(c, id, 1) == parent;
      UpAdds(c, id, parent.value, 1, m);
      assert !LoopFree(c);
    } else {
      forall x, n: nat | x in c.accounts && n > 0 ensures Up(c, x, n) != Some(x) {
        if Up(c, x, n) == Some(x) {
          NewLoop(b, c, id, x, n);
        }
      }
    }
  }

  /** A loop that was not there before goes through `id`, so its new parent is below it. */
  lemma {:induction false} NewLoop(b: Books, c: Books, id: AccountId, x: AccountId, n: nat)
    requires LoopFree(b) && id in b.accounts && SameBut(b, c, id)
    requires x in c.accounts && n > 0 && Up(c, x, n) == Some(x)
    ensures c.accounts[id].parent.Some? && Under(b, c.accounts[id].parent.value, id)
  {
    var i := Meets(c, x, id, n);
    if i == n {
      UpSame(c, b, id, x, n);
      assert false;
    }
    UpAdds(c, x, id, i, n - i);
    UpAdds(c, id, x, n - i, i);
    var parent := c.accounts[id].parent;
    assert Up(c, id, n) == Some(id);
    assert Up(c, id, 0) == Some(id);
    assert Up(c, id, 1) == parent;
    assert parent.Some? by { UpNone(c, id, 1, n); }
    UpAdds(c, id, parent.value, 1, n - 1);
    MeetInBoth(c, b, id, parent.value, n - 1);
  }

  lemma {:induction false} UpNone(b: Books, id: AccountId, m: nat, n: nat)
    requires m <= n && Up(b, id, n).Some?
    ensures Up(b, id, m).Some?
  {
    if m < n {
      UpNone(b, id, m, n - 1);
    }
  }

  /** The first of the steps below `n` at which a path stands on `id`, or `n`. */
  lemma {:induction false} Meets(b: Books, x: AccountId, id: AccountId, n: nat) returns (i: nat)
    ensures i <= n && (i < n ==> Up(b, x, i) == Some(id))
    ensures i == n ==> forall k: nat :: k < n ==> Up(b, x, k) != Some(id)
  {
    i := 0;
    while i < n && Up(b, x, i) != Some(id)
      invariant i <= n && forall k: nat :: k < i ==> Up(b, x, k) != Some(id)
    {
      i := i + 1;
    }
  }

  // ── What each operation does to the parents ───────────────────────────────

  ghost predicate SameParents(b: Books, c: Books) {
    b.accounts.Keys == c.accounts.Keys && forall a :: a in b.accounts ==> c.accounts[a].parent == b.accounts[a].parent
  }

  lemma {:induction false} SameParentsUp(b: Books, c: Books, x: AccountId, n: nat)
    requires SameParents(b, c)
    ensures Up(c, x, n) == Up(b, x, n)
  {
    if n > 0 {
      SameParentsUp(b, c, x, n - 1);
    }
  }

  lemma {:induction false} SameParentsLoopFree(b: Books, c: Books)
    requires SameParents(b, c) && LoopFree(b)
    ensures LoopFree(c)
  {
    forall x, n: nat | x in c.accounts && n > 0 ensures Up(c, x, n) != Some(x) {
      SameParentsUp(b, c, x, n);
    }
  }

  lemma {:induction false} UpInside(b: Books, x: AccountId, n: nat)
    requires ParentsExist(b) && x in b.accounts
    ensures Up(b, x, n).Some? ==> Up(b, x, n).value in b.accounts
  {
    if n > 0 {
      UpInside(b, x, n - 1);
    }
  }

  lemma {:induction false} UpExtends(b: Books, id: AccountId, a: Account, x: AccountId, n: nat)
    requires ParentsExist(b) && id !in b.accounts && x in b.accounts
    ensures Up(b.(accounts := b.accounts[id := a]), x, n) == Up(b, x, n)
  {
    if n > 0 {
      UpExtends(b, id, a, x, n - 1);
      UpInside(b, x, n - 1);
    }
  }

  /** A new account under an old one, or under none, closes no loop. */
  lemma {:induction false} AddLoopFree(b: Books, id: AccountId, a: Account)
    requires LoopFree(b) && ParentsExist(b) && id !in b.accounts
    requires a.parent.Some? ==> a.parent.value in b.accounts
    ensures LoopFree(b.(accounts := b.accounts[id := a]))
  {
    var c := b.(accounts := b.accounts[id := a]);
    forall x, n: nat | x in c.accounts && n > 0 ensures Up(c, x, n) != Some(x) {
      if x != id {
        UpExtends(b, id, a, x, n);
      } else if a.parent.None? {
        assert Up(c, id, 1) == None by { assert Up(c, id, 0) == Some(id); }
        if Up(c, id, n).Some? { UpNone(c, id, 1, n); }
      } else {
        assert Up(c, id, 0) == Some(id);
        assert Up(c, id, 1) == a.parent;
        UpAdds(c, id, a.parent.value, 1, n - 1);
        UpExtends(b, id, a, a.parent.value, n - 1);
        UpInside(b, a.parent.value, n - 1);
      }
    }
  }

  lemma {:induction false} UpShrinks(b: Books, id: AccountId, x: AccountId, n: nat)
    requires !HasChild(b, id) && x != id
    ensures Up(b, x, n) != Some(id) && Up(Removed(b, id), x, n) == Up(b, x, n)
  {
    if n > 0 {
      UpShrinks(b, id, x, n - 1);
    }
  }

  lemma {:induction false} RemoveLoopFree(b: Books, id: AccountId)
    requires LoopFree(b) && !HasChild(b, id)
    ensures LoopFree(Removed(b, id))
  {
    forall x, n: nat | x in Removed(b, id).accounts && n > 0 ensures Up(Removed(b, id), x, n) != Some(x) {
      UpShrinks(b, id, x, n);
    }
  }

  lemma {:induction false} PostLoopFree(b: Books, lines: seq<Line>, locked: bool)
    requires LoopFree(b) && CreateAndCommit(b, lines, locked).Ok?
    ensures LoopFree(CreateAndCommit(b, lines, locked).value)
  {
    PostToOnlyBalances(b, lines, |lines|);
    SameParentsLoopFree(b, PostLines(b, lines));
  }

  lemma {:induction false} EnsureLoopFree(b: Books, number: string, newId: AccountId)
    requires LoopFree(b) && ParentsExist(b) && newId !in b.accounts && GetOrCreateSystem(b, number, newId).Ok?
    ensures LoopFree(GetOrCreateSystem(b, number, newId).value.0)
  {
    var after := GetOrCreateSystem(b, number, newId).value.0;
    if Taken(b, number) {
      SameParentsLoopFree(b, after);
    } else {
      var (kind, subType) := SystemDef(number).value;
      AddLoopFree(b, newId, Account(number, kind, subType, None, 0, true));
    }
  }

  lemma {:induction false} CreateLoopFree(b: Books, id: AccountId, equityId: AccountId, dto: NewAccount, locked: bool)
    requires Inv(b) && LoopFree(b) && FreshIds(b, OpCreate(id, equityId, dto, locked))
    requires Create(b, id, equityId, dto, locked).Ok?
    ensures LoopFree(Create(b, id, equityId, dto, locked).value)
  {
    var a := Account(dto.number, dto.kind, dto.subType, dto.parent, 0, true);
    var added := b.(accounts := b.accounts[id := a]);
    AddKeeps(b, id, a);
    AddLoopFree(b, id, a);
    if dto.opening != 0 && dto.number != OPENING_BALANCE_EQUITY {
      EnsureLoopFree(added, OPENING_BALANCE_EQUITY, equityId);
      var (withEquity, equity) := GetOrCreateSystem(added, OPENING_BALANCE_EQUITY, equityId).value;
      PostLoopFree(withEquity, OpeningLines(id, dto.kind, dto.opening, equity), locked);
    }
  }

  // ── Parents without a loop ────────────────────────────────────────────────

  function KindAfter(b: Books, id: AccountId, edit: Edit): AccountType
    requires id in b.accounts
  {
    if edit.kind.Some? then edit.kind.value else b.accounts[id].kind
  }

  /** An accepted edit whose parent is the account's own descendant. */
  ghost predicate ClosesLoop(b: Books, op: Op) {
    op.OpUpdate? && Update(b, op.id, op.edit, op.references).Ok?
    && var parent := NextParent(b, op.id, KindAfter(b, op.id, op.edit), op.edit);
       parent.Ok? && parent.value.Some? && Under(b, parent.value.value, op.id)
  }

  lemma {:induction false} UpdateLoopFree(b: Books, id: AccountId, edit: Edit, references: nat)
    requires LoopFree(b) && Update(b, id, edit, references).Ok?
    ensures LoopFree(Update(b, id, edit, references).value) <==> !ClosesLoop(b, OpUpdate(id, edit, references))
  {
    ReparentLoopFree(b, Update(b, id, edit, references).value, id);
  }

  /** From parents without a loop, every operation leaves them so, except exactly an edit that puts an
      account under its own descendant. */
  lemma {:induction false} StepLoopFree(b: Books, op: Op)
    requires Inv(b) && LoopFree(b) && FreshIds(b, op)
    ensures LoopFree(Step(b, op)) <==> !ClosesLoop(b, op)
  {
    if Step(b, op) != b {
      match op
      case OpCreate(id, equityId, dto, locked) => CreateLoopFree(b, id, equityId, dto, locked);
      case OpUpdate(id, edit, references) => UpdateLoopFree(b, id, edit, references);
      case OpToggle(id) => SameParentsLoopFree(b, Step(b, op));
      case OpDelete(id) => RemoveLoopFree(b, id);
      case OpEnsureSystem(number, newId) => EnsureLoopFree(b, number, newId);
      case OpPost(lines, locked) => PostLoopFree(b, lines, locked);
    } else if op.OpUpdate? && Update(b, op.id, op.edit, op.references).Ok? {
      UpdateLoopFree(b, op.id, op.edit, op.references);
    }
  }

  /** Every state of a run, the first included, is free of loops. */
  ghost predicate AlwaysLoopFree(b: Books, ops: seq<Op>)
    decreases |ops|
  {
    LoopFree(b) && (ops == [] || AlwaysLoopFree(Step(b, ops[0]), ops[1..]))
  }

  /** Some operation of a run puts an account under its own descendant. */
  ghost predicate EverClosesLoop(b: Books, ops: seq<Op>)
    decreases |ops|
  {
    ops != [] && (ClosesLoop(b, ops[0]) || EverClosesLoop(Step(b, ops[0]), ops[1..]))
  }

  /** Over any run the parents stay without a loop exactly as long as no edit puts an account under its
      own descendant. */
  lemma {:induction false} ParentsStayLoopFree(b: Books, ops: seq<Op>)
    requires Inv(b) && LoopFree(b) && FreshRun(b, ops)
    ensures AlwaysLoopFree(b, ops) <==> !EverClosesLoop(b, ops)
    decreases |ops|
  {
    if ops != [] {
      StepKeeps(b, ops[0]);
      StepLoopFree(b, ops[0]);
      if !ClosesLoop(b, ops[0]) {
        ParentsStayLoopFree(Step(b, ops[0]), ops[1..]);
      } else {
        NotLoopFree(Step(b, ops[0]), ops[1..]);
      }
    }
  }

  lemma {:induction false} NotLoopFree(b: Books, ops: seq<Op>)
    requires !LoopFree(b)
    ensures !AlwaysLoopFree(b, ops)
  {}

  // ── System numbers on accounts of the defined type ────────────────────────

  /** The account is what its number is defined as, if its number is one of the defined ones. */
  predicate AsDefined(number: string, kind: AccountType, subType: string) {
    SystemDef(number).Some? ==> SystemDef(number).value == (kind, subType)
  }

  ghost predicate WellTyped(b: Books) {
    forall id :: id in b.accounts ==> AsDefined(b.accounts[id].number, b.accounts[id].kind, b.accounts[id].subType)
  }

  function NumberAfter(b: Books, id: AccountId, edit: Edit): string
    requires id in b.accounts
  {
    if edit.number.Some? then Text.Trim(edit.number.value) else b.accounts[id].number
  }

  function SubTypeAfter(b: Books, id: AccountId, edit: Edit): string
    requires id in b.accounts
  {
    if edit.subType.Some? then edit.subType.value else b.accounts[id].subType
  }

  /** An accepted request that creates an account with a defined number, or renumbers one into it,
      under another type than the number is defined with. */
  ghost predicate Mistypes(b: Books, op: Op) {
    match op
    case OpCreate(id, equityId, dto, locked) =>
      Create(b, id, equityId, dto, locked).Ok? && !AsDefined(dto.number, dto.kind, dto.subType)
    case OpUpdate(id, edit, references) =>
      Update(b, id, edit, references).Ok?
      && !AsDefined(NumberAfter(b, id, edit), KindAfter(b, id, edit), SubTypeAfter(b, id, edit))
    case _ => false
  }

  lemma {:induction false} PostWellTyped(b: Books, lines: seq<Line>, locked: bool)
    requires CreateAndCommit(b, lines, locked).Ok?
    ensures WellTyped(CreateAndCommit(b, lines, locked).value) <==> WellTyped(b)
  {
    PostToOnlyBalances(b, lines, |lines|);
    var after := PostLines(b, lines);
    forall id | id in b.accounts ensures id in after.accounts
      && after.accounts[id] == b.accounts[id].(balance := after.accounts[id].balance) {}
  }

  lemma {:induction false} EnsureWellTyped(b: Books, number: string, newId: AccountId)
    requires newId !in b.accounts && GetOrCreateSystem(b, number, newId).Ok?
    ensures WellTyped(GetOrCreateSystem(b, number, newId).value.0) <==> WellTyped(b)
  {
    var after := GetOrCreateSystem(b, number, newId).value.0;
    forall id | id in b.accounts
      ensures id in after.accounts && after.accounts[id].number == b.accounts[id].number
      ensures after.accounts[id].kind == b.accounts[id].kind && after.accounts[id].subType == b.accounts[id].subType
    {}
  }

  lemma {:induction false} AddWellTyped(b: Books, id: AccountId, a: Account)
    requires WellTyped(b) && id !in b.accounts
    ensures WellTyped(b.(accounts := b.accounts[id := a])) <==> AsDefined(a.number, a.kind, a.subType)
  {
    var c := b.(accounts := b.accounts[id := a]);
    assert c.accounts[id] == a;
  }

  lemma {:induction false} CreateWellTyped(b: Books, id: AccountId, equityId: AccountId, dto: NewAccount, locked: bool)
    requires WellTyped(b) && FreshIds(b, OpCreate(id, equityId, dto, locked))
    requires Create(b, id, equityId, dto, locked).Ok?
    ensures WellTyped(Create(b, id, equityId, dto, locked).value) <==> AsDefined(dto.number, dto.kind, dto.subType)
  {
    var a := Account(dto.number, dto.kind, dto.subType, dto.parent, 0, true);
    var added := b.(accounts := b.accounts[id := a]);
    AddWellTyped(b, id, a);
    if dto.opening != 0 && dto.number != OPENING_BALANCE_EQUITY {
      EnsureWellTyped(added, OPENING_BALANCE_EQUITY, equityId);
      var (withEquity, equity) := GetOrCreateSystem(added, OPENING_BALANCE_EQUITY, equityId).value;
      PostWellTyped(withEquity, OpeningLines(id, dto.kind, dto.opening, equity), locked);
    }
  }

  lemma {:induction false} UpdateWellTyped(b: Books, id: AccountId, edit: Edit, references: nat)
    requires WellTyped(b) && Update(b, id, edit, references).Ok?
    ensures WellTyped(Update(b, id, edit, references).value) <==> !Mistypes(b, OpUpdate(id, edit, references))
  {
    var after := Update(b, id, edit, references).value;
    assert after.accounts[id].number == NumberAfter(b, id, edit);
    assert after.accounts[id].kind == KindAfter(b, id, edit);
    assert after.accounts[id].subType == SubTypeAfter(b, id, edit);
  }

  /** From system numbers on accounts of the defined type, every operation keeps them so, except exactly
      a create or a renumbering into such a number under another type. */
  lemma {:induction false} StepWellTyped(b: Books, op: Op)
    requires WellTyped(b) && FreshIds(b, op)
    ensures WellTyped(Step(b, op)) <==> !Mistypes(b, op)
  {
    match op
    case OpCreate(id, equityId, dto, locked) =>
      if Create(b, id, equityId, dto, locked).Ok? { CreateWellTyped(b, id, equityId, dto, locked); }
    case OpUpdate(id, edit, references) =>
      if Update(b, id, edit, references).Ok? { UpdateWellTyped(b, id, edit, references); }
    case OpToggle(id) =>
    case OpDelete(id) =>
    case OpEnsureSystem(number, newId) =>
      if GetOrCreateSystem(b, number, newId).Ok? { EnsureWellTyped(b, number, newId); }
    case OpPost(lines, locked) =>
      if CreateAndCommit(b, lines, locked).Ok? { PostWellTyped(b, lines, locked); }
  }

  ghost predicate AlwaysWellTyped(b: Books, ops: seq<Op>)
    decreases |ops|
  {
    WellTyped(b) && (ops == [] || AlwaysWellTyped(Step(b, ops[0]), ops[1..]))
  }

  ghost predicate EverMistypes(b: Books, ops: seq<Op>)
    decreases |ops|
  {
    ops != [] && (Mistypes(b, ops[0]) || EverMistypes(Step(b, ops[0]), ops[1..]))
  }

  /** Over any run system numbers stay with their types exactly as long as no request gives one to an
      account of another type. */
  lemma {:induction false} SystemNumbersStayTyped(b: Books, ops: seq<Op>)
    requires WellTyped(b) && FreshRun(b, ops)
    ensures AlwaysWellTyped(b, ops) <==> !EverMistypes(b, ops)
    decreases |ops|
  {
    if ops != [] {
      StepWellTyped(b, ops[0]);
      if !Mistypes(b, ops[0]) {
        SystemNumbersStayTyped(Step(b, ops[0]), ops[1..]);
      } else {
        NotWellTyped(Step(b, ops[0]), ops[1..]);
      }
    }
  }

  lemma {:induction false} NotWellTyped(b: Books, ops: seq<Op>)
    requires !WellTyped(b)
    ensures !AlwaysWellTyped(b, ops)
  {}

  lemma {:induction false} EndsWellTyped(b: Books, ops: seq<Op>)
    requires AlwaysWellTyped(b, ops)
    ensures WellTyped(Run(b, ops))
    decreases |ops|
  {
    if ops != [] {
      EndsWellTyped(Step(b, ops[0]), ops[1..]);
    }
  }

  /** After such a run, the account automatic posting finds or makes has the type of its definition. */
  lemma {:induction false} PostingFindsDefinedType(b: Books, ops: seq<Op>, number: string, newId: AccountId)
    requires WellTyped(b) && FreshRun(b, ops) && !EverMistypes(b, ops)
    requires SystemDef(number).Some? && newId !in Run(b, ops).accounts
    ensures var r := GetOrCreateSystem(Run(b, ops), number, newId);
            && r.Ok? && r.value.1 in r.value.0.accounts
            && var found := r.value.0.accounts[r.value.1];
               found.number == number && (found.kind, found.subType) == SystemDef(number).value
  {
    SystemNumbersStayTyped(b, ops);
    EndsWellTyped(b, ops);
    var end := Run(b, ops);
    if Taken(end, number) {
      assert Holds(end, Holder(end, number), number);
    }
  }
}
