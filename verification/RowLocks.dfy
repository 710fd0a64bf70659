/** Transactions that lock rows one after another and keep every lock until they end.

    A request numbers its documents from the locked counter rows and takes each journal reference
    under a lock on the company row, so its transaction asks for a fixed list of rows. Rows only the
    request itself touches are not listed: they keep nobody waiting. */
module RowLocks {
  import opened Options

  type Tx = nat

  datatype Series = INV | EST | SO | PO | BILL | CM | VC | RCT

  /** A lockable row of one company: its own, or the counter of a series and year. */
  datatype Row = Company | Counter(series: Series, year: nat)

  /** A transaction under way: the rows it asks for, in order, and how many it has. */
  datatype Work = Work(plan: seq<Row>, done: nat)

  type State = map<Tx, Work>

  datatype Step =
    | Begin(tx: Tx, plan: seq<Row>)
    | Take(tx: Tx)
    | Commit(tx: Tx)
    | Abort(tx: Tx)

  predicate Has(w: Work, r: Row) {
    w.done <= |w.plan| && r in w.plan[..w.done]
  }

  /** `t` asks for a row that `u` has. */
  predicate WaitsFor(s: State, t: Tx, u: Tx) {
    t in s && u in s && t != u && s[t].done < |s[t].plan| && Has(s[u], s[t].plan[s[t].done])
  }

  ghost predicate Waits(s: State, t: Tx) {
    exists u :: WaitsFor(s, t, u)
  }

  /** A commit needs every row taken; an error ends a transaction at any point. */
  ghost predicate Enabled(s: State, step: Step) {
    match step
    case Begin(t, _) => t !in s
    case Take(t) => t in s && s[t].done < |s[t].plan| && !Waits(s, t)
    case Commit(t) => t in s && s[t].done == |s[t].plan|
    case Abort(t) => t in s
  }

  function Apply(s: State, step: Step): State {
    match step
    case Begin(t, plan) => s[t := Work(plan, 0)]
    case Take(t) => if t in s then s[t := Work(s[t].plan, s[t].done + 1)] else s
    case Commit(t) => s - {t}
    case Abort(t) => s - {t}
  }

  ghost predicate ValidRun(s: State, steps: seq<Step>)
    decreases |steps|
  {
    steps == [] || (Enabled(s, steps[0]) && ValidRun(Apply(s, steps[0]), steps[1..]))
  }

  function RunFrom(s: State, steps: seq<Step>): State
    decreases |steps|
  {
    if steps == [] then s else RunFrom(Apply(s, steps[0]), steps[1..])
  }

  ghost predicate Reachable(s: State) {
    exists steps :: ValidRun(map[], steps) && RunFrom(map[], steps) == s
  }

  // ── What every reachable state keeps ──────────────────────────────────────

  ghost predicate Apart(w: Work, v: Work) {
    forall r :: Has(w, r) ==> !Has(v, r)
  }

  /** No row is held twice. */
  ghost predicate Exclusive(s: State) {
    && (forall t :: t in s ==> s[t].done <= |s[t].plan|)
    && (forall t, u :: t in s && u in s && t != u ==> Apart(s[t], s[u]))
  }

  lemma {:induction false} StepExclusive(s: State, step: Step)
    requires Exclusive(s) && Enabled(s, step)
    ensures Exclusive(Apply(s, step))
  {
    var after := Apply(s, step);
    match step
    case Begin(_, _) =>
    case Take(t) =>
      var next := s[t].plan[s[t].done];
      assert after[t].plan[..after[t].done] == s[t].plan[..s[t].done] + [next];
      forall u | u in s && u != t ensures !Has(s[u], next) {
        assert !WaitsFor(s, t, u);
      }
    case Commit(_) =>
    case Abort(_) =>
  }

  lemma {:induction false} RunExclusive(s: State, steps: seq<Step>)
    requires Exclusive(s) && ValidRun(s, steps)
    ensures Exclusive(RunFrom(s, steps))
    decreases |steps|
  {
    if steps != [] {
      StepExclusive(s, steps[0]);
      RunExclusive(Apply(s, steps[0]), steps[1..]);
    }
  }

  lemma {:induction false} ReachableExclusive(s: State)
    requires Reachable(s)
    ensures Exclusive(s)
  {
    var steps :| ValidRun(map[], steps) && RunFrom(map[], steps) == s;
    RunExclusive(map[], steps);
  }

  lemma {:induction false} RunExtends(s: State, steps: seq<Step>, step: Step)
    requires ValidRun(s, steps) && Enabled(RunFrom(s, steps), step)
    ensures ValidRun(s, steps + [step]) && RunFrom(s, steps + [step]) == Apply(RunFrom(s, steps), step)
    decreases |steps|
  {
    if steps == [] {
      assert [step][1..] == [];
      assert ValidRun(Apply(s, step), []);
      assert RunFrom(Apply(s, step), []) == Apply(s, step);
      assert steps + [step] == [step];
    } else {
      RunExtends(Apply(s, steps[0]), steps[1..], step);
      assert (steps + [step])[1..] == steps[1..] + [step];
    }
  }

  lemma {:induction false} ReachableStep(s: State, step: Step)
    requires Reachable(s) && Enabled(s, step)
    ensures Reachable(Apply(s, step))
  {
    var steps :| ValidRun(map[], steps) && RunFrom(map[], steps) == s;
    RunExtends(map[], steps, step);
    assert ValidRun(map[], steps + [step]);
  }

  /** A transaction can go on to its `n`-th row when nobody has one of the rows before it. */
  lemma {:induction false} TakeUpTo(s: State, t: Tx, n: nat)
    requires Reachable(s) && t in s && s[t].done <= n <= |s[t].plan|
    requires forall u, k :: u in s && u != t && s[t].done <= k < n ==> !Has(s[u], s[t].plan[k])
    ensures Reachable(s[t := Work(s[t].plan, n)])
    decreases n - s[t].done
  {
    if s[t].done == n {
      assert s[t := Work(s[t].plan, n)] == s;
    } else {
      var next := Apply(s, Take(t));
      ReachableStep(s, Take(t));
      TakeUpTo(next, t, n);
      assert next[t := Work(s[t].plan, n)] == s[t := Work(s[t].plan, n)];
    }
  }

  /** A transaction that ends leaves no one waiting for it, and the others as they were. */
  lemma {:induction false} EndReleases(s: State, step: Step)
    requires Enabled(s, step) && (step.Commit? || step.Abort?)
    ensures var after := Apply(s, step);
            && (forall u :: !WaitsFor(after, u, step.tx))
            && (forall u :: u in after <==> u in s && u != step.tx)
            && (forall u :: u in after ==> after[u] == s[u])
  {}

  /** A transaction has what it took until it ends, whatever anyone does. */
  lemma {:induction false} LocksAreKept(s: State, step: Step, t: Tx, r: Row)
    requires Exclusive(s) && Enabled(s, step) && t in s && !(step.Commit? && step.tx == t) && !(step.Abort? && step.tx == t)
    ensures var after := Apply(s, step);
            && t in after && after[t].plan == s[t].plan
            && (Has(after[t], r) <==> Has(s[t], r) || (step == Take(t) && r == s[t].plan[s[t].done]))
  {
    if step == Take(t) {
      var done := s[t].done;
      assert s[t].plan[..done + 1] == s[t].plan[..done] + [s[t].plan[done]];
    }
  }

  /** One that has taken its whole list still has all of it. */
  lemma {:induction false} WholeListHeld(w: Work, r: Row)
    requires w.done == |w.plan|
    ensures Has(w, r) <==> r in w.plan
  {
    assert w.plan[..w.done] == w.plan;
  }

  // ── Two transactions ──────────────────────────────────────────────────────

  /** The first row of `p` that `q` asks for too. */
  function FirstShared(p: seq<Row>, q: seq<Row>): Option<Row> {
    if p == [] then None else if p[0] in q then Some(p[0]) else FirstShared(p[1..], q)
  }

  /** The lists share rows and do not begin with the same one of them. */
  predicate Crossed(p: seq<Row>, q: seq<Row>) {
    FirstShared(p, q).Some? && FirstShared(p, q) != FirstShared(q, p)
  }

  ghost predicate CanDeadlock(p: seq<Row>, q: seq<Row>) {
    exists s: State, t: Tx, u: Tx ::
      Reachable(s) && WaitsFor(s, t, u) && WaitsFor(s, u, t) && s[t].plan == p && s[u].plan == q
  }

  lemma {:induction false} NoneShared(p: seq<Row>, q: seq<Row>, k: nat)
    requires k < |p| && p[k] in q
    ensures FirstShared(p, q).Some?
  {
    if p[0] !in q {
      NoneShared(p[1..], q, k - 1);
    }
  }

  lemma {:induction false} SharedAt(p: seq<Row>, q: seq<Row>) returns (i: nat)
    requires FirstShared(p, q).Some?
    ensures i < |p| && p[i] == FirstShared(p, q).value && p[i] in q
    ensures forall k :: 0 <= k < i ==> p[k] !in q
  {
    if p[0] in q {
      i := 0;
    } else {
      var j := SharedAt(p[1..], q);
      i := j + 1;
      forall k | 0 <= k < i ensures p[k] !in q {
        if k > 0 { assert p[k] == p[1..][k - 1]; }
      }
    }
  }

  lemma {:induction false} FirstAmong(p: seq<Row>, rows: seq<Row>, n: nat) returns (i: nat)
    requires n < |p| && p[n] in rows
    ensures i <= n && p[i] in rows && forall k :: 0 <= k < i ==> p[k] !in rows
  {
    i := 0;
    while p[i] !in rows
      invariant i <= n && forall k :: 0 <= k < i ==> p[k] !in rows
      decreases n - i
    {
      i := i + 1;
    }
  }

  /** The interleaving: one takes its first shared row, the other goes on until it meets that row,
      then the first until it meets a row of the other. */
  lemma {:induction false} CrossedDeadlock(p: seq<Row>, q: seq<Row>) returns (s: State)
    requires Crossed(p, q)
    ensures Reachable(s) && s.Keys == {0, 1} && s[0].plan == p && s[1].plan == q
    ensures WaitsFor(s, 0, 1) && WaitsFor(s, 1, 0)
  {
    var i0 := SharedAt(p, q);
    var n :| 0 <= n < |q| && q[n] == p[i0];
    NoneShared(q, p, n);
    var j0 := SharedAt(q, p);
    var m :| 0 <= m < |p| && p[m] == q[j0];
    var i := FirstAmong(p, [q[j0]], m);
    assert i0 < i;
    assert p[i0] in p[..i] && n > j0;
    var j := FirstAmong(q, p[..i], n);
    assert q[j0] !in p[..i] && j0 < j;
    s := BuildDeadlock(p, q, i, j0 + 1, j);
  }

  lemma {:induction false} BuildDeadlock(p: seq<Row>, q: seq<Row>, i: nat, j0: nat, j: nat) returns (s: State)
    requires i < |p| && j0 <= j < |q| && p[i] in q[..j] && q[j] in p[..i]
    requires forall k :: 0 <= k < i ==> p[k] !in q[..j0]
    requires forall k :: j0 <= k < j ==> q[k] !in p[..i]
    ensures Reachable(s) && s == map[0 := Work(p, i), 1 := Work(q, j)]
    ensures WaitsFor(s, 0, 1) && WaitsFor(s, 1, 0)
  {
    TwoBegun(p, q);
    var s0: State := map[0 := Work(p, 0), 1 := Work(q, 0)];
    assert forall k :: !Has(s0[0], k);
    TakeUpTo(s0, 1, j0);
    var s1 := s0[1 := Work(q, j0)];
    TakeUpTo(s1, 0, i);
    var s2 := s1[0 := Work(p, i)];
    TakeUpTo(s2, 1, j);
    s := s2[1 := Work(q, j)];
  }

  lemma {:induction false} TwoBegun(p: seq<Row>, q: seq<Row>)
    ensures Reachable(map[0 := Work(p, 0), 1 := Work(q, 0)])
  {
    assert ValidRun(map[], []) && RunFrom(map[], []) == map[];
    var s: State := map[];
    ReachableStep(s, Begin(0, p));
    ReachableStep(Apply(s, Begin(0, p)), Begin(1, q));
    assert Apply(Apply(s, Begin(0, p)), Begin(1, q)) == map[0 := Work(p, 0), 1 := Work(q, 0)];
  }

  lemma {:induction false} DeadlockCrossed(s: State, t: Tx, u: Tx)
    requires Reachable(s) && WaitsFor(s, t, u) && WaitsFor(s, u, t)
    ensures Crossed(s[t].plan, s[u].plan)
  {
    ReachableExclusive(s);
    var p, q, i, j := s[t].plan, s[u].plan, s[t].done, s[u].done;
    NoneShared(p, q, i);
    NoneShared(q, p, j);
    var i0 := SharedAt(p, q);
    var j0 := SharedAt(q, p);
    var a :| 0 <= a < i && p[a] == q[j];
    var b :| 0 <= b < j && q[b] == p[i];
    assert p[a] in q && q[b] in p;
    assert i0 <= a && j0 <= b;
    assert Has(s[t], p[..i][i0]) && Has(s[u], q[..j][j0]);
    assert Apart(s[t], s[u]);
  }

  /** Two transactions can come to wait for each other, whatever others run beside them, exactly when
      their lists share rows and do not begin with the same shared one. */
  lemma {:induction false} DeadlockExactlyWhen(p: seq<Row>, q: seq<Row>)
    ensures CanDeadlock(p, q) <==> Crossed(p, q)
  {
    if Crossed(p, q) {
      var s := CrossedDeadlock(p, q);
    }
    if CanDeadlock(p, q) {
      var s: State, t: Tx, u: Tx :|
        Reachable(s) && WaitsFor(s, t, u) && WaitsFor(s, u, t) && s[t].plan == p && s[u].plan == q;
      DeadlockCrossed(s, t, u);
    }
  }

  // ── The requests ──────────────────────────────────────────────────────────

  /** Requests by the rows they ask for. `Approved` says what an approval has to record besides the
      invoice; `costs` says of each delivery of a batch whether its goods have a cost to post. */
  datatype Request =
    | Posting
    | Numbered(series: Series, year: nat)
    | Posted(series: Series, year: nat)
    | Settlement(advances: nat, cash: Option<nat>)
    | Dispatch(year: nat, costs: seq<bool>)
    | AdvanceDelivery(year: nat, dispatched: bool, cost: bool)
    | Approval(year: nat, delivered: bool, advance: bool, collected: bool, cost: bool)
    | PrepaidReject(year: nat)

  function Postings(n: nat): seq<Row> {
    if n == 0 then [] else [Company] + Postings(n - 1)
  }

  function PostingIf(b: bool): seq<Row> {
    if b then [Company] else []
  }

  function Dispatches(year: nat, costs: seq<bool>): seq<Row> {
    if costs == [] then [] else [Counter(SO, year)] + PostingIf(costs[0]) + Dispatches(year, costs[1..])
  }

  /** The rows a request locks, in the order its statements ask for them. */
  function PlanOf(r: Request): seq<Row> {
    match r
    case Posting => [Company]
    case Numbered(k, y) => [Counter(k, y)]
    case Posted(k, y) => [Counter(k, y), Company]
    case Settlement(n, cash) =>
      Postings(n) + if cash.Some? then [Counter(RCT, cash.value), Company] else []
    case Dispatch(y, costs) => Dispatches(y, costs)
    case AdvanceDelivery(y, dispatched, cost) =>
      [Counter(RCT, y), Company] + if dispatched then [Counter(SO, y)] + PostingIf(cost) else []
    case Approval(y, delivered, advance, collected, cost) =>
      (if delivered then
         [Counter(INV, y), Company] + PostingIf(advance)
         + if collected then [Counter(RCT, y), Company] else []
       else []) + PostingIf(cost)
    case PrepaidReject(y) => [Company, Counter(CM, y), Company]
  }

  /** The counter a request takes before its first posting. */
  function Early(r: Request): Option<Row> {
    match r
    case Posted(k, y) => Some(Counter(k, y))
    case Settlement(n, Some(y)) => if n == 0 then Some(Counter(RCT, y)) else None
    case Dispatch(y, costs) => if true in costs then Some(Counter(SO, y)) else None
    case AdvanceDelivery(y, _, _) => Some(Counter(RCT, y))
    case Approval(y, true, _, _, _) => Some(Counter(INV, y))
    case _ => None
  }

  /** The counter a request takes after its first posting. */
  function Late(r: Request): Option<Row> {
    match r
    case Settlement(n, Some(y)) => if n > 0 then Some(Counter(RCT, y)) else None
    case AdvanceDelivery(y, true, _) => Some(Counter(SO, y))
    case Approval(y, true, _, true, _) => Some(Counter(RCT, y))
    case PrepaidReject(y) => Some(Counter(CM, y))
    case _ => None
  }

  /** One of the two numbers a document after it has posted, from a counter the other takes before. */
  predicate OutOfStep(a: Request, b: Request) {
    Misses(Late(a), Early(b)) || Misses(Late(b), Early(a))
  }

  predicate Misses(late: Option<Row>, early: Option<Row>) {
    late.Some? && late == early
  }

  /** The company row at place `k`, before it only the early counter, after it only the late one. */
  ghost predicate Shaped(p: seq<Row>, early: Option<Row>, late: Option<Row>, k: nat) {
    && k < |p| && p[k] == Company
    && (early.Some? <==> k > 0)
    && (forall i :: 0 <= i < k ==> p[i] != Company && early == Some(p[i]))
    && (forall i :: k < i < |p| ==> p[i] == Company || early == Some(p[i]) || late == Some(p[i]))
    && (late.Some? ==> late.value in p && late.value != Company && late != early)
  }

  ghost predicate OneRow(p: seq<Row>) {
    forall i :: 0 <= i < |p| ==> p[i] == p[0]
  }

  /** A plan takes one row only, or has the shape above. */
  ghost predicate Formed(p: seq<Row>, early: Option<Row>, late: Option<Row>) {
    || (OneRow(p) && Company !in p && early == None && late == None)
    || (p == [] && early == None && late == None)
    || exists k: nat :: Shaped(p, early, late, k)
  }

  lemma {:induction false} PostingsAre(n: nat)
    ensures |Postings(n)| == n && forall i :: 0 <= i < n ==> Postings(n)[i] == Company
  {
    if n > 0 { PostingsAre(n - 1); }
  }

  lemma {:induction false} DispatchesFormed(y: nat, costs: seq<bool>)
    ensures forall r :: r in Dispatches(y, costs) ==> r == Company || r == Counter(SO, y)
    ensures Company in Dispatches(y, costs) <==> true in costs
    ensures costs != [] ==> Dispatches(y, costs) != [] && Dispatches(y, costs)[0] == Counter(SO, y)
  {
    if costs != [] {
      DispatchesFormed(y, costs[1..]);
      assert costs == [costs[0]] + costs[1..];
      assert costs[0] ==> ([Counter(SO, y)] + PostingIf(true))[1] == Company;
    }
  }

  /** A plan is shaped around the first place of the company row. */
  lemma {:induction false} FormedFrom(p: seq<Row>, early: Option<Row>, late: Option<Row>)
    requires p != [] && (early == None <==> p[0] == Company) && (early.Some? ==> early.value == p[0])
    requires Company in p && forall r :: r in p ==> r == Company || early == Some(r) || late == Some(r)
    requires late.Some? ==> late != early && late.value != Company && late.value in p
    requires forall i, j :: 0 <= i < j < |p| && late == Some(p[i]) && p[j] == Company ==> Company in p[..i]
    ensures Formed(p, early, late)
  {
    var n :| 0 <= n < |p| && p[n] == Company;
    var k := FirstAmong(p, [Company], n);
    forall i | 0 <= i < k ensures p[i] != Company && early == Some(p[i]) {
      assert Company !in p[..i];
    }
    assert Shaped(p, early, late, k);
  }

  lemma {:induction false} SettlementFormed(n: nat, cash: Option<nat>)
    ensures var r := Settlement(n, cash); Formed(PlanOf(r), Early(r), Late(r))
  {
    var r := Settlement(n, cash);
    PostingsAre(n);
    if n > 0 {
      if cash.Some? { assert PlanOf(r)[n] == Counter(RCT, cash.value); }
      assert Shaped(PlanOf(r), Early(r), Late(r), 0);
    } else if cash.Some? {
      assert PlanOf(r) == [Counter(RCT, cash.value), Company];
      assert Shaped(PlanOf(r), Early(r), Late(r), 1);
    }
  }

  lemma {:induction false} DispatchFormed(y: nat, costs: seq<bool>)
    ensures var r := Dispatch(y, costs); Formed(PlanOf(r), Early(r), Late(r))
  {
    DispatchesFormed(y, costs);
    if true in costs {
      FormedFrom(Dispatches(y, costs), Some(Counter(SO, y)), None);
    } else {
      var p := Dispatches(y, costs);
      forall i | 0 <= i < |p| ensures p[i] == p[0] {
        assert p[i] in p;
      }
    }
  }

  lemma {:induction false} AdvanceDeliveryFormed(y: nat, dispatched: bool, cost: bool)
    ensures var r := AdvanceDelivery(y, dispatched, cost); Formed(PlanOf(r), Early(r), Late(r))
  {
    var r := AdvanceDelivery(y, dispatched, cost);
    if dispatched { assert PlanOf(r)[2] == Counter(SO, y); }
    assert Shaped(PlanOf(r), Early(r), Late(r), 1);
  }

  lemma {:induction false} ApprovalFormed(y: nat, advance: bool, collected: bool, cost: bool)
    ensures var r := Approval(y, true, advance, collected, cost); Formed(PlanOf(r), Early(r), Late(r))
  {
    var r := Approval(y, true, advance, collected, cost);
    var p, base := PlanOf(r), [Counter(INV, y), Company] + PostingIf(advance);
    if collected {
      assert p == base + [Counter(RCT, y), Company] + PostingIf(cost);
      assert p[|base|] == Counter(RCT, y);
    }
    assert Shaped(p, Early(r), Late(r), 1);
  }

  lemma {:induction false} PlanFormed(r: Request)
    ensures Formed(PlanOf(r), Early(r), Late(r))
  {
    match r
    case Posting => assert Shaped(PlanOf(r), None, None, 0);
    case Numbered(_, _) => assert OneRow(PlanOf(r));
    case Posted(k, y) => assert Shaped(PlanOf(r), Some(Counter(k, y)), None, 1);
    case Settlement(n, cash) => SettlementFormed(n, cash);
    case Dispatch(y, costs) => DispatchFormed(y, costs);
    case AdvanceDelivery(y, dispatched, cost) => AdvanceDeliveryFormed(y, dispatched, cost);
    case Approval(y, delivered, advance, collected, cost) =>
      if delivered {
        ApprovalFormed(y, advance, collected, cost);
      } else if cost {
        assert PlanOf(r) == [Company];
        assert Shaped(PlanOf(r), None, None, 0);
      }
    case PrepaidReject(y) =>
      assert PlanOf(r)[1] == Counter(CM, y);
      assert Shaped(PlanOf(r), None, Some(Counter(CM, y)), 0);
  }

  /** Which row is shared first, told from the shape. */
  lemma {:induction false} ShapedFirst(p: seq<Row>, early: Option<Row>, late: Option<Row>, k: nat, q: seq<Row>)
    requires Shaped(p, early, late, k) && Company in q
    ensures FirstShared(p, q) == if early.Some? && early.value in q then early else Some(Company)
  {
    NoneShared(p, q, k);
    var i := SharedAt(p, q);
    assert k > 0 ==> early == Some(p[0]);
  }

  lemma {:induction false} SharedBoth(p: seq<Row>, q: seq<Row>)
    requires FirstShared(p, q).Some?
    ensures FirstShared(q, p).Some?
  {
    var i := SharedAt(p, q);
    var n :| 0 <= n < |q| && q[n] == p[i];
    NoneShared(q, p, n);
  }

  lemma {:induction false} OneRowNotCrossed(p: seq<Row>, q: seq<Row>)
    requires OneRow(p)
    ensures !Crossed(p, q) && !Crossed(q, p)
  {
    if FirstShared(q, p).Some? {
      SharedBoth(q, p);
    }
    if FirstShared(p, q).Some? {
      SharedBoth(p, q);
      var i := SharedAt(p, q);
      var j := SharedAt(q, p);
    }
  }

  lemma {:induction false} InShaped(p: seq<Row>, early: Option<Row>, late: Option<Row>, k: nat, r: Row)
    requires Shaped(p, early, late, k)
    ensures r in p <==> r == Company || early == Some(r) || late == Some(r)
  {
    assert k > 0 ==> early == Some(p[0]);
  }

  lemma {:induction false} FormedCrossed(p: seq<Row>, early: Option<Row>, late: Option<Row>,
      q: seq<Row>, early': Option<Row>, late': Option<Row>)
    requires Formed(p, early, late) && Formed(q, early', late')
    ensures Crossed(p, q) <==> Misses(late, early') || Misses(late', early)
  {
    if k: nat, m: nat :| Shaped(p, early, late, k) && Shaped(q, early', late', m) {
      ShapedFirst(p, early, late, k, q);
      ShapedFirst(q, early', late', m, p);
      if early.Some? { InShaped(q, early', late', m, early.value); }
      if early'.Some? { InShaped(p, early, late, k, early'.value); }
    } else if OneRow(p) && early == None && late == None {
      OneRowNotCrossed(p, q);
    } else {
      OneRowNotCrossed(q, p);
    }
  }

  /** Two requests can wait for each other exactly when one takes, after it has posted, a number of a
      series the other takes before it posts. */
  lemma {:induction false} RequestsDeadlockExactlyWhen(a: Request, b: Request)
    ensures CanDeadlock(PlanOf(a), PlanOf(b)) <==> OutOfStep(a, b)
  {
    DeadlockExactlyWhen(PlanOf(a), PlanOf(b));
    PlanFormed(a);
    PlanFormed(b);
    FormedCrossed(PlanOf(a), Early(a), Late(a), PlanOf(b), Early(b), Late(b));
  }

  // ── Any number of requests ────────────────────────────────────────────────

  /** Everyone waits, and everyone runs one of the requests; a request may run many times at once. */
  ghost predicate StuckOn(s: State, rs: set<Request>) {
    && s != map[]
    && (forall t :: t in s ==> Waits(s, t))
    && (forall t :: t in s ==> exists r :: r in rs && s[t].plan == PlanOf(r))
  }

  /** A waiting transaction has no row it asks for again, so it runs a plan with a posting in it. */
  lemma {:induction false} WaitingShaped(s: State, t: Tx, r: Request) returns (k: nat)
    requires Exclusive(s) && t in s && Waits(s, t) && s[t].done > 0 && s[t].plan == PlanOf(r)
    ensures Shaped(s[t].plan, Early(r), Late(r), k)
    ensures Has(s[t], Company) <==> k < s[t].done
  {
    var w := s[t];
    var u :| WaitsFor(s, t, u);
    assert Apart(s[t], s[u]);
    assert w.plan[..w.done][0] == w.plan[0] && Has(w, w.plan[0]);
    assert w.plan[w.done] != w.plan[0];
    PlanFormed(r);
    k :| Shaped(w.plan, Early(r), Late(r), k);
    assert k < w.done ==> w.plan[..w.done][k] == Company;
  }

  /** Somebody waits while the company row is held: its holder has posted and asks for a late counter. */
  lemma {:induction false} HolderIsLate(s: State, h: Tx, a: Request)
    returns (w: Tx)
    requires Exclusive(s) && h in s && Waits(s, h) && Has(s[h], Company) && s[h].plan == PlanOf(a)
    ensures w in s && w != h && Late(a).Some? && Has(s[w], Late(a).value) && Late(a).value != Company
  {
    w :| WaitsFor(s, h, w);
    var k := WaitingShaped(s, h, a);
    var next := s[h].plan[s[h].done];
    assert Apart(s[h], s[w]);
    assert next != Company;
    assert k > 0 ==> s[h].plan[..s[h].done][0] == s[h].plan[0];
  }

  /** Before it has posted a waiting transaction holds its early counter and asks for the company row. */
  lemma {:induction false} NotYetPosted(s: State, w: Tx, b: Request, r: Row) returns (v: Tx)
    requires Exclusive(s) && w in s && Waits(s, w) && Has(s[w], r) && !Has(s[w], Company)
    requires s[w].plan == PlanOf(b)
    ensures Early(b) == Some(r)
    ensures v in s && Has(s[v], Company)
  {
    var k := WaitingShaped(s, w, b);
    v :| WaitsFor(s, w, v);
    var plan, done := s[w].plan, s[w].done;
    var i :| 0 <= i < done && plan[i] == r;
    assert Apart(s[w], s[v]);
    assert plan[done] != r;
  }

  /** Requests running together, each any number of times, can all come to wait exactly when two of
      them are out of step: no longer circle of waiting arises without a circle of two. */
  lemma {:induction false} StuckExactlyWhen(rs: set<Request>)
    ensures (exists s: State :: Reachable(s) && StuckOn(s, rs))
       <==> (exists a, b :: a in rs && b in rs && OutOfStep(a, b))
  {
    if a, b :| a in rs && b in rs && OutOfStep(a, b) {
      OutOfStepSticks(a, b, rs);
    }
    if s: State :| Reachable(s) && StuckOn(s, rs) {
      ReachableExclusive(s);
      var a, b := StuckOutOfStep(s, rs);
    }
  }

  lemma {:induction false} OutOfStepSticks(a: Request, b: Request, rs: set<Request>)
    requires a in rs && b in rs && OutOfStep(a, b)
    ensures exists s: State :: Reachable(s) && StuckOn(s, rs)
  {
    PlanFormed(a);
    PlanFormed(b);
    FormedCrossed(PlanOf(a), Early(a), Late(a), PlanOf(b), Early(b), Late(b));
    var s := CrossedDeadlock(PlanOf(a), PlanOf(b));
    assert Waits(s, 0) && Waits(s, 1);
  }

  lemma {:induction false} StuckOutOfStep(s: State, rs: set<Request>) returns (a: Request, b: Request)
    requires Exclusive(s) && StuckOn(s, rs)
    ensures a in rs && b in rs && OutOfStep(a, b)
  {
    var h := CompanyHolder(s, rs);
    a :| a in rs && s[h].plan == PlanOf(a);
    var w := HolderIsLate(s, h, a);
    b :| b in rs && s[w].plan == PlanOf(b);
    assert Apart(s[h], s[w]);
    var v := NotYetPosted(s, w, b, Late(a).value);
  }

  /** When everyone waits, somebody holds the company row. */
  lemma {:induction false} CompanyHolder(s: State, rs: set<Request>) returns (h: Tx)
    requires Exclusive(s) && StuckOn(s, rs)
    ensures h in s && Has(s[h], Company)
  {
    var t :| t in s;
    assert Waits(s, t);
    var u: Tx :| WaitsFor(s, t, u);
    h := u;
    if !Has(s[u], Company) {
      var b :| b in rs && s[u].plan == PlanOf(b);
      h := NotYetPosted(s, u, b, s[t].plan[s[t].done]);
    }
  }

  /** A settlement that spends advances and takes money, and a plain receipt of the same year: once the
      one has posted and the other has its number, each holds what the other asks for. */
  lemma {:induction false} SettlementMeetsReceipt(year: nat, advances: nat)
    requires advances > 0
    ensures var settlement, receipt := PlanOf(Settlement(advances, Some(year))), PlanOf(Posted(RCT, year));
            var s := map[0 := Work(settlement, advances), 1 := Work(receipt, 1)];
            && Reachable(s) && WaitsFor(s, 0, 1) && WaitsFor(s, 1, 0)
            && settlement[advances] == Counter(RCT, year) && receipt[1] == Company
  {
    var settlement, receipt := PlanOf(Settlement(advances, Some(year))), PlanOf(Posted(RCT, year));
    PostingsAre(advances);
    assert receipt[..1] == [Counter(RCT, year)];
    assert settlement[..advances] == Postings(advances);
    assert Postings(advances)[0] == Company;
    var s := BuildDeadlock(settlement, receipt, advances, 1, 1);
  }
}
