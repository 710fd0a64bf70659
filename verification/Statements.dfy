/** Opening and closing balances of a party's statement.
    Source: src/common/utils/statement.util.ts. Amounts are integers in units of 0.0001. */
module Statements {
  import opened Options
  import opened Text
  import opened Calendar

  /** A dated change of what the party owes: positive when it owes more. */
  datatype Move = Move(date: string, amount: int)

  /** `String(date).slice(0, 10)`. */
  function Day(date: string): string {
    if |date| <= 10 then date else date[..10]
  }

  predicate InPeriod(date: string, start: string, end: string) {
    !Less(Day(date), start) && AtMost(Day(date), end)
  }

  // ── Sums over moves ────────────────────────────────────────────────────────

  type Weight = Move -> int

  function Total(moves: seq<Move>, n: nat, w: Weight): int
    requires n <= |moves|
  {
    if n == 0 then 0 else Total(moves, n - 1, w) + w(moves[n - 1])
  }

  function BeforeWeight(start: string): Weight {
    (m: Move) => if Less(Day(m.date), start) then m.amount else 0
  }

  function PeriodWeight(start: string, end: string): Weight {
    (m: Move) => if InPeriod(m.date, start, end) then m.amount else 0
  }

  function UpToWeight(end: string): Weight {
    (m: Move) => if AtMost(Day(m.date), end) then m.amount else 0
  }

  /** Everything dated before the period. */
  function Opening(moves: seq<Move>, start: string): int {
    Total(moves, |moves|, BeforeWeight(start))
  }

  /** Everything dated inside it. */
  function Within(moves: seq<Move>, start: string, end: string): int {
    Total(moves, |moves|, PeriodWeight(start, end))
  }

  function Closing(moves: seq<Move>, start: string, end: string): int {
    Opening(moves, start) + Within(moves, start, end)
  }

  method StatementBalances(moves: seq<Move>, start: string, end: string) returns (opening: int, closing: int)
    ensures opening == Opening(moves, start)
    ensures closing == Closing(moves, start, end)
  {
    opening := 0;
    var within := 0;
    for i := 0 to |moves|
      invariant opening == Total(moves, i, BeforeWeight(start))
      invariant within == Total(moves, i, PeriodWeight(start, end))
    {
      var m := moves[i];
      var day := Day(m.date);
      if Less(day, start) {
        opening := opening + m.amount;
      } else if AtMost(day, end) {
        within := within + m.amount;
      }
    }
    closing := opening + within;
  }

  lemma {:induction false} TotalSame(moves: seq<Move>, n: nat, v: Weight, w: Weight)
    requires n <= |moves| && forall i :: 0 <= i < n ==> v(moves[i]) == w(moves[i])
    ensures Total(moves, n, v) == Total(moves, n, w)
  {
    if n > 0 {
      TotalSame(moves, n - 1, v, w);
    }
  }

  lemma {:induction false} TotalSum(moves: seq<Move>, n: nat, u: Weight, v: Weight, w: Weight)
    requires n <= |moves| && forall i :: 0 <= i < n ==> u(moves[i]) + v(moves[i]) == w(moves[i])
    ensures Total(moves, n, u) + Total(moves, n, v) == Total(moves, n, w)
  {
    if n > 0 {
      TotalSum(moves, n - 1, u, v, w);
    }
  }

  lemma {:induction false} TotalJoin(a: seq<Move>, b: seq<Move>, n: nat, w: Weight)
    requires n <= |b|
    ensures Total(a + b, |a| + n, w) == Total(a, |a|, w) + Total(b, n, w)
    decreases n
  {
    if n > 0 {
      TotalJoin(a, b, n - 1, w);
    } else {
      TotalPrefix(a, b, |a|, w);
    }
  }

  lemma {:induction false} TotalPrefix(a: seq<Move>, b: seq<Move>, n: nat, w: Weight)
    requires n <= |a|
    ensures Total(a + b, n, w) == Total(a, n, w)
  {
    if n > 0 {
      TotalPrefix(a, b, n - 1, w);
    }
  }

  /** With no events both balances are zero; each event dated before the period enters the opening and the
      closing balance, each dated inside it the closing balance alone, and a later one neither. */
  lemma {:induction false} EventEnters(moves: seq<Move>, m: Move, start: string, end: string)
    ensures Opening([], start) == 0 && Closing([], start, end) == 0
    ensures var day := if |m.date| <= 10 then m.date else m.date[..10];
            && Opening(moves + [m], start) == Opening(moves, start) + (if Less(day, start) then m.amount else 0)
            && Closing(moves + [m], start, end)
               == Closing(moves, start, end) + if Less(day, start) || !Less(end, day) then m.amount else 0
  {
    TotalPrefix(moves, [m], |moves|, BeforeWeight(start));
    TotalPrefix(moves, [m], |moves|, PeriodWeight(start, end));
    LessTotal(Day(m.date), end);
    if Less(Day(m.date), end) {
      LessAsymmetric(Day(m.date), end);
    }
  }

  function Without(moves: seq<Move>, i: nat): seq<Move>
    requires i < |moves|
  {
    moves[..i] + moves[i + 1..]
  }

  lemma {:induction false} TotalWithout(moves: seq<Move>, i: nat, w: Weight)
    requires i < |moves|
    ensures Total(moves, |moves|, w) == Total(Without(moves, i), |moves| - 1, w) + w(moves[i])
  {
    var left, right := moves[..i], moves[i + 1..];
    TotalJoin(left, right, |right|, w);
    TotalJoin(left, moves[i..], |right| + 1, w);
    TotalJoin([moves[i]], right, |right|, w);
    assert moves == left + moves[i..] && moves[i..] == [moves[i]] + right;
    assert Total([moves[i]], 1, w) == w(moves[i]);
  }

  lemma {:induction false} MultisetWithout(moves: seq<Move>, i: nat)
    requires i < |moves|
    ensures multiset(Without(moves, i)) == multiset(moves) - multiset{moves[i]}
  {
    assert moves == moves[..i] + [moves[i]] + moves[i + 1..];
  }

  /** A sum does not depend on the order. */
  lemma {:induction false} TotalAnyOrder(a: seq<Move>, b: seq<Move>, w: Weight)
    requires multiset(a) == multiset(b)
    ensures |a| == |b| && Total(a, |a|, w) == Total(b, |b|, w)
    decreases |a|
  {
    SameSize(a, b);
    if a != [] {
      var n := |a| - 1;
      assert a[n] in multiset(b);
      var i :| 0 <= i < |b| && b[i] == a[n];
      MultisetWithout(a, n);
      MultisetWithout(b, i);
      TotalAnyOrder(Without(a, n), Without(b, i), w);
      TotalWithout(a, n, w);
      TotalWithout(b, i, w);
    }
  }

  lemma {:induction false} SameSize(a: seq<Move>, b: seq<Move>)
    requires multiset(a) == multiset(b)
    ensures |a| == |b|
  {
    assert |multiset(a)| == |a| && |multiset(b)| == |b|;
  }

  /** The same events in any order give the same statement. */
  lemma {:induction false} StatementAnyOrder(a: seq<Move>, b: seq<Move>, start: string, end: string)
    requires multiset(a) == multiset(b)
    ensures Opening(a, start) == Opening(b, start) && Closing(a, start, end) == Closing(b, start, end)
  {
    TotalAnyOrder(a, b, BeforeWeight(start));
    TotalAnyOrder(a, b, PeriodWeight(start, end));
  }

  // ── Consecutive periods ────────────────────────────────────────────────────

  lemma {:induction false} AtMostLess(a: string, b: string, c: string)
    requires Less(a, b) && AtMost(b, c)
    ensures AtMost(a, c)
  {
    if b != c {
      LessTransitive(a, b, c);
    }
  }

  /** Whatever day a period starts, its closing balance is everything up to its end. */
  lemma {:induction false} ClosingIsUpTo(moves: seq<Move>, start: string, end: string)
    requires AtMost(start, end)
    ensures Closing(moves, start, end) == Total(moves, |moves|, UpToWeight(end))
  {
    forall i | 0 <= i < |moves|
      ensures BeforeWeight(start)(moves[i]) + PeriodWeight(start, end)(moves[i]) == UpToWeight(end)(moves[i])
    {
      if Less(Day(moves[i].date), start) {
        AtMostLess(Day(moves[i].date), start, end);
      }
    }
    TotalSum(moves, |moves|, BeforeWeight(start), PeriodWeight(start, end), UpToWeight(end));
  }

  /** The days up to `end` are the days before `next`. */
  ghost predicate SplitAt(moves: seq<Move>, end: string, next: string) {
    forall i :: 0 <= i < |moves| ==> (Less(Day(moves[i].date), next) <==> AtMost(Day(moves[i].date), end))
  }

  lemma {:induction false} CarriesOver(moves: seq<Move>, start: string, end: string, next: string)
    requires AtMost(start, end) && SplitAt(moves, end, next)
    ensures Closing(moves, start, end) == Opening(moves, next)
  {
    ClosingIsUpTo(moves, start, end);
    TotalSame(moves, |moves|, BeforeWeight(next), UpToWeight(end));
  }

  /** A string that names a calendar date of a four-digit year. */
  predicate Names(s: string, d: Date) {
    Valid(d) && 0 <= d.year <= 9999 && s == Iso(d)
  }

  ghost predicate IsDate(s: string) {
    exists d :: Names(s, d)
  }

  lemma {:induction false} NamesInOrder(s: string, d: Date, t: string, e: Date)
    requires Names(s, d) && Names(t, e)
    ensures Less(s, t) <==> DayOf(d) < DayOf(e)
    ensures s == t <==> DayOf(d) == DayOf(e)
  {
    StringOrderIsDateOrder(d, e);
    StringOrderIsDateOrder(e, d);
    DayOrder(d, e);
    DayOrder(e, d);
  }

  /** From the year 100 on, the day after is the next day. */
  predicate Follows(end: string, next: string) {
    AddDaysIso(end, 1) == Some(next)
  }

  lemma {:induction false} FollowsByOne(end: string, e: Date, next: string, n: Date)
    requires Names(end, e) && Names(next, n) && e.year >= 100 && Follows(end, next)
    ensures DayOf(n) == DayOf(e) + 1
  {
    ReachedDay(e, n, 1, DayOf(e), DayOf(e) + 1);
  }

  lemma {:induction false} DaySplits(day: string, d: Date, end: string, e: Date, next: string, n: Date)
    requires Names(day, d) && Names(end, e) && Names(next, n) && DayOf(n) == DayOf(e) + 1
    ensures Less(day, next) <==> AtMost(day, end)
  {
    NamesInOrder(day, d, next, n);
    NamesInOrder(day, d, end, e);
  }

  ghost predicate Dated(moves: seq<Move>) {
    forall i :: 0 <= i < |moves| ==> IsDate(Day(moves[i].date))
  }

  /** A date from the year 100 on, where `addDaysIso` is calendar arithmetic. */
  ghost predicate IsLateDate(s: string) {
    exists d :: Names(s, d) && d.year >= 100
  }

  lemma {:induction false} FollowsSplits(moves: seq<Move>, end: string, next: string)
    requires Dated(moves) && IsLateDate(end) && IsDate(next) && Follows(end, next)
    ensures SplitAt(moves, end, next)
  {
    var e :| Names(end, e) && e.year >= 100;
    var n :| Names(next, n);
    FollowsByOne(end, e, next, n);
    forall i | 0 <= i < |moves| ensures Less(Day(moves[i].date), next) <==> AtMost(Day(moves[i].date), end) {
      OneSplits(Day(moves[i].date), end, e, next, n);
    }
  }

  lemma {:induction false} OneSplits(day: string, end: string, e: Date, next: string, n: Date)
    requires IsDate(day) && Names(end, e) && Names(next, n) && DayOf(n) == DayOf(e) + 1
    ensures Less(day, next) <==> AtMost(day, end)
  {
    var d :| Names(day, d);
    DaySplits(day, d, end, e, next, n);
  }

  /** The closing balance carries over: it is the opening balance of the period that starts the day
      after, as `addDaysIso` names that day. */
  lemma {:induction false} ClosingCarriesOver(moves: seq<Move>, start: string, end: string, next: string)
    requires Dated(moves) && IsLateDate(end) && IsDate(next) && AtMost(start, end)
    requires AddDaysIso(end, 1) == Some(next)
    ensures Closing(moves, start, end) == Opening(moves, next)
  {
    FollowsSplits(moves, end, next);
    CarriesOver(moves, start, end, next);
  }

  datatype Period = Period(start: string, end: string)

  ghost predicate Proper(p: Period) {
    IsLateDate(p.start) && IsLateDate(p.end) && AtMost(p.start, p.end)
  }

  predicate FollowsOn(periods: seq<Period>, i: nat)
    requires 0 < i < |periods|
  {
    Follows(periods[i - 1].end, periods[i].start)
  }

  /** Periods that follow one another without a gap. */
  ghost predicate Consecutive(periods: seq<Period>) {
    && (forall i :: 0 <= i < |periods| ==> Proper(periods[i]))
    && forall i :: 0 < i < |periods| ==> FollowsOn(periods, i)
  }

  /** What happens inside the first `n` periods, added up. */
  function WithinAll(moves: seq<Move>, periods: seq<Period>, n: nat): int
    requires n <= |periods|
  {
    if n == 0 then 0
    else WithinAll(moves, periods, n - 1) + Within(moves, periods[n - 1].start, periods[n - 1].end)
  }

  /** The same, said of the moves: the periods are in order and the moves split between them. */
  ghost predicate Chained(moves: seq<Move>, periods: seq<Period>, n: nat)
    requires n <= |periods|
  {
    n == 0
    || (AtMost(periods[n - 1].start, periods[n - 1].end) && Chained(moves, periods, n - 1)
        && (n > 1 ==> SplitAt(moves, periods[n - 2].end, periods[n - 1].start)
                      && Less(periods[n - 2].end, periods[n - 1].start)))
  }

  lemma {:induction false} FollowsLess(end: string, next: string)
    requires IsLateDate(end) && IsDate(next) && Follows(end, next)
    ensures Less(end, next)
  {
    var e :| Names(end, e) && e.year >= 100;
    var n :| Names(next, n);
    FollowsByOne(end, e, next, n);
    NamesInOrder(end, e, next, n);
  }

  lemma {:induction false} PairSplits(moves: seq<Move>, periods: seq<Period>, i: nat)
    requires 0 < i < |periods| && Dated(moves)
    requires Proper(periods[i - 1]) && Proper(periods[i]) && FollowsOn(periods, i)
    ensures SplitAt(moves, periods[i - 1].end, periods[i].start) && Less(periods[i - 1].end, periods[i].start)
  {
    var end, next := periods[i - 1].end, periods[i].start;
    LateIsDate(next);
    FollowsSplits(moves, end, next);
    FollowsLess(end, next);
  }

  lemma {:induction false} LateIsDate(s: string)
    requires IsLateDate(s)
    ensures IsDate(s)
  {
    var d :| Names(s, d) && d.year >= 100;
  }

  lemma {:induction false} ConsecutiveIsChained(moves: seq<Move>, periods: seq<Period>, n: nat)
    requires n <= |periods| && Consecutive(periods) && Dated(moves)
    ensures Chained(moves, periods, n)
  {
    if n > 0 {
      ConsecutiveIsChained(moves, periods, n - 1);
      assert Proper(periods[n - 1]);
      if n > 1 {
        PairSplits(moves, periods, n - 1);
      }
    }
  }

  lemma {:induction false} ChainReachesEnd(moves: seq<Move>, periods: seq<Period>)
    requires periods != [] && Chained(moves, periods, |periods|)
    ensures var first, last := periods[0], periods[|periods| - 1];
            && WithinAll(moves, periods, |periods|) == Within(moves, first.start, last.end)
            && Closing(moves, last.start, last.end) == Closing(moves, first.start, last.end)
  {
    var first, last := periods[0], periods[|periods| - 1];
    ChainReaches(moves, periods, |periods|);
    OnlyTheEndCounts(moves, first.start, last.start, last.end);
  }

  lemma {:induction false} ChainReaches(moves: seq<Move>, periods: seq<Period>, n: nat)
    requires 1 <= n <= |periods| && Chained(moves, periods, n)
    ensures Opening(moves, periods[0].start) + WithinAll(moves, periods, n)
            == Closing(moves, periods[n - 1].start, periods[n - 1].end)
    ensures AtMost(periods[0].start, periods[n - 1].end)
  {
    if n == 1 {
      assert WithinAll(moves, periods, 0) == 0;
    } else {
      ChainReaches(moves, periods, n - 1);
      var first, p, q := periods[0], periods[n - 2], periods[n - 1];
      CarriesOver(moves, p.start, p.end, q.start);
      AtMostLess(p.end, q.start, q.end);
      if first.start != p.end {
        AtMostLess(first.start, p.end, q.end);
      }
    }
  }

  /** A chain of periods comes to the same as the one long period: same movement, same closing. */
  lemma {:induction false} ChainIsOnePeriod(moves: seq<Move>, periods: seq<Period>)
    requires periods != [] && Consecutive(periods) && Dated(moves)
    ensures var first, last := periods[0], periods[|periods| - 1];
            && WithinAll(moves, periods, |periods|) == Within(moves, first.start, last.end)
            && Closing(moves, last.start, last.end) == Closing(moves, first.start, last.end)
  {
    ConsecutiveIsChained(moves, periods, |periods|);
    ChainReachesEnd(moves, periods);
  }

  lemma {:induction false} OnlyTheEndCounts(moves: seq<Move>, start: string, later: string, end: string)
    requires AtMost(start, end) && AtMost(later, end)
    ensures Closing(moves, later, end) == Closing(moves, start, end)
  {
    ClosingIsUpTo(moves, start, end);
    ClosingIsUpTo(moves, later, end);
  }
}
