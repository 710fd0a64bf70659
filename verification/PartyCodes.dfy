/** Customer and vendor IDs of one company: the series, the counter and the migration that
    numbers the parties it finds. Sources: src/common/utils/party-code.util.ts,
    src/database/migrations/1790000000000-PartyCodesLedgerHistory.ts. */
module PartyCodes {
  import opened Options
  import opened Text

  datatype Kind = Customer | Vendor

  function Prefix(kind: Kind): char {
    if kind.Customer? then 'C' else 'V'
  }

  /** Customer 7 is `C-0007`: shorter numbers are padded to four digits, longer ones printed whole. */
  function FormatPartyCode(kind: Kind, n: nat): string {
    [Prefix(kind), '-'] + PadStart(Decimal(n), 4)
  }

  const NINE_DIGITS: nat := 9

  /** The generated shape, up to nine digits: `^C-[0-9]{1,9}$`. */
  predicate InSeries(kind: Kind, code: string) {
    3 <= |code| <= 2 + NINE_DIGITS && code[0] == Prefix(kind) && code[1] == '-' && AllDigits(code[2..])
  }

  /** The number a code ends in. */
  function Tail(code: string): nat {
    ReadNat(TrailingDigits(code))
  }

  /** A party's ID, if it has one. */
  type Code = Option<string>

  /** The highest number among the first `n` codes that have the series' shape, if any has. */
  function Highest(kind: Kind, codes: seq<Code>, n: nat): Option<nat>
    requires n <= |codes|
  {
    if n == 0 then None
    else
      var rest := Highest(kind, codes, n - 1);
      match codes[n - 1]
      case None => rest
      case Some(code) =>
        if !InSeries(kind, code) then rest
        else if rest.None? || rest.value < Tail(code) then Some(Tail(code)) else rest
  }

  predicate Taken(codes: seq<Code>, code: string) {
    Some(code) in codes
  }

  // ── Codes as numbers ───────────────────────────────────────────────────────

  lemma {:induction false} TailReadsBack(kind: Kind, n: nat)
    ensures Tail(FormatPartyCode(kind, n)) == n
  {
    TrailingDigitsAfter([Prefix(kind), '-'], PadStart(Decimal(n), 4));
    ReadPadded(n, 4);
  }

  /** No two numbers, and no two kinds, share a code. */
  lemma {:induction false} FormatInjective(kind: Kind, m: nat, other: Kind, n: nat)
    ensures FormatPartyCode(kind, m) == FormatPartyCode(other, n) <==> kind == other && m == n
  {
    TailReadsBack(kind, m);
    TailReadsBack(other, n);
    assert FormatPartyCode(kind, m)[0] == Prefix(kind) && FormatPartyCode(other, n)[0] == Prefix(other);
  }

  /** A generated code has the shape the counter is seeded from exactly up to nine digits. */
  lemma {:induction false} FormatInSeries(kind: Kind, n: nat)
    ensures InSeries(kind, FormatPartyCode(kind, n)) <==> n < PowerOfTen(NINE_DIGITS)
  {
    var code := FormatPartyCode(kind, n);
    assert code[2..] == PadStart(Decimal(n), 4);
    if n < PowerOfTen(NINE_DIGITS) {
      DecimalLength(n, NINE_DIGITS);
    } else {
      LongDecimal(n, NINE_DIGITS);
    }
  }

  lemma {:induction false} HighestBounds(kind: Kind, codes: seq<Code>, n: nat, i: nat)
    requires i < n <= |codes| && codes[i].Some? && InSeries(kind, codes[i].value)
    ensures Highest(kind, codes, n).Some? && Tail(codes[i].value) <= Highest(kind, codes, n).value
  {
    if i < n - 1 {
      HighestBounds(kind, codes, n - 1, i);
    }
  }

  /** Past the highest number issued every code is free, until ten digits. */
  lemma {:induction false} AboveHighestIsFree(kind: Kind, codes: seq<Code>, n: nat)
    requires var h := Highest(kind, codes, |codes|); h.None? || h.value < n
    ensures Taken(codes, FormatPartyCode(kind, n)) ==> n >= PowerOfTen(NINE_DIGITS)
  {
    var code := FormatPartyCode(kind, n);
    if Taken(codes, code) && n < PowerOfTen(NINE_DIGITS) {
      var i :| 0 <= i < |codes| && codes[i] == Some(code);
      FormatInSeries(kind, n);
      TailReadsBack(kind, n);
      HighestBounds(kind, codes, |codes|, i);
      assert false;
    }
  }

  /** A code of the series among those held, and its number. */
  ghost predicate HeldInSeries(kind: Kind, codes: seq<Code>, n: nat) {
    exists i :: 0 <= i < |codes| && codes[i].Some? && InSeries(kind, codes[i].value) && Tail(codes[i].value) == n
  }

  lemma {:induction false} HighestIsHeld(kind: Kind, codes: seq<Code>, n: nat)
    requires n <= |codes| && Highest(kind, codes, n).Some?
    ensures HeldInSeries(kind, codes, Highest(kind, codes, n).value)
  {
    var rest := Highest(kind, codes, n - 1);
    if Highest(kind, codes, n) == rest {
      HighestIsHeld(kind, codes, n - 1);
    }
  }

  /** The highest number is on a held code of the series and no such code is above it; there is none
      exactly when no code of the series is held. */
  lemma {:induction false} HighestIs(kind: Kind, codes: seq<Code>, h: nat)
    ensures Highest(kind, codes, |codes|) == Some(h)
            <==> HeldInSeries(kind, codes, h) && forall n: nat :: HeldInSeries(kind, codes, n) ==> n <= h
    ensures Highest(kind, codes, |codes|) == None <==> forall n: nat :: !HeldInSeries(kind, codes, n)
  {
    forall n: nat | HeldInSeries(kind, codes, n)
      ensures Highest(kind, codes, |codes|).Some? && n <= Highest(kind, codes, |codes|).value
    {
      var i :| 0 <= i < |codes| && codes[i].Some? && InSeries(kind, codes[i].value) && Tail(codes[i].value) == n;
      HighestBounds(kind, codes, |codes|, i);
    }
    if Highest(kind, codes, |codes|).Some? {
      HighestIsHeld(kind, codes, |codes|);
    }
  }

  /** A code is its letter, a dash and at least four digits, no more than the number needs beyond that. */
  lemma {:induction false} FormatShape(kind: Kind, n: nat)
    ensures var code := FormatPartyCode(kind, n);
            && code[..2] == (if kind == Customer then "C-" else "V-") && AllDigits(code[2..])
            && |code| == 2 + if n < 10000 then 4 else |Decimal(n)|
  {
    assert PowerOfTen(4) == 10000 by { assert PowerOfTen(2) == 100; }
    if n < 10000 { DecimalLength(n, 4); } else { LongDecimal(n, 4); }
  }

  // ── Issuing the next code ──────────────────────────────────────────────────

  const ATTEMPTS: nat := 10000

  /** The number the series goes on from: the counter, else the highest code in use, else 0. */
  function Base(kind: Kind, counter: Option<nat>, codes: seq<Code>): nat {
    match counter
    case Some(last) => last
    case None =>
      match Highest(kind, codes, |codes|)
      case Some(h) => h
      case None => 0
  }

  /** The series goes on from its counter; without one from the highest code held, and with no code of
      the series from nothing. */
  lemma {:induction false} SeriesGoesOn(kind: Kind, counter: Option<nat>, codes: seq<Code>)
    ensures var base := Base(kind, counter, codes);
            && (counter.Some? ==> counter == Some(base))
            && (counter.None? ==> forall n: nat :: HeldInSeries(kind, codes, n) ==> n <= base)
            && (counter.None? && base != 0 ==> HeldInSeries(kind, codes, base))
  {
    var h := Highest(kind, codes, |codes|);
    HighestIs(kind, codes, if h.Some? then h.value else 0);
  }

  predicate TakenAt(kind: Kind, codes: seq<Code>, m: nat) {
    Taken(codes, FormatPartyCode(kind, m))
  }

  /** Every number from `lo` up to, not including, `hi` is taken. */
  ghost predicate AllTaken(kind: Kind, codes: seq<Code>, lo: nat, hi: nat)
    decreases hi
  {
    lo >= hi || (TakenAt(kind, codes, hi - 1) && AllTaken(kind, codes, lo, hi - 1))
  }

  lemma {:induction false} TakenWithin(kind: Kind, codes: seq<Code>, lo: nat, hi: nat, m: nat)
    requires AllTaken(kind, codes, lo, hi) && lo <= m < hi
    ensures TakenAt(kind, codes, m) && AllTaken(kind, codes, m, hi)
    ensures AllTaken(kind, codes, m + 1, hi)
    decreases hi
  {
    if m < hi - 1 {
      TakenWithin(kind, codes, lo, hi - 1, m);
    }
  }

  /** The first free number from `n` on, or the limit. */
  function FirstFree(kind: Kind, codes: seq<Code>, n: nat, limit: nat): (f: nat)
    requires n <= limit
    ensures n <= f <= limit
    ensures f < limit ==> !TakenAt(kind, codes, f)
    decreases limit - n
  {
    if n == limit || !TakenAt(kind, codes, n) then n else FirstFree(kind, codes, n + 1, limit)
  }

  /** Every number before the first free one is taken. */
  lemma {:induction false} TakenBeforeFree(kind: Kind, codes: seq<Code>, n: nat, limit: nat, m: nat)
    requires n <= limit && n <= m < FirstFree(kind, codes, n, limit)
    ensures TakenAt(kind, codes, m)
    decreases limit - n
  {
    if n < m {
      TakenBeforeFree(kind, codes, n + 1, limit, m);
    }
  }

  /** Only one number is free with none before it. */
  lemma {:induction false} FirstFreeIs(kind: Kind, codes: seq<Code>, n: nat, limit: nat, f: nat)
    requires n <= f <= limit && AllTaken(kind, codes, n, f)
    requires f < limit ==> !TakenAt(kind, codes, f)
    ensures FirstFree(kind, codes, n, limit) == f
    decreases limit - n
  {
    if n < f {
      TakenWithin(kind, codes, n, f, n);
      FirstFreeIs(kind, codes, n + 1, limit, f);
    }
  }

  lemma {:induction false} Pigeonhole(f: nat -> string, lo: nat, hi: nat, held: set<string>)
    requires lo <= hi
    requires forall m: nat, n: nat :: lo <= m < n < hi ==> f(m) != f(n)
    requires forall m: nat :: lo <= m < hi ==> f(m) in held
    ensures |held| >= hi - lo
    decreases hi - lo
  {
    if lo < hi {
      Pigeonhole(f, lo, hi - 1, held - {f(hi - 1)});
    }
  }

  function Held(codes: seq<Code>, n: nat): (s: set<string>)
    requires n <= |codes|
    ensures |s| <= n
    ensures forall c :: Some(c) in codes[..n] ==> c in s
  {
    if n == 0 then {}
    else
      assert codes[..n] == codes[..n - 1] + [codes[n - 1]];
      match codes[n - 1]
      case None => Held(codes, n - 1)
      case Some(c) => Held(codes, n - 1) + {c}
  }

  /** To have every code of a range taken a company must hold as many parties. */
  lemma {:induction false} TakenNeedsParties(kind: Kind, codes: seq<Code>, lo: nat, hi: nat)
    requires lo <= hi && FirstFree(kind, codes, lo, hi) == hi
    ensures |codes| >= hi - lo
  {
    var held, f := Held(codes, |codes|), (m: nat) => FormatPartyCode(kind, m);
    assert codes[..|codes|] == codes;
    forall m: nat, n: nat | lo <= m < n < hi ensures f(m) != f(n) {
      FormatInjective(kind, m, kind, n);
    }
    forall m: nat | lo <= m < hi ensures f(m) in held {
      TakenBeforeFree(kind, codes, lo, hi, m);
    }
    Pigeonhole(f, lo, hi, held);
  }

  datatype Refusal = Exhausted

  /** The first free number among the ten thousand after `base`. */
  function NextAfter(kind: Kind, base: nat, codes: seq<Code>): (r: Result<nat, Refusal>)
    ensures r.Ok? ==> base < r.value && !TakenAt(kind, codes, r.value)
  {
    var f := FirstFree(kind, codes, base + 1, base + 1 + ATTEMPTS);
    if f < base + 1 + ATTEMPTS then Ok(f) else Err(Exhausted)
  }

  lemma {:induction false} NextAfterIs(kind: Kind, base: nat, codes: seq<Code>, f: nat)
    requires base < f <= base + 1 + ATTEMPTS && AllTaken(kind, codes, base + 1, f)
    requires f < base + 1 + ATTEMPTS ==> !TakenAt(kind, codes, f)
    ensures NextAfter(kind, base, codes) == if f < base + 1 + ATTEMPTS then Ok(f) else Err(Exhausted)
  {
    FirstFreeIs(kind, codes, base + 1, base + 1 + ATTEMPTS, f);
  }

  function NextNumber(kind: Kind, counter: Option<nat>, codes: seq<Code>): Result<nat, Refusal> {
    NextAfter(kind, Base(kind, counter, codes), codes)
  }

  function Printed(kind: Kind, r: Result<nat, Refusal>): Result<string, Refusal> {
    match r
    case Ok(n) => Ok(FormatPartyCode(kind, n))
    case Err(e) => Err(e)
  }

  /** What the series gives next. */
  function NextCode(kind: Kind, counter: Option<nat>, codes: seq<Code>): Result<string, Refusal> {
    Printed(kind, NextNumber(kind, counter, codes))
  }

  lemma {:induction false} FirstFreeIsFirst(kind: Kind, codes: seq<Code>, n: nat, limit: nat)
    requires n <= limit
    ensures forall m :: n <= m < FirstFree(kind, codes, n, limit) ==> TakenAt(kind, codes, m)
  {
    forall m | n <= m < FirstFree(kind, codes, n, limit) ensures TakenAt(kind, codes, m) {
      TakenBeforeFree(kind, codes, n, limit, m);
    }
  }

  /** The series refuses exactly when each of the ten thousand codes after its base is held; otherwise it
      gives the first of them that is not. */
  lemma {:induction false} NextCodeIs(kind: Kind, counter: Option<nat>, codes: seq<Code>)
    ensures var base := Base(kind, counter, codes);
            && (NextCode(kind, counter, codes).Err?
                <==> forall m :: base < m <= base + 10000 ==> TakenAt(kind, codes, m))
            && (NextNumber(kind, counter, codes).Ok? ==>
                  var n := NextNumber(kind, counter, codes).value;
                  && NextCode(kind, counter, codes) == Ok(FormatPartyCode(kind, n))
                  && base < n <= base + 10000 && !Taken(codes, FormatPartyCode(kind, n))
                  && forall m :: base < m < n ==> TakenAt(kind, codes, m))
  {
    var base := Base(kind, counter, codes);
    FirstFreeIsFirst(kind, codes, base + 1, base + 1 + ATTEMPTS);
  }

  /** The first party of a kind that has no codes yet gets number one. */
  lemma {:induction false} FirstCode(kind: Kind)
    ensures NextCode(kind, None, []) == Ok(if kind == Customer then "C-0001" else "V-0001")
  {
    FirstFreeIs(kind, [], 1, 1 + ATTEMPTS, 1);
    assert NextNumber(kind, None, []) == Ok(1);
    assert Decimal(1) == "1";
    assert Zeros(3) == "000" by { assert Zeros(0) == "" && Zeros(1) == "0" && Zeros(2) == "00"; }
    assert PadStart("1", 4) == "0001";
    assert FormatPartyCode(kind, 1) == if kind == Customer then "C-0001" else "V-0001";
  }

  // ── Any run of creates, renames and deletes ────────────────────────────────

  /** One committed request: a party created with the next code or a typed one, renumbered, deleted. */
  datatype Op = Create | CreateTyped(code: string) | Renumber(i: nat, code: string) | Delete(i: nat)

  datatype State = State(counter: Option<nat>, codes: seq<Code>)

  /** A request that is refused is rolled back. */
  function Step(kind: Kind, s: State, op: Op): State {
    match op
    case Create =>
      (match NextNumber(kind, s.counter, s.codes)
       case Ok(n) => State(Some(n), s.codes + [Some(FormatPartyCode(kind, n))])
       case Err(_) => s)
    case CreateTyped(code) => if Taken(s.codes, code) then s else s.(codes := s.codes + [Some(code)])
    case Renumber(i, code) => if i >= |s.codes| || Taken(s.codes, code) then s else s.(codes := s.codes[i := Some(code)])
    case Delete(i) => if i >= |s.codes| then s else s.(codes := s.codes[..i] + s.codes[i + 1..])
  }

  function Run(kind: Kind, s: State, ops: seq<Op>, n: nat): State
    requires n <= |ops|
  {
    if n == 0 then s else Step(kind, Run(kind, s, ops, n - 1), ops[n - 1])
  }

  /** The numbers given out so far, after one more request. */
  function Given(kind: Kind, s: State, op: Op, issued: seq<nat>): seq<nat> {
    var next := NextNumber(kind, s.counter, s.codes);
    if op.Create? && next.Ok? then issued + [next.value] else issued
  }

  /** The numbers the series gave out over a run, in order. */
  function Issued(kind: Kind, s: State, ops: seq<Op>, n: nat): seq<nat>
    requires n <= |ops|
  {
    if n == 0 then [] else Given(kind, Run(kind, s, ops, n - 1), ops[n - 1], Issued(kind, s, ops, n - 1))
  }

  /** The history grows by exactly the number of each code the series gives, whose party then holds it. */
  lemma {:induction false} IssuedGrows(kind: Kind, s: State, ops: seq<Op>, n: nat)
    requires n < |ops|
    ensures Issued(kind, s, ops, 0) == []
    ensures var before, after := Run(kind, s, ops, n), Run(kind, s, ops, n + 1);
            var was, now := Issued(kind, s, ops, n), Issued(kind, s, ops, n + 1);
            if ops[n].Create? && NextNumber(kind, before.counter, before.codes).Ok?
            then |now| == |was| + 1 && was <= now && Taken(after.codes, FormatPartyCode(kind, now[|was|]))
                 && after.counter == Some(now[|was|])
            else now == was
  {
    var before := Run(kind, s, ops, n);
    if ops[n].Create? && NextNumber(kind, before.counter, before.codes).Ok? {
      var code := FormatPartyCode(kind, NextNumber(kind, before.counter, before.codes).value);
      assert (before.codes + [Some(code)])[|before.codes|] == Some(code);
    }
  }

  predicate Rising(xs: seq<nat>) {
    forall i, j :: 0 <= i < j < |xs| ==> xs[i] < xs[j]
  }

  predicate AllAtMost(xs: seq<nat>, counter: Option<nat>) {
    forall i :: 0 <= i < |xs| ==> counter.Some? && xs[i] <= counter.value
  }

  lemma {:induction false} StepRises(kind: Kind, s: State, op: Op, issued: seq<nat>)
    requires Rising(issued) && AllAtMost(issued, s.counter)
    ensures Rising(Given(kind, s, op, issued)) && AllAtMost(Given(kind, s, op, issued), Step(kind, s, op).counter)
  {}

  lemma {:induction false} IssuedRise(kind: Kind, s: State, ops: seq<Op>, n: nat)
    requires n <= |ops|
    ensures Rising(Issued(kind, s, ops, n)) && AllAtMost(Issued(kind, s, ops, n), Run(kind, s, ops, n).counter)
  {
    if n > 0 {
      IssuedRise(kind, s, ops, n - 1);
      StepRises(kind, Run(kind, s, ops, n - 1), ops[n - 1], Issued(kind, s, ops, n - 1));
    }
  }

  /** A code the series once gave out is never given out again, even after its party is deleted or
      renumbered. */
  lemma {:induction false} NeverGivenTwice(kind: Kind, s: State, ops: seq<Op>, i: nat, j: nat)
    requires i < j < |Issued(kind, s, ops, |ops|)|
    ensures FormatPartyCode(kind, Issued(kind, s, ops, |ops|)[i]) != FormatPartyCode(kind, Issued(kind, s, ops, |ops|)[j])
  {
    IssuedRise(kind, s, ops, |ops|);
    FormatInjective(kind, Issued(kind, s, ops, |ops|)[i], kind, Issued(kind, s, ops, |ops|)[j]);
  }

  /** What one request does: a create adds a party with the next code, a typed one with that code unless
      it is taken, a renumbering gives one party that code, a deletion takes one away; the counter moves
      with the first alone. */
  lemma {:induction false} RequestDoes(kind: Kind, s: State, op: Op)
    ensures var after := Step(kind, s, op);
            match op
            case Create =>
              var next := NextNumber(kind, s.counter, s.codes);
              if next.Err? then after == s
              else after.counter == Some(next.value) && |after.codes| == |s.codes| + 1 && s.codes <= after.codes
                   && after.codes[|s.codes|] == Some(FormatPartyCode(kind, next.value))
            case CreateTyped(code) =>
              && after.counter == s.counter && s.codes <= after.codes
              && (if Some(code) in s.codes then after == s
                  else |after.codes| == |s.codes| + 1 && after.codes[|s.codes|] == Some(code))
            case Renumber(i, code) =>
              && after.counter == s.counter && |after.codes| == |s.codes|
              && (forall j :: 0 <= j < |s.codes| ==>
                    after.codes[j] == if j == i && Some(code) !in s.codes then Some(code) else s.codes[j])
            case Delete(i) =>
              && after.counter == s.counter
              && (if i >= |s.codes| then after == s
                  else |after.codes| == |s.codes| - 1
                       && forall j :: 0 <= j < |after.codes| ==> after.codes[j] == s.codes[if j < i then j else j + 1])
  {}

  predicate Unique(codes: seq<Code>) {
    forall i, j :: 0 <= i < j < |codes| && codes[i].Some? ==> codes[i] != codes[j]
  }

  lemma {:induction false} StepKeepsUnique(kind: Kind, s: State, op: Op)
    requires Unique(s.codes)
    ensures Unique(Step(kind, s, op).codes)
  {
    var next := NextNumber(kind, s.counter, s.codes);
    if op.Create? && next.Ok? {
      AddKeepsUnique(s.codes, FormatPartyCode(kind, next.value));
    }
  }

  lemma {:induction false} AddKeepsUnique(codes: seq<Code>, code: string)
    requires Unique(codes) && !Taken(codes, code)
    ensures Unique(codes + [Some(code)])
  {}

  lemma {:induction false} CodesStayUnique(kind: Kind, s: State, ops: seq<Op>, n: nat)
    requires n <= |ops| && Unique(s.codes)
    ensures Unique(Run(kind, s, ops, n).codes)
  {
    if n > 0 {
      CodesStayUnique(kind, s, ops, n - 1);
      StepKeepsUnique(kind, Run(kind, s, ops, n - 1), ops[n - 1]);
    }
  }

  // ── Numbering the parties a company already has ────────────────────────────

  /** How many of the first `n` parties have no code; the parties are in the order created. */
  function Blanks(codes: seq<Code>, n: nat): nat
    requires n <= |codes|
  {
    if n == 0 then 0 else Blanks(codes, n - 1) + if codes[n - 1].None? then 1 else 0
  }

  function Top(kind: Kind, codes: seq<Code>): nat {
    var h := Highest(kind, codes, |codes|);
    if h.Some? then h.value else 0
  }

  /** The printed number, padded by hand rather than cut to four digits. */
  function MigratedCode(kind: Kind, n: nat): string {
    var digits := Decimal(n);
    [Prefix(kind), '-'] + (if |digits| < 4 then Zeros(4 - |digits|) + digits else digits)
  }

  /** The first `n` parties once numbered: each blank one gets its place after the highest code. */
  function Numbered(kind: Kind, codes: seq<Code>, n: nat): (r: seq<Code>)
    requires n <= |codes|
    ensures |r| == n
    ensures forall i :: 0 <= i < n ==>
              r[i] == if codes[i].Some? then codes[i] else Some(MigratedCode(kind, Top(kind, codes) + Blanks(codes, i + 1)))
  {
    if n == 0 then []
    else Numbered(kind, codes, n - 1)
         + [if codes[n - 1].Some? then codes[n - 1] else Some(MigratedCode(kind, Top(kind, codes) + Blanks(codes, n)))]
  }

  lemma {:induction false} BlanksRise(codes: seq<Code>, i: nat, j: nat)
    requires i <= j <= |codes|
    ensures Blanks(codes, i) <= Blanks(codes, j)
    ensures i < j && codes[j - 1].None? ==> Blanks(codes, i) < Blanks(codes, j)
  {
    if i < j {
      BlanksRise(codes, i, j - 1);
    }
  }

  lemma {:induction false} MigratedIsFormat(kind: Kind, n: nat)
    ensures MigratedCode(kind, n) == FormatPartyCode(kind, n)
  {}

  /** Numbering goes on from the highest code of the series, or from nothing where none is held. */
  lemma {:induction false} NumberingGoesOn(kind: Kind, codes: seq<Code>)
    ensures forall n: nat :: HeldInSeries(kind, codes, n) ==> n <= Top(kind, codes)
    ensures Top(kind, codes) != 0 ==> HeldInSeries(kind, codes, Top(kind, codes))
  {
    HighestIs(kind, codes, Top(kind, codes));
  }

  /** The number a blank party at `i` gets. */
  function Place(kind: Kind, codes: seq<Code>, i: nat): nat
    requires i < |codes|
  {
    Top(kind, codes) + Blanks(codes, i + 1)
  }

  lemma {:induction false} PlacesDiffer(kind: Kind, codes: seq<Code>, i: nat, j: nat)
    requires i < j < |codes| && codes[i].None? && codes[j].None?
    ensures FormatPartyCode(kind, Place(kind, codes, i)) != FormatPartyCode(kind, Place(kind, codes, j))
  {
    BlanksRise(codes, i + 1, j + 1);
    FormatInjective(kind, Place(kind, codes, i), kind, Place(kind, codes, j));
  }

  lemma {:induction false} NumberedAt(kind: Kind, codes: seq<Code>, i: nat)
    requires i < |codes|
    ensures Numbered(kind, codes, |codes|)[i]
            == if codes[i].Some? then codes[i] else Some(FormatPartyCode(kind, Place(kind, codes, i)))
  {
    MigratedIsFormat(kind, Place(kind, codes, i));
  }

  /** Every place up to the last is some blank party's. */
  lemma {:induction false} PlaceHolder(codes: seq<Code>, n: nat, k: nat) returns (i: nat)
    requires n <= |codes| && 1 <= k <= Blanks(codes, n)
    ensures i < n && codes[i].None? && Blanks(codes, i + 1) == k
  {
    if k == Blanks(codes, n) && k > Blanks(codes, n - 1) {
      i := n - 1;
    } else {
      i := PlaceHolder(codes, n - 1, k);
    }
  }

  /** A party holds the code that a number past nine digits prints, and numbering will reach it. */
  predicate InTheWay(kind: Kind, codes: seq<Code>, n: nat) {
    && PowerOfTen(NINE_DIGITS) <= n
    && Top(kind, codes) < n <= Top(kind, codes) + Blanks(codes, |codes|)
    && Taken(codes, FormatPartyCode(kind, n))
  }

  lemma {:induction false} PlaceInRange(kind: Kind, codes: seq<Code>, i: nat)
    requires i < |codes| && codes[i].None?
    ensures Top(kind, codes) < Place(kind, codes, i) <= Top(kind, codes) + Blanks(codes, |codes|)
  {
    BlanksRise(codes, 0, i + 1);
    BlanksRise(codes, i, i + 1);
    BlanksRise(codes, i + 1, |codes|);
  }

  /** A blank party's place is held already exactly when it is in the way. */
  lemma {:induction false} PlaceTaken(kind: Kind, codes: seq<Code>, i: nat)
    requires i < |codes| && codes[i].None?
    ensures Taken(codes, FormatPartyCode(kind, Place(kind, codes, i))) <==> InTheWay(kind, codes, Place(kind, codes, i))
  {
    PlaceInRange(kind, codes, i);
    AboveHighestIsFree(kind, codes, Place(kind, codes, i));
  }

  lemma {:induction false} NumberedApart(kind: Kind, codes: seq<Code>)
    requires Unique(codes) && forall n: nat :: !InTheWay(kind, codes, n)
    ensures Unique(Numbered(kind, codes, |codes|))
  {
    var r := Numbered(kind, codes, |codes|);
    forall i | 0 <= i < |codes|
      ensures r[i] == if codes[i].Some? then codes[i] else Some(FormatPartyCode(kind, Place(kind, codes, i)))
      ensures codes[i].None? ==> r[i] !in codes
    {
      NumberedAt(kind, codes, i);
      if codes[i].None? { PlaceTaken(kind, codes, i); }
    }
    forall i, j | 0 <= i < j < |codes| ensures r[i] != r[j] {
      if codes[i].None? && codes[j].None? { PlacesDiffer(kind, codes, i, j); }
    }
  }

  lemma {:induction false} NumberedTogether(kind: Kind, codes: seq<Code>, n: nat)
    requires InTheWay(kind, codes, n)
    ensures !Unique(Numbered(kind, codes, |codes|))
  {
    var i := PlaceHolder(codes, |codes|, n - Top(kind, codes));
    var j :| 0 <= j < |codes| && codes[j] == Some(FormatPartyCode(kind, n));
    NumberedAt(kind, codes, i);
    NumberedAt(kind, codes, j);
    assert Place(kind, codes, i) == n && i != j;
  }

  /** Numbering gives each blank party the code the series would print for its place and keeps the
      others; the codes stay different exactly when no party holds one past nine digits that a place
      will print. */
  lemma {:induction false} NumberingIsUnique(kind: Kind, codes: seq<Code>)
    requires Unique(codes)
    ensures Unique(Numbered(kind, codes, |codes|)) <==> forall n: nat :: !InTheWay(kind, codes, n)
    ensures forall i :: 0 <= i < |codes| ==>
              Numbered(kind, codes, |codes|)[i]
              == if codes[i].Some? then codes[i] else Some(FormatPartyCode(kind, Place(kind, codes, i)))
  {
    forall i | 0 <= i < |codes|
      ensures Numbered(kind, codes, |codes|)[i]
              == if codes[i].Some? then codes[i] else Some(FormatPartyCode(kind, Place(kind, codes, i)))
    {
      NumberedAt(kind, codes, i);
    }
    if n: nat :| InTheWay(kind, codes, n) {
      NumberedTogether(kind, codes, n);
    } else {
      NumberedApart(kind, codes);
    }
  }

  lemma {:induction false} BlankLast(codes: seq<Code>)
    requires |codes| == 3 && codes[0].Some? && codes[1].Some? && codes[2].None?
    ensures Blanks(codes, 3) == 1
  {
    assert Blanks(codes, 1) == 0;
    assert Blanks(codes, 2) == 0;
  }

  lemma {:induction false} HighestFirst(kind: Kind, codes: seq<Code>)
    requires |codes| == 3 && codes[0].Some? && codes[1].Some? && codes[2].None?
    requires InSeries(kind, codes[0].value) && !InSeries(kind, codes[1].value)
    ensures Top(kind, codes) == Tail(codes[0].value)
  {
    assert Highest(kind, codes, 1) == Some(Tail(codes[0].value));
    assert Highest(kind, codes, 2) == Highest(kind, codes, 1);
  }

  lemma {:induction false} CollidesWith(kind: Kind, a: string, b: string, n: nat, codes: seq<Code>)
    requires |codes| == 3 && codes[0] == Some(a) && codes[1] == Some(b) && codes[2] == None
    requires InSeries(kind, a) && Tail(a) == n && !InSeries(kind, b) && b == FormatPartyCode(kind, n + 1)
    ensures Numbered(kind, codes, 3)[2] == Some(b)
  {
    BlankLast(codes);
    HighestFirst(kind, codes);
    assert Place(kind, codes, 2) == n + 1;
    NumberedAt(kind, codes, 2);
  }

  lemma {:induction false} TwoApart(codes: seq<Code>)
    requires |codes| == 3 && codes[0] != codes[1] && codes[2] == None
    ensures Unique(codes)
  {}

  lemma {:induction false} LastInSeries(kind: Kind, n: nat)
    requires n + 1 == PowerOfTen(NINE_DIGITS)
    ensures InSeries(kind, FormatPartyCode(kind, n)) && !InSeries(kind, FormatPartyCode(kind, n + 1))
    ensures FormatPartyCode(kind, n) != FormatPartyCode(kind, n + 1)
    ensures Tail(FormatPartyCode(kind, n)) == n
  {
    FormatInSeries(kind, n);
    FormatInSeries(kind, n + 1);
    TailReadsBack(kind, n);
  }

  /** At ten digits it can collide: the highest code is looked for among shorter ones only. */
  lemma {:induction false} NumberingCollides(kind: Kind, n: nat, a: string, b: string, codes: seq<Code>)
    requires n + 1 == PowerOfTen(NINE_DIGITS) && a == FormatPartyCode(kind, n) && b == FormatPartyCode(kind, n + 1)
    requires |codes| == 3 && codes[0] == Some(a) && codes[1] == Some(b) && codes[2] == None
    ensures Unique(codes) && Numbered(kind, codes, 3)[2] == codes[1]
  {
    LastInSeries(kind, n);
    CollidesWith(kind, a, b, n, codes);
    TwoApart(codes);
  }

  /** The counter after seeding: never behind the highest code, never set back. */
  function Seeded(kind: Kind, counter: Option<nat>, codes: seq<Code>): Option<nat> {
    match Highest(kind, codes, |codes|)
    case None => counter
    case Some(h) => if counter.Some? && counter.value > h then counter else Some(h)
  }

  /** Seeding never sets the counter back, takes it past every code of the series and no further. */
  lemma {:induction false} SeededIs(kind: Kind, counter: Option<nat>, codes: seq<Code>)
    ensures var seeded := Seeded(kind, counter, codes);
            && (counter.Some? ==> seeded.Some? && counter.value <= seeded.value)
            && (forall n: nat :: HeldInSeries(kind, codes, n) ==> seeded.Some? && n <= seeded.value)
            && (seeded != counter ==> seeded.Some? && HeldInSeries(kind, codes, seeded.value))
  {
    var h := Highest(kind, codes, |codes|);
    HighestIs(kind, codes, if h.Some? then h.value else 0);
  }

  /** After the migration the next code is the very next number, free at the first attempt. */
  lemma {:induction false} SeededNextIsFree(kind: Kind, counter: Option<nat>, codes: seq<Code>)
    requires var n := Base(kind, Seeded(kind, counter, codes), codes) + 1; n < PowerOfTen(NINE_DIGITS)
    ensures var n := Base(kind, Seeded(kind, counter, codes), codes) + 1;
            NextNumber(kind, Seeded(kind, counter, codes), codes) == Ok(n)
  {
    var n := Base(kind, Seeded(kind, counter, codes), codes) + 1;
    AboveHighestIsFree(kind, codes, n);
    FirstFreeIs(kind, codes, n, n + ATTEMPTS, n);
  }

  /** The series is exhausted only for a company with ten thousand parties. */
  lemma {:induction false} ExhaustedNeedsParties(kind: Kind, counter: Option<nat>, codes: seq<Code>)
    ensures NextCode(kind, counter, codes).Err? ==> |codes| >= 10000
  {
    ExhaustedAfter(kind, Base(kind, counter, codes), codes);
  }

  lemma {:induction false} ExhaustedAfter(kind: Kind, base: nat, codes: seq<Code>)
    ensures NextAfter(kind, base, codes).Err? ==> |codes| >= ATTEMPTS
  {
    if NextAfter(kind, base, codes).Err? {
      TakenNeedsParties(kind, codes, base + 1, base + 1 + ATTEMPTS);
    }
  }

  /** What a create sees once its UPDATE has looked: the tables as they are, or, when the UPDATE found
      no counter and another create then committed one, the tables that one left. */
  function Seen(counter: Option<nat>, codes: seq<Code>, raced: Option<State>): State {
    if counter.None? && raced.Some? then raced.value else State(counter, codes)
  }

  /** A counter the UPDATE finds is the one counted up; one that another create made since is, where the
      UPDATE found none; otherwise there is none. */
  lemma {:induction false} CountedUp(kind: Kind, counter: Option<nat>, codes: seq<Code>, raced: Option<State>)
    requires raced.Some? ==> raced.value.counter.Some?
    ensures var seen := Seen(counter, codes, raced);
            && (counter.Some? ==> seen.codes == codes && Some(Base(kind, seen.counter, seen.codes)) == counter)
            && (counter.None? && raced.Some? ==>
                  seen.codes == raced.value.codes && Some(Base(kind, seen.counter, seen.codes)) == raced.value.counter)
            && (counter.None? && raced.None? ==> seen == State(None, codes))
  {}

  /** The tables a series lives in: its counter row, if there is one, and the parties' codes. */
  class PartySeries {
    const kind: Kind
    var counter: Option<nat>
    var codes: seq<Code>

    constructor (kind: Kind, codes: seq<Code>)
      ensures this.kind == kind && this.codes == codes && counter == None
    {
      this.kind, this.codes, counter := kind, codes, None;
    }

    /** Takes the next number: counts the row up, or makes it from the highest code in use, or, when
        another create made it after the UPDATE looked, counts that one up on conflict. */
    method Bump(raced: Option<State>) returns (n: nat)
      requires raced.Some? ==> raced.value.counter.Some?
      modifies this
      ensures var seen := old(Seen(counter, codes, raced));
              n == Base(kind, seen.counter, seen.codes) + 1 && counter == Some(n) && codes == seen.codes
    {
      if counter.Some? {
        counter := Some(counter.value + 1);
        return counter.value;
      }
      if raced.Some? {
        codes := raced.value.codes;
        counter := Some(raced.value.counter.value + 1);
        return counter.value;
      }
      var highest := Highest(kind, codes, |codes|);
      counter := Some((if highest.Some? then highest.value else 0) + 1);
      return counter.value;
    }

    /** The first free code, at one count of the counter per code passed over and one for itself. */
    method NextPartyCode(raced: Option<State>) returns (r: Result<string, Refusal>)
      requires raced.Some? ==> raced.value.counter.Some?
      modifies this
      ensures var seen := old(Seen(counter, codes, raced));
              && r == NextCode(kind, seen.counter, seen.codes) && codes == seen.codes
              && match NextNumber(kind, seen.counter, seen.codes)
                 case Ok(n) => counter == Some(n)
                 case Err(_) => counter == Some(Base(kind, seen.counter, seen.codes) + ATTEMPTS)
      ensures r.Ok? ==> !Taken(codes, r.value)
    {
      ghost var seen := Seen(counter, codes, raced);
      ghost var base := Base(kind, seen.counter, seen.codes);
      for attempt := 0 to ATTEMPTS
        invariant attempt == 0 ==> counter == old(counter) && codes == old(codes)
        invariant attempt > 0 ==> counter == Some(base + attempt) && codes == seen.codes
        invariant AllTaken(kind, seen.codes, base + 1, base + 1 + attempt)
      {
        var n := Bump(if attempt == 0 then raced else None);
        assert n == base + 1 + attempt;
        var code := FormatPartyCode(kind, n);
        if !Taken(codes, code) {
          NextAfterIs(kind, base, seen.codes, n);
          return Ok(code);
        }
      }
      NextAfterIs(kind, base, seen.codes, base + 1 + ATTEMPTS);
      return Err(Exhausted);
    }

    /** The placeholder a form shows: what the next create is given if nobody writes in between. */
    method PeekNextPartyCode() returns (code: string)
      ensures var r := NextCode(kind, counter, codes);
              code == if r.Ok? then r.value else FormatPartyCode(kind, Base(kind, counter, codes) + ATTEMPTS + 1)
    {
      var held := codes;
      var last: nat := 0;
      if counter.Some? {
        last := counter.value;
      } else {
        var highest := Highest(kind, held, |held|);
        if highest.Some? { last := highest.value; }
      }
      assert last == Base(kind, counter, held);
      var n := last + 1;
      for attempt := 0 to ATTEMPTS
        invariant n == last + 1 + attempt
        invariant AllTaken(kind, held, last + 1, n)
      {
        code := FormatPartyCode(kind, n);
        if !Taken(held, code) {
          NextAfterIs(kind, last, held, n);
          return;
        }
        n := n + 1;
      }
      NextAfterIs(kind, last, held, last + 1 + ATTEMPTS);
      return FormatPartyCode(kind, n);
    }

    /** What a form was shown is what the create then gets. */
    method PeekThenNext() returns (shown: string, given: Result<string, Refusal>)
      modifies this
      ensures codes == old(codes)
      ensures given.Ok? ==> given.value == shown && !Taken(codes, shown)
      ensures given.Err? ==> |codes| >= 10000
    {
      ghost var next := NextCode(kind, counter, codes);
      ExhaustedNeedsParties(kind, counter, codes);
      shown := PeekNextPartyCode();
      given := NextPartyCode(None);
      assert given == next;
    }

    /** The migration on this table: number the blank parties, then seed the counter. */
    method Migrate()
      modifies this
      ensures codes == Numbered(kind, old(codes), |old(codes)|)
      ensures counter == Seeded(kind, old(counter), codes)
    {
      NumberBlanks();
      SeedCounter();
    }

    method NumberBlanks()
      modifies `codes
      ensures codes == Numbered(kind, old(codes), |old(codes)|)
    {
      var was := codes;
      var top := Top(kind, was);
      var numbered: seq<Code> := [];
      var row := 0;
      for i := 0 to |was|
        invariant row == Blanks(was, i)
        invariant numbered == Numbered(kind, was, i)
      {
        if was[i].None? {
          row := row + 1;
          numbered := numbered + [Some(MigratedCode(kind, top + row))];
        } else {
          numbered := numbered + [was[i]];
        }
      }
      codes := numbered;
    }

    method SeedCounter()
      modifies `counter
      ensures counter == Seeded(kind, old(counter), codes)
    {
      var highest := Highest(kind, codes, |codes|);
      if highest.Some? {
        if counter.None? || counter.value < highest.value {
          counter := highest;
        }
      }
    }
  }
}
