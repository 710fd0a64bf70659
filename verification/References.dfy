/** Printed document numbers, the highest one in a table, and the migration that numbered the
    receipts. Sources: src/common/utils/reference-generator.util.ts,
    src/common/utils/sequence.util.ts, src/database/migrations/1787320000000-QaFixesSchema.ts. */
module References {
  import opened Options
  import opened Text

  predicate NoDash(s: string) {
    forall i :: 0 <= i < |s| ==> s[i] != '-'
  }

  /** What stands before the number: `INV-2026-`. */
  function Stem(series: string, year: nat): string {
    series + "-" + Decimal(year) + "-"
  }

  /** `INV-2026-0028`. */
  function FormatYearlyRef(series: string, year: nat, n: nat): string {
    Stem(series, year) + PadStart(Decimal(n), 4)
  }

  /** A number is its series, its year and at least four digits that read as its place. */
  lemma {:induction false} RefShape(series: string, year: nat, n: nat) returns (digits: string)
    ensures FormatYearlyRef(series, year, n) == series + "-" + Decimal(year) + "-" + digits
    ensures AllDigits(digits) && ReadNat(digits) == n
    ensures |digits| == if n < 10000 then 4 else |Decimal(n)|
  {
    digits := PadStart(Decimal(n), 4);
    ReadPadded(n, 4);
    TenThousand();
    if n < 10000 { DecimalLength(n, 4); } else { LongDecimal(n, 4); }
  }

  /** The shape a series' numbers of one year are looked for in: `^INV-2026-[0-9]+$`. */
  predicate InYear(series: string, year: nat, ref: string) {
    var stem := Stem(series, year);
    |stem| < |ref| && ref[..|stem|] == stem && AllDigits(ref[|stem|..])
  }

  function Tail(ref: string): nat {
    ReadNat(TrailingDigits(ref))
  }

  lemma {:induction false} TailOf(stem: string, digits: string)
    requires stem != "" && stem[|stem| - 1] == '-' && AllDigits(digits)
    ensures Tail(stem + digits) == ReadNat(digits)
  {
    TrailingDigitsAfter(stem, digits);
  }

  lemma {:induction false} TailReadsBack(series: string, year: nat, n: nat)
    ensures Tail(FormatYearlyRef(series, year, n)) == n
  {
    TailOf(Stem(series, year), PadStart(Decimal(n), 4));
    ReadPadded(n, 4);
  }

  /** A word up to its first dash. */
  lemma {:induction false} FirstDash(p: string, a: string, q: string, b: string)
    requires NoDash(p) && NoDash(q) && p + "-" + a == q + "-" + b
    ensures p == q && a == b
  {
    var s, t := p + "-" + a, q + "-" + b;
    assert s[|p|] == '-' && t[|q|] == '-';
    assert forall i :: 0 <= i < |p| ==> s[i] == p[i];
    assert forall i :: 0 <= i < |q| ==> t[i] == q[i];
    assert |p| == |q|;
    assert s[..|p|] == p && t[..|q|] == q;
    assert s[|p| + 1..] == a && t[|q| + 1..] == b;
  }

  lemma {:induction false} DigitsHaveNoDash(s: string)
    requires AllDigits(s)
    ensures NoDash(s)
  {}

  lemma {:induction false} StemSplits(series: string, year: nat, digits: string, other: string, otherYear: nat,
      otherDigits: string)
    requires NoDash(series) && NoDash(other)
    requires Stem(series, year) + digits == Stem(other, otherYear) + otherDigits
    ensures series == other && year == otherYear && digits == otherDigits
  {
    DigitsHaveNoDash(Decimal(year));
    DigitsHaveNoDash(Decimal(otherYear));
    assert Stem(series, year) + digits == series + "-" + (Decimal(year) + "-" + digits);
    assert Stem(other, otherYear) + otherDigits == other + "-" + (Decimal(otherYear) + "-" + otherDigits);
    FirstDash(series, Decimal(year) + "-" + digits, other, Decimal(otherYear) + "-" + otherDigits);
    FirstDash(Decimal(year), digits, Decimal(otherYear), otherDigits);
    ReadDecimal(year);
    ReadDecimal(otherYear);
  }

  /** A printed number tells its series, its year and its place. */
  lemma {:induction false} RefInjective(series: string, year: nat, n: nat, other: string, otherYear: nat, m: nat)
    requires NoDash(series) && NoDash(other)
    ensures FormatYearlyRef(series, year, n) == FormatYearlyRef(other, otherYear, m)
            <==> series == other && year == otherYear && n == m
  {
    if FormatYearlyRef(series, year, n) == FormatYearlyRef(other, otherYear, m) {
      StemSplits(series, year, PadStart(Decimal(n), 4), other, otherYear, PadStart(Decimal(m), 4));
      ReadPadded(n, 4);
      ReadPadded(m, 4);
    }
  }

  /** A series finds its own numbers of its own year, and no others. */
  lemma {:induction false} RefInYear(series: string, year: nat, n: nat, other: string, otherYear: nat)
    requires NoDash(series) && NoDash(other)
    ensures InYear(other, otherYear, FormatYearlyRef(series, year, n)) <==> series == other && year == otherYear
  {
    var ref, stem := FormatYearlyRef(series, year, n), Stem(other, otherYear);
    if InYear(other, otherYear, ref) {
      assert ref == stem + ref[|stem|..];
      StemSplits(series, year, PadStart(Decimal(n), 4), other, otherYear, ref[|stem|..]);
    }
    assert ref[|Stem(series, year)|..] == PadStart(Decimal(n), 4);
  }

  // ── The highest number in use ──────────────────────────────────────────────

  /** A document's number, if it has one. */
  type Ref = Option<string>

  function Highest(series: string, year: nat, refs: seq<Ref>, n: nat): Option<nat>
    requires n <= |refs|
  {
    if n == 0 then None
    else
      var rest := Highest(series, year, refs, n - 1);
      match refs[n - 1]
      case None => rest
      case Some(ref) =>
        if !InYear(series, year, ref) then rest
        else if rest.None? || rest.value < Tail(ref) then Some(Tail(ref)) else rest
  }

  function Top(series: string, year: nat, refs: seq<Ref>): nat {
    match Highest(series, year, refs, |refs|)
    case None => 0
    case Some(h) => h
  }

  lemma {:induction false} HighestBounds(series: string, year: nat, refs: seq<Ref>, n: nat, i: nat)
    requires i < n <= |refs| && refs[i].Some? && InYear(series, year, refs[i].value)
    ensures Highest(series, year, refs, n).Some? && Tail(refs[i].value) <= Highest(series, year, refs, n).value
  {
    if i < n - 1 {
      HighestBounds(series, year, refs, n - 1, i);
    }
  }

  predicate Taken(refs: seq<Ref>, ref: string) {
    Some(ref) in refs
  }

  /** Past the highest number in use every number prints one no document has. */
  lemma {:induction false} AboveTopIsFree(series: string, year: nat, refs: seq<Ref>, n: nat)
    requires NoDash(series) && n > Top(series, year, refs)
    ensures !Taken(refs, FormatYearlyRef(series, year, n))
  {
    var ref := FormatYearlyRef(series, year, n);
    if Taken(refs, ref) {
      var i :| 0 <= i < |refs| && refs[i] == Some(ref);
      RefInYear(series, year, n, series, year);
      TailReadsBack(series, year, n);
      HighestBounds(series, year, refs, |refs|, i);
      assert false;
    }
  }

  /** A document of the series and year among those stored, and its place. */
  ghost predicate Stored(series: string, year: nat, refs: seq<Ref>, n: nat) {
    exists i :: 0 <= i < |refs| && refs[i].Some? && InYear(series, year, refs[i].value) && Tail(refs[i].value) == n
  }

  lemma {:induction false} HighestIsStored(series: string, year: nat, refs: seq<Ref>, n: nat)
    requires n <= |refs| && Highest(series, year, refs, n).Some?
    ensures Stored(series, year, refs, Highest(series, year, refs, n).value)
  {
    if Highest(series, year, refs, n) == Highest(series, year, refs, n - 1) {
      HighestIsStored(series, year, refs, n - 1);
    }
  }

  /** The highest number is a stored one that no other exceeds, and 0 stands for none. */
  lemma {:induction false} TopIs(series: string, year: nat, refs: seq<Ref>)
    ensures forall n: nat :: Stored(series, year, refs, n) ==> n <= Top(series, year, refs)
    ensures Top(series, year, refs) != 0 ==> Stored(series, year, refs, Top(series, year, refs))
    ensures Highest(series, year, refs, |refs|) == None <==> forall n: nat :: !Stored(series, year, refs, n)
  {
    forall n: nat | Stored(series, year, refs, n)
      ensures Highest(series, year, refs, |refs|).Some? && n <= Top(series, year, refs)
    {
      var i :| 0 <= i < |refs| && refs[i].Some? && InYear(series, year, refs[i].value) && Tail(refs[i].value) == n;
      HighestBounds(series, year, refs, |refs|, i);
    }
    if Highest(series, year, refs, |refs|).Some? {
      HighestIsStored(series, year, refs, |refs|);
    }
  }

  /** Seeding never sets the counter back, takes it past every stored number and no further. */
  lemma {:induction false} SeededIs(series: string, year: nat, counter: Option<nat>, refs: seq<Ref>)
    ensures var seeded := Seeded(series, year, counter, refs);
            && (counter.Some? ==> seeded.Some? && counter.value <= seeded.value)
            && (forall n: nat :: Stored(series, year, refs, n) ==> seeded.Some? && n <= seeded.value)
            && (seeded != counter ==> seeded.Some? && Stored(series, year, refs, seeded.value))
  {
    TopIs(series, year, refs);
    if Highest(series, year, refs, |refs|).Some? {
      HighestIsStored(series, year, refs, |refs|);
    }
  }

  /** The counter after seeding: never behind the highest number, never set back. */
  function Seeded(series: string, year: nat, counter: Option<nat>, refs: seq<Ref>): Option<nat> {
    match Highest(series, year, refs, |refs|)
    case None => counter
    case Some(h) => if counter.Some? && counter.value > h then counter else Some(h)
  }

  /** Whichever number a seeded series gives next, no document has it. */
  lemma {:induction false} SeededNextIsFree(series: string, year: nat, counter: Option<nat>, refs: seq<Ref>, n: nat)
    requires NoDash(series)
    requires var c := Seeded(series, year, counter, refs); n > if c.Some? then c.value else 0
    ensures !Taken(refs, FormatYearlyRef(series, year, n))
  {
    AboveTopIsFree(series, year, refs, n);
  }

  // ── Numbering the receipts ─────────────────────────────────────────────────

  /** A receipt of one company, in the order of date, creation and id. */
  datatype Receipt = Receipt(year: nat, number: Ref)

  const RCT: string := "RCT"

  function Numbers(receipts: seq<Receipt>, n: nat): (refs: seq<Ref>)
    requires n <= |receipts|
    ensures |refs| == n && forall i :: 0 <= i < n ==> refs[i] == receipts[i].number
  {
    if n == 0 then [] else Numbers(receipts, n - 1) + [receipts[n - 1].number]
  }

  /** How many of the first `n` receipts are of the year and have no number. */
  function Blanks(receipts: seq<Receipt>, n: nat, year: nat): nat
    requires n <= |receipts|
  {
    if n == 0 then 0
    else Blanks(receipts, n - 1, year) + if receipts[n - 1].year == year && receipts[n - 1].number.None? then 1 else 0
  }

  /** The number a blank receipt is meant to get: its place after the year's highest. */
  function Place(receipts: seq<Receipt>, i: nat): nat
    requires i < |receipts|
  {
    Top(RCT, receipts[i].year, Numbers(receipts, |receipts|)) + Blanks(receipts, i + 1, receipts[i].year)
  }

  /** SQL's `LPAD(s, width, '0')`, which also cuts a longer string down to the width. */
  function Lpad(s: string, width: nat): (p: string)
    ensures |p| == width
  {
    if |s| >= width then s[..width] else Zeros(width - |s|) + s
  }

  function ReceiptNumber(year: nat, n: nat): string {
    Stem(RCT, year) + Lpad(Decimal(n), 4)
  }

  /** The receipts' numbers after the migration. */
  function Numbered(receipts: seq<Receipt>, n: nat): (refs: seq<Ref>)
    requires n <= |receipts|
    ensures |refs| == n
    ensures forall i :: 0 <= i < n ==>
              refs[i] == if receipts[i].number.Some? then receipts[i].number
                         else Some(ReceiptNumber(receipts[i].year, Place(receipts, i)))
  {
    if n == 0 then []
    else Numbered(receipts, n - 1)
         + [if receipts[n - 1].number.Some? then receipts[n - 1].number
            else Some(ReceiptNumber(receipts[n - 1].year, Place(receipts, n - 1)))]
  }

  predicate Unique(refs: seq<Ref>) {
    forall i, j :: 0 <= i < j < |refs| && refs[i].Some? ==> refs[i] != refs[j]
  }

  /** The shape asks for the stem and at least one digit after it, and nothing else. */
  lemma {:induction false} InYearExactlyWhen(series: string, year: nat, ref: string)
    ensures InYear(series, year, ref) <==>
              exists digits :: digits != "" && AllDigits(digits) && ref == series + "-" + Decimal(year) + "-" + digits
  {
    if InYear(series, year, ref) {
      var digits := ref[|Stem(series, year)|..];
      assert ref == Stem(series, year) + digits;
    }
    if digits :| digits != "" && AllDigits(digits) && ref == series + "-" + Decimal(year) + "-" + digits {
      assert ref == Stem(series, year) + digits;
      assert ref[|Stem(series, year)|..] == digits;
    }
  }

  lemma {:induction false} TenThousand()
    ensures PowerOfTen(4) == 10000
  {
    assert PowerOfTen(2) == 100;
  }

  /** The cut spares a number exactly while it has four digits. */
  lemma {:induction false} LpadSpares(n: nat)
    ensures Lpad(Decimal(n), 4) == PadStart(Decimal(n), 4) <==> n < 10000
  {
    TenThousand();
    if n < 10000 {
      DecimalLength(n, 4);
    } else {
      LongDecimal(n, 4);
    }
  }

  lemma {:induction false} BlanksRise(receipts: seq<Receipt>, i: nat, j: nat, year: nat)
    requires i <= j <= |receipts|
    ensures Blanks(receipts, i, year) <= Blanks(receipts, j, year)
    ensures i < j && receipts[j - 1].year == year && receipts[j - 1].number.None? ==>
              Blanks(receipts, i, year) < Blanks(receipts, j, year)
  {
    if i < j {
      BlanksRise(receipts, i, j - 1, year);
    }
  }

  /** What the cut leaves of a number: its leading four digits, or the whole of a shorter one. */
  function Cut(n: nat): (c: nat)
    ensures c < 10000 && (n < 10000 ==> c == n)
  {
    if n < 10000 then n else Cut(n / 10)
  }

  lemma {:induction false} CutDigits(n: nat)
    ensures |Decimal(n)| >= 4 ==> |Decimal(Cut(n))| == 4 && Decimal(n)[..4] == Decimal(Cut(n))
  {
    TenThousand();
    if n < 10000 {
      DecimalLength(n, 4);
    } else {
      LongDecimal(n, 4);
      CutDigits(n / 10);
      assert Decimal(n)[..4] == Decimal(n / 10)[..4];
    }
  }

  /** A place prints as the series' number for what the cut leaves of it. */
  lemma {:induction false} PrintsCut(year: nat, n: nat)
    ensures ReceiptNumber(year, n) == FormatYearlyRef(RCT, year, Cut(n))
  {
    TenThousand();
    CutDigits(n);
    if |Decimal(n)| < 4 && n >= 10000 {
      LongDecimal(n, 4);
    }
  }

  /** A place will be the year's: past its highest number and within its blank receipts. */
  predicate IsPlace(receipts: seq<Receipt>, year: nat, n: nat) {
    var top := Top(RCT, year, Numbers(receipts, |receipts|));
    top < n <= top + Blanks(receipts, |receipts|, year)
  }

  /** A place of the year is cut down to a number that a receipt holds or another place is cut to. */
  ghost predicate CutClash(receipts: seq<Receipt>, year: nat, n: nat) {
    IsPlace(receipts, year, n)
    && (Taken(Numbers(receipts, |receipts|), FormatYearlyRef(RCT, year, Cut(n)))
        || exists m: nat :: m < n && IsPlace(receipts, year, m) && Cut(m) == Cut(n))
  }

  /** Up to four digits nothing is cut, and no place clashes. */
  lemma {:induction false} ShortPlacesNeverClash(receipts: seq<Receipt>, year: nat, n: nat)
    requires n < 10000
    ensures !CutClash(receipts, year, n)
  {
    if IsPlace(receipts, year, n) {
      AboveTopIsFree(RCT, year, Numbers(receipts, |receipts|), n);
    }
  }

  lemma {:induction false} PlaceInRange(receipts: seq<Receipt>, i: nat)
    requires i < |receipts| && receipts[i].number.None?
    ensures IsPlace(receipts, receipts[i].year, Place(receipts, i))
  {
    BlanksRise(receipts, 0, i, receipts[i].year);
    BlanksRise(receipts, i, i + 1, receipts[i].year);
    BlanksRise(receipts, i + 1, |receipts|, receipts[i].year);
  }

  lemma {:induction false} PlacesRise(receipts: seq<Receipt>, i: nat, j: nat)
    requires i < j < |receipts| && receipts[j].number.None? && receipts[i].year == receipts[j].year
    ensures Place(receipts, i) < Place(receipts, j)
  {
    BlanksRise(receipts, i + 1, j + 1, receipts[j].year);
  }

  lemma {:induction false} SamePrint(year: nat, m: nat, otherYear: nat, n: nat)
    ensures ReceiptNumber(year, m) == ReceiptNumber(otherYear, n) <==> year == otherYear && Cut(m) == Cut(n)
  {
    PrintsCut(year, m);
    PrintsCut(otherYear, n);
    RefInjective(RCT, year, Cut(m), RCT, otherYear, Cut(n));
  }

  /** Two receipts numbered alike mean a clash of the later one's place. */
  lemma {:induction false} AlikeIsClash(receipts: seq<Receipt>, i: nat, j: nat)
    requires i < j < |receipts| && Unique(Numbers(receipts, |receipts|))
    requires Numbered(receipts, |receipts|)[i] == Numbered(receipts, |receipts|)[j]
    ensures exists year, n: nat :: CutClash(receipts, year, n)
  {
    var were := Numbers(receipts, |receipts|);
    if receipts[i].number.None? && receipts[j].number.None? {
      var year, m, n := receipts[j].year, Place(receipts, i), Place(receipts, j);
      SamePrint(receipts[i].year, m, year, n);
      PlaceInRange(receipts, i);
      PlaceInRange(receipts, j);
      PlacesRise(receipts, i, j);
      assert CutClash(receipts, year, n);
    } else {
      var blank, held := if receipts[i].number.None? then i else j, if receipts[i].number.None? then j else i;
      assert were[held] in were;
      PrintsCut(receipts[blank].year, Place(receipts, blank));
      PlaceInRange(receipts, blank);
      assert CutClash(receipts, receipts[blank].year, Place(receipts, blank));
    }
  }

  lemma {:induction false} PlaceOf(receipts: seq<Receipt>, year: nat, n: nat) returns (i: nat)
    requires IsPlace(receipts, year, n)
    ensures i < |receipts| && receipts[i].year == year && receipts[i].number.None? && Place(receipts, i) == n
  {
    i := PlaceHolder(receipts, |receipts|, year, n - Top(RCT, year, Numbers(receipts, |receipts|)));
  }

  lemma {:induction false} ClashIsAlike(receipts: seq<Receipt>, year: nat, n: nat)
    requires CutClash(receipts, year, n)
    ensures !Unique(Numbered(receipts, |receipts|))
  {
    var refs, were := Numbered(receipts, |receipts|), Numbers(receipts, |receipts|);
    var j := PlaceOf(receipts, year, n);
    PrintsCut(year, n);
    if Taken(were, FormatYearlyRef(RCT, year, Cut(n))) {
      var i :| 0 <= i < |were| && were[i] == Some(FormatYearlyRef(RCT, year, Cut(n)));
      assert refs[i] == refs[j] && i != j;
    } else {
      var m: nat :| m < n && IsPlace(receipts, year, m) && Cut(m) == Cut(n);
      var i := PlaceOf(receipts, year, m);
      SamePrint(year, m, year, n);
      assert refs[i] == refs[j] && i != j;
    }
  }

  /** The receipts end up with numbers of their own exactly when no place is cut down to a number a
      receipt holds or another place of its year is cut to. */
  lemma {:induction false} ReceiptsUnique(receipts: seq<Receipt>)
    requires Unique(Numbers(receipts, |receipts|))
    ensures Unique(Numbered(receipts, |receipts|)) <==> forall year, n: nat :: !CutClash(receipts, year, n)
  {
    var refs := Numbered(receipts, |receipts|);
    if year, n: nat :| CutClash(receipts, year, n) {
      ClashIsAlike(receipts, year, n);
    } else {
      forall i, j | 0 <= i < j < |receipts| ensures refs[i] != refs[j] {
        if refs[i] == refs[j] { AlikeIsClash(receipts, i, j); }
      }
    }
  }

  /** Every place up to the last is some receipt's. */
  lemma {:induction false} PlaceHolder(receipts: seq<Receipt>, n: nat, year: nat, k: nat) returns (i: nat)
    requires n <= |receipts| && 1 <= k <= Blanks(receipts, n, year)
    ensures i < n && receipts[i].year == year && receipts[i].number.None? && Blanks(receipts, i + 1, year) == k
  {
    if k == Blanks(receipts, n, year) && k > Blanks(receipts, n - 1, year) {
      i := n - 1;
    } else {
      i := PlaceHolder(receipts, n - 1, year, k);
    }
  }

  lemma {:induction false} NoTop(series: string, year: nat, refs: seq<Ref>, n: nat)
    requires n <= |refs| && forall i :: 0 <= i < |refs| ==> refs[i].None?
    ensures Highest(series, year, refs, n).None?
  {
    if n > 0 {
      NoTop(series, year, refs, n - 1);
    }
  }

  lemma {:induction false} FreshClash(receipts: seq<Receipt>, year: nat)
    requires forall i :: 0 <= i < |receipts| ==> receipts[i].number.None?
    requires Blanks(receipts, |receipts|, year) >= 10000
    ensures !Unique(Numbered(receipts, |receipts|))
  {
    NoTop(RCT, year, Numbers(receipts, |receipts|), |receipts|);
    var thousandth: nat := 1000;
    assert Cut(10000) == Cut(thousandth);
    assert IsPlace(receipts, year, thousandth) && IsPlace(receipts, year, 10000);
    ClashIsAlike(receipts, year, 10000);
  }

  /** A company whose receipts had no numbers gets them all different exactly when no year has ten
      thousand: the ten-thousandth is cut down to the number of the thousandth. */
  lemma {:induction false} FreshReceiptsUnique(receipts: seq<Receipt>)
    requires forall i :: 0 <= i < |receipts| ==> receipts[i].number.None?
    ensures Unique(Numbered(receipts, |receipts|)) <==> forall year :: Blanks(receipts, |receipts|, year) < 10000
  {
    if year: nat :| Blanks(receipts, |receipts|, year) >= 10000 {
      FreshClash(receipts, year);
    } else {
      forall year, n: nat ensures !CutClash(receipts, year, n) {
        NoTop(RCT, year, Numbers(receipts, |receipts|), |receipts|);
        if n < 10000 { ShortPlacesNeverClash(receipts, year, n); }
      }
      ReceiptsUnique(receipts);
    }
  }
}
