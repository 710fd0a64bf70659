/** The backfill of invoice line costs: an invoice's posted cost of goods split over its items by weight,
    and each item's cost split over its lines by quantity.

    Costs are integers in units of 0.0001 and quantities integers in units of 0.0001; weights are integers
    in units of 0.00000001. Division is exact before it is rounded. */
module Apportionment {
  import Posting

  // ── round(a / b, 4) ───────────────────────────────────────────────────────

  /** The quotient rounded to the nearest unit, halves away from zero. */
  function RoundDiv(a: int, b: int): int
    requires b > 0
  {
    if a >= 0 then (2 * a + b) / (2 * b) else -((2 * -a + b) / (2 * b))
  }

  lemma {:induction false} RoundDivNear(a: int, b: int)
    requires b > 0
    ensures -b <= 2 * (RoundDiv(a, b) * b - a) <= b
    ensures a >= 0 ==> RoundDiv(a, b) >= 0
    ensures a <= 0 ==> RoundDiv(a, b) <= 0
  {
    var m := if a >= 0 then a else -a;
    var q := (2 * m + b) / (2 * b);
    Quotient(2 * m + b, 2 * b, q);
    Regroup(b, q);
    assert RoundDiv(a, b) == if a >= 0 then q else -q;
  }

  lemma {:induction false} Quotient(x: int, y: int, q: int)
    requires x >= 0 && y > 0 && q == x / y
    ensures y * q <= x < y * q + y && q >= 0
  {}

  lemma {:induction false} Regroup(b: int, q: int)
    ensures 2 * b * q == 2 * (q * b) && (-q) * b == -(q * b)
  {}

  /** A non-negative quotient rounds to nothing exactly when it is below half a unit. */
  lemma {:induction false} RoundsToZero(a: int, b: int)
    requires a >= 0 && b > 0
    ensures RoundDiv(a, b) == 0 <==> 2 * a < b
  {
    var q := (2 * a + b) / (2 * b);
    assert 2 * b * q <= 2 * a + b < 2 * b * q + 2 * b;
    if q >= 1 {
      MulMono(2 * b, 1, q);
    }
  }

  // ── From the invoice to its items ─────────────────────────────────────────

  /** An item moved for the invoice: quantity out times its unit cost, a zero cost counting as 1. */
  datatype Item = Item(id: nat, weight: nat)

  /** `GREATEST(qty_out * COALESCE(NULLIF(unit_cost, 0), 1), 0)`, in units of 0.00000001. */
  function Weight(qtyOut: int, unitCost: int): nat {
    var w := qtyOut * (if unitCost == 0 then 10000 else unitCost);
    if w > 0 then w else 0
  }

  /** A weight is quantity out times unit cost, a zero cost counting as 1.0000, and nothing for what came in
      or costs less than nothing. */
  lemma {:induction false} WeightIs(qtyOut: int, unitCost: int)
    ensures unitCost == 0 && qtyOut >= 0 ==> Weight(qtyOut, unitCost) == qtyOut * 10000
    ensures unitCost != 0 && qtyOut * unitCost >= 0 ==> Weight(qtyOut, unitCost) == qtyOut * unitCost
    ensures (unitCost == 0 && qtyOut <= 0) || (unitCost != 0 && qtyOut * unitCost <= 0) ==> Weight(qtyOut, unitCost) == 0
  {}

  function TotalWeight(items: seq<Item>, n: nat): nat
    requires n <= |items|
  {
    if n == 0 then 0 else TotalWeight(items, n - 1) + items[n - 1].weight
  }

  /** `item_cost`: the whole posting, a rounded proportion, or an even split when nothing has weight. */
  function ItemCost(items: seq<Item>, cogs: int, i: nat): int
    requires i < |items|
  {
    var total := TotalWeight(items, |items|);
    if |items| == 1 then cogs
    else if total > 0 then RoundDiv(cogs * items[i].weight, total)
    else RoundDiv(cogs, |items|)
  }

  function SumItemCosts(items: seq<Item>, cogs: int, n: nat): int
    requires n <= |items|
  {
    if n == 0 then 0 else SumItemCosts(items, cogs, n - 1) + ItemCost(items, cogs, n - 1)
  }

  /** `item_rn = 1`: the heaviest item, the smallest id among equals. */
  predicate RanksFirst(items: seq<Item>, i: nat)
    requires i < |items|
  {
    forall j :: 0 <= j < |items| ==>
      items[j].weight < items[i].weight || (items[j].weight == items[i].weight && items[i].id <= items[j].id)
  }

  predicate IdsUnique(items: seq<Item>) {
    forall i, j :: 0 <= i < j < |items| ==> items[i].id != items[j].id
  }

  /** `item_cost_final`: the first item also takes the residue. */
  function ItemCostFinal(items: seq<Item>, cogs: int, i: nat): int
    requires i < |items|
  {
    ItemCost(items, cogs, i) + if RanksFirst(items, i) then cogs - SumItemCosts(items, cogs, |items|) else 0
  }

  function SumFinal(items: seq<Item>, cogs: int, n: nat): int
    requires n <= |items|
  {
    if n == 0 then 0 else SumFinal(items, cogs, n - 1) + ItemCostFinal(items, cogs, n - 1)
  }

  /** Some item ranks first, and only one does. */
  lemma {:induction false} FirstExists(items: seq<Item>) returns (f: nat)
    requires items != [] && IdsUnique(items)
    ensures f < |items| && RanksFirst(items, f)
    ensures forall i :: 0 <= i < |items| && RanksFirst(items, i) ==> i == f
  {
    f := 0;
    for k := 1 to |items|
      invariant f < k
      invariant forall j :: 0 <= j < k ==>
                  items[j].weight < items[f].weight || (items[j].weight == items[f].weight && items[f].id <= items[j].id)
    {
      if items[k].weight > items[f].weight || (items[k].weight == items[f].weight && items[k].id < items[f].id) {
        f := k;
      }
    }
  }

  lemma {:induction false} SumFinalUpTo(items: seq<Item>, cogs: int, f: nat, n: nat)
    requires f < |items| && n <= |items| && RanksFirst(items, f)
    requires forall i :: 0 <= i < |items| && RanksFirst(items, i) ==> i == f
    ensures SumFinal(items, cogs, n)
         == SumItemCosts(items, cogs, n) + if f < n then cogs - SumItemCosts(items, cogs, |items|) else 0
  {
    if n > 0 {
      SumFinalUpTo(items, cogs, f, n - 1);
    }
  }

  /** The items' costs add up to exactly what the invoice posted. */
  lemma {:induction false} ItemsTieToPosting(items: seq<Item>, cogs: int)
    requires items != [] && IdsUnique(items)
    ensures SumFinal(items, cogs, |items|) == cogs
  {
    var f := FirstExists(items);
    SumFinalUpTo(items, cogs, f, |items|);
  }

  /** The weight an item is in effect split by: 1 each when none has any. */
  function Effective(items: seq<Item>, i: nat): nat
    requires i < |items|
  {
    if TotalWeight(items, |items|) > 0 then items[i].weight else 1
  }

  function EffectiveTotal(items: seq<Item>): nat {
    var total := TotalWeight(items, |items|);
    if total > 0 then total else |items|
  }

  function SumEffective(items: seq<Item>, n: nat): nat
    requires n <= |items|
  {
    if n == 0 then 0 else SumEffective(items, n - 1) + Effective(items, n - 1)
  }

  lemma {:induction false} SumEffectiveUpTo(items: seq<Item>, n: nat)
    requires n <= |items|
    ensures SumEffective(items, n) == if TotalWeight(items, |items|) > 0 then TotalWeight(items, n) else n
  {
    if n > 0 {
      SumEffectiveUpTo(items, n - 1);
    }
  }

  /** In every branch the share is the rounded proportion by effective weight. */
  lemma {:induction false} ItemCostIsProportion(items: seq<Item>, cogs: int, i: nat)
    requires i < |items|
    ensures EffectiveTotal(items) > 0
    ensures ItemCost(items, cogs, i) == RoundDiv(cogs * Effective(items, i), EffectiveTotal(items))
  {
    if |items| == 1 {
      assert TotalWeight(items, 1) == TotalWeight(items, 0) + items[0].weight;
      RoundExact(cogs, EffectiveTotal(items));
    }
  }

  lemma {:induction false} RoundExact(k: int, b: int)
    requires b > 0
    ensures RoundDiv(k * b, b) == k
  {
    var m := if k >= 0 then k else -k;
    assert m * b == if k >= 0 then k * b else -(k * b);
    assert (k * b >= 0) == (k >= 0);
    QuotientIs(2 * (m * b) + b, 2 * b, m);
  }

  lemma {:induction false} QuotientIs(x: int, d: int, q: int)
    requires d > 0 && d * q <= x < d * q + d
    ensures x / d == q
  {
    var r := x / d;
    assert d * r <= x < d * r + d;
    if r > q { MulMono(d, q + 1, r); } else if r < q { MulMono(d, r + 1, q); }
  }

  /** Twice the error of a share against its exact proportion, in units over the effective total. */
  function Error2(items: seq<Item>, cogs: int, i: nat, share: int): int
    requires i < |items|
  {
    2 * (share * EffectiveTotal(items) - cogs * Effective(items, i))
  }

  /** Sum of the rounded shares but for item `f`, and of the exact ones, scaled by the total. */
  function OtherShares(items: seq<Item>, cogs: int, f: nat, n: nat): int
    requires n <= |items|
  {
    if n == 0 then 0 else OtherShares(items, cogs, f, n - 1) + if n - 1 == f then 0 else ItemCost(items, cogs, n - 1)
  }

  function OtherWeights(items: seq<Item>, f: nat, n: nat): int
    requires n <= |items|
  {
    if n == 0 then 0 else OtherWeights(items, f, n - 1) + if n - 1 == f then 0 else Effective(items, n - 1)
  }

  lemma {:induction false} OthersAreTheRest(items: seq<Item>, cogs: int, f: nat, n: nat)
    requires f < |items| && n <= |items|
    ensures SumItemCosts(items, cogs, n) == OtherShares(items, cogs, f, n) + if f < n then ItemCost(items, cogs, f) else 0
    ensures SumEffective(items, n) == OtherWeights(items, f, n) + if f < n then Effective(items, f) else 0
  {
    if n > 0 {
      OthersAreTheRest(items, cogs, f, n - 1);
    }
  }

  /** Errors of the others add up to at most half a unit each. */
  lemma {:induction false} OthersStayNear(items: seq<Item>, cogs: int, f: nat, n: nat)
    requires f < |items| && n <= |items|
    ensures var total := EffectiveTotal(items);
            var others := if f < n then n - 1 else n;
            var error := 2 * (OtherShares(items, cogs, f, n) * total - cogs * OtherWeights(items, f, n));
            -(others * total) <= error <= others * total
  {
    if n > 0 {
      OthersStayNear(items, cogs, f, n - 1);
      var i, total := n - 1, EffectiveTotal(items);
      if i != f {
        ItemCostIsProportion(items, cogs, i);
        RoundDivNear(cogs * Effective(items, i), total);
        Distribute(OtherShares(items, cogs, f, i), ItemCost(items, cogs, i), total);
        Distribute(OtherWeights(items, f, i), Effective(items, i), cogs);
        var others := if f < i then i - 1 else i;
        Distribute(others, 1, total);
      }
    }
  }

  lemma {:induction false} Distribute(a: int, b: int, c: int)
    ensures (a + b) * c == a * c + b * c && c * (a + b) == c * a + c * b
  {}

  /** The first item's error is the others' errors, with the opposite sign. */
  lemma {:induction false} FirstNearProportion(items: seq<Item>, cogs: int, f: nat)
    requires f < |items| && RanksFirst(items, f)
    ensures var slack := (|items| - 1) * EffectiveTotal(items);
            -slack <= Error2(items, cogs, f, ItemCostFinal(items, cogs, f)) <= slack
  {
    var total := EffectiveTotal(items);
    OthersAreTheRest(items, cogs, f, |items|);
    OthersStayNear(items, cogs, f, |items|);
    SumEffectiveUpTo(items, |items|);
    var shares, weights := OtherShares(items, cogs, f, |items|), OtherWeights(items, f, |items|);
    assert ItemCostFinal(items, cogs, f) == cogs - shares;
    assert Effective(items, f) == total - weights;
    ErrorsOffset(cogs, shares, total, weights);
  }

  lemma {:induction false} ErrorsOffset(cogs: int, shares: int, total: int, weights: int)
    ensures 2 * ((cogs - shares) * total - cogs * (total - weights)) == -(2 * (shares * total - cogs * weights))
  {
    Distribute(cogs, -shares, total);
    Distribute(total, -weights, cogs);
  }

  /** Every item but the first is within half a unit of its exact proportion, and the first within
      (n - 1) / 2 units. */
  lemma {:induction false} ItemsNearProportion(items: seq<Item>, cogs: int, i: nat)
    requires i < |items|
    ensures var total := EffectiveTotal(items);
            var allowed := if RanksFirst(items, i) then |items| - 1 else 1;
            -(allowed * total) <= Error2(items, cogs, i, ItemCostFinal(items, cogs, i)) <= allowed * total
  {
    if RanksFirst(items, i) {
      FirstNearProportion(items, cogs, i);
    } else {
      ItemCostIsProportion(items, cogs, i);
      RoundDivNear(cogs * Effective(items, i), EffectiveTotal(items));
    }
  }

  lemma {:induction false} HeaviestCarriesAverage(items: seq<Item>, f: nat, n: nat)
    requires f < |items| && n <= |items| && RanksFirst(items, f)
    ensures SumEffective(items, n) <= n * Effective(items, f)
  {
    if n > 0 {
      HeaviestCarriesAverage(items, f, n - 1);
      Distribute(n - 1, 1, Effective(items, f));
    }
  }

  lemma {:induction false} RoundedShareNonNegative(items: seq<Item>, cogs: int, i: nat)
    requires i < |items| && cogs >= 0
    ensures ItemCost(items, cogs, i) >= 0
  {
    ItemCostIsProportion(items, cogs, i);
    RoundDivNear(cogs * Effective(items, i), EffectiveTotal(items));
  }

  /** No share is negative once twice the posting, in units, reaches n (n - 1). */
  lemma {:induction false} NoNegativeShare(items: seq<Item>, cogs: int, i: nat)
    requires i < |items| && cogs >= 0
    requires 2 * cogs >= |items| * (|items| - 1)
    ensures ItemCostFinal(items, cogs, i) >= 0
  {
    if !RanksFirst(items, i) {
      RoundedShareNonNegative(items, cogs, i);
    } else {
      var n, total, e := |items|, EffectiveTotal(items), Effective(items, i);
      ItemsNearProportion(items, cogs, i);
      HeaviestCarriesAverage(items, i, n);
      SumEffectiveUpTo(items, n);
      FirstShareNonNegative(n, cogs, total, e, ItemCostFinal(items, cogs, i));
    }
  }

  lemma {:induction false} FirstShareNonNegative(n: int, cogs: int, total: int, e: int, share: int)
    requires n >= 1 && total > 0 && cogs >= 0 && total <= n * e
    requires 2 * cogs >= n * (n - 1)
    requires 2 * (share * total - cogs * e) >= -((n - 1) * total)
    ensures share >= 0
  {
    var bound := 2 * cogs - n * (n - 1);
    ScaledShare(n, cogs, total, e, share * total);
    MulMono(2 * cogs, total, n * e);
    MulMono(bound, 0, total);
    Distribute(2 * cogs, -(n * (n - 1)), total);
    NonNegativeFactor(share, 2 * n * total);
  }

  lemma {:induction false} ScaledShare(n: int, cogs: int, total: int, e: int, x: int)
    requires n >= 1 && 2 * (x - cogs * e) >= -((n - 1) * total)
    ensures 2 * n * x >= 2 * cogs * (n * e) - n * (n - 1) * total
  {
    MulMono(n, 2 * (cogs * e) - (n - 1) * total, 2 * x);
  }

  lemma {:induction false} NonNegativeFactor(a: int, b: int)
    requires b > 0 && a * b >= 0
    ensures a >= 0
  {}

  lemma {:induction false} MulMono(k: int, a: int, b: int)
    requires k >= 0 && a <= b
    ensures k * a <= k * b
  {}

  /** A share is negative exactly when the item ranks first and the others' shares exceed the posting. */
  lemma {:induction false} NegativeShareExactlyWhen(items: seq<Item>, cogs: int, i: nat)
    requires i < |items| && cogs >= 0
    ensures ItemCostFinal(items, cogs, i) < 0 <==> RanksFirst(items, i) && OtherShares(items, cogs, i, |items|) > cogs
  {
    OthersAreTheRest(items, cogs, i, |items|);
    RoundedShareNonNegative(items, cogs, i);
  }

  /** A quotient's rounding, from its whole part and its remainder. */
  lemma {:induction false} RoundDivParts(a: int, b: int)
    requires a >= 0 && b > 0
    ensures RoundDiv(a, b) == a / b + if 2 * (a % b) >= b then 1 else 0
  {
    var k, m := a / b, a % b;
    var up := if 2 * m >= b then 1 else 0;
    assert a == b * k + m;
    assert 2 * a + b == (2 * b) * (k + up) + (2 * m + b - 2 * b * up) by {
      Distribute(k, up, 2 * b);
      assert (2 * b) * k == 2 * (b * k);
    }
    QuotientIs(2 * a + b, 2 * b, k + up);
  }

  lemma {:induction false} ScaledBounds(x: int, y: int, q: int, w: int)
    requires y * q <= x < y * q + y && w > 0
    ensures (y * w) * q <= x * w < (y * w) * q + y * w
  {
    MulMono(w, y * q, x);
    MulMono(w, x + 1, y * q + y);
    Distribute(x, 1, w);
    Distribute(y * q, y, w);
    assert (y * w) * q == (y * q) * w;
  }

  lemma {:induction false} ScaledQuotient(x: int, y: int, w: int)
    requires x >= 0 && y > 0 && w > 0
    ensures y * w > 0 && (x * w) / (y * w) == x / y
  {
    MulMono(w, 1, y);
    Quotient(x, y, x / y);
    ScaledBounds(x, y, x / y, w);
    QuotientIs(x * w, y * w, x / y);
  }

  /** Scaling both sides of a quotient does not change its rounding. */
  lemma {:induction false} RoundScaled(a: int, b: int, w: int)
    requires a >= 0 && b > 0 && w > 0
    ensures b * w > 0 && a * w >= 0 && RoundDiv(a * w, b * w) == RoundDiv(a, b)
  {
    MulMono(w, 1, b);
    MulMono(w, 0, a);
    ScaledQuotient(2 * a + b, 2 * b, w);
    Distribute(2 * a, b, w);
    SameQuotient(2 * (a * w) + b * w, (2 * a + b) * w, 2 * (b * w), (2 * b) * w);
  }

  lemma {:induction false} SameQuotient(x: int, u: int, y: int, v: int)
    requires x == u && y == v && y > 0
    ensures x / y == u / v
  {}

  lemma {:induction false} EqualTotal(items: seq<Item>, w: nat, n: nat)
    requires n <= |items| && forall i :: 0 <= i < |items| ==> items[i].weight == w
    ensures TotalWeight(items, n) == n * w
  {
    if n > 0 {
      EqualTotal(items, w, n - 1);
      Distribute(n - 1, 1, w);
    }
  }

  lemma {:induction false} EqualCost(items: seq<Item>, cogs: int, w: nat, i: nat)
    requires i < |items| && cogs >= 0 && forall j :: 0 <= j < |items| ==> items[j].weight == w
    ensures ItemCost(items, cogs, i) == RoundDiv(cogs, |items|)
  {
    EqualTotal(items, w, |items|);
    if |items| == 1 {
      RoundDivParts(cogs, 1);
    } else if w > 0 {
      RoundScaled(cogs, |items|, w);
    }
  }

  lemma {:induction false} EqualShares(items: seq<Item>, cogs: int, w: nat, f: nat, n: nat)
    requires f < |items| && n <= |items| && cogs >= 0 && forall j :: 0 <= j < |items| ==> items[j].weight == w
    ensures OtherShares(items, cogs, f, n) == (if f < n then n - 1 else n) * RoundDiv(cogs, |items|)
  {
    if n > 0 {
      EqualShares(items, cogs, w, f, n - 1);
      EqualCost(items, cogs, w, n - 1);
      Distribute(if f < n - 1 then n - 2 else n - 1, 1, RoundDiv(cogs, |items|));
    }
  }

  lemma {:induction false} EqualSharesSign(items: seq<Item>, cogs: int, w: nat, f: nat, n: int)
    requires f < |items| == n && RanksFirst(items, f) && cogs >= 0
    requires forall j :: 0 <= j < |items| ==> items[j].weight == w
    ensures ItemCostFinal(items, cogs, f) < 0 <==> (n - 1) * RoundDiv(cogs, n) > cogs
  {
    NegativeShareExactlyWhen(items, cogs, f);
    EqualShares(items, cogs, w, f, |items|);
  }

  lemma {:induction false} RoundedSign(n: int, cogs: int)
    requires n >= 1 && cogs >= 0
    ensures (n - 1) * RoundDiv(cogs, n) > cogs <==> 2 * (cogs % n) >= n && cogs / n + cogs % n + 2 <= n
  {
    RoundDivParts(cogs, n);
    ShareSign(n, cogs, cogs / n, cogs % n);
  }

  /** Over equal weights, exactly: the first item's share is negative when the posting divided by the
      number of items leaves at least half of it, and the quotient and what is left fall short of the
      number of items by two or more. */
  lemma {:induction false} EqualWeightsSign(items: seq<Item>, cogs: int, w: nat, f: nat, n: int)
    requires f < |items| == n && RanksFirst(items, f) && cogs >= 0
    requires forall j :: 0 <= j < |items| ==> items[j].weight == w
    ensures ItemCostFinal(items, cogs, f) < 0 <==> 2 * (cogs % n) >= n && cogs / n + cogs % n + 2 <= n
  {
    EqualSharesSign(items, cogs, w, f, n);
    RoundedSign(n, cogs);
  }

  lemma {:induction false} ShareSign(n: int, cogs: int, k: int, m: int)
    requires n >= 1 && k >= 0 && 0 <= m < n && cogs == n * k + m
    ensures (n - 1) * (k + if 2 * m >= n then 1 else 0) > cogs <==> 2 * m >= n && k + m + 2 <= n
  {
    Distribute(n, -1, k);
    if 2 * m >= n {
      Distribute(k, 1, n - 1);
    }
  }

  /** Below that bound a share can be negative: two units over four equal items cost the first one -1. */
  lemma {:induction false} NegativeShareReachable()
    ensures var items := [Item(0, 5), Item(1, 5), Item(2, 5), Item(3, 5)];
            ItemCostFinal(items, 2, 0) == -1 && ItemCostFinal(items, 2, 1) == 1
  {
    var items := [Item(0, 5), Item(1, 5), Item(2, 5), Item(3, 5)];
    assert TotalWeight(items, 1) == 5 && TotalWeight(items, 2) == 10 && TotalWeight(items, 3) == 15;
    assert TotalWeight(items, 4) == 20;
    assert SumItemCosts(items, 2, 1) == 1 && SumItemCosts(items, 2, 2) == 2 && SumItemCosts(items, 2, 3) == 3;
    assert SumItemCosts(items, 2, 4) == 4;
  }

  // ── From an item to its lines ─────────────────────────────────────────────

  datatype Basis = Uncosted | Exact | Apportioned

  /** A line of the item on the invoice, in `line_order, id` order. */
  datatype LineRow = LineRow(id: nat, quantity: int, cost: int, unitCost: int, basis: Basis)

  predicate LineIdsUnique(lines: seq<LineRow>) {
    forall i, j :: 0 <= i < j < |lines| ==> lines[i].id != lines[j].id
  }

  /** `item_qty`: only lines without a basis take part. */
  function ItemQty(lines: seq<LineRow>, n: nat): int
    requires n <= |lines|
  {
    if n == 0 then 0
    else ItemQty(lines, n - 1) + if lines[n - 1].basis.Uncosted? then lines[n - 1].quantity else 0
  }

  /** `line_cost`. */
  function LineCost(lines: seq<LineRow>, itemCost: int, i: nat): int
    requires i < |lines|
  {
    var qty := ItemQty(lines, |lines|);
    if qty > 0 then RoundDiv(itemCost * lines[i].quantity, qty) else 0
  }

  /** `line_rn = 1`. */
  predicate FirstLine(lines: seq<LineRow>, i: nat)
    requires i < |lines|
  {
    lines[i].basis.Uncosted? && forall j :: 0 <= j < i ==> !lines[j].basis.Uncosted?
  }

  /** `SUM(line_cost) OVER (PARTITION BY line_id)`, over the first `n` lines. */
  function SameIdCosts(lines: seq<LineRow>, itemCost: int, id: nat, n: nat): int
    requires n <= |lines|
  {
    if n == 0 then 0
    else SameIdCosts(lines, itemCost, id, n - 1)
         + if lines[n - 1].basis.Uncosted? && lines[n - 1].id == id then LineCost(lines, itemCost, n - 1) else 0
  }

  /** The same sum over the whole (invoice, item): the window the header's claim calls for. */
  function AllCosts(lines: seq<LineRow>, itemCost: int, n: nat): int
    requires n <= |lines|
  {
    if n == 0 then 0
    else AllCosts(lines, itemCost, n - 1)
         + if lines[n - 1].basis.Uncosted? then LineCost(lines, itemCost, n - 1) else 0
  }

  /** The quantity shared by is that of the lines without a cost yet. */
  lemma {:induction false} ItemQtyIs(lines: seq<LineRow>, n: nat)
    requires n < |lines|
    ensures ItemQty(lines, 0) == 0
    ensures ItemQty(lines, n + 1) == ItemQty(lines, n) + match lines[n].basis case Uncosted => lines[n].quantity case _ => 0
  {}

  /** `line_cost_final` as written. */
  function LineCostFinal(lines: seq<LineRow>, itemCost: int, i: nat): int
    requires i < |lines|
  {
    LineCost(lines, itemCost, i)
    + if FirstLine(lines, i) then itemCost - SameIdCosts(lines, itemCost, lines[i].id, |lines|) else 0
  }

  /** The cost a line would get with the residue taken over the whole item. */
  function LineCostTied(lines: seq<LineRow>, itemCost: int, i: nat): int
    requires i < |lines|
  {
    LineCost(lines, itemCost, i) + if FirstLine(lines, i) then itemCost - AllCosts(lines, itemCost, |lines|) else 0
  }

  function SumLinesFinal(lines: seq<LineRow>, itemCost: int, n: nat): int
    requires n <= |lines|
  {
    if n == 0 then 0
    else SumLinesFinal(lines, itemCost, n - 1)
         + if lines[n - 1].basis.Uncosted? then LineCostFinal(lines, itemCost, n - 1) else 0
  }

  function SumLinesTied(lines: seq<LineRow>, itemCost: int, n: nat): int
    requires n <= |lines|
  {
    if n == 0 then 0
    else SumLinesTied(lines, itemCost, n - 1)
         + if lines[n - 1].basis.Uncosted? then LineCostTied(lines, itemCost, n - 1) else 0
  }

  /** Rounded shares of the lines after the first. */
  function LaterCosts(lines: seq<LineRow>, itemCost: int, n: nat): int
    requires n <= |lines|
  {
    if n == 0 then 0
    else LaterCosts(lines, itemCost, n - 1)
         + if lines[n - 1].basis.Uncosted? && !FirstLine(lines, n - 1) then LineCost(lines, itemCost, n - 1) else 0
  }

  predicate AnyUncosted(lines: seq<LineRow>, n: nat)
    requires n <= |lines|
  {
    exists i :: 0 <= i < n && lines[i].basis.Uncosted?
  }

  lemma {:induction false} WindowIsOneRow(lines: seq<LineRow>, itemCost: int, i: nat, n: nat)
    requires i < |lines| && n <= |lines| && LineIdsUnique(lines) && lines[i].basis.Uncosted?
    ensures SameIdCosts(lines, itemCost, lines[i].id, n) == if i < n then LineCost(lines, itemCost, i) else 0
  {
    if n > 0 {
      WindowIsOneRow(lines, itemCost, i, n - 1);
    }
  }

  lemma {:induction false} LinesFinalUpTo(lines: seq<LineRow>, itemCost: int, n: nat)
    requires n <= |lines| && LineIdsUnique(lines)
    ensures SumLinesFinal(lines, itemCost, n)
         == LaterCosts(lines, itemCost, n) + if AnyUncosted(lines, n) then itemCost else 0
  {
    if n > 0 {
      LinesFinalUpTo(lines, itemCost, n - 1);
      if lines[n - 1].basis.Uncosted? {
        WindowIsOneRow(lines, itemCost, n - 1, |lines|);
        assert FirstLine(lines, n - 1) <==> !AnyUncosted(lines, n - 1);
      }
    }
  }

  /** As written, an item's lines add up to its cost plus the rounded shares of every line but the first:
      the residue window holds one row, so the first line always takes the whole cost. */
  lemma {:induction false} LinesOvershoot(lines: seq<LineRow>, itemCost: int)
    requires LineIdsUnique(lines) && AnyUncosted(lines, |lines|)
    ensures SumLinesFinal(lines, itemCost, |lines|) == itemCost + LaterCosts(lines, itemCost, |lines|)
    ensures forall i :: 0 <= i < |lines| && FirstLine(lines, i) ==> LineCostFinal(lines, itemCost, i) == itemCost
  {
    LinesFinalUpTo(lines, itemCost, |lines|);
    forall i | 0 <= i < |lines| && FirstLine(lines, i) ensures LineCostFinal(lines, itemCost, i) == itemCost {
      WindowIsOneRow(lines, itemCost, i, |lines|);
    }
  }

  /** A line's share is below half a unit either way, or the lines have no quantity to share by. */
  predicate RoundsAway(lines: seq<LineRow>, itemCost: int, i: nat)
    requires i < |lines|
  {
    var qty := ItemQty(lines, |lines|);
    qty <= 0 || 2 * Posting.Abs(itemCost) * lines[i].quantity < qty
  }

  lemma {:induction false} LaterCostsVanish(lines: seq<LineRow>, itemCost: int, n: nat)
    requires n <= |lines|
    requires forall i :: 0 <= i < |lines| && lines[i].basis.Uncosted? ==> lines[i].quantity >= 0
    ensures itemCost >= 0 ==> LaterCosts(lines, itemCost, n) >= 0
    ensures itemCost <= 0 ==> LaterCosts(lines, itemCost, n) <= 0
    ensures LaterCosts(lines, itemCost, n) == 0 <==>
            forall i :: 0 <= i < n && lines[i].basis.Uncosted? && !FirstLine(lines, i) ==> RoundsAway(lines, itemCost, i)
  {
    if n > 0 {
      LaterCostsVanish(lines, itemCost, n - 1);
      if lines[n - 1].basis.Uncosted? && !FirstLine(lines, n - 1) && ItemQty(lines, |lines|) > 0 {
        LineCostSign(itemCost, lines[n - 1].quantity, ItemQty(lines, |lines|));
      }
    }
  }

  /** A rounded line cost has the sign of the item's cost, and is zero below half a unit. */
  lemma {:induction false} LineCostSign(itemCost: int, quantity: nat, qty: int)
    requires qty > 0
    ensures var share := RoundDiv(itemCost * quantity, qty);
            && (itemCost >= 0 ==> share >= 0) && (itemCost <= 0 ==> share <= 0)
            && (share == 0 <==> 2 * Posting.Abs(itemCost) * quantity < qty)
  {
    var size := Posting.Abs(itemCost) * quantity;
    MulMono(quantity, 0, Posting.Abs(itemCost));
    RoundDivNear(size, qty);
    RoundsToZero(size, qty);
    assert itemCost * quantity == if itemCost >= 0 then size else -size;
    assert 2 * Posting.Abs(itemCost) * quantity == 2 * size;
  }

  /** So the lines tie to the item's cost, of either sign, exactly when every line after the first rounds
      to nothing: in practice, when the item stands on one line. */
  lemma {:induction false} LinesTieExactlyWhen(lines: seq<LineRow>, itemCost: int)
    requires LineIdsUnique(lines) && AnyUncosted(lines, |lines|)
    requires forall i :: 0 <= i < |lines| && lines[i].basis.Uncosted? ==> lines[i].quantity >= 0
    ensures SumLinesFinal(lines, itemCost, |lines|) == itemCost <==>
            forall i :: 0 <= i < |lines| && lines[i].basis.Uncosted? && !FirstLine(lines, i) ==> RoundsAway(lines, itemCost, i)
  {
    LinesOvershoot(lines, itemCost);
    LaterCostsVanish(lines, itemCost, |lines|);
  }

  lemma {:induction false} LinesTiedUpTo(lines: seq<LineRow>, itemCost: int, n: nat)
    requires n <= |lines|
    ensures SumLinesTied(lines, itemCost, n)
         == AllCosts(lines, itemCost, n)
            + if AnyUncosted(lines, n) then itemCost - AllCosts(lines, itemCost, |lines|) else 0
  {
    if n > 0 {
      LinesTiedUpTo(lines, itemCost, n - 1);
      if lines[n - 1].basis.Uncosted? {
        assert FirstLine(lines, n - 1) <==> !AnyUncosted(lines, n - 1);
      }
    }
  }

  /** With the residue taken per (invoice, item) the lines always tie, and every line but the first is
      within half a unit of its exact share. */
  lemma {:induction false} LinesTiedPerItem(lines: seq<LineRow>, itemCost: int)
    requires AnyUncosted(lines, |lines|)
    ensures SumLinesTied(lines, itemCost, |lines|) == itemCost
    ensures var qty := ItemQty(lines, |lines|);
            qty > 0 ==> forall i :: 0 <= i < |lines| && !FirstLine(lines, i) ==>
              -qty <= 2 * (LineCostTied(lines, itemCost, i) * qty - itemCost * lines[i].quantity) <= qty
  {
    LinesTiedUpTo(lines, itemCost, |lines|);
    var qty := ItemQty(lines, |lines|);
    if qty > 0 {
      forall i | 0 <= i < |lines| && !FirstLine(lines, i)
        ensures -qty <= 2 * (LineCostTied(lines, itemCost, i) * qty - itemCost * lines[i].quantity) <= qty
      {
        RoundDivNear(itemCost * lines[i].quantity, qty);
      }
    }
  }

  // ── The whole invoice ─────────────────────────────────────────────────────

  /** Cost written over the lines of the first `n` items; `lines[i]` are the lines of item `i`. */
  function InvoiceCost(items: seq<Item>, cogs: int, lines: seq<seq<LineRow>>, n: nat): int
    requires |lines| == |items| && n <= |items|
  {
    if n == 0 then 0
    else InvoiceCost(items, cogs, lines, n - 1)
         + SumLinesFinal(lines[n - 1], ItemCostFinal(items, cogs, n - 1), |lines[n - 1]|)
  }

  /** What the lines after the first of each item add, and what items without a line take away. */
  function Surplus(items: seq<Item>, cogs: int, lines: seq<seq<LineRow>>, n: nat): int
    requires |lines| == |items| && n <= |items|
  {
    if n == 0 then 0
    else
      var cost, own := ItemCostFinal(items, cogs, n - 1), lines[n - 1];
      Surplus(items, cogs, lines, n - 1)
      + LaterCosts(own, cost, |own|) - if AnyUncosted(own, |own|) then 0 else cost
  }

  lemma {:induction false} InvoiceCostUpTo(items: seq<Item>, cogs: int, lines: seq<seq<LineRow>>, n: nat)
    requires |lines| == |items| && n <= |items| && forall i :: 0 <= i < |lines| ==> LineIdsUnique(lines[i])
    ensures InvoiceCost(items, cogs, lines, n) == SumFinal(items, cogs, n) + Surplus(items, cogs, lines, n)
  {
    if n > 0 {
      InvoiceCostUpTo(items, cogs, lines, n - 1);
      LinesFinalUpTo(lines[n - 1], ItemCostFinal(items, cogs, n - 1), |lines[n - 1]|);
    }
  }

  /** The invoice's lines miss its posting by exactly the surplus, so the header's claim that they equal it
      holds exactly when the surplus is zero. */
  lemma {:induction false} InvoiceMissesBySurplus(items: seq<Item>, cogs: int, lines: seq<seq<LineRow>>)
    requires items != [] && IdsUnique(items)
    requires |lines| == |items| && forall i :: 0 <= i < |lines| ==> LineIdsUnique(lines[i])
    ensures InvoiceCost(items, cogs, lines, |items|) == cogs + Surplus(items, cogs, lines, |items|)
  {
    InvoiceCostUpTo(items, cogs, lines, |items|);
    ItemsTieToPosting(items, cogs);
  }

  lemma {:induction false} OneLineNoSurplus(items: seq<Item>, cogs: int, lines: seq<seq<LineRow>>, n: nat)
    requires |lines| == |items| && n <= |items|
    requires forall i :: 0 <= i < |lines| ==> |lines[i]| == 1 && lines[i][0].basis.Uncosted?
    ensures Surplus(items, cogs, lines, n) == 0
  {
    if n > 0 {
      OneLineNoSurplus(items, cogs, lines, n - 1);
      var own := lines[n - 1];
      assert FirstLine(own, 0);
      assert LaterCosts(own, ItemCostFinal(items, cogs, n - 1), 1)
          == LaterCosts(own, ItemCostFinal(items, cogs, n - 1), 0);
    }
  }

  /** With one line per item the invoice ties to its posting. */
  lemma {:induction false} OneLinePerItemTies(items: seq<Item>, cogs: int, lines: seq<seq<LineRow>>)
    requires items != [] && IdsUnique(items) && |lines| == |items|
    requires forall i :: 0 <= i < |lines| ==> |lines[i]| == 1 && lines[i][0].basis.Uncosted?
    ensures InvoiceCost(items, cogs, lines, |items|) == cogs
  {
    InvoiceMissesBySurplus(items, cogs, lines);
    OneLineNoSurplus(items, cogs, lines, |items|);
  }

  lemma {:induction false} TwoLines(lines: seq<LineRow>, itemCost: int)
    requires |lines| == 2 && lines[0].basis.Uncosted? && lines[1].basis.Uncosted?
    ensures ItemQty(lines, 2) == lines[0].quantity + lines[1].quantity
    ensures LaterCosts(lines, itemCost, 2) == LineCost(lines, itemCost, 1)
    ensures AnyUncosted(lines, 2)
  {
    assert ItemQty(lines, 0) == 0;
    assert ItemQty(lines, 1) == lines[0].quantity;
    assert FirstLine(lines, 0) && !FirstLine(lines, 1);
    assert LaterCosts(lines, itemCost, 0) == 0;
    assert LaterCosts(lines, itemCost, 1) == 0;
  }

  /** One item on two equal lines is charged half as much again, contrary to the stated exactness. */
  lemma {:induction false} TwoLinesOvercharge()
    ensures var line := LineRow(1, 10000, 0, 0, Uncosted);
            InvoiceCost([Item(7, 3)], 1000, [[line, line.(id := 2)]], 1) == 1500
  {
    var line := LineRow(1, 10000, 0, 0, Uncosted);
    var own := [line, line.(id := 2)];
    var items := [Item(7, 3)];
    InvoiceMissesBySurplus(items, 1000, [own]);
    ItemsTieToPosting(items, 1000);
    assert SumFinal(items, 1000, 1) == SumFinal(items, 1000, 0) + ItemCostFinal(items, 1000, 0);
    TwoLines(own, 1000);
    assert LineCost(own, 1000, 1) == RoundDiv(1000 * 10000, 20000) == 500;
    assert Surplus(items, 1000, [own], 1) == Surplus(items, 1000, [own], 0) + 500;
  }

  // ── The update ────────────────────────────────────────────────────────────

  /** `round(line_cost_final / quantity, 4)`, or 0 without a quantity. */
  function UnitCost(cost: int, quantity: int): int {
    if quantity > 0 then RoundDiv(cost * 10000, quantity)
    else if quantity < 0 then RoundDiv(-cost * 10000, -quantity)
    else 0
  }

  lemma {:induction false} RoundDivOdd(a: int, b: int)
    requires b > 0
    ensures RoundDiv(-a, b) == -RoundDiv(a, b)
  {}

  /** A line's unit cost times its quantity is within half a quantity of its cost; without a quantity it is 0. */
  lemma {:induction false} UnitCostNear(cost: int, quantity: int)
    ensures quantity == 0 ==> UnitCost(cost, quantity) == 0
    ensures quantity != 0 ==>
              var size := Posting.Abs(quantity);
              -size <= 2 * (UnitCost(cost, quantity) * quantity - cost * 10000) <= size
  {
    if quantity > 0 {
      RoundDivNear(cost * 10000, quantity);
    } else if quantity < 0 {
      RoundDivNear(-cost * 10000, -quantity);
      Regroup(1, quantity);
      assert UnitCost(cost, quantity) * -quantity == -(UnitCost(cost, quantity) * quantity);
    }
  }

  /** The row the UPDATE leaves: costed rows are not touched. */
  function Written(lines: seq<LineRow>, itemCost: int, nItems: nat, i: nat): LineRow
    requires i < |lines|
  {
    var l := lines[i];
    if !l.basis.Uncosted? then l
    else
      var cost := LineCostFinal(lines, itemCost, i);
      l.(cost := cost, unitCost := UnitCost(cost, l.quantity), basis := if nItems == 1 then Exact else Apportioned)
  }

  /** Writes the costs of one item's lines in place; no line is left without a basis. */
  method WriteCosts(lines: array<LineRow>, itemCost: int, nItems: nat)
    requires LineIdsUnique(lines[..])
    modifies lines
    ensures forall i :: 0 <= i < lines.Length ==> lines[i] == Written(old(lines[..]), itemCost, nItems, i)
    ensures forall i :: 0 <= i < lines.Length ==> !lines[i].basis.Uncosted?
    ensures forall i :: 0 <= i < lines.Length && !old(lines[i]).basis.Uncosted? ==> lines[i] == old(lines[i])
    ensures forall i :: 0 <= i < lines.Length && old(lines[i]).basis.Uncosted? ==>
              && lines[i].id == old(lines[i]).id && lines[i].quantity == old(lines[i]).quantity
              && lines[i].cost == LineCostFinal(old(lines[..]), itemCost, i)
              && lines[i].unitCost == UnitCost(lines[i].cost, lines[i].quantity)
              && lines[i].basis == if nItems == 1 then Exact else Apportioned
  {
    ghost var was := lines[..];
    var qty := 0;
    for i := 0 to lines.Length
      invariant lines[..] == was && qty == ItemQty(was, i)
    {
      if lines[i].basis.Uncosted? {
        qty := qty + lines[i].quantity;
      }
    }
    var first := true;
    for i := 0 to lines.Length
      invariant forall j :: 0 <= j < i ==> lines[j] == Written(was, itemCost, nItems, j)
      invariant forall j :: i <= j < lines.Length ==> lines[j] == was[j]
      invariant first <==> !AnyUncosted(was, i)
    {
      var l := lines[i];
      if l.basis.Uncosted? {
        var share := if qty > 0 then RoundDiv(itemCost * l.quantity, qty) else 0;
        WindowIsOneRow(was, itemCost, i, |was|);
        assert FirstLine(was, i) <==> first;
        var cost := if first then share + (itemCost - share) else share;
        lines[i] := l.(cost := cost, unitCost := UnitCost(cost, l.quantity),
                       basis := if nItems == 1 then Exact else Apportioned);
        first := false;
      }
    }
  }

  /** Once every line has a basis, running the backfill again writes what is there already. */
  method WriteCostsAgain(lines: array<LineRow>, itemCost: int, again: int, nItems: nat)
    requires LineIdsUnique(lines[..])
    modifies lines
    ensures forall i :: 0 <= i < lines.Length ==> lines[i] == Written(old(lines[..]), itemCost, nItems, i)
  {
    WriteCosts(lines, itemCost, nItems);
    WriteCosts(lines, again, nItems);
  }
}
