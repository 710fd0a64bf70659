/** A customer's exposure against the credit limit, the advance a sale past it needs, and the
    owner's override. Source: src/common/utils/credit-control.util.ts. Amounts are exact reals:
    tax makes more than four decimals. */
module CreditControl {
  import opened Options
  import opened Text

  datatype Invoice = Invoice(status: string, balance: real)

  datatype Receipt = Receipt(amount: real, applied: real)

  datatype Item = Item(ordered: real, quantity: real, price: real, taxRate: real)

  datatype Delivery = Delivery(ledgerStatus: string, prepaid: bool, advanceLinked: bool, items: seq<Item>)

  datatype OrderLine = OrderLine(fulfilled: real, price: real, taxRate: real)

  datatype Order = Order(id: nat, status: string, delivered: bool, lines: seq<OrderLine>)

  datatype Memo = Memo(status: string, balance: real)

  /** What the assessment reads of one customer. */
  datatype Customer = Customer(
    limit: real,
    invoices: seq<Invoice>,
    receipts: seq<Receipt>,
    deliveries: seq<Delivery>,
    orders: seq<Order>,
    memos: seq<Memo>)

  /** The sale being checked: its value and its sales order, whose own value is left out of the sums. */
  datatype Sale = Sale(adds: real, order: Option<nat>)

  /** What goods are worth with tax: the application adds the tax to the base, SQL multiplies by it. */
  function GrossValue(quantity: real, unitPrice: real, taxRate: real): (v: real)
    ensures v == quantity * unitPrice * (1.0 + taxRate / 100.0)
  {
    var base := quantity * unitPrice;
    base + base * taxRate / 100.0
  }

  predicate Counts(invoice: Invoice) {
    invoice.status != "draft" && invoice.status != "void"
  }

  function OpenInvoices(invoices: seq<Invoice>, n: nat): real
    requires n <= |invoices|
  {
    if n == 0 then 0.0
    else OpenInvoices(invoices, n - 1) + if Counts(invoices[n - 1]) then invoices[n - 1].balance else 0.0
  }

  function Remainder(r: Receipt): real {
    r.amount - r.applied
  }

  function Held(r: Receipt): real {
    if Remainder(r) > 0.0 then Remainder(r) else 0.0
  }

  function Advances(receipts: seq<Receipt>, n: nat): real
    requires n <= |receipts|
  {
    if n == 0 then 0.0 else Advances(receipts, n - 1) + Held(receipts[n - 1])
  }

  function ItemsValue(items: seq<Item>, n: nat): real
    requires n <= |items|
  {
    if n == 0 then 0.0
    else
      var it := items[n - 1];
      ItemsValue(items, n - 1) + GrossValue(if it.ordered > 0.0 then it.ordered else it.quantity, it.price, it.taxRate)
  }

  /** Goods on the road: dispatched, not approved, and not prepaid in the old way without a receipt. */
  function InTransit(deliveries: seq<Delivery>, n: nat): real
    requires n <= |deliveries|
  {
    if n == 0 then 0.0
    else
      var d := deliveries[n - 1];
      InTransit(deliveries, n - 1)
      + if d.ledgerStatus == "in_transit" && !(d.prepaid && !d.advanceLinked) then ItemsValue(d.items, |d.items|) else 0.0
  }

  function OrderValue(lines: seq<OrderLine>, n: nat): real
    requires n <= |lines|
  {
    if n == 0 then 0.0
    else
      var l := lines[n - 1];
      OrderValue(lines, n - 1) + GrossValue(l.fulfilled, l.price, l.taxRate)
  }

  /** Goods shipped on an order and not yet invoiced; an order with deliveries is counted by those. */
  predicate Shipping(order: Order) {
    (order.status == "partial" || order.status == "fulfilled") && !order.delivered
  }

  function Shipped(orders: seq<Order>, n: nat, except: Option<nat>): real
    requires n <= |orders|
  {
    if n == 0 then 0.0
    else
      var o := orders[n - 1];
      Shipped(orders, n - 1, except)
      + if Shipping(o) && except != Some(o.id) then OrderValue(o.lines, |o.lines|) else 0.0
  }

  function Credits(memos: seq<Memo>, n: nat): real
    requires n <= |memos|
  {
    if n == 0 then 0.0
    else Credits(memos, n - 1) + if memos[n - 1].status != "void" then memos[n - 1].balance else 0.0
  }

  /** What the customer would owe in all, this sale included. */
  function Exposure(c: Customer, sale: Sale): real {
    OpenInvoices(c.invoices, |c.invoices|) + InTransit(c.deliveries, |c.deliveries|)
    + Shipped(c.orders, |c.orders|, sale.order)
    - Advances(c.receipts, |c.receipts|) - Credits(c.memos, |c.memos|) + sale.adds
  }

  function Excess(c: Customer, sale: Sale): real {
    if c.limit > 0.0 && Exposure(c, sale) - c.limit > 0.0 then Exposure(c, sale) - c.limit else 0.0
  }

  predicate WithinLimit(c: Customer, sale: Sale) {
    Excess(c, sale) <= 0.0
  }

  /** `toFixed(4)`: the nearest unit of 0.0001, halves away from zero. */
  function ToUnits(x: real): int {
    if x >= 0.0 then (x * 10000.0 + 0.5).Floor else -((-x * 10000.0 + 0.5).Floor)
  }

  function Money(units: int): real {
    units as real / 10000.0
  }

  /** What the refusal tells the customer to pay in advance, in units. */
  function RequiredAdvance(c: Customer, sale: Sale): int {
    ToUnits(Excess(c, sale))
  }

  // ── What the exposure counts ───────────────────────────────────────────────

  lemma {:induction false} OpenInvoicesPrefix(xs: seq<Invoice>, x: Invoice, n: nat)
    requires n <= |xs|
    ensures OpenInvoices(xs + [x], n) == OpenInvoices(xs, n)
  {
    if n > 0 { OpenInvoicesPrefix(xs, x, n - 1); }
  }

  lemma {:induction false} InTransitPrefix(xs: seq<Delivery>, x: Delivery, n: nat)
    requires n <= |xs|
    ensures InTransit(xs + [x], n) == InTransit(xs, n)
  {
    if n > 0 { InTransitPrefix(xs, x, n - 1); }
  }

  lemma {:induction false} ShippedPrefix(xs: seq<Order>, x: Order, n: nat, except: Option<nat>)
    requires n <= |xs|
    ensures Shipped(xs + [x], n, except) == Shipped(xs, n, except)
  {
    if n > 0 { ShippedPrefix(xs, x, n - 1, except); }
  }

  lemma {:induction false} CreditsPrefix(xs: seq<Memo>, x: Memo, n: nat)
    requires n <= |xs|
    ensures Credits(xs + [x], n) == Credits(xs, n)
  {
    if n > 0 { CreditsPrefix(xs, x, n - 1); }
  }

  /** A customer with nothing owes the sale. */
  lemma {:induction false} NothingButTheSale(limit: real, sale: Sale)
    ensures Exposure(Customer(limit, [], [], [], [], []), sale) == sale.adds
  {}

  /** One more invoice raises the exposure by its balance unless it is a draft or void. */
  lemma {:induction false} InvoiceRaises(c: Customer, x: Invoice, sale: Sale)
    ensures Exposure(c.(invoices := c.invoices + [x]), sale)
         == Exposure(c, sale) + if x.status == "draft" || x.status == "void" then 0.0 else x.balance
  {
    OpenInvoicesPrefix(c.invoices, x, |c.invoices|);
  }

  /** One more delivery raises it by its goods while they are on the road, but for one prepaid without a
      receipt. */
  lemma {:induction false} DeliveryRaises(c: Customer, x: Delivery, sale: Sale)
    ensures Exposure(c.(deliveries := c.deliveries + [x]), sale)
         == Exposure(c, sale)
            + if x.ledgerStatus != "in_transit" || (x.prepaid && !x.advanceLinked) then 0.0
              else ItemsValue(x.items, |x.items|)
  {
    InTransitPrefix(c.deliveries, x, |c.deliveries|);
  }

  /** One more order raises it by what it has shipped, unless it is the sale's own or counted by deliveries. */
  lemma {:induction false} OrderRaises(c: Customer, x: Order, sale: Sale)
    ensures Exposure(c.(orders := c.orders + [x]), sale)
         == Exposure(c, sale)
            + if x.status !in {"partial", "fulfilled"} || x.delivered || sale.order == Some(x.id) then 0.0
              else OrderValue(x.lines, |x.lines|)
  {
    ShippedPrefix(c.orders, x, |c.orders|, sale.order);
  }

  /** One more receipt lowers it by what it still holds. */
  lemma {:induction false} ReceiptLowers(c: Customer, x: Receipt, sale: Sale)
    ensures Exposure(c.(receipts := c.receipts + [x]), sale)
         == Exposure(c, sale) - if x.amount > x.applied then x.amount - x.applied else 0.0
  {
    AdvancesPrefix(c.receipts, x, |c.receipts|);
  }

  /** One more credit memo lowers it by its balance unless it is void. */
  lemma {:induction false} MemoLowers(c: Customer, x: Memo, sale: Sale)
    ensures Exposure(c.(memos := c.memos + [x]), sale) == Exposure(c, sale) - if x.status == "void" then 0.0 else x.balance
  {
    CreditsPrefix(c.memos, x, |c.memos|);
  }

  lemma {:induction false} ItemsValuePrefix(xs: seq<Item>, x: Item, n: nat)
    requires n <= |xs|
    ensures ItemsValue(xs + [x], n) == ItemsValue(xs, n)
  {
    if n > 0 { ItemsValuePrefix(xs, x, n - 1); }
  }

  lemma {:induction false} OrderValuePrefix(xs: seq<OrderLine>, x: OrderLine, n: nat)
    requires n <= |xs|
    ensures OrderValue(xs + [x], n) == OrderValue(xs, n)
  {
    if n > 0 { OrderValuePrefix(xs, x, n - 1); }
  }

  /** Goods are worth quantity times price with tax: of a delivery what was ordered, or else its quantity,
      of an order what was fulfilled. */
  lemma {:induction false} GoodsAreWorth(items: seq<Item>, item: Item, lines: seq<OrderLine>, line: OrderLine)
    ensures ItemsValue([], 0) == 0.0 && OrderValue([], 0) == 0.0
    ensures var quantity := if item.ordered > 0.0 then item.ordered else item.quantity;
            ItemsValue(items + [item], |items| + 1)
            == ItemsValue(items, |items|) + quantity * item.price * (1.0 + item.taxRate / 100.0)
    ensures OrderValue(lines + [line], |lines| + 1)
            == OrderValue(lines, |lines|) + line.fulfilled * line.price * (1.0 + line.taxRate / 100.0)
  {
    ItemsValuePrefix(items, item, |items|);
    OrderValuePrefix(lines, line, |lines|);
  }

  /** The limit binds only when it is above zero, and then the excess is what the exposure has past it. */
  lemma {:induction false} LimitBinds(c: Customer, sale: Sale)
    ensures WithinLimit(c, sale) <==> c.limit <= 0.0 || Exposure(c, sale) <= c.limit
    ensures !WithinLimit(c, sale) ==> Excess(c, sale) == Exposure(c, sale) - c.limit
  {}

  // ── The sale's own order ──────────────────────────────────────────────────

  lemma {:induction false} ShippedExcept(orders: seq<Order>, n: nat, i: nat)
    requires i < |orders| && n <= |orders|
    requires forall j, k :: 0 <= j < k < |orders| ==> orders[j].id != orders[k].id
    ensures Shipped(orders, n, Some(orders[i].id))
            == Shipped(orders, n, None)
               - if i < n && Shipping(orders[i]) then OrderValue(orders[i].lines, |orders[i].lines|) else 0.0
  {
    if n > 0 {
      ShippedExcept(orders, n - 1, i);
    }
  }

  /** Invoicing what an order has shipped leaves the exposure as it was: the order's goods count once,
      as part of the sale or as shipped, never twice. */
  lemma {:induction false} OwnOrderCountsOnce(c: Customer, i: nat)
    requires i < |c.orders| && Shipping(c.orders[i])
    requires forall j, k :: 0 <= j < k < |c.orders| ==> c.orders[j].id != c.orders[k].id
    ensures var o := c.orders[i];
            Exposure(c, Sale(OrderValue(o.lines, |o.lines|), Some(o.id))) == Exposure(c, Sale(0.0, None))
  {
    ShippedExcept(c.orders, |c.orders|, i);
  }

  // ── Applying a receipt ─────────────────────────────────────────────────────

  /** Part of a receipt applied to an invoice. */
  function Apply(c: Customer, i: nat, r: nat, part: real): Customer
    requires i < |c.invoices| && r < |c.receipts|
  {
    var invoice, receipt := c.invoices[i], c.receipts[r];
    c.(invoices := c.invoices[i := invoice.(balance := invoice.balance - part)],
       receipts := c.receipts[r := receipt.(applied := receipt.applied + part)])
  }

  lemma {:induction false} OpenInvoicesChange(before: seq<Invoice>, i: nat, now: Invoice, n: nat)
    requires i < |before| && n <= |before| && now.status == before[i].status
    ensures OpenInvoices(before[i := now], n)
            == OpenInvoices(before, n) + if i < n && Counts(now) then now.balance - before[i].balance else 0.0
  {
    if n > 0 {
      OpenInvoicesChange(before, i, now, n - 1);
    }
  }

  lemma {:induction false} AdvancesChange(before: seq<Receipt>, i: nat, now: Receipt, n: nat)
    requires i < |before| && n <= |before|
    ensures Advances(before[i := now], n) == Advances(before, n) + if i < n then Held(now) - Held(before[i]) else 0.0
  {
    if n > 0 {
      AdvancesChange(before, i, now, n - 1);
    }
  }

  /** Applying part of a receipt moves nothing in or out of the exposure exactly when the invoice
      counts and the receipt still held that part, or neither had any say. */
  lemma {:induction false} ApplyingKeepsExposure(c: Customer, i: nat, r: nat, part: real, sale: Sale)
    requires i < |c.invoices| && r < |c.receipts| && part > 0.0
    ensures Exposure(Apply(c, i, r, part), sale) == Exposure(c, sale)
            <==> if Counts(c.invoices[i]) then part <= Remainder(c.receipts[r]) else Remainder(c.receipts[r]) <= 0.0
  {
    var d := Apply(c, i, r, part);
    OpenInvoicesChange(c.invoices, i, d.invoices[i], |c.invoices|);
    AdvancesChange(c.receipts, r, d.receipts[r], |c.receipts|);
  }

  // ── The advance a sale needs ───────────────────────────────────────────────

  /** A new receipt, nothing of it applied. */
  function Pay(c: Customer, amount: real): Customer {
    c.(receipts := c.receipts + [Receipt(amount, 0.0)])
  }

  lemma {:induction false} AdvancesPrefix(receipts: seq<Receipt>, r: Receipt, n: nat)
    requires n <= |receipts|
    ensures Advances(receipts + [r], n) == Advances(receipts, n)
  {
    if n > 0 {
      AdvancesPrefix(receipts, r, n - 1);
    }
  }

  lemma {:induction false} PayLowersExposure(c: Customer, amount: real, sale: Sale)
    requires amount >= 0.0
    ensures Exposure(Pay(c, amount), sale) == Exposure(c, sale) - amount
  {
    AdvancesPrefix(c.receipts, Receipt(amount, 0.0), |c.receipts|);
  }

  lemma {:induction false} ToUnitsNear(x: real)
    ensures -0.00005 <= Money(ToUnits(x)) - x <= 0.00005
    ensures x >= 0.0 ==> ToUnits(x) >= 0
  {}

  /** Below zero the rounding mirrors that above. */
  lemma {:induction false} ToUnitsOdd(x: real)
    ensures ToUnits(-x) == -ToUnits(x)
  {}

  lemma {:induction false} ToUnitsExact(units: int)
    ensures ToUnits(Money(units)) == units
  {}

  /** An advance settles the sale exactly when it covers the excess. */
  lemma {:induction false} AdvanceSettles(c: Customer, amount: real, sale: Sale)
    requires amount >= 0.0
    ensures WithinLimit(Pay(c, amount), sale) <==> Excess(c, sale) <= amount
    ensures Excess(Pay(c, amount), sale) == if Excess(c, sale) <= amount then 0.0 else Excess(c, sale) - amount
  {
    PayLowersExposure(c, amount, sale);
  }

  /** What an amount has beyond its fourth decimal, in units of the fourth. */
  function BeyondFour(x: real): real {
    x * 10000.0 - (x * 10000.0).Floor as real
  }

  lemma {:induction false} RoundedDownExactlyWhen(x: real)
    requires x >= 0.0
    ensures x <= Money(ToUnits(x)) <==> BeyondFour(x) == 0.0 || BeyondFour(x) >= 0.5
    ensures ToUnits(x) == 0 <==> x < 0.00005
  {
    var whole := (x * 10000.0).Floor;
    assert ToUnits(x) == if BeyondFour(x) >= 0.5 then whole + 1 else whole;
  }

  /** The advance asked for leaves at most half a unit over the limit, and none at all exactly when
      the excess has nothing beyond its fourth decimal or a fifth decimal of five or more; a refused
      sale is asked for nothing exactly when its excess is below half a unit. */
  lemma {:induction false} RequiredAdvanceNearlySettles(c: Customer, sale: Sale)
    ensures var paid := Pay(c, Money(RequiredAdvance(c, sale)));
            && Excess(paid, sale) <= 0.00005
            && (WithinLimit(paid, sale) <==> BeyondFour(Excess(c, sale)) == 0.0 || BeyondFour(Excess(c, sale)) >= 0.5)
    ensures !WithinLimit(c, sale) ==> (RequiredAdvance(c, sale) == 0 <==> Excess(c, sale) < 0.00005)
  {
    ToUnitsNear(Excess(c, sale));
    RoundedDownExactlyWhen(Excess(c, sale));
    AdvanceSettles(c, Money(RequiredAdvance(c, sale)), sale);
  }

  /** With amounts of four decimals it settles the sale, and no smaller advance does. */
  lemma {:induction false} RequiredAdvanceIsLeast(c: Customer, sale: Sale, units: int, amount: real)
    requires Excess(c, sale) == Money(units) && amount >= 0.0
    ensures Money(RequiredAdvance(c, sale)) == Excess(c, sale)
    ensures WithinLimit(Pay(c, Money(RequiredAdvance(c, sale))), sale)
    ensures WithinLimit(Pay(c, amount), sale) <==> amount >= Money(RequiredAdvance(c, sale))
  {
    ToUnitsExact(units);
    AdvanceSettles(c, Money(RequiredAdvance(c, sale)), sale);
    AdvanceSettles(c, amount, sale);
  }

  // ── Enforcing it ───────────────────────────────────────────────────────────

  datatype Override = Override(reason: string, userId: string, role: string)

  datatype AuditEvent = AuditEvent(userId: string, targetId: Option<string>, reason: string, exposure: int, excess: int)

  datatype CreditError = OwnerOnly | ReasonRequired | LimitExceeded(requiredAdvance: int)

  /** A sale may go ahead when it is within the limit, or past it with the owner's reason. */
  predicate Allowed(c: Customer, sale: Sale, override: Option<Override>) {
    WithinLimit(c, sale)
    || (override.Some? && override.value.role == "admin" && |Trim(override.value.reason)| >= 5)
  }

  class CreditDesk {
    var events: seq<AuditEvent>

    /** Refuses a sale that is not allowed, saying why; one let past the limit leaves one event. */
    method EnforceCreditLimit(c: Customer, sale: Sale, targetId: Option<string>, override: Option<Override>)
      returns (r: Result<int, CreditError>)
      modifies `events
      ensures r.Ok? <==> Allowed(c, sale, override)
      ensures r.Ok? <==>
                || c.limit <= 0.0 || Exposure(c, sale) <= c.limit
                || (override.Some? && override.value.role == "admin" && |Trim(override.value.reason)| >= 5)
      ensures r.Ok? ==> r.value == RequiredAdvance(c, sale)
      ensures r.Err? ==> r.error == if override.None? then LimitExceeded(RequiredAdvance(c, sale))
                                    else if override.value.role != "admin" then OwnerOnly else ReasonRequired
      ensures events == if WithinLimit(c, sale) || r.Err? then old(events)
                        else old(events) + [AuditEvent(override.value.userId, targetId, Trim(override.value.reason),
                                                       ToUnits(Exposure(c, sale)), RequiredAdvance(c, sale))]
    {
      if Excess(c, sale) <= 0.0 { return Ok(RequiredAdvance(c, sale)); }
      if override.Some? {
        if override.value.role != "admin" { return Err(OwnerOnly); }
        var reason := Trim(override.value.reason);
        if |reason| < 5 { return Err(ReasonRequired); }
        events := events + [AuditEvent(override.value.userId, targetId, reason,
                                       ToUnits(Exposure(c, sale)), RequiredAdvance(c, sale))];
        return Ok(RequiredAdvance(c, sale));
      }
      return Err(LimitExceeded(RequiredAdvance(c, sale)));
    }
  }
}
