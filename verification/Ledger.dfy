/**
 Average-cost position keeping (pnl.py). The specification it is measured against is a cash ledger:
 what was paid for purchases less what was received for sales.
 */
module Ledger {
  import opened Common
  import opened Runs

  datatype Fill = Fill(symbol: string, side: Side, quantity: real, price: real, fee: real, slippageBps: real)

  function Signed(f: Fill): real {
    if f.side.Buy? then f.quantity else -f.quantity
  }

  /** The value of a position object: quantity is positive when long, negative when short. */
  datatype Holding = Holding(quantity: real, avgEntry: real, realized: real, fees: real)

  const FLAT := Holding(0.0, 0.0, 0.0, 0.0)

  predicate SameSign(a: real, b: real) {
    (a > 0.0 && b > 0.0) || (a < 0.0 && b < 0.0)
  }

  /** The fill opens or adds to the position. */
  predicate Extends(h: Holding, f: Fill) {
    h.quantity == 0.0 || SameSign(h.quantity, Signed(f))
  }

  /** The profit one fill realizes. */
  function RealizedBy(h: Holding, f: Fill): real {
    if Extends(h, f) then 0.0
    else
      var closeQty := Min(Abs(Signed(f)), Abs(h.quantity));
      if h.quantity > 0.0 then closeQty * (f.price - h.avgEntry) else closeQty * (h.avgEntry - f.price)
  }

  function EntryAfter(h: Holding, f: Fill): real {
    var q := h.quantity + Signed(f);
    if Extends(h, f) then
      if q != 0.0 then (h.avgEntry * Abs(h.quantity) + f.price * Abs(Signed(f))) / Abs(q) else h.avgEntry
    else if SameSign(q, Signed(f)) then f.price
    else h.avgEntry
  }

  function Apply(h: Holding, f: Fill): Holding {
    Holding(h.quantity + Signed(f), EntryAfter(h, f), h.realized + RealizedBy(h, f), h.fees + f.fee)
  }

  /** A fresh position after a sequence of fills. */
  function Book(fills: seq<Fill>): Holding {
    Fold(Apply, FLAT, fills)
  }

  function Unrealized(h: Holding, price: real): real {
    if h.quantity == 0.0 then 0.0
    else if h.quantity > 0.0 then h.quantity * (price - h.avgEntry)
    else Abs(h.quantity) * (h.avgEntry - price)
  }

  // ----- the cash ledger -----

  function CashFlow(f: Fill): real {
    Signed(f) * f.price
  }

  function FeeOf(f: Fill): real {
    f.fee
  }

  /** What the fills cost: purchases at their price, less sales at theirs. */
  function Cash(fills: seq<Fill>): real {
    Total(CashFlow, fills)
  }

  function NetQuantity(fills: seq<Fill>): real {
    Total(Signed, fills)
  }

  function Fees(fills: seq<Fill>): real {
    Total(FeeOf, fills)
  }

  /** What the books say is tied up in the position: its cost at entry, less the profit taken. */
  function CostBasis(h: Holding): real {
    h.quantity * h.avgEntry - h.realized
  }

  lemma ExtendCost(h: Holding, f: Fill)
    requires Extends(h, f)
    ensures (h.quantity + Signed(f)) * EntryAfter(h, f) == h.quantity * h.avgEntry + Signed(f) * f.price
  {
    var q := h.quantity + Signed(f);
    if q != 0.0 {
      var total := h.avgEntry * Abs(h.quantity) + f.price * Abs(Signed(f));
      DivMul(total, Abs(q));
      if q > 0.0 {
        assert Abs(h.quantity) == h.quantity && Abs(Signed(f)) == Signed(f);
      } else {
        assert Abs(h.quantity) == -h.quantity && Abs(Signed(f)) == -Signed(f);
        assert q * EntryAfter(h, f) == -total;
      }
    }
  }

  /** Every fill, whatever it does to the position, moves the cost basis by the cash it moves. */
  lemma ApplyMovesCash(h: Holding, f: Fill)
    ensures CostBasis(Apply(h, f)) == CostBasis(h) + CashFlow(f)
  {
    var s, q := Signed(f), h.quantity;
    if Extends(h, f) {
      ExtendCost(h, f);
    } else if SameSign(q + s, s) {
      assert RealizedBy(h, f) == q * (f.price - h.avgEntry);
    } else {
      assert RealizedBy(h, f) == -s * (f.price - h.avgEntry);
    }
  }

  /** The books agree with the cash ledger after any sequence of fills. */
  lemma BookIsCashLedger(fills: seq<Fill>)
    ensures CostBasis(Book(fills)) == Cash(fills)
    ensures Book(fills).quantity == NetQuantity(fills)
    ensures Book(fills).fees == Fees(fills)
  {
    forall h, f: Fill
      ensures CostBasis(Apply(h, f)) == CostBasis(h) + CashFlow(f)
    {
      ApplyMovesCash(h, f);
    }
    Conserved(Apply, FLAT, _ => true, CostBasis, CashFlow, fills);
    Conserved(Apply, FLAT, _ => true, (h: Holding) => h.quantity, Signed, fills);
    Conserved(Apply, FLAT, _ => true, (h: Holding) => h.fees, FeeOf, fills);
  }

  /** Marking a position at a price turns its cost basis into profit. */
  lemma ProfitOfHolding(h: Holding, price: real)
    ensures h.realized + Unrealized(h, price) == h.quantity * price - CostBasis(h)
  {
  }

  /**
   Realized plus unrealized profit at any price is the position marked at that price less the cash
   spent: through opens, additions, partial and exact closes, and flips.
   */
  lemma ProfitIsMarkLessCash(fills: seq<Fill>, price: real)
    ensures Book(fills).realized + Unrealized(Book(fills), price)
            == NetQuantity(fills) * price - Cash(fills)
  {
    BookIsCashLedger(fills);
    ProfitOfHolding(Book(fills), price);
  }

  /** The position is flat, or its entry price lies within the bounds. */
  predicate EntryWithin(h: Holding, lo: real, hi: real) {
    h.quantity != 0.0 ==> lo <= h.avgEntry <= hi
  }

  /** Adding to a position averages the old entry and the fill price by size. */
  lemma EntryIsMean(h: Holding, f: Fill, a: real, b: real)
    requires Extends(h, f) && h.quantity != 0.0 && a == Abs(h.quantity) && b == Abs(Signed(f))
    ensures a > 0.0 && b > 0.0
    ensures EntryAfter(h, f) * (a + b) == h.avgEntry * a + f.price * b
  {
    assert Abs(h.quantity + Signed(f)) == a + b;
    DivMul(h.avgEntry * a + f.price * b, a + b);
  }

  /** Opening from flat enters at the fill price. */
  lemma FirstEntry(h: Holding, f: Fill)
    requires h.quantity == 0.0 && Signed(f) != 0.0
    ensures EntryAfter(h, f) == f.price
  {
    var w := Abs(Signed(f));
    DivUnique(f.price, h.avgEntry * 0.0 + f.price * w, w);
  }

  lemma CancelProduct(x: real, y: real, s: real, xs: real, ys: real)
    requires s > 0.0 && xs == x * s && ys == y * s && xs <= ys
    ensures x <= y
  {
    CancelLe(x, y, s);
  }

  /** A weighted average lies between any bounds on what it averages. */
  lemma MeanAtLeast(e: real, p: real, a: real, r: real, b: real, lo: real)
    requires a > 0.0 && b > 0.0 && lo <= p && lo <= r
    requires e * (a + b) == p * a + r * b
    ensures lo <= e
  {
    MulMono(lo, p, a);
    MulMono(lo, r, b);
    Distribute(lo, a, b);
    CancelProduct(lo, e, a + b, lo * (a + b), e * (a + b));
  }

  lemma MeanAtMost(e: real, p: real, a: real, r: real, b: real, hi: real)
    requires a > 0.0 && b > 0.0 && p <= hi && r <= hi
    requires e * (a + b) == p * a + r * b
    ensures e <= hi
  {
    MulMono(p, hi, a);
    MulMono(r, hi, b);
    Distribute(hi, a, b);
    CancelProduct(e, hi, a + b, e * (a + b), hi * (a + b));
  }

  lemma ApplyKeepsEntryWithin(h: Holding, f: Fill, lo: real, hi: real)
    requires EntryWithin(h, lo, hi) && lo <= f.price <= hi
    ensures EntryWithin(Apply(h, f), lo, hi)
  {
    var q, s := h.quantity, Signed(f);
    if Extends(h, f) && q + s != 0.0 {
      if q == 0.0 {
        FirstEntry(h, f);
      } else {
        var e, a, b := EntryAfter(h, f), Abs(q), Abs(s);
        EntryIsMean(h, f, a, b);
        MeanAtLeast(e, h.avgEntry, a, f.price, b, lo);
        MeanAtMost(e, h.avgEntry, a, f.price, b, hi);
      }
    }
  }

  /** The entry price never leaves the range of the prices traded at. */
  lemma EntryWithinTradedRange(fills: seq<Fill>, lo: real, hi: real)
    requires forall i :: 0 <= i < |fills| ==> lo <= fills[i].price <= hi
    ensures EntryWithin(Book(fills), lo, hi)
  {
    forall h, f: Fill | EntryWithin(h, lo, hi) && lo <= f.price <= hi
      ensures EntryWithin(Apply(h, f), lo, hi)
    {
      ApplyKeepsEntryWithin(h, f, lo, hi);
    }
    Invariant(Apply, FLAT, (h: Holding) => EntryWithin(h, lo, hi), (f: Fill) => lo <= f.price <= hi, fills);
  }

  // ----- the program -----

  class Position {
    const symbol: string
    var quantity: real
    var avgEntryPrice: real
    var realizedPnl: real
    var totalFees: real

    constructor (symbol: string)
      ensures this.symbol == symbol && Value() == FLAT
    {
      this.symbol := symbol;
      quantity, avgEntryPrice, realizedPnl, totalFees := 0.0, 0.0, 0.0, 0.0;
    }

    function Value(): Holding
      reads this
    {
      Holding(quantity, avgEntryPrice, realizedPnl, totalFees)
    }

    method Extend(f: Fill)
      requires Extends(Value(), f)
      modifies this
      ensures Value() == Apply(old(Value()), f)
    {
      ghost var h := Value();
      var signedQty := if f.side.Buy? then f.quantity else -f.quantity;
      var totalCost := avgEntryPrice * Abs(quantity) + f.price * Abs(signedQty);
      totalFees := totalFees + f.fee;
      quantity := quantity + signedQty;
      if quantity != 0.0 {
        avgEntryPrice := totalCost / Abs(quantity);
      }
    }

    /** Books a fill and returns the profit it realizes. */
    method ApplyFill(f: Fill) returns (realized: real)
      modifies this
      ensures Value() == Apply(old(Value()), f)
      ensures realized == RealizedBy(old(Value()), f)
    {
      var signedQty := if f.side.Buy? then f.quantity else -f.quantity;
      if quantity == 0.0 || (quantity > 0.0 && signedQty > 0.0) || (quantity < 0.0 && signedQty < 0.0) {
        Extend(f);
        return 0.0;
      }
      totalFees := totalFees + f.fee;
      var closeQty := Min(Abs(signedQty), Abs(quantity));
      if quantity > 0.0 {
        realized := closeQty * (f.price - avgEntryPrice);
      } else {
        realized := closeQty * (avgEntryPrice - f.price);
      }
      realizedPnl := realizedPnl + realized;
      quantity := quantity + signedQty;
      if (quantity > 0.0 && signedQty > 0.0) || (quantity < 0.0 && signedQty < 0.0) {
        avgEntryPrice := f.price;
      }
    }
  }
}
