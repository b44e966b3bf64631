/**
 Walking the order book for an average fill price (fill_simulator.py, walk_the_book; the C++ twin in
 matching_engine.cpp is line for line the same).

 The optimality argument only needs the cost of an amount at a price to be additive in the amount and
 monotone in the price, so it is carried out for any such `pay` and then used for multiplication.
 */
module BookWalk {
  import opened Common

  /** pay(a, p) is what amount a costs at price p. */
  type Pricing = (real, real) -> real

  ghost predicate IsPricing(pay: Pricing) {
    && (forall a, b, p :: pay(a + b, p) == pay(a, p) + pay(b, p))
    && (forall a, p, r :: a >= 0.0 && p <= r ==> pay(a, p) <= pay(a, r))
  }

  /** What is left of the quantity after the levels, and what was paid for the rest. */
  datatype Walk = Walk(remaining: real, cost: real)

  /** The walk over the levels, stopping as soon as nothing remains. */
  function Greedy(levels: seq<Level>, quantity: real, pay: Pricing): Walk {
    if |levels| == 0 then Walk(quantity, 0.0)
    else
      var take := Min(quantity, levels[0].qty);
      var paid := pay(take, levels[0].price);
      if quantity - take <= 0.0 then Walk(quantity - take, paid)
      else
        var rest := Greedy(levels[1..], quantity - take, pay);
        Walk(rest.remaining, rest.cost + paid)
  }

  function Cost(levels: seq<Level>, quantity: real, pay: Pricing): real {
    Greedy(levels, quantity, pay).cost
  }

  function Filled(levels: seq<Level>, quantity: real): real {
    quantity - Greedy(levels, quantity, Times).remaining
  }

  /** The average price returned for a book. */
  function AveragePrice(levels: seq<Level>, quantity: real): real {
    if |levels| == 0 then 0.0
    else if Filled(levels, quantity) <= 0.0 then levels[0].price
    else Cost(levels, quantity, Times) / Filled(levels, quantity)
  }

  predicate NonNegativeSizes(levels: seq<Level>) {
    forall i :: 0 <= i < |levels| ==> levels[i].qty >= 0.0
  }

  /** Best price first for a buyer. */
  predicate Ascending(levels: seq<Level>) {
    forall i, j :: 0 <= i < j < |levels| ==> levels[i].price <= levels[j].price
  }

  /** Best price first for a seller. */
  predicate Descending(levels: seq<Level>) {
    forall i, j :: 0 <= i < j < |levels| ==> levels[i].price >= levels[j].price
  }

  // ----- any way to fill from the book -----

  /** takes[i] is taken at level i. */
  predicate Feasible(levels: seq<Level>, takes: seq<real>) {
    |takes| == |levels| && forall i :: 0 <= i < |levels| ==> 0.0 <= takes[i] <= levels[i].qty
  }

  function Taken(takes: seq<real>): real {
    if |takes| == 0 then 0.0 else takes[0] + Taken(takes[1..])
  }

  function CostOf(levels: seq<Level>, takes: seq<real>, pay: Pricing): real
    requires |takes| == |levels|
  {
    if |levels| == 0 then 0.0 else pay(takes[0], levels[0].price) + CostOf(levels[1..], takes[1..], pay)
  }

  /** What the greedy walk takes at each level. */
  function GreedyTakes(levels: seq<Level>, quantity: real): (takes: seq<real>)
    ensures |takes| == |levels|
  {
    if |levels| == 0 then []
    else
      var take := Min(quantity, levels[0].qty);
      [take] + GreedyTakes(levels[1..], quantity - take)
  }

  // ----- the shape of the walk -----

  /** What is filled does not depend on the prices. */
  lemma {:induction false} RemainingIsPriceFree(levels: seq<Level>, quantity: real, pay: Pricing)
    ensures Greedy(levels, quantity, pay).remaining == Greedy(levels, quantity, Times).remaining
  {
    if |levels| == 0 {
    } else {
      RemainingIsPriceFree(levels[1..], quantity - Min(quantity, levels[0].qty), pay);
    }
  }

  lemma PayAdds(pay: Pricing, a: real, b: real, c: real, p: real)
    requires IsPricing(pay) && c == a + b
    ensures pay(c, p) == pay(a, p) + pay(b, p)
  {
  }

  lemma PayMore(pay: Pricing, a: real, p: real, r: real)
    requires IsPricing(pay) && a >= 0.0 && p <= r
    ensures pay(a, p) <= pay(a, r)
  {
  }

  lemma PayNothing(pay: Pricing, p: real)
    requires IsPricing(pay)
    ensures pay(0.0, p) == 0.0
  {
    hide IsPricing;
    PayAdds(pay, 0.0, 0.0, 0.0, p);
  }

  /** Nothing more is taken once nothing remains. */
  lemma {:induction false} WalkOfNothing(levels: seq<Level>, pay: Pricing)
    requires NonNegativeSizes(levels) && IsPricing(pay)
    ensures Greedy(levels, 0.0, pay) == Walk(0.0, 0.0)
    ensures Taken(GreedyTakes(levels, 0.0)) == 0.0 == CostOf(levels, GreedyTakes(levels, 0.0), pay)
    ensures Feasible(levels, GreedyTakes(levels, 0.0))
  {
    if |levels| == 0 {
    } else {
      hide IsPricing;
      PayNothing(pay, levels[0].price);
      WalkOfNothing(levels[1..], pay);
      assert GreedyTakes(levels, 0.0)[1..] == GreedyTakes(levels[1..], 0.0);
    }
  }

  lemma EmptyBook(levels: seq<Level>, quantity: real, pay: Pricing)
    requires |levels| == 0
    ensures Filled(levels, quantity) == 0.0 == Cost(levels, quantity, pay)
  {
  }

  /** The walk as first level plus rest, without the early exit. */
  lemma GreedyUnfold(levels: seq<Level>, quantity: real, pay: Pricing)
    requires |levels| > 0 && NonNegativeSizes(levels) && quantity >= 0.0 && IsPricing(pay)
    ensures var take := Min(quantity, levels[0].qty);
            && Cost(levels, quantity, pay) == Cost(levels[1..], quantity - take, pay) + pay(take, levels[0].price)
            && Filled(levels, quantity) == Filled(levels[1..], quantity - take) + take
  {
    hide IsPricing;
    RemainingIsPriceFree(levels, quantity, pay);
    var take := Min(quantity, levels[0].qty);
    RemainingIsPriceFree(levels[1..], quantity - take, pay);
    if quantity - take <= 0.0 {
      WalkOfNothing(levels[1..], pay);
    }
  }

  /** The greedy walk is one feasible way to fill what it fills, at the cost it reports. */
  lemma {:induction false} GreedyIsFeasible(levels: seq<Level>, quantity: real, pay: Pricing)
    requires NonNegativeSizes(levels) && quantity >= 0.0 && IsPricing(pay)
    ensures Feasible(levels, GreedyTakes(levels, quantity))
    ensures Taken(GreedyTakes(levels, quantity)) == Filled(levels, quantity)
    ensures CostOf(levels, GreedyTakes(levels, quantity), pay) == Cost(levels, quantity, pay)
    ensures 0.0 <= Filled(levels, quantity) <= quantity
  {
    hide IsPricing, Greedy, Filled, Cost;
    if |levels| == 0 {
      EmptyBook(levels, quantity, pay);
    } else {
      var take := Min(quantity, levels[0].qty);
      assert GreedyTakes(levels, quantity)[1..] == GreedyTakes(levels[1..], quantity - take);
      GreedyIsFeasible(levels[1..], quantity - take, pay);
      GreedyUnfold(levels, quantity, pay);
    }
  }

  lemma {:induction false} TakenNonNeg(levels: seq<Level>, takes: seq<real>)
    requires Feasible(levels, takes)
    ensures Taken(takes) >= 0.0
  {
    if |levels| == 0 {
    } else {
      TakenNonNeg(levels[1..], takes[1..]);
    }
  }

  /** A quantity no larger than one that can be filled can be filled. */
  lemma {:induction false} FilledAll(levels: seq<Level>, less: real, more: real, pay: Pricing)
    requires NonNegativeSizes(levels) && 0.0 <= less <= more && Filled(levels, more) == more && IsPricing(pay)
    ensures Filled(levels, less) == less
  {
    hide IsPricing, Greedy, Filled, Cost;
    if |levels| == 0 {
      EmptyBook(levels, less, pay);
      EmptyBook(levels, more, pay);
    } else {
      GreedyUnfold(levels, less, pay);
      GreedyUnfold(levels, more, pay);
      GreedyIsFeasible(levels[1..], more - Min(more, levels[0].qty), pay);
      FilledAll(levels[1..], less - Min(less, levels[0].qty), more - Min(more, levels[0].qty), pay);
    }
  }

  /** Everything a feasible fill takes, the greedy walk can fill as well. */
  lemma {:induction false} GreedyFillsAny(levels: seq<Level>, takes: seq<real>, pay: Pricing)
    requires NonNegativeSizes(levels) && Feasible(levels, takes) && IsPricing(pay)
    ensures Filled(levels, Taken(takes)) == Taken(takes)
  {
    hide IsPricing, Greedy, Filled, Cost;
    if |levels| == 0 {
      EmptyBook(levels, Taken(takes), pay);
    } else {
      TakenNonNeg(levels[1..], takes[1..]);
      GreedyFillsAny(levels[1..], takes[1..], pay);
      var q := Taken(takes);
      GreedyUnfold(levels, q, pay);
      FilledAll(levels[1..], q - Min(q, levels[0].qty), Taken(takes[1..]), pay);
    }
  }

  // ----- optimality -----

  /** The rest of the extra units cost at least the price, and those at the first level at least its own. */
  lemma SlopeStep(pay: Pricing, a: real, b: real, extra: real, price: real, p0: real, less: real, more: real)
    requires IsPricing(pay) && a <= b && price <= p0 && more >= less + pay(extra, price)
    ensures more + pay(b, p0) >= less + pay(a, p0) + pay(extra + (b - a), price)
  {
    hide IsPricing;
    PayAdds(pay, extra, b - a, extra + (b - a), price);
    PayMore(pay, b - a, price, p0);
    PayAdds(pay, a, b - a, b, p0);
  }

  /** Filling more costs at least the best price for each extra unit. */
  lemma {:induction false} GreedySlope(levels: seq<Level>, less: real, more: real, price: real, pay: Pricing)
    requires NonNegativeSizes(levels) && 0.0 <= less <= more && IsPricing(pay)
    requires forall i :: 0 <= i < |levels| ==> price <= levels[i].price
    ensures Filled(levels, less) <= Filled(levels, more)
    ensures Cost(levels, more, pay)
            >= Cost(levels, less, pay) + pay(Filled(levels, more) - Filled(levels, less), price)
  {
    hide IsPricing, Greedy, Filled, Cost;
    if |levels| == 0 {
      EmptyBook(levels, less, pay);
      EmptyBook(levels, more, pay);
      PayNothing(pay, price);
    } else {
      var rest, p0 := levels[1..], levels[0].price;
      var a, b := Min(less, levels[0].qty), Min(more, levels[0].qty);
      GreedySlope(rest, less - a, more - b, price, pay);
      GreedyUnfold(levels, less, pay);
      GreedyUnfold(levels, more, pay);
      var extra := Filled(rest, more - b) - Filled(rest, less - a);
      SlopeStep(pay, a, b, extra, price, p0, Cost(rest, less - a, pay), Cost(rest, more - b, pay));
      assert extra + (b - a) == Filled(levels, more) - Filled(levels, less);
    }
  }

  /** Filling fewer units behind the first level saves at least the first level's price for each. */
  lemma LaterUnitsCostMore(rest: seq<Level>, fewer: real, takes: seq<real>, p: real, pay: Pricing)
    requires NonNegativeSizes(rest) && Feasible(rest, takes) && IsPricing(pay)
    requires 0.0 <= fewer <= Taken(takes) && forall i :: 0 <= i < |rest| ==> p <= rest[i].price
    ensures Cost(rest, Taken(takes), pay) >= Cost(rest, fewer, pay) + pay(Taken(takes) - fewer, p)
  {
    hide IsPricing, Greedy, Filled, Cost;
    GreedySlope(rest, fewer, Taken(takes), p, pay);
    GreedyFillsAny(rest, takes, pay);
    FilledAll(rest, fewer, Taken(takes), pay);
  }

  /** No way of taking the same quantity from the book is cheaper than the greedy walk. */
  lemma {:induction false} GreedyIsCheapest(levels: seq<Level>, takes: seq<real>, pay: Pricing)
    requires NonNegativeSizes(levels) && Ascending(levels) && Feasible(levels, takes) && IsPricing(pay)
    ensures Cost(levels, Taken(takes), pay) <= CostOf(levels, takes, pay)
  {
    hide IsPricing, Greedy, Filled, Cost;
    if |levels| == 0 {
      EmptyBook(levels, Taken(takes), pay);
    } else {
      var rest, p := levels[1..], levels[0].price;
      TakenNonNeg(rest, takes[1..]);
      GreedyIsCheapest(rest, takes[1..], pay);
      var q, r := Taken(takes), Taken(takes[1..]);
      var take := Min(q, levels[0].qty);
      LaterUnitsCostMore(rest, q - take, takes[1..], p, pay);
      GreedyUnfold(levels, q, pay);
      PayAdds(pay, takes[0], r - (q - take), take, p);
    }
  }

  lemma FirstLevelGone(levels: seq<Level>, quantity: real, pay: Pricing)
    requires |levels| > 0 && NonNegativeSizes(levels) && levels[0].qty < quantity && IsPricing(pay)
    ensures Filled(levels, quantity) == Filled(levels[1..], quantity - levels[0].qty) + levels[0].qty
    ensures Cost(levels, quantity, pay)
            == Cost(levels[1..], quantity - levels[0].qty, pay) + pay(levels[0].qty, levels[0].price)
  {
    hide IsPricing, Greedy, Filled, Cost;
    GreedyUnfold(levels, quantity, pay);
  }

  lemma StopsAtFirstLevel(levels: seq<Level>, quantity: real, pay: Pricing)
    requires |levels| > 0 && NonNegativeSizes(levels) && 0.0 <= quantity <= levels[0].qty && IsPricing(pay)
    ensures Filled(levels, quantity) == quantity
    ensures Cost(levels, quantity, pay) == pay(quantity, levels[0].price)
  {
    hide IsPricing;
    RemainingIsPriceFree(levels, quantity, pay);
  }

  /** Asking for more than the book holds walks it as asking for what it holds. */
  lemma {:induction false} CostOfFilled(levels: seq<Level>, quantity: real, pay: Pricing)
    requires NonNegativeSizes(levels) && quantity >= 0.0 && IsPricing(pay)
    ensures Cost(levels, Filled(levels, quantity), pay) == Cost(levels, quantity, pay)
    ensures Filled(levels, quantity) >= 0.0
  {
    hide IsPricing, Greedy, Filled, Cost;
    if |levels| == 0 {
      EmptyBook(levels, quantity, pay);
      EmptyBook(levels, Filled(levels, quantity), pay);
    } else {
      var size, rest := levels[0].qty, levels[1..];
      if quantity <= size {
        StopsAtFirstLevel(levels, quantity, pay);
      } else {
        CostOfFilled(rest, quantity - size, pay);
        FirstLevelGone(levels, quantity, pay);
        GreedyUnfold(levels, Filled(levels, quantity), pay);
      }
    }
  }

  lemma TimesIsPricing()
    ensures IsPricing(Times)
  {
    forall a, p, r | a >= 0.0 && p <= r
      ensures Times(a, p) <= Times(a, r)
    {
      MulMono(p, r, a);
    }
  }

  /**
   For a buyer the cost of the walk is the least over all feasible ways to fill the quantity it
   fills: one of them attains it and none beats it.
   */
  lemma BuyerPaysLeast(levels: seq<Level>, quantity: real, takes: seq<real>)
    requires NonNegativeSizes(levels) && Ascending(levels) && quantity >= 0.0
    requires Feasible(levels, takes) && Taken(takes) == Filled(levels, quantity)
    ensures Cost(levels, quantity, Times) <= CostOf(levels, takes, Times)
    ensures Feasible(levels, GreedyTakes(levels, quantity))
    ensures Taken(GreedyTakes(levels, quantity)) == Filled(levels, quantity)
    ensures CostOf(levels, GreedyTakes(levels, quantity), Times) == Cost(levels, quantity, Times)
  {
    TimesIsPricing();
    GreedyIsFeasible(levels, quantity, Times);
    GreedyIsCheapest(levels, takes, Times);
    CostOfFilled(levels, quantity, Times);
  }

  // ----- the average price -----

  lemma FirstLevelExhausted(levels: seq<Level>, quantity: real, m: real, pay: Pricing)
    requires |levels| > 0 && NonNegativeSizes(levels) && levels[0].qty < quantity && IsPricing(pay)
    requires levels[0].price <= m
    requires Cost(levels[1..], quantity - levels[0].qty, pay) <= pay(Filled(levels[1..], quantity - levels[0].qty), m)
    ensures var f := Filled(levels[1..], quantity - levels[0].qty);
            && Filled(levels, quantity) == f + levels[0].qty
            && Cost(levels, quantity, pay)
               == Cost(levels[1..], quantity - levels[0].qty, pay) + pay(levels[0].qty, levels[0].price)
    ensures Cost(levels, quantity, pay) <= pay(Filled(levels, quantity), m)
  {
    hide IsPricing, Greedy, Filled, Cost;
    var size := levels[0].qty;
    var f := Filled(levels[1..], quantity - size);
    FirstLevelGone(levels, quantity, pay);
    PayAdds(pay, f, size, Filled(levels, quantity), m);
    PayMore(pay, size, levels[0].price, m);
  }

  /** A price at which the walk stops: the average so far is no higher, every further unit no cheaper. */
  lemma {:induction false} MarginalPrice(levels: seq<Level>, less: real, more: real, floor: real, pay: Pricing)
    returns (m: real)
    requires NonNegativeSizes(levels) && Ascending(levels) && 0.0 <= less <= more && IsPricing(pay)
    requires forall i :: 0 <= i < |levels| ==> floor <= levels[i].price
    ensures floor <= m && Filled(levels, less) <= Filled(levels, more)
    ensures Cost(levels, less, pay) <= pay(Filled(levels, less), m)
    ensures Cost(levels, more, pay) >= Cost(levels, less, pay) + pay(Filled(levels, more) - Filled(levels, less), m)
  {
    hide IsPricing, Greedy, Filled, Cost;
    if |levels| == 0 {
      EmptyBook(levels, less, pay);
      EmptyBook(levels, more, pay);
      m := floor;
      PayNothing(pay, m);
    } else if less <= levels[0].qty {
      m := levels[0].price;
      StopsAtFirstLevel(levels, less, pay);
      GreedySlope(levels, less, more, m, pay);
    } else {
      var size, rest := levels[0].qty, levels[1..];
      m := MarginalPrice(rest, less - size, more - size, levels[0].price, pay);
      FirstLevelExhausted(levels, less, m, pay);
      FirstLevelGone(levels, more, pay);
    }
  }

  /** Every unit filled costs at least the lowest price in the book. */
  lemma CostAtLeast(levels: seq<Level>, quantity: real, lo: real)
    requires NonNegativeSizes(levels) && quantity >= 0.0
    requires forall i :: 0 <= i < |levels| ==> lo <= levels[i].price
    ensures Filled(levels, quantity) >= 0.0
    ensures Cost(levels, quantity, Times) >= Times(Filled(levels, quantity), lo)
  {
    TimesIsPricing();
    WalkOfNothing(levels, Times);
    GreedySlope(levels, 0.0, quantity, lo, Times);
  }

  lemma QuotientAtLeast(c: real, f: real, lo: real)
    requires f > 0.0 && c >= Times(f, lo)
    ensures lo <= c / f
  {
    DivMul(c, f);
    CancelLe(lo, c / f, f);
  }

  lemma AverageAtLeast(levels: seq<Level>, quantity: real, lo: real)
    requires |levels| > 0 && NonNegativeSizes(levels) && quantity >= 0.0
    requires forall i :: 0 <= i < |levels| ==> lo <= levels[i].price
    ensures lo <= AveragePrice(levels, quantity)
  {
    CostAtLeast(levels, quantity, lo);
    if Filled(levels, quantity) > 0.0 {
      QuotientAtLeast(Cost(levels, quantity, Times), Filled(levels, quantity), lo);
    }
  }

  lemma AveragesOrdered(c1: real, f1: real, c2: real, f2: real, m: real)
    requires 0.0 < f1 <= f2 && c1 <= Times(f1, m) && c2 >= c1 + Times(f2 - f1, m)
    ensures c1 / f1 <= c2 / f2
  {
    var a := c1 / f1;
    DivMul(c1, f1);
    CancelLe(a, m, f1);
    MulMono(a, m, f2 - f1);
    assert c2 >= a * f2;
    QuotientAtLeast(c2, f2, a);
  }

  /** For a buyer the average price never improves as the quantity grows. */
  lemma AverageNeverImproves(levels: seq<Level>, less: real, more: real)
    requires |levels| > 0 && NonNegativeSizes(levels) && Ascending(levels) && 0.0 <= less <= more
    ensures AveragePrice(levels, less) <= AveragePrice(levels, more)
  {
    if Filled(levels, less) <= 0.0 {
      AverageAtLeast(levels, more, levels[0].price);
    } else {
      TimesIsPricing();
      var m := MarginalPrice(levels, less, more, levels[0].price, Times);
      AveragesOrdered(Cost(levels, less, Times), Filled(levels, less),
                      Cost(levels, more, Times), Filled(levels, more), m);
    }
  }

  // ----- the seller's side -----

  /** The book with every price negated: a seller's book read as a buyer's. */
  function Mirror(levels: seq<Level>): (r: seq<Level>)
    ensures |r| == |levels|
    ensures forall i :: 0 <= i < |levels| ==> r[i] == Level(-levels[i].price, levels[i].qty)
  {
    seq(|levels|, i requires 0 <= i < |levels| => Level(-levels[i].price, levels[i].qty))
  }

  lemma {:induction false} MirrorWalk(levels: seq<Level>, quantity: real, pay: Pricing)
    requires forall a, p :: pay(a, -p) == -pay(a, p)
    ensures Cost(Mirror(levels), quantity, pay) == -Cost(levels, quantity, pay)
    ensures Filled(Mirror(levels), quantity) == Filled(levels, quantity)
  {
    if |levels| == 0 {
    } else {
      assert Mirror(levels)[1..] == Mirror(levels[1..]);
      MirrorWalk(levels[1..], quantity - Min(quantity, levels[0].qty), pay);
    }
  }

  lemma {:induction false} MirrorCostOf(levels: seq<Level>, takes: seq<real>, pay: Pricing)
    requires |takes| == |levels| && forall a, p :: pay(a, -p) == -pay(a, p)
    ensures CostOf(Mirror(levels), takes, pay) == -CostOf(levels, takes, pay)
  {
    if |levels| == 0 {
    } else {
      assert Mirror(levels)[1..] == Mirror(levels[1..]);
      MirrorCostOf(levels[1..], takes[1..], pay);
    }
  }

  lemma TimesIsOdd()
    ensures forall a, p :: Times(a, -p) == -Times(a, p)
  {
  }

  lemma NegatedQuotient(c: real, f: real)
    requires f != 0.0
    ensures -c / f == -(c / f)
  {
    DivMul(c, f);
    DivUnique(-(c / f), -c, f);
  }

  lemma MirrorAverage(levels: seq<Level>, quantity: real)
    ensures AveragePrice(Mirror(levels), quantity) == -AveragePrice(levels, quantity)
  {
    TimesIsOdd();
    MirrorWalk(levels, quantity, Times);
    if Filled(levels, quantity) > 0.0 {
      NegatedQuotient(Cost(levels, quantity, Times), Filled(levels, quantity));
    }
  }

  /** For a seller the proceeds of the walk are the most any feasible fill of the quantity brings. */
  lemma SellerReceivesMost(levels: seq<Level>, quantity: real, takes: seq<real>)
    requires NonNegativeSizes(levels) && Descending(levels) && quantity >= 0.0
    requires Feasible(levels, takes) && Taken(takes) == Filled(levels, quantity)
    ensures Cost(levels, quantity, Times) >= CostOf(levels, takes, Times)
  {
    TimesIsOdd();
    MirrorWalk(levels, quantity, Times);
    MirrorCostOf(levels, takes, Times);
    BuyerPaysLeast(Mirror(levels), quantity, takes);
  }

  /** The average lies between the best and the worst level, for buyers and sellers alike. */
  lemma AverageBetweenBestAndWorst(levels: seq<Level>, quantity: real)
    requires |levels| > 0 && NonNegativeSizes(levels) && quantity >= 0.0
    ensures Ascending(levels) ==>
              levels[0].price <= AveragePrice(levels, quantity) <= levels[|levels| - 1].price
    ensures Descending(levels) ==>
              levels[|levels| - 1].price <= AveragePrice(levels, quantity) <= levels[0].price
  {
    MirrorAverage(levels, quantity);
    var lo, hi := levels[0].price, levels[|levels| - 1].price;
    if Ascending(levels) {
      AverageAtLeast(levels, quantity, lo);
      AverageAtLeast(Mirror(levels), quantity, -hi);
    }
    if Descending(levels) {
      AverageAtLeast(levels, quantity, hi);
      AverageAtLeast(Mirror(levels), quantity, -lo);
    }
  }

  /** For a seller, too, the average price never improves as the quantity grows. */
  lemma SellerAverageNeverImproves(levels: seq<Level>, less: real, more: real)
    requires |levels| > 0 && NonNegativeSizes(levels) && Descending(levels) && 0.0 <= less <= more
    ensures AveragePrice(levels, less) >= AveragePrice(levels, more)
  {
    MirrorAverage(levels, less);
    MirrorAverage(levels, more);
    AverageNeverImproves(Mirror(levels), less, more);
  }

  // ----- the program -----

  method WalkTheBook(quantity: real, bookDepth: seq<Level>) returns (price: real)
    ensures price == AveragePrice(bookDepth, quantity)
  {
    if |bookDepth| == 0 {
      return 0.0;
    }
    var remaining, totalCost := quantity, 0.0;
    ghost var whole := Greedy(bookDepth, quantity, Times);
    var i := 0;
    while i < |bookDepth|
      invariant 0 <= i <= |bookDepth|
      invariant var rest := Greedy(bookDepth[i..], remaining, Times);
                whole == Walk(rest.remaining, rest.cost + totalCost)
    {
      var level := bookDepth[i];
      var fillAtLevel := Min(remaining, level.qty);
      assert bookDepth[i..][1..] == bookDepth[i + 1..];
      totalCost := totalCost + Times(fillAtLevel, level.price);
      remaining := remaining - fillAtLevel;
      if remaining <= 0.0 {
        assert whole == Walk(remaining, totalCost);
        break;
      }
      i := i + 1;
    }
    assert whole == Walk(remaining, totalCost);
    var filledQty := quantity - remaining;
    if filledQty <= 0.0 {
      return bookDepth[0].price;
    }
    return totalCost / filledQty;
  }
}
