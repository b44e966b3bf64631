/**
 The price-level order book twice: dictionaries searched and sorted on each query (order_book.py), and
 maps kept in price order (order_book.cpp).
 */
module OrderBook {
  import opened Common
  import opened Runs

  /** One depth update; a zero quantity removes the level. */
  datatype Delta = Delta(bids: seq<Level>, asks: seq<Level>)

  /** p comes before q: bids run from high to low, asks from low to high. */
  predicate Ahead(desc: bool, p: real, q: real) {
    if desc then p > q else p < q
  }

  // ----- one side of the book, in price order (C++) -----

  predicate Ordered(desc: bool, s: seq<Level>) {
    forall i, j :: 0 <= i < j < |s| ==> Ahead(desc, s[i].price, s[j].price)
  }

  /** Insertion into, replacement in or erasure from an ordered map. */
  function Put(desc: bool, s: seq<Level>, l: Level): seq<Level> {
    if |s| == 0 then
      if l.qty == 0.0 then [] else [l]
    else if s[0].price == l.price then
      if l.qty == 0.0 then s[1..] else [l] + s[1..]
    else if Ahead(desc, s[0].price, l.price) then [s[0]] + Put(desc, s[1..], l)
    else if l.qty == 0.0 then s
    else [l] + s
  }

  function PutAll(desc: bool, s: seq<Level>, ls: seq<Level>): seq<Level> {
    if |ls| == 0 then s else Put(desc, PutAll(desc, s, ls[..|ls| - 1]), ls[|ls| - 1])
  }

  // ----- one side of the book, as a dictionary (Python) -----

  function Store(m: map<real, real>, l: Level): map<real, real> {
    if l.qty == 0.0 then m - {l.price} else m[l.price := l.qty]
  }

  function StoreAll(m: map<real, real>, ls: seq<Level>): map<real, real> {
    if |ls| == 0 then m else Store(StoreAll(m, ls[..|ls| - 1]), ls[|ls| - 1])
  }

  /** max or min of the prices: a key ahead of every other, with its quantity. */
  ghost predicate IsBest(desc: bool, m: map<real, real>, r: Option<Level>) {
    match r
    case None => m == map[]
    case Some(l) =>
      && l.price in m && m[l.price] == l.qty
      && forall q :: q in m && q != l.price ==> Ahead(desc, l.price, q)
  }

  function AsMap(s: seq<Level>): map<real, real> {
    if |s| == 0 then map[] else AsMap(s[1..])[s[0].price := s[0].qty]
  }

  /** The dictionary's levels with their prices sorted. */
  ghost predicate IsSorted(desc: bool, m: map<real, real>, r: seq<Level>) {
    Ordered(desc, r) && AsMap(r) == m
  }

  /** Slicing up to n, where a negative n counts from the end. */
  function SliceTo<T>(s: seq<T>, n: int): seq<T> {
    if n >= |s| then s else if n >= 0 then s[..n] else if |s| + n > 0 then s[..|s| + n] else []
  }

  // ----- the two sides agree -----

  lemma {:induction false} KeysOfMap(s: seq<Level>)
    ensures forall p :: p in AsMap(s) <==> exists i :: 0 <= i < |s| && s[i].price == p
  {
    if |s| == 0 {
    } else {
      KeysOfMap(s[1..]);
      forall p
        ensures p in AsMap(s) <==> exists i :: 0 <= i < |s| && s[i].price == p
      {
        if p in AsMap(s[1..]) {
          var i :| 0 <= i < |s[1..]| && s[1..][i].price == p;
          assert s[i + 1].price == p;
        }
        if i :| 0 <= i < |s| && s[i].price == p && i > 0 {
          assert s[1..][i - 1].price == p;
        }
      }
    }
  }

  /** Every price in the tail of an ordered ladder lies behind the head. */
  lemma TailBehindHead(desc: bool, s: seq<Level>)
    requires |s| > 0 && Ordered(desc, s)
    ensures Ordered(desc, s[1..]) && s[0].price !in AsMap(s[1..])
    ensures forall p :: p in AsMap(s[1..]) ==> Ahead(desc, s[0].price, p)
  {
    KeysOfMap(s[1..]);
  }

  lemma StoresCommute(m: map<real, real>, h: Level, l: Level)
    requires h.price != l.price
    ensures Store(m[h.price := h.qty], l) == Store(m, l)[h.price := h.qty]
  {
  }

  /** A ladder may be extended at its head by a level ahead of all others. */
  lemma Prepend(desc: bool, head: Level, t: seq<Level>)
    requires Ordered(desc, t) && forall p :: p in AsMap(t) ==> Ahead(desc, head.price, p)
    ensures Ordered(desc, [head] + t) && AsMap([head] + t) == AsMap(t)[head.price := head.qty]
  {
    KeysOfMap(t);
    assert ([head] + t)[1..] == t;
    forall j | 0 <= j < |t|
      ensures Ahead(desc, head.price, t[j].price)
    {
      assert t[j].price in AsMap(t);
    }
  }

  lemma PutAhead(desc: bool, s: seq<Level>, l: Level)
    requires |s| > 0 && Ordered(desc, s) && Ahead(desc, s[0].price, l.price)
    requires Ordered(desc, Put(desc, s[1..], l)) && AsMap(Put(desc, s[1..], l)) == Store(AsMap(s[1..]), l)
    ensures Ordered(desc, Put(desc, s, l)) && AsMap(Put(desc, s, l)) == Store(AsMap(s), l)
  {
    var t := Put(desc, s[1..], l);
    TailBehindHead(desc, s);
    Prepend(desc, s[0], t);
    StoresCommute(AsMap(s[1..]), s[0], l);
  }

  /** Updating the ordered ladder updates the dictionary it stands for. */
  lemma {:induction false} PutIsStore(desc: bool, s: seq<Level>, l: Level)
    requires Ordered(desc, s)
    ensures Ordered(desc, Put(desc, s, l))
    ensures AsMap(Put(desc, s, l)) == Store(AsMap(s), l)
  {
    if |s| == 0 {
      assert AsMap([l]) == map[l.price := l.qty];
    } else {
      TailBehindHead(desc, s);
      if s[0].price == l.price {
        assert ([l] + s[1..])[1..] == s[1..];
      } else if Ahead(desc, s[0].price, l.price) {
        PutIsStore(desc, s[1..], l);
        PutAhead(desc, s, l);
      } else {
        KeysOfMap(s);
        assert ([l] + s)[1..] == s;
      }
    }
  }

  lemma {:induction false} PutAllIsStoreAll(desc: bool, s: seq<Level>, ls: seq<Level>)
    requires Ordered(desc, s)
    ensures Ordered(desc, PutAll(desc, s, ls))
    ensures AsMap(PutAll(desc, s, ls)) == StoreAll(AsMap(s), ls)
  {
    if |ls| == 0 {
    } else {
      PutAllIsStoreAll(desc, s, ls[..|ls| - 1]);
      PutIsStore(desc, PutAll(desc, s, ls[..|ls| - 1]), ls[|ls| - 1]);
    }
  }

  /** Whatever sorting the dictionary yields is the ordered ladder. */
  lemma {:induction false} SortingRecovers(desc: bool, s: seq<Level>, r: seq<Level>)
    requires Ordered(desc, s) && IsSorted(desc, AsMap(s), r)
    ensures r == s
  {
    KeysOfMap(s);
    KeysOfMap(r);
    assert |s| > 0 ==> s[0].price in AsMap(s);
    assert |r| > 0 ==> r[0].price in AsMap(r);
    if |s| > 0 && |r| > 0 {
      TailBehindHead(desc, s);
      TailBehindHead(desc, r);
      assert s[0].price in AsMap(r) && r[0].price in AsMap(s);
      assert r[0] == s[0];
      assert AsMap(s[1..]) == AsMap(s) - {s[0].price} == AsMap(r[1..]);
      SortingRecovers(desc, s[1..], r[1..]);
    }
  }

  function BestCpp(s: seq<Level>): Option<Level> {
    if |s| == 0 then None else Some(s[0])
  }

  /** Whatever searching the dictionary for its best price yields is the head of the ladder. */
  lemma BestIsHead(desc: bool, s: seq<Level>, r: Option<Level>)
    requires Ordered(desc, s)
    ensures IsBest(desc, AsMap(s), r) <==> r == BestCpp(s)
  {
    if |s| > 0 {
      TailBehindHead(desc, s);
      assert s[0].price in AsMap(s);
    }
  }

  // ----- the whole book after any sequence of updates -----

  datatype CppState = CppState(bids: seq<Level>, asks: seq<Level>)
  datatype PyState = PyState(bids: map<real, real>, asks: map<real, real>)

  function CppApply(b: CppState, d: Delta): CppState {
    CppState(PutAll(true, b.bids, d.bids), PutAll(false, b.asks, d.asks))
  }

  function PyApply(b: PyState, d: Delta): PyState {
    PyState(StoreAll(b.bids, d.bids), StoreAll(b.asks, d.asks))
  }

  function CppAfter(deltas: seq<Delta>): CppState {
    Fold(CppApply, CppState([], []), deltas)
  }

  function PyAfter(deltas: seq<Delta>): PyState {
    Fold(PyApply, PyState(map[], map[]), deltas)
  }

  predicate Refines(c: CppState, p: PyState) {
    && Ordered(true, c.bids) && Ordered(false, c.asks)
    && p == PyState(AsMap(c.bids), AsMap(c.asks))
  }

  lemma {:induction false} BooksStayEqual(deltas: seq<Delta>)
    ensures Refines(CppAfter(deltas), PyAfter(deltas))
  {
    if |deltas| == 0 {
    } else {
      BooksStayEqual(deltas[..|deltas| - 1]);
      var c, d := CppAfter(deltas[..|deltas| - 1]), deltas[|deltas| - 1];
      PutAllIsStoreAll(true, c.bids, d.bids);
      PutAllIsStoreAll(false, c.asks, d.asks);
    }
  }

  // ----- queries -----

  /** The C++ loops take a level before they count it, so at least one. */
  function TopCpp(s: seq<Level>, levels: int): seq<Level> {
    SliceTo(s, if levels < 1 then 1 else levels)
  }

  function MidOf(bid: Option<Level>, ask: Option<Level>): Option<real> {
    if bid.None? || ask.None? then None else Some((bid.value.price + ask.value.price) / 2.0)
  }

  function SpreadOf(bid: Option<Level>, ask: Option<Level>): Option<real> {
    if bid.None? || ask.None? then None else Some(ask.value.price - bid.value.price)
  }

  function Volume(s: seq<Level>): real {
    Total((l: Level) => l.qty, s)
  }

  function ImbalanceOf(bids: seq<Level>, asks: seq<Level>): real {
    var total := Volume(bids) + Volume(asks);
    if total == 0.0 then 0.0 else (Volume(bids) - Volume(asks)) / total
  }

  /** What the dictionary book finds: its best levels, and its levels in order of price. */
  datatype Found = Found(bid: Option<Level>, ask: Option<Level>, bids: seq<Level>, asks: seq<Level>)

  ghost predicate IsFound(p: PyState, f: Found) {
    && IsBest(true, p.bids, f.bid) && IsBest(false, p.asks, f.ask)
    && IsSorted(true, p.bids, f.bids) && IsSorted(false, p.asks, f.asks)
  }

  /** After any sequence of updates the two books answer every query alike, for one level or more. */
  lemma BooksAgree(deltas: seq<Delta>, levels: int, f: Found)
    requires levels >= 1 && IsFound(PyAfter(deltas), f)
    ensures var c := CppAfter(deltas);
            && f.bid == BestCpp(c.bids) && f.ask == BestCpp(c.asks)
            && MidOf(f.bid, f.ask) == MidOf(BestCpp(c.bids), BestCpp(c.asks))
            && SpreadOf(f.bid, f.ask) == SpreadOf(BestCpp(c.bids), BestCpp(c.asks))
            && SliceTo(f.bids, levels) == TopCpp(c.bids, levels)
            && SliceTo(f.asks, levels) == TopCpp(c.asks, levels)
            && ImbalanceOf(SliceTo(f.bids, levels), SliceTo(f.asks, levels))
               == ImbalanceOf(TopCpp(c.bids, levels), TopCpp(c.asks, levels))
  {
    var c := CppAfter(deltas);
    BooksStayEqual(deltas);
    BestIsHead(true, c.bids, f.bid);
    BestIsHead(false, c.asks, f.ask);
    SortingRecovers(true, c.bids, f.bids);
    SortingRecovers(false, c.asks, f.asks);
  }

  /** Below one level the two slices coincide only by accident. */
  lemma TopsAgreeIff(desc: bool, s: seq<Level>, levels: int, sorted: seq<Level>)
    requires Ordered(desc, s) && IsSorted(desc, AsMap(s), sorted)
    ensures SliceTo(sorted, levels) == TopCpp(s, levels)
            <==> levels >= 1 || s == [] || (levels < 0 && |s| + levels == 1)
  {
    SortingRecovers(desc, s, sorted);
    if levels < 1 && s != [] {
      assert |TopCpp(s, levels)| == 1;
    }
  }

  /** No level of the ladder has a negative quantity, nor does any part of it. */
  predicate NonNegative(s: seq<Level>) {
    forall i :: 0 <= i < |s| ==> s[i].qty >= 0.0
  }

  lemma {:induction false} VolumeNonNeg(s: seq<Level>)
    requires NonNegative(s)
    ensures Volume(s) >= 0.0
  {
    if |s| == 0 {
    } else {
      VolumeNonNeg(s[..|s| - 1]);
    }
  }

  lemma {:induction false} PutKeepsNonNegative(desc: bool, s: seq<Level>, l: Level)
    requires NonNegative(s) && l.qty >= 0.0
    ensures NonNegative(Put(desc, s, l))
  {
    if |s| == 0 {
    } else {
      PutKeepsNonNegative(desc, s[1..], l);
    }
  }

  lemma {:induction false} PutAllKeepsNonNegative(desc: bool, s: seq<Level>, ls: seq<Level>)
    requires NonNegative(s) && NonNegative(ls)
    ensures NonNegative(PutAll(desc, s, ls))
  {
    if |ls| == 0 {
    } else {
      PutAllKeepsNonNegative(desc, s, ls[..|ls| - 1]);
      PutKeepsNonNegative(desc, PutAll(desc, s, ls[..|ls| - 1]), ls[|ls| - 1]);
    }
  }

  lemma ShareBounds(q: real, a: real, b: real)
    requires a >= 0.0 && b >= 0.0 && a + b > 0.0 && q * (a + b) == a - b
    ensures -1.0 <= q <= 1.0
  {
    var total := a + b;
    CancelLe(-1.0, q, total);
    CancelLe(q, 1.0, total);
  }

  lemma ShareWithinUnit(a: real, b: real)
    requires a >= 0.0 && b >= 0.0 && a + b != 0.0
    ensures -1.0 <= (a - b) / (a + b) <= 1.0
  {
    var q := (a - b) / (a + b);
    DivMul(a - b, a + b);
    ShareBounds(q, a, b);
  }

  lemma QuantitiesStayNonNegative(deltas: seq<Delta>)
    requires forall i :: 0 <= i < |deltas| ==> NonNegative(deltas[i].bids) && NonNegative(deltas[i].asks)
    ensures NonNegative(CppAfter(deltas).bids) && NonNegative(CppAfter(deltas).asks)
  {
    forall b: CppState, d: Delta
      | NonNegative(b.bids) && NonNegative(b.asks) && NonNegative(d.bids) && NonNegative(d.asks)
      ensures NonNegative(CppApply(b, d).bids) && NonNegative(CppApply(b, d).asks)
    {
      PutAllKeepsNonNegative(true, b.bids, d.bids);
      PutAllKeepsNonNegative(false, b.asks, d.asks);
    }
    Invariant(CppApply, CppState([], []), (b: CppState) => NonNegative(b.bids) && NonNegative(b.asks),
              (d: Delta) => NonNegative(d.bids) && NonNegative(d.asks), deltas);
  }

  lemma ImbalanceOfNonNegative(bids: seq<Level>, asks: seq<Level>)
    requires NonNegative(bids) && NonNegative(asks)
    ensures -1.0 <= ImbalanceOf(bids, asks) <= 1.0
  {
    VolumeNonNeg(bids);
    VolumeNonNeg(asks);
    if Volume(bids) + Volume(asks) != 0.0 {
      ShareWithinUnit(Volume(bids), Volume(asks));
    }
  }

  /** With non-negative quantities in every update either book's imbalance stays within [-1, 1], for any N. */
  lemma ImbalanceWithinUnit(deltas: seq<Delta>, levels: int, f: Found)
    requires forall i :: 0 <= i < |deltas| ==> NonNegative(deltas[i].bids) && NonNegative(deltas[i].asks)
    ensures var c := CppAfter(deltas);
            -1.0 <= ImbalanceOf(TopCpp(c.bids, levels), TopCpp(c.asks, levels)) <= 1.0
    ensures IsFound(PyAfter(deltas), f) ==> -1.0 <= ImbalanceOf(SliceTo(f.bids, levels), SliceTo(f.asks, levels)) <= 1.0
  {
    hide ImbalanceOf, CppAfter, PyAfter;
    var c := CppAfter(deltas);
    QuantitiesStayNonNegative(deltas);
    BooksStayEqual(deltas);
    ImbalanceOfNonNegative(TopCpp(c.bids, levels), TopCpp(c.asks, levels));
    if IsFound(PyAfter(deltas), f) {
      SortingRecovers(true, c.bids, f.bids);
      SortingRecovers(false, c.asks, f.asks);
      ImbalanceOfNonNegative(SliceTo(c.bids, levels), SliceTo(c.asks, levels));
    }
  }

  // ----- the programs -----

  method TopLevels(side: seq<Level>, levels: int) returns (r: seq<Level>)
    ensures r == TopCpp(side, levels)
  {
    r := [];
    var count := 0;
    for i := 0 to |side|
      invariant r == side[..i] && count == i
      invariant i > 0 ==> i < levels
    {
      r := r + [side[i]];
      count := count + 1;
      if count >= levels {
        assert r == side[..i + 1];
        return;
      }
    }
  }

  method TopVolume(side: seq<Level>, levels: int) returns (volume: real)
    ensures volume == Volume(TopCpp(side, levels))
  {
    volume := 0.0;
    var count := 0;
    for i := 0 to |side|
      invariant volume == Volume(side[..i]) && count == i
      invariant i > 0 ==> i < levels
    {
      assert side[..i + 1][..i] == side[..i];
      volume := volume + side[i].qty;
      count := count + 1;
      if count >= levels {
        assert TopCpp(side, levels) == side[..i + 1];
        return;
      }
    }
    assert TopCpp(side, levels) == side[..|side|];
  }

  class CppOrderBook {
    var bids: seq<Level>
    var asks: seq<Level>

    function Value(): CppState
      reads this
    {
      CppState(bids, asks)
    }

    ghost predicate Valid()
      reads this
    {
      Ordered(true, bids) && Ordered(false, asks)
    }

    constructor ()
      ensures Valid() && Value() == CppAfter([])
    {
      bids, asks := [], [];
    }

    method ApplyDelta(d: Delta)
      requires Valid()
      modifies this
      ensures Valid() && Value() == CppApply(old(Value()), d)
    {
      for i := 0 to |d.bids|
        invariant bids == PutAll(true, old(bids), d.bids[..i]) && asks == old(asks)
      {
        assert d.bids[..i + 1][..i] == d.bids[..i];
        bids := Put(true, bids, d.bids[i]);
      }
      assert d.bids[..|d.bids|] == d.bids;
      for i := 0 to |d.asks|
        invariant asks == PutAll(false, old(asks), d.asks[..i]) && bids == PutAll(true, old(bids), d.bids)
      {
        assert d.asks[..i + 1][..i] == d.asks[..i];
        asks := Put(false, asks, d.asks[i]);
      }
      assert d.asks[..|d.asks|] == d.asks;
      PutAllIsStoreAll(true, old(bids), d.bids);
      PutAllIsStoreAll(false, old(asks), d.asks);
    }

    /** The first bid is the highest, the first ask the lowest. */
    method BestPrices() returns (bid: Option<Level>, ask: Option<Level>)
      requires Valid()
      ensures IsBest(true, AsMap(bids), bid) && IsBest(false, AsMap(asks), ask)
    {
      bid := if |bids| == 0 then None else Some(bids[0]);
      ask := if |asks| == 0 then None else Some(asks[0]);
      BestIsHead(true, bids, bid);
      BestIsHead(false, asks, ask);
    }

    method Imbalance(levels: int) returns (imbalance: real)
      ensures imbalance == ImbalanceOf(TopCpp(bids, levels), TopCpp(asks, levels))
    {
      var bidVolume := TopVolume(bids, levels);
      var askVolume := TopVolume(asks, levels);
      var total := bidVolume + askVolume;
      if total == 0.0 {
        return 0.0;
      }
      return (bidVolume - askVolume) / total;
    }
  }

  class PyOrderBook {
    var bids: map<real, real>
    var asks: map<real, real>

    function Value(): PyState
      reads this
    {
      PyState(bids, asks)
    }

    constructor ()
      ensures Value() == PyAfter([])
    {
      bids, asks := map[], map[];
    }

    method ApplyDelta(d: Delta)
      modifies this
      ensures Value() == PyApply(old(Value()), d)
    {
      for i := 0 to |d.bids|
        invariant bids == StoreAll(old(bids), d.bids[..i]) && asks == old(asks)
      {
        assert d.bids[..i + 1][..i] == d.bids[..i];
        if d.bids[i].qty == 0.0 {
          bids := bids - {d.bids[i].price};
        } else {
          bids := bids[d.bids[i].price := d.bids[i].qty];
        }
      }
      assert d.bids[..|d.bids|] == d.bids;
      for i := 0 to |d.asks|
        invariant asks == StoreAll(old(asks), d.asks[..i]) && bids == StoreAll(old(bids), d.bids)
      {
        assert d.asks[..i + 1][..i] == d.asks[..i];
        if d.asks[i].qty == 0.0 {
          asks := asks - {d.asks[i].price};
        } else {
          asks := asks[d.asks[i].price := d.asks[i].qty];
        }
      }
      assert d.asks[..|d.asks|] == d.asks;
    }
  }
}
