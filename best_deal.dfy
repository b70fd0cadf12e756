/** Best-deal selection and the alert threshold:
    `sorted(deals, key=lambda d: d["price_per_person_usd"])[0]` and
    `best["price_per_person_usd"] <= float(row.get("MaxPricePerPersonUSD") or 9999)`. */
module BestDeal {

  import opened Values
  import opened SheetRows

  const PriceKey: string := "price_per_person_usd"
  const LinkKey: string := "booking_link"
  const CeilingKey: string := "MaxPricePerPersonUSD"
  const DefaultCeiling: real := 9999.0

  /** A sort key Python can order: a number (booleans count as 0 and 1) or a
      string. */
  datatype Key = NumKey(x: real) | StrKey(s: string)

  function KeyOf(j: Json): Option<Key>
  {
    match j
    case JNum(x) => Some(NumKey(x))
    case JBool(b) => Some(NumKey(if b then 1.0 else 0.0))
    case JStr(s) => Some(StrKey(s))
    case _ => None
  }

  /** Python's string order: lexicographic by code point, a prefix first. */
  predicate StrLe(a: string, b: string)
  {
    a == [] || (b != [] && (a[0] < b[0] || (a[0] == b[0] && StrLe(a[1..], b[1..]))))
  }

  /** `<=` on keys of one kind; the cross-kind cases are never reached by a
      sort that succeeds and only make the order total. */
  predicate KeyLe(a: Key, b: Key)
  {
    match (a, b)
    case (NumKey(x), NumKey(y)) => x <= y
    case (StrKey(s), StrKey(t)) => StrLe(s, t)
    case (NumKey(_), StrKey(_)) => true
    case (StrKey(_), NumKey(_)) => false
  }

  lemma {:induction false} StrLeTotal(a: string, b: string)
    ensures StrLe(a, b) || StrLe(b, a)
  {
    if a != [] && b != [] && a[0] == b[0] {
      StrLeTotal(a[1..], b[1..]);
    }
  }

  lemma {:induction false} StrLeTrans(a: string, b: string, c: string)
    requires StrLe(a, b) && StrLe(b, c)
    ensures StrLe(a, c)
  {
    if a != [] && b != [] && c != [] && a[0] == b[0] == c[0] {
      StrLeTrans(a[1..], b[1..], c[1..]);
    }
  }

  lemma KeyLeTotal(a: Key, b: Key)
    ensures KeyLe(a, b) || KeyLe(b, a)
  {
    if a.StrKey? && b.StrKey? {
      StrLeTotal(a.s, b.s);
    }
  }

  lemma KeyLeTrans(a: Key, b: Key, c: Key)
    requires KeyLe(a, b) && KeyLe(b, c)
    ensures KeyLe(a, c)
  {
    if a.StrKey? && b.StrKey? && c.StrKey? {
      StrLeTrans(a.s, b.s, c.s);
    }
  }

  /** The index of the first least key: `sorted(...)[0]` of a stable sort. */
  function FirstMinIndex(keys: seq<Key>): (r: nat)
    requires |keys| > 0
    ensures r < |keys|
    ensures forall j :: 0 <= j < |keys| ==> KeyLe(keys[r], keys[j])
    ensures forall j :: 0 <= j < r ==> !KeyLe(keys[j], keys[r])
    decreases |keys|
  {
    if |keys| == 1 then
      KeyLeTotal(keys[0], keys[0]);
      0
    else
      var t := FirstMinIndex(keys[1..]) + 1;
      assert forall j :: 1 <= j < |keys| ==> keys[j] == keys[1..][j - 1];
      if KeyLe(keys[0], keys[t]) then
        LowerBoundAll(keys[0], keys[t], keys);
        0
      else
        KeyLeTotal(keys[0], keys[t]);
        t
  }

  lemma LowerBoundAll(a: Key, b: Key, keys: seq<Key>)
    requires KeyLe(a, b)
    requires |keys| > 0 && keys[0] == a
    requires forall j :: 1 <= j < |keys| ==> KeyLe(b, keys[j])
    ensures forall j :: 0 <= j < |keys| ==> KeyLe(a, keys[j])
  {
    forall j | 0 <= j < |keys| ensures KeyLe(a, keys[j]) {
      if j == 0 {
        KeyLeTotal(a, a);
      } else {
        KeyLeTrans(a, b, keys[j]);
      }
    }
  }

  /** Reference definition: a stable insertion sort of keyed values. An
      element is placed before the first element whose key is not smaller, so
      of two equal keys the earlier input stays first. */
  function InsertByKey<T>(x: (Key, T), ys: seq<(Key, T)>): seq<(Key, T)>
  {
    if ys == [] || KeyLe(x.0, ys[0].0) then [x] + ys
    else [ys[0]] + InsertByKey(x, ys[1..])
  }

  function SortByKey<T>(xs: seq<(Key, T)>): seq<(Key, T)>
  {
    if xs == [] then [] else InsertByKey(xs[0], SortByKey(xs[1..]))
  }

  function KeysOf<T>(xs: seq<(Key, T)>): (ks: seq<Key>)
    ensures |ks| == |xs| && forall i :: 0 <= i < |xs| ==> ks[i] == xs[i].0
  {
    if xs == [] then [] else [xs[0].0] + KeysOf(xs[1..])
  }

  predicate SortedByKey<T>(xs: seq<(Key, T)>)
  {
    forall i :: 0 <= i < |xs| - 1 ==> KeyLe(xs[i].0, xs[i + 1].0)
  }

  lemma {:induction false} InsertByKeySorted<T>(x: (Key, T), ys: seq<(Key, T)>)
    requires SortedByKey(ys)
    ensures SortedByKey(InsertByKey(x, ys))
    ensures InsertByKey(x, ys)[0] == (if ys == [] || KeyLe(x.0, ys[0].0) then x else ys[0])
  {
    if ys != [] && !KeyLe(x.0, ys[0].0) {
      InsertByKeySorted(x, ys[1..]);
      var rest := InsertByKey(x, ys[1..]);
      assert InsertByKey(x, ys) == [ys[0]] + rest;
      KeyLeTotal(x.0, ys[0].0);
      assert KeyLe(ys[0].0, rest[0].0);
    }
  }

  lemma {:induction false} InsertByKeyPermutes<T>(x: (Key, T), ys: seq<(Key, T)>)
    ensures multiset(InsertByKey(x, ys)) == multiset(ys) + multiset{x}
  {
    if ys != [] && !KeyLe(x.0, ys[0].0) {
      InsertByKeyPermutes(x, ys[1..]);
      assert InsertByKey(x, ys) == [ys[0]] + InsertByKey(x, ys[1..]);
      assert ys == [ys[0]] + ys[1..];
    }
  }

  /** The reference sort is a sort: ordered by key, and a permutation. */
  lemma SortByKeySpec<T>(xs: seq<(Key, T)>)
    ensures SortedByKey(SortByKey(xs))
    ensures multiset(SortByKey(xs)) == multiset(xs)
  {
    SortByKeySorted(xs);
    SortByKeyPermutes(xs);
  }

  lemma {:induction false} SortByKeySorted<T>(xs: seq<(Key, T)>)
    ensures SortedByKey(SortByKey(xs))
  {
    if xs != [] {
      SortByKeySorted(xs[1..]);
      InsertByKeySorted(xs[0], SortByKey(xs[1..]));
    }
  }

  lemma {:induction false} SortByKeyPermutes<T>(xs: seq<(Key, T)>)
    ensures multiset(SortByKey(xs)) == multiset(xs)
  {
    if xs != [] {
      var rest := SortByKey(xs[1..]);
      SortByKeyPermutes(xs[1..]);
      InsertByKeyPermutes(xs[0], rest);
      assert SortByKey(xs) == InsertByKey(xs[0], rest);
      assert xs == [xs[0]] + xs[1..];
      calc {
        multiset(SortByKey(xs));
        multiset(rest) + multiset{xs[0]};
        multiset(xs[1..]) + multiset{xs[0]};
        multiset(xs);
      }
    }
  }

  /** The head of the stable sort is the element at the first least key. */
  lemma {:induction false} SortByKeyHead<T>(xs: seq<(Key, T)>)
    requires |xs| > 0
    ensures |SortByKey(xs)| > 0
    ensures SortByKey(xs)[0] == xs[FirstMinIndex(KeysOf(xs))]
  {
    SortByKeySpec(xs);
    assert |multiset(SortByKey(xs))| == |xs|;
    var ks := KeysOf(xs);
    if |xs| > 1 {
      var rest := xs[1..];
      SortByKeyHead(rest);
      SortByKeySpec(rest);
      InsertByKeySorted(xs[0], SortByKey(rest));
      assert KeysOf(rest) == ks[1..];
    }
  }

  /** The dict lookup `d["price_per_person_usd"]` succeeds on `item`. */
  predicate Priced(item: Json)
  {
    item.JObj? && PriceKey in item.fields
  }

  function Price(item: Json): Json
    requires Priced(item)
  {
    item.fields[PriceKey]
  }

  /** The prices of `items` can be compared with each other: all numbers, or
      all strings. */
  predicate Comparable(items: seq<Json>)
    requires forall i :: 0 <= i < |items| ==> Priced(items[i])
  {
    || (forall i :: 0 <= i < |items| ==> Numeric(Price(items[i])).Some?)
    || (forall i :: 0 <= i < |items| ==> Price(items[i]).JStr?)
  }

  /** `sorted(deals, key=...)` succeeds: a non-empty list of priced deals
      that is a single deal (never compared) or whose prices are comparable. */
  predicate Sortable(items: seq<Json>)
  {
    && |items| >= 1
    && (forall i :: 0 <= i < |items| ==> Priced(items[i]))
    && (|items| == 1 || Comparable(items))
  }

  function PriceKeys(items: seq<Json>): (ks: seq<Key>)
    requires forall i :: 0 <= i < |items| ==> Priced(items[i]) && KeyOf(Price(items[i])).Some?
    ensures |ks| == |items| && forall i :: 0 <= i < |items| ==> ks[i] == KeyOf(Price(items[i])).value
  {
    if items == [] then [] else [KeyOf(Price(items[0])).value] + PriceKeys(items[1..])
  }

  /** The position of `sorted(items, key=...)[0]` in `items`. */
  function BestIndex(items: seq<Json>): (b: nat)
    requires Sortable(items)
    ensures b < |items|
  {
    if |items| == 1 then 0 else FirstMinIndex(PriceKeys(items))
  }

  /** What the selection step does with the extracted `deals`. */
  datatype Selection =
    | NoDeals                               // `if not deals`
    | Raises                                // sorting or a key lookup raised
    | Best(deal: map<string, Json>)         // `sorted(...)[0]`

  /** `if not deals: ...` then `sorted(deals, key=...)[0]`. Iterating a
      non-list raises (a string yields characters, an object its keys, and
      neither can be indexed by a string; numbers are not iterable); every
      deal must be an object with a price; a single deal is never compared;
      two or more sort only when their prices are all numbers or all
      strings. */
  function SelectBest(deals: Json): (s: Selection)
    ensures s.NoDeals? <==> !Truthy(deals)
    ensures s.Best? <==> Truthy(deals) && deals.JArr? && Sortable(deals.items)
    ensures s.Best? ==> deals.items[BestIndex(deals.items)] == JObj(s.deal) && PriceKey in s.deal
    ensures s.Best? && |deals.items| == 1 ==> deals.items == [JObj(s.deal)]
    ensures s.Best? && |deals.items| >= 2 ==>
      FirstCheapest(deals.items, s.deal[PriceKey], BestIndex(deals.items))
  {
    if !Truthy(deals) then NoDeals
    else if !deals.JArr? || !Sortable(deals.items) then Raises
    else if |deals.items| == 1 then Best(deals.items[0].fields)
    else
      BestIsFirstCheapest(deals.items);
      Best(deals.items[BestIndex(deals.items)].fields)
  }

  /** `price` is a sort key at most every deal's price, and strictly below
      the price of each of the first `b` deals: the price of the first
      cheapest deal when `b` is its position. */
  predicate FirstCheapest(items: seq<Json>, price: Json, b: nat)
    requires forall i :: 0 <= i < |items| ==> Priced(items[i])
  {
    && KeyOf(price).Some?
    && (forall j :: 0 <= j < |items| ==>
          KeyOf(Price(items[j])).Some? && KeyLe(KeyOf(price).value, KeyOf(Price(items[j])).value))
    && (forall j :: 0 <= j < b && j < |items| ==>
          !KeyLe(KeyOf(Price(items[j])).value, KeyOf(price).value))
  }

  /** With two or more deals the chosen one has the least price, and every
      deal before it has a strictly greater price: the first cheapest. */
  lemma BestIsFirstCheapest(items: seq<Json>)
    requires Sortable(items) && |items| >= 2
    ensures forall i :: 0 <= i < |items| ==> KeyOf(Price(items[i])).Some?
    ensures var b := BestIndex(items);
      && (forall j :: 0 <= j < |items| ==>
            KeyLe(KeyOf(Price(items[b])).value, KeyOf(Price(items[j])).value))
      && (forall j :: 0 <= j < b ==>
            !KeyLe(KeyOf(Price(items[j])).value, KeyOf(Price(items[b])).value))
  {
  }

  /** The same for numeric prices, in the terms of the source: the chosen
      price is `<=` every price, and `<` every price before it. */
  lemma BestIsFirstCheapestNumber(items: seq<Json>)
    requires Sortable(items) && |items| >= 2
    requires Numeric(Price(items[0])).Some?
    ensures forall i :: 0 <= i < |items| ==> Numeric(Price(items[i])).Some?
    ensures var b := BestIndex(items);
      && (forall j :: 0 <= j < |items| ==>
            Numeric(Price(items[b])).value <= Numeric(Price(items[j])).value)
      && (forall j :: 0 <= j < b ==>
            Numeric(Price(items[j])).value > Numeric(Price(items[b])).value)
  {
    assert !Price(items[0]).JStr?;
    BestIsFirstCheapest(items);
    var b := BestIndex(items);
    forall j | 0 <= j < |items|
      ensures Numeric(Price(items[j])) == Some(KeyOf(Price(items[j])).value.x)
    {
      assert Numeric(Price(items[j])).Some?;
    }
  }

  /** The deals keyed by their prices, for the reference sort. */
  function PricePairs(items: seq<Json>): (ps: seq<(Key, Json)>)
    requires forall i :: 0 <= i < |items| ==> Priced(items[i]) && KeyOf(Price(items[i])).Some?
    ensures |ps| == |items|
    ensures forall i :: 0 <= i < |items| ==> ps[i] == (KeyOf(Price(items[i])).value, items[i])
  {
    if items == [] then [] else [(KeyOf(Price(items[0])).value, items[0])] + PricePairs(items[1..])
  }

  /** Comparable prices are all valid sort keys. */
  lemma ComparableKeys(items: seq<Json>)
    requires Sortable(items) && |items| >= 2
    ensures forall i :: 0 <= i < |items| ==> KeyOf(Price(items[i])).Some?
  {
    forall i | 0 <= i < |items| ensures KeyOf(Price(items[i])).Some? {
      if !Price(items[i]).JStr? {
        assert Numeric(Price(items[i])).Some?;
      }
    }
  }

  lemma {:induction false} PricePairsKeys(items: seq<Json>)
    requires forall i :: 0 <= i < |items| ==> Priced(items[i]) && KeyOf(Price(items[i])).Some?
    ensures KeysOf(PricePairs(items)) == PriceKeys(items)
  {
    if items != [] {
      var ps := PricePairs(items);
      PricePairsKeys(items[1..]);
      assert ps[1..] == PricePairs(items[1..]);
      assert KeysOf(ps) == [ps[0].0] + KeysOf(ps[1..]);
    }
  }

  /** The chosen deal is the head of the reference stable sort of the deals
      keyed by price. */
  lemma BestIsSortedHead(items: seq<Json>)
    requires Sortable(items) && |items| >= 2
    ensures forall i :: 0 <= i < |items| ==> KeyOf(Price(items[i])).Some?
    ensures |SortByKey(PricePairs(items))| > 0
    ensures SortByKey(PricePairs(items))[0].1 == items[BestIndex(items)]
  {
    ComparableKeys(items);
    var pairs := PricePairs(items);
    PricePairsKeys(items);
    SortByKeyHead(pairs);
    assert BestIndex(items) == FirstMinIndex(PriceKeys(items));
  }

  /** `float(row.get("MaxPricePerPersonUSD") or 9999)`: a missing or blank
      cell gives 9999; any other text goes to `float`, which may fail. */
  function CeilingOf(m: Monitor, toFloat: string -> Option<real>): (c: Option<real>)
    ensures CeilingKey !in Fields(m) || Fields(m)[CeilingKey] == "" ==> c == Some(DefaultCeiling)
    ensures CeilingKey in Fields(m) && Fields(m)[CeilingKey] != "" ==> c == toFloat(Fields(m)[CeilingKey])
  {
    GetReadsFields(m, CeilingKey);
    if Get(m, CeilingKey) == "" then Some(DefaultCeiling)
    else toFloat(Get(m, CeilingKey))
  }

  /** The comparison `price <= ceiling`: `None` when it raises (the ceiling
      did not parse, or the price is not a number). */
  function AlertDue(price: Json, ceiling: Option<real>): Option<bool>
  {
    match (Numeric(price), ceiling)
    case (Some(x), Some(c)) => Some(x <= c)
    case _ => None
  }

  /** The threshold test of one row, read against the row's dict: the
      comparison raises exactly when the price is not a number or a
      non-blank ceiling does not parse, and an alert is due exactly when the
      price is at most the ceiling, 9999 for a missing or blank cell. */
  lemma ThresholdRule(m: Monitor, price: Json, toFloat: string -> Option<real>)
    ensures var due := AlertDue(price, CeilingOf(m, toFloat));
      var blank := CeilingKey !in Fields(m) || Fields(m)[CeilingKey] == "";
      && (due.None? <==>
            Numeric(price).None? || (!blank && toFloat(Fields(m)[CeilingKey]).None?))
      && (due == Some(true) <==>
            && Numeric(price).Some?
            && if blank then Numeric(price).value <= DefaultCeiling
               else toFloat(Fields(m)[CeilingKey]).Some?
                    && Numeric(price).value <= toFloat(Fields(m)[CeilingKey]).value)
  {
  }
}
