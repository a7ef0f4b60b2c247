/** The Dishes page: the menu's create / edit / delete, and the per-dish sales analytics. */
module Dishes {
  import opened Common
  import opened Ids
  import opened Store
  import opened Ranking

  // ---------------------------------------------------------------------------------------
  // Per-dish statistics

  datatype DishStat = DishStat(dishname: string, totalQuantity: int, totalSales: real, averageOrderValue: real)

  /** `orderItems.filter(item => item.dishid === id)`. */
  function ItemsForDish(items: seq<LineItem>, id: int): (r: seq<LineItem>)
    ensures forall x :: x in r <==> x in items && x.dishid == id
  {
    if |items| == 0 then []
    else (if items[0].dishid == id then [items[0]] else []) + ItemsForDish(items[1..], id)
  }

  /** `reduce((sum, item) => sum + item.quantity, 0)`. */
  function QuantitySum(items: seq<LineItem>): int {
    if |items| == 0 then 0 else items[0].quantity + QuantitySum(items[1..])
  }

  /** The statistics of one dish: its total quantity over the line items naming it, the sales
      at its current price, and the sales per unit sold (0 when none was sold). */
  function StatOf(d: Dish, items: seq<LineItem>): DishStat {
    var q := QuantitySum(ItemsForDish(items, d.dishid));
    var sales := q as real * d.dishprice;
    DishStat(d.dishname, q, sales, if q > 0 then sales / q as real else 0.0)
  }

  /** The sales are quantity × price, and the average order value is the price itself when the
      dish was sold and 0 otherwise. */
  lemma StatOfValues(d: Dish, items: seq<LineItem>)
    ensures StatOf(d, items).dishname == d.dishname
    ensures StatOf(d, items).totalQuantity == QuantitySum(ItemsForDish(items, d.dishid))
    ensures StatOf(d, items).totalSales == StatOf(d, items).totalQuantity as real * d.dishprice
    ensures StatOf(d, items).averageOrderValue ==
              if StatOf(d, items).totalQuantity > 0 then d.dishprice else 0.0
  {
    var q := QuantitySum(ItemsForDish(items, d.dishid));
    var st := StatOf(d, items);
    assert st.totalQuantity == q && st.totalSales == q as real * d.dishprice;
    if q > 0 {
      CancelQuantity(q, d.dishprice);
      assert st.averageOrderValue == (q as real * d.dishprice) / q as real;
    } else {
      assert st.averageOrderValue == 0.0;
    }
  }

  lemma CancelQuantity(q: int, price: real)
    requires q > 0
    ensures (q as real * price) / q as real == price
  {
    var r := q as real;
    assert r * price == price * r;
  }

  /** An entry of the `dishStats` object. Its keys are dish ids, which JavaScript enumerates in
      ascending numeric order whatever the insertion order. */
  datatype Keyed = Keyed(dishid: int, stat: DishStat)

  predicate Ascending(stats: seq<Keyed>) {
    forall i, j :: 0 <= i < j < |stats| ==> stats[i].dishid < stats[j].dishid
  }

  function Keys(stats: seq<Keyed>): set<int> {
    set e | e in stats :: e.dishid
  }

  /** `dishStats[id]`. */
  function Get(stats: seq<Keyed>, id: int): Option<DishStat> {
    if |stats| == 0 then None else if stats[0].dishid == id then Some(stats[0].stat) else Get(stats[1..], id)
  }

  /** `dishStats[id] = st`: an existing key is overwritten in place, a new key takes its place in
      ascending order. */
  function Put(stats: seq<Keyed>, id: int, st: DishStat): seq<Keyed> {
    if |stats| == 0 then [Keyed(id, st)]
    else if stats[0].dishid == id then [Keyed(id, st)] + stats[1..]
    else if stats[0].dishid > id then [Keyed(id, st)] + stats
    else [stats[0]] + Put(stats[1..], id, st)
  }

  lemma KeysHead(s: seq<Keyed>)
    requires |s| > 0
    ensures Keys(s) == {s[0].dishid} + Keys(s[1..])
  {
    assert forall x :: x in s <==> x == s[0] || x in s[1..];
  }

  /** After `Put` the key maps to the new statistics and every other key keeps its own. */
  lemma {:induction false} PutGet(stats: seq<Keyed>, id: int, st: DishStat)
    ensures Get(Put(stats, id, st), id) == Some(st)
    ensures forall k :: k != id ==> Get(Put(stats, id, st), k) == Get(stats, k)
  {
    if |stats| > 0 && stats[0].dishid < id {
      PutGet(stats[1..], id, st);
      assert Put(stats, id, st)[1..] == Put(stats[1..], id, st);
    } else if |stats| > 0 && stats[0].dishid > id {
      assert Put(stats, id, st)[1..] == stats;
    }
  }

  /** An ascending list is its head followed by an ascending tail of larger keys. */
  lemma AscendingTail(s: seq<Keyed>)
    requires Ascending(s) && |s| > 0
    ensures Ascending(s[1..])
    ensures forall k :: k in Keys(s[1..]) ==> s[0].dishid < k
  {
    forall k | k in Keys(s[1..]) ensures s[0].dishid < k {
      var e :| e in s[1..] && e.dishid == k;
      var i :| 0 <= i < |s[1..]| && s[1..][i] == e;
      assert s[i + 1] == e;
    }
  }

  /** A list is ascending when its tail is and its head is below every key of the tail. */
  lemma AscendingHead(s: seq<Keyed>)
    requires |s| > 0 && Ascending(s[1..])
    requires forall k :: k in Keys(s[1..]) ==> s[0].dishid < k
    ensures Ascending(s)
  {
    forall i, j | 0 <= i < j < |s| ensures s[i].dishid < s[j].dishid {
      assert s[j] == s[1..][j - 1];
      if i == 0 {
        assert s[1..][j - 1] in s[1..];
        assert s[1..][j - 1].dishid in Keys(s[1..]);
      } else {
        assert s[i] == s[1..][i - 1];
      }
    }
  }

  /** `Put` adds exactly `id` to the keys. */
  lemma {:induction false} PutKeySet(stats: seq<Keyed>, id: int, st: DishStat)
    ensures Keys(Put(stats, id, st)) == Keys(stats) + {id}
  {
    var r := Put(stats, id, st);
    KeysHead(r);
    if |stats| == 0 {
      assert r[1..] == [];
      assert Keys(r[1..]) == {} && Keys(stats) == {};
    } else {
      KeysHead(stats);
      if stats[0].dishid == id {
        assert r[1..] == stats[1..];
      } else if stats[0].dishid > id {
        assert r[1..] == stats;
      } else {
        PutKeySet(stats[1..], id, st);
        assert r[1..] == Put(stats[1..], id, st);
      }
    }
  }

  /** `Put` adds exactly `id` to the keys, keeping them ascending. */
  lemma {:induction false} PutKeys(stats: seq<Keyed>, id: int, st: DishStat)
    requires Ascending(stats)
    ensures Keys(Put(stats, id, st)) == Keys(stats) + {id}
    ensures Ascending(Put(stats, id, st))
  {
    PutKeySet(stats, id, st);
    var r := Put(stats, id, st);
    if |stats| == 0 {
      assert r[1..] == [];
    } else {
      var h := stats[0];
      AscendingTail(stats);
      if h.dishid == id {
        assert r[1..] == stats[1..];
      } else if h.dishid > id {
        assert r[1..] == stats;
        KeysHead(stats);
      } else {
        PutKeys(stats[1..], id, st);
        assert r[1..] == Put(stats[1..], id, st);
      }
    }
    AscendingHead(r);
  }

  /** The object `calculateAnalytics` fills: one `Put` per dish, in menu order. */
  function StatsOf(dishes: seq<Dish>, items: seq<LineItem>): seq<Keyed> {
    if |dishes| == 0 then []
    else Put(StatsOf(dishes[..|dishes| - 1], items), dishes[|dishes| - 1].dishid, StatOf(dishes[|dishes| - 1], items))
  }

  /** The `reduce` over one dish's line items. */
  method SumQuantities(items: seq<LineItem>) returns (total: int)
    ensures total == QuantitySum(items)
  {
    total := 0;
    for j := 0 to |items|
      invariant total + QuantitySum(items[j..]) == QuantitySum(items)
    {
      assert items[j..] == [items[j]] + items[j + 1..];
      total := total + items[j].quantity;
    }
  }

  /** The `dishes.forEach` that fills `dishStats` in place. */
  method CalculateStats(dishes: seq<Dish>, items: seq<LineItem>) returns (stats: seq<Keyed>)
    ensures stats == StatsOf(dishes, items)
  {
    stats := [];
    for i := 0 to |dishes|
      invariant stats == StatsOf(dishes[..i], items)
    {
      assert dishes[..i + 1][..i] == dishes[..i];
      var d := dishes[i];
      var totalQuantity := SumQuantities(ItemsForDish(items, d.dishid));
      var totalSales := totalQuantity as real * d.dishprice;
      var st := DishStat(d.dishname, totalQuantity, totalSales,
                         if totalQuantity > 0 then totalSales / totalQuantity as real else 0.0);
      assert st == StatOf(d, items);
      stats := Put(stats, d.dishid, st);
    }
    assert dishes[..|dishes|] == dishes;
  }

  predicate UniqueIds(dishes: seq<Dish>) {
    forall i, j :: 0 <= i < j < |dishes| ==> dishes[i].dishid != dishes[j].dishid
  }

  /** The keys of `dishStats` are exactly the menu's dish ids, ascending, and each dish's entry is
      that dish's statistics when dish ids are unique. */
  lemma StatsOfDishes(dishes: seq<Dish>, items: seq<LineItem>)
    ensures Ascending(StatsOf(dishes, items))
    ensures Keys(StatsOf(dishes, items)) == set d | d in dishes :: d.dishid
    ensures UniqueIds(dishes) ==>
              forall i :: 0 <= i < |dishes| ==> Get(StatsOf(dishes, items), dishes[i].dishid) == Some(StatOf(dishes[i], items))
  {
    StatsKeys(dishes, items);
    if UniqueIds(dishes) {
      StatsGet(dishes, items);
    }
  }

  lemma {:induction false} StatsKeys(dishes: seq<Dish>, items: seq<LineItem>)
    ensures Ascending(StatsOf(dishes, items))
    ensures Keys(StatsOf(dishes, items)) == set d | d in dishes :: d.dishid
  {
    if |dishes| > 0 {
      var init := dishes[..|dishes| - 1];
      var last := dishes[|dishes| - 1];
      StatsKeys(init, items);
      PutKeys(StatsOf(init, items), last.dishid, StatOf(last, items));
      IdsSnoc(dishes);
    }
  }

  lemma IdsSnoc(dishes: seq<Dish>)
    requires |dishes| > 0
    ensures (set d | d in dishes :: d.dishid) ==
              (set d | d in dishes[..|dishes| - 1] :: d.dishid) + {dishes[|dishes| - 1].dishid}
  {
    assert dishes == dishes[..|dishes| - 1] + [dishes[|dishes| - 1]];
  }

  lemma {:induction false} StatsGet(dishes: seq<Dish>, items: seq<LineItem>)
    requires UniqueIds(dishes)
    ensures forall i :: 0 <= i < |dishes| ==> Get(StatsOf(dishes, items), dishes[i].dishid) == Some(StatOf(dishes[i], items))
  {
    if |dishes| > 0 {
      var init := dishes[..|dishes| - 1];
      var last := dishes[|dishes| - 1];
      assert UniqueIds(init) by {
        forall i, j | 0 <= i < j < |init| ensures init[i].dishid != init[j].dishid {
          assert init[i] == dishes[i] && init[j] == dishes[j];
        }
      }
      StatsGet(init, items);
      PutGet(StatsOf(init, items), last.dishid, StatOf(last, items));
      forall i | 0 <= i < |dishes| ensures Get(StatsOf(dishes, items), dishes[i].dishid) == Some(StatOf(dishes[i], items)) {
        if i < |init| {
          assert init[i] == dishes[i];
        }
      }
    }
  }

  /** `Object.values(dishStats)`. */
  function Values(stats: seq<Keyed>): (r: seq<DishStat>)
    ensures |r| == |stats|
    ensures forall i :: 0 <= i < |stats| ==> r[i] == stats[i].stat
  {
    seq(|stats|, i requires 0 <= i < |stats| => stats[i].stat)
  }

  // ---------------------------------------------------------------------------------------
  // Rankings and totals

  function Sold(vals: seq<DishStat>): (r: seq<DishStat>)
    ensures forall s :: s in r <==> s in vals && s.totalQuantity > 0
  {
    if |vals| == 0 then []
    else (if vals[0].totalQuantity > 0 then [vals[0]] else []) + Sold(vals[1..])
  }

  function Earning(vals: seq<DishStat>): (r: seq<DishStat>)
    ensures forall s :: s in r <==> s in vals && s.totalSales > 0.0
  {
    if |vals| == 0 then []
    else (if vals[0].totalSales > 0.0 then [vals[0]] else []) + Earning(vals[1..])
  }

  function QuantityKey(s: DishStat): real {
    s.totalQuantity as real
  }

  function SalesKey(s: DishStat): real {
    s.totalSales
  }

  function MostOrdered(vals: seq<DishStat>): seq<DishStat> {
    Take(SortDesc(Sold(vals), QuantityKey), 10)
  }

  function HighestRevenue(vals: seq<DishStat>): seq<DishStat> {
    Take(SortDesc(Earning(vals), SalesKey), 10)
  }

  /** `mostOrderedDishes`: at most ten dishes, all sold, by non-increasing quantity, none left out
      selling more than one kept. */
  lemma MostOrderedRanking(vals: seq<DishStat>)
    ensures |MostOrdered(vals)| <= 10
    ensures forall s :: s in MostOrdered(vals) ==> s in vals && s.totalQuantity > 0
    ensures forall i, j :: 0 <= i < j < |MostOrdered(vals)| ==>
              MostOrdered(vals)[i].totalQuantity >= MostOrdered(vals)[j].totalQuantity
    ensures var s := SortDesc(Sold(vals), QuantityKey);
              forall i, j :: 0 <= i < |MostOrdered(vals)| <= j < |s| ==>
                MostOrdered(vals)[i].totalQuantity >= s[j].totalQuantity
  {
    TopOfSorted(Sold(vals), 10, QuantityKey);
    MostOrderedDescending(vals);
    MostOrderedCutoff(vals);
  }

  lemma MostOrderedDescending(vals: seq<DishStat>)
    ensures forall i, j :: 0 <= i < j < |MostOrdered(vals)| ==>
              MostOrdered(vals)[i].totalQuantity >= MostOrdered(vals)[j].totalQuantity
  {
    TopOfSorted(Sold(vals), 10, QuantityKey);
    var r := MostOrdered(vals);
    assert forall i, j :: 0 <= i < j < |r| ==> QuantityKey(r[i]) >= QuantityKey(r[j]);
  }

  lemma MostOrderedCutoff(vals: seq<DishStat>)
    ensures var s := SortDesc(Sold(vals), QuantityKey);
              forall i, j :: 0 <= i < |MostOrdered(vals)| <= j < |s| ==>
                MostOrdered(vals)[i].totalQuantity >= s[j].totalQuantity
  {
    var s := SortDesc(Sold(vals), QuantityKey);
    TopOfSorted(Sold(vals), 10, QuantityKey);
    var r := MostOrdered(vals);
    assert forall i, j :: 0 <= i < |r| <= j < |s| ==> QuantityKey(r[i]) >= QuantityKey(s[j]);
  }

  /** `highestRevenueDishes`: at most ten dishes, all with positive sales, by non-increasing
      sales, none left out earning more than one kept. */
  lemma HighestRevenueRanking(vals: seq<DishStat>)
    ensures |HighestRevenue(vals)| <= 10
    ensures forall s :: s in HighestRevenue(vals) ==> s in vals && s.totalSales > 0.0
    ensures forall i, j :: 0 <= i < j < |HighestRevenue(vals)| ==>
              HighestRevenue(vals)[i].totalSales >= HighestRevenue(vals)[j].totalSales
    ensures var s := SortDesc(Earning(vals), SalesKey);
              forall i, j :: 0 <= i < |HighestRevenue(vals)| <= j < |s| ==>
                HighestRevenue(vals)[i].totalSales >= s[j].totalSales
  {
    TopOfSorted(Earning(vals), 10, SalesKey);
    HighestRevenueDescending(vals);
  }

  lemma HighestRevenueDescending(vals: seq<DishStat>)
    ensures forall i, j :: 0 <= i < j < |HighestRevenue(vals)| ==>
              HighestRevenue(vals)[i].totalSales >= HighestRevenue(vals)[j].totalSales
  {
    TopOfSorted(Earning(vals), 10, SalesKey);
    var r := HighestRevenue(vals);
    assert forall i, j :: 0 <= i < j < |r| ==> SalesKey(r[i]) >= SalesKey(r[j]);
  }

  /** `totalDishesSold`. */
  function TotalSold(vals: seq<DishStat>): int {
    if |vals| == 0 then 0 else vals[0].totalQuantity + TotalSold(vals[1..])
  }

  /** `totalRevenue`. */
  function TotalRevenue(vals: seq<DishStat>): real {
    if |vals| == 0 then 0.0 else vals[0].totalSales + TotalRevenue(vals[1..])
  }

  /** The reference definitions: Σ over the menu, in menu order, of each dish's quantity and sales. */
  function MenuQuantity(dishes: seq<Dish>, items: seq<LineItem>): int {
    if |dishes| == 0 then 0
    else MenuQuantity(dishes[..|dishes| - 1], items) + StatOf(dishes[|dishes| - 1], items).totalQuantity
  }

  function MenuSales(dishes: seq<Dish>, items: seq<LineItem>): real {
    if |dishes| == 0 then 0.0
    else MenuSales(dishes[..|dishes| - 1], items) + StatOf(dishes[|dishes| - 1], items).totalSales
  }

  /** Adding a new key adds its statistics to both totals, whatever its place among the keys. */
  lemma {:induction false} PutNewKeyTotals(stats: seq<Keyed>, id: int, st: DishStat)
    requires id !in Keys(stats)
    ensures TotalSold(Values(Put(stats, id, st))) == TotalSold(Values(stats)) + st.totalQuantity
    ensures TotalRevenue(Values(Put(stats, id, st))) == TotalRevenue(Values(stats)) + st.totalSales
  {
    var r := Put(stats, id, st);
    TotalsHead(r);
    if |stats| == 0 {
      assert r[1..] == [];
    } else {
      var h := stats[0];
      assert h.dishid != id by { assert h in stats; }
      TotalsHead(stats);
      if h.dishid > id {
        assert r[1..] == stats;
      } else {
        assert id !in Keys(stats[1..]) by {
          forall e | e in stats[1..] ensures e.dishid != id { assert e in stats; }
        }
        PutNewKeyTotals(stats[1..], id, st);
        assert r[1..] == Put(stats[1..], id, st);
      }
    }
  }

  /** Both totals split into the first entry and the rest. */
  lemma TotalsHead(s: seq<Keyed>)
    requires |s| > 0
    ensures TotalSold(Values(s)) == s[0].stat.totalQuantity + TotalSold(Values(s[1..]))
    ensures TotalRevenue(Values(s)) == s[0].stat.totalSales + TotalRevenue(Values(s[1..]))
  {
    assert Values(s)[1..] == Values(s[1..]);
  }

  /** With unique dish ids, `totalDishesSold` and `totalRevenue` are the sums over the menu of the
      per-dish quantities and sales. */
  lemma {:induction false} TotalsOverMenu(dishes: seq<Dish>, items: seq<LineItem>)
    requires UniqueIds(dishes)
    ensures TotalSold(Values(StatsOf(dishes, items))) == MenuQuantity(dishes, items)
    ensures TotalRevenue(Values(StatsOf(dishes, items))) == MenuSales(dishes, items)
  {
    if |dishes| > 0 {
      var init := dishes[..|dishes| - 1];
      var last := dishes[|dishes| - 1];
      assert UniqueIds(init);
      TotalsOverMenu(init, items);
      StatsOfDishes(init, items);
      assert last.dishid !in Keys(StatsOf(init, items));
      PutNewKeyTotals(StatsOf(init, items), last.dishid, StatOf(last, items));
    }
  }

  function Prices(dishes: seq<Dish>): (r: seq<real>)
    ensures |r| == |dishes|
    ensures forall i :: 0 <= i < |dishes| ==> r[i] == dishes[i].dishprice
  {
    seq(|dishes|, i requires 0 <= i < |dishes| => dishes[i].dishprice)
  }

  datatype DishAnalytics = DishAnalytics(
    mostOrderedDishes: seq<DishStat>, highestRevenueDishes: seq<DishStat>, totalDishesSold: int,
    totalRevenue: real, averageDishPrice: real, dishStats: seq<Keyed>)

  /** `calculateAnalytics`. */
  function AnalyticsSpec(dishes: seq<Dish>, items: seq<LineItem>): DishAnalytics {
    var stats := StatsOf(dishes, items);
    var vals := Values(stats);
    DishAnalytics(MostOrdered(vals), HighestRevenue(vals), TotalSold(vals), TotalRevenue(vals),
                  Mean(Prices(dishes)), stats)
  }

  method CalculateAnalytics(dishes: seq<Dish>, items: seq<LineItem>) returns (a: DishAnalytics)
    ensures a == AnalyticsSpec(dishes, items)
  {
    var stats := CalculateStats(dishes, items);
    var vals := Values(stats);
    a := DishAnalytics(MostOrdered(vals), HighestRevenue(vals), TotalSold(vals), TotalRevenue(vals),
                       Mean(Prices(dishes)), stats);
  }

  /** `averageDishPrice` is 0 for an empty menu and otherwise lies between the cheapest and the
      dearest dish. */
  lemma AveragePriceBounds(dishes: seq<Dish>, items: seq<LineItem>)
    ensures |dishes| == 0 ==> AnalyticsSpec(dishes, items).averageDishPrice == 0.0
    ensures |dishes| > 0 ==>
              Min(Prices(dishes)) <= AnalyticsSpec(dishes, items).averageDishPrice <= Max(Prices(dishes))
  {
    if |dishes| > 0 {
      MeanBetweenMinAndMax(Prices(dishes));
    }
  }

  // ---------------------------------------------------------------------------------------
  // Menu writes

  datatype DishForm = DishForm(dishname: string, dishprice: real)

  /** `handleSubmit`: a truthy `editing` updates that dish's name and price; otherwise a dish is
      inserted under id max + 1. A rejected write is not reported. */
  function SubmitSpec(t: Tables, form: DishForm, editing: Option<int>, accepted: bool): Tables {
    if !accepted then t
    else if IsSet(editing) then t.(dish := SetDish(t.dish, editing.value, form.dishname, form.dishprice))
    else t.(dish := t.dish + [Dish(NextId(DishIds(t.dish)), form.dishname, form.dishprice)])
  }

  method SubmitDish(db: Db, form: DishForm, editing: Option<int>, accepted: bool)
    modifies db
    ensures db.Snapshot() == SubmitSpec(old(db.Snapshot()), form, editing, accepted)
  {
    if IsSet(editing) {
      db.UpdateDish(editing.value, form.dishname, form.dishprice, accepted);
    } else {
      var dishid := NextId(DishIds(db.dish));
      db.InsertDish(Dish(dishid, form.dishname, form.dishprice), accepted);
    }
  }

  datatype DeleteResult = Deleted | DeleteFailed

  /** `handleDelete`: the error is shown and nothing changes, or the dish's rows are gone. */
  function DeleteSpec(t: Tables, id: int, accepted: bool): (Tables, DeleteResult) {
    if accepted then (t.(dish := WithoutDish(t.dish, id)), Deleted) else (t, DeleteFailed)
  }

  method DeleteDish(db: Db, id: int, accepted: bool) returns (r: DeleteResult)
    modifies db
    ensures (db.Snapshot(), r) == DeleteSpec(old(db.Snapshot()), id, accepted)
  {
    db.DeleteDish(id, accepted);
    r := if accepted then Deleted else DeleteFailed;
  }

  /** A created dish is appended under an id no dish had (1 on an empty menu); nothing else changes. */
  lemma CreatedDishIsFresh(t: Tables, form: DishForm, editing: Option<int>)
    requires !IsSet(editing)
    ensures var t' := SubmitSpec(t, form, editing, true);
            var id := NextId(DishIds(t.dish));
      && t'.dish == t.dish + [Dish(id, form.dishname, form.dishprice)]
      && id !in DishIds(t.dish) && (|t.dish| == 0 ==> id == 1)
      && t' == t.(dish := t'.dish)
  {
  }

  /** Editing changes the name and price of the rows with the edited id only (their ids stay),
      and no other table. */
  lemma EditChangesOnlyTarget(t: Tables, form: DishForm, editing: Option<int>)
    requires IsSet(editing)
    ensures var t' := SubmitSpec(t, form, editing, true);
      && |t'.dish| == |t.dish|
      && (forall i :: 0 <= i < |t.dish| && t.dish[i].dishid != editing.value ==> t'.dish[i] == t.dish[i])
      && (forall i :: 0 <= i < |t.dish| && t.dish[i].dishid == editing.value ==>
            t'.dish[i] == Dish(editing.value, form.dishname, form.dishprice))
      && DishIds(t'.dish) == DishIds(t.dish)
      && t' == t.(dish := t'.dish)
  {
    var t' := SubmitSpec(t, form, editing, true);
    assert forall i :: 0 <= i < |t.dish| ==> DishIds(t'.dish)[i] == DishIds(t.dish)[i];
  }

  /** A delete either fails and changes nothing, or removes exactly the rows with that id. */
  lemma DeleteEffect(t: Tables, id: int, accepted: bool)
    ensures var (t', r) := DeleteSpec(t, id, accepted);
      && (r == DeleteFailed <==> !accepted)
      && (r == DeleteFailed ==> t' == t)
      && (r == Deleted ==> (forall d :: d in t'.dish <==> d in t.dish && d.dishid != id) && t' == t.(dish := t'.dish))
  {
  }
}
