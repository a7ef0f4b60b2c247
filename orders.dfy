/** The Orders page: editing an order's line items as a list of (dish, quantity) entries, and
    writing the order back. Submitting updates (or creates) the order row, replaces its line
    items by the entries with a positive quantity, and resets the form; deleting removes the line
    items first and the order only when that succeeded. */
module Orders {
  import opened Common
  import opened Store

  /** The order form: `billid` (empty is `None`) and `orderdate`. */
  datatype OrderForm = OrderForm(billid: Option<int>, orderdate: string)

  /** An entry of `orderDishes`. */
  datatype OrderDish = OrderDish(dishid: int, quantity: int)

  /** The page state `handleSubmit` leaves behind. */
  datatype OrdersPage = OrdersPage(form: OrderForm, orderDishes: seq<OrderDish>, editing: Option<int>)

  const BLANK_PAGE := OrdersPage(OrderForm(None, ""), [], None)

  /** The store writes of `handleSubmit` and `handleDelete`; `ItemInsert(i)` is the insert for
      the i-th entry. */
  datatype OrdersWrite = OrderUpdate | ItemsDelete | OrderCreate | ItemInsert(i: nat) | OrderDelete

  datatype DeleteError = ItemsDeleteFailed | OrderDeleteFailed

  // ---------------------------------------------------------------------------------------
  // The entry list

  predicate Listed(entries: seq<OrderDish>, dishid: int) {
    exists i :: 0 <= i < |entries| && entries[i].dishid == dishid
  }

  /** At most one entry per dish. */
  predicate OnePerDish(entries: seq<OrderDish>) {
    forall i, j :: 0 <= i < j < |entries| ==> entries[i].dishid != entries[j].dishid
  }

  function SetQuantity(entries: seq<OrderDish>, dishid: int, quantity: int): (r: seq<OrderDish>)
    ensures |r| == |entries|
    ensures forall i :: 0 <= i < |entries| ==>
              r[i] == if entries[i].dishid == dishid then entries[i].(quantity := quantity) else entries[i]
  {
    if |entries| == 0 then []
    else [if entries[0].dishid == dishid then entries[0].(quantity := quantity) else entries[0]]
         + SetQuantity(entries[1..], dishid, quantity)
  }

  /** `handleDishChange`: the dish's entry takes the new quantity, other entries are kept; an
      absent dish is appended. */
  function ChangeDish(entries: seq<OrderDish>, dishid: int, quantity: int): (r: seq<OrderDish>)
    ensures Listed(entries, dishid) ==>
              |r| == |entries| &&
              forall i :: 0 <= i < |entries| ==>
                r[i] == if entries[i].dishid == dishid then entries[i].(quantity := quantity) else entries[i]
    ensures !Listed(entries, dishid) ==> r == entries + [OrderDish(dishid, quantity)]
  {
    if Listed(entries, dishid) then SetQuantity(entries, dishid, quantity) else entries + [OrderDish(dishid, quantity)]
  }

  /** The entries with a positive quantity, in order. */
  function PositiveEntries(entries: seq<OrderDish>): (r: seq<OrderDish>)
    ensures forall e :: e in r <==> e in entries && e.quantity > 0
  {
    if |entries| == 0 then []
    else
      var init := entries[..|entries| - 1];
      var last := entries[|entries| - 1];
      assert forall e :: e in entries <==> e in init || e == last;
      PositiveEntries(init) + (if last.quantity > 0 then [last] else [])
  }

  function LineFor(ordersid: Option<int>, e: OrderDish): LineItem {
    LineItem(ordersid, e.dishid, e.quantity)
  }

  function LinesFor(ordersid: Option<int>, entries: seq<OrderDish>): (r: seq<LineItem>)
    ensures |r| == |entries|
    ensures forall i :: 0 <= i < |entries| ==> r[i] == LineFor(ordersid, entries[i])
  {
    seq(|entries|, i requires 0 <= i < |entries| => LineFor(ordersid, entries[i]))
  }

  /** The line items the insert loop writes: one per positive entry whose insert is accepted,
      in entry order. */
  function Written(ordersid: Option<int>, entries: seq<OrderDish>, fails: set<OrdersWrite>): (r: seq<LineItem>)
    ensures forall x :: x in r ==> x.ordersid == ordersid && x.quantity > 0
    ensures |r| <= |entries|
  {
    if |entries| == 0 then []
    else
      var n := |entries| - 1;
      Written(ordersid, entries[..n], fails) +
        (if entries[n].quantity > 0 && ItemInsert(n) !in fails then [LineFor(ordersid, entries[n])] else [])
  }

  // ---------------------------------------------------------------------------------------
  // Submitting

  /** The whole of `handleSubmit`. `generatedId` is the id the store gives a created order; the
      line items go under `editing` when creating fails. */
  function SubmitSpec(t: Tables, form: OrderForm, entries: seq<OrderDish>, editing: Option<int>,
                      generatedId: int, fails: set<OrdersWrite>): Tables
  {
    if IsSet(editing) then
      var oid := editing.value;
      var t1 := if OrderUpdate in fails then t else t.(orders := SetOrderFields(t.orders, oid, form.billid, form.orderdate));
      var t2 := if ItemsDelete in fails then t1 else t1.(orderslist := WithoutItemsOf(t1.orderslist, oid));
      t2.(orderslist := t2.orderslist + Written(editing, entries, fails))
    else
      var ordersid := if OrderCreate in fails then editing else Some(generatedId);
      var t1 := if OrderCreate in fails then t
                else t.(orders := t.orders + [Order(generatedId, None, form.billid, form.orderdate)]);
      t1.(orderslist := t1.orderslist + Written(ordersid, entries, fails))
  }

  /** `handleSubmit` against the store; returns the reset page state. */
  method SubmitOrder(db: Db, form: OrderForm, entries: seq<OrderDish>, editing: Option<int>,
                     generatedId: int, fails: set<OrdersWrite>) returns (page: OrdersPage)
    modifies db
    ensures db.Snapshot() == SubmitSpec(old(db.Snapshot()), form, entries, editing, generatedId, fails)
    ensures page == BLANK_PAGE
  {
    var ordersid := editing;
    if IsSet(editing) {
      db.UpdateOrderFields(editing.value, form.billid, form.orderdate, OrderUpdate !in fails);
      db.DeleteLineItemsOf(editing.value, ItemsDelete !in fails);
    } else {
      db.InsertOrder(Order(generatedId, None, form.billid, form.orderdate), OrderCreate !in fails);
      if OrderCreate !in fails {
        ordersid := Some(generatedId);
      }
    }
    InsertEntries(db, ordersid, entries, fails);
    page := BLANK_PAGE;
  }

  /** The `for (const od of orderDishes)` loop of `handleSubmit`: one insert per positive entry. */
  method InsertEntries(db: Db, ordersid: Option<int>, entries: seq<OrderDish>, fails: set<OrdersWrite>)
    modifies db
    ensures db.Snapshot() == old(db.Snapshot()).(orderslist := old(db.orderslist) + Written(ordersid, entries, fails))
  {
    ghost var t1 := db.Snapshot();
    for i := 0 to |entries|
      invariant db.Snapshot() == t1.(orderslist := t1.orderslist + Written(ordersid, entries[..i], fails))
    {
      assert entries[..i + 1][..i] == entries[..i];
      if entries[i].quantity > 0 {
        db.InsertLineItem(LineItem(ordersid, entries[i].dishid, entries[i].quantity), ItemInsert(i) !in fails);
      }
    }
    assert entries[..|entries|] == entries;
  }

  // ---------------------------------------------------------------------------------------
  // Deleting

  function DeleteSpec(t: Tables, id: int, fails: set<OrdersWrite>): (Tables, Option<DeleteError>) {
    if ItemsDelete in fails then (t, Some(ItemsDeleteFailed))
    else
      var t1 := t.(orderslist := WithoutItemsOf(t.orderslist, id));
      if OrderDelete in fails then (t1, Some(OrderDeleteFailed))
      else (t1.(orders := WithoutOrder(t1.orders, id)), None)
  }

  /** `handleDelete`: delete the order's line items, and then the order when that succeeded. */
  method DeleteOrder(db: Db, id: int, fails: set<OrdersWrite>) returns (err: Option<DeleteError>)
    modifies db
    ensures (db.Snapshot(), err) == DeleteSpec(old(db.Snapshot()), id, fails)
  {
    db.DeleteLineItemsOf(id, ItemsDelete !in fails);
    if ItemsDelete in fails {
      return Some(ItemsDeleteFailed);
    }
    db.DeleteOrder(id, OrderDelete !in fails);
    if OrderDelete in fails {
      return Some(OrderDeleteFailed);
    }
    err := None;
  }

  // ---------------------------------------------------------------------------------------
  // Properties

  /** Changing a dish keeps at most one entry per dish, and afterwards that dish's entries all
      carry the new quantity. */
  lemma ChangeDishKeepsOnePerDish(entries: seq<OrderDish>, dishid: int, quantity: int)
    requires OnePerDish(entries)
    ensures OnePerDish(ChangeDish(entries, dishid, quantity))
    ensures Listed(ChangeDish(entries, dishid, quantity), dishid)
    ensures forall e :: e in ChangeDish(entries, dishid, quantity) && e.dishid == dishid ==> e.quantity == quantity
  {
    var r := ChangeDish(entries, dishid, quantity);
    if !Listed(entries, dishid) {
      assert r[|entries|].dishid == dishid;
    } else {
      var k :| 0 <= k < |entries| && entries[k].dishid == dishid;
      assert r[k].dishid == dishid;
    }
  }

  /** With every insert accepted the loop writes exactly the positive entries, in order. */
  lemma {:induction false} WrittenWithoutFailures(ordersid: Option<int>, entries: seq<OrderDish>, fails: set<OrdersWrite>)
    requires forall i :: 0 <= i < |entries| ==> ItemInsert(i) !in fails
    ensures Written(ordersid, entries, fails) == LinesFor(ordersid, PositiveEntries(entries))
  {
    if |entries| > 0 {
      var n := |entries| - 1;
      var init := entries[..n];
      assert forall i :: 0 <= i < |init| ==> ItemInsert(i) !in fails;
      WrittenWithoutFailures(ordersid, init, fails);
      var p := PositiveEntries(init);
      var tail := if entries[n].quantity > 0 then [entries[n]] else [];
      assert PositiveEntries(entries) == p + tail;
      assert Written(ordersid, entries, fails) == LinesFor(ordersid, p) + LinesFor(ordersid, tail);
      LinesForAppend(ordersid, p, tail);
    }
  }

  lemma LinesForAppend(ordersid: Option<int>, a: seq<OrderDish>, b: seq<OrderDish>)
    ensures LinesFor(ordersid, a + b) == LinesFor(ordersid, a) + LinesFor(ordersid, b)
  {
  }

  /** Editing an order with every write accepted leaves as its line items exactly one per
      positive-quantity entry, with that entry's dish and quantity, in entry order; the old
      line items are gone. */
  lemma EditLeavesExactlyPositiveEntries(t: Tables, form: OrderForm, entries: seq<OrderDish>, oid: int,
                                         generatedId: int)
    requires oid != 0
    ensures var t' := SubmitSpec(t, form, entries, Some(oid), generatedId, {});
      && ItemsOf(t'.orderslist, oid) == LinesFor(Some(oid), PositiveEntries(entries))
      && t'.orders == SetOrderFields(t.orders, oid, form.billid, form.orderdate)
  {
    var t' := SubmitSpec(t, form, entries, Some(oid), generatedId, {});
    assert t'.orderslist == WithoutItemsOf(t.orderslist, oid) + Written(Some(oid), entries, {});
    ReplacedItems(t.orderslist, oid, entries);
  }

  /** Deleting an order's line items and then writing the entries leaves exactly the positive
      entries as that order's items. */
  lemma ReplacedItems(rows: seq<LineItem>, oid: int, entries: seq<OrderDish>)
    ensures ItemsOf(WithoutItemsOf(rows, oid) + Written(Some(oid), entries, {}), oid) ==
              LinesFor(Some(oid), PositiveEntries(entries))
  {
    var kept := WithoutItemsOf(rows, oid);
    var w := Written(Some(oid), entries, {});
    ItemsOfAppend(kept, w, oid);
    ItemsOfWithout(rows, oid);
    WrittenWithoutFailures(Some(oid), entries, {});
    assert forall i :: 0 <= i < |w| ==> w[i] in w;
    ItemsOfOwn(w, oid);
  }

  /** Only positive quantities are ever inserted, under the order being written, whichever
      writes fail; when creating a new order fails, the items are written with a null order. */
  lemma InsertedItemsArePositive(t: Tables, form: OrderForm, entries: seq<OrderDish>, editing: Option<int>,
                                 generatedId: int, fails: set<OrdersWrite>)
    ensures var t' := SubmitSpec(t, form, entries, editing, generatedId, fails);
            var base := if !IsSet(editing) || ItemsDelete in fails then t.orderslist
                        else WithoutItemsOf(t.orderslist, editing.value);
            var ordersid := if IsSet(editing) || OrderCreate in fails then editing else Some(generatedId);
      && |base| <= |t'.orderslist| && t'.orderslist[..|base|] == base
      && (forall i :: |base| <= i < |t'.orderslist| ==>
            t'.orderslist[i].quantity > 0 && t'.orderslist[i].ordersid == ordersid)
      && (editing == None && OrderCreate in fails ==> ordersid == None)
  {
    var t' := SubmitSpec(t, form, entries, editing, generatedId, fails);
    var base := if !IsSet(editing) || ItemsDelete in fails then t.orderslist else WithoutItemsOf(t.orderslist, editing.value);
    var ordersid := if IsSet(editing) || OrderCreate in fails then editing else Some(generatedId);
    var w := Written(ordersid, entries, fails);
    assert t'.orderslist == base + w;
    forall i | |base| <= i < |t'.orderslist|
      ensures t'.orderslist[i].quantity > 0 && t'.orderslist[i].ordersid == ordersid
    {
      assert t'.orderslist[i] == w[i - |base|];
      assert w[i - |base|] in w;
    }
    assert t'.orderslist[..|base|] == base;
  }

  /** If deleting the line items fails the order is kept and nothing changes; otherwise no line
      item of the order is left, and the order row goes too unless its delete fails. */
  lemma DeleteOrderEffect(t: Tables, id: int, fails: set<OrdersWrite>)
    ensures var (t', err) := DeleteSpec(t, id, fails);
      && (ItemsDelete in fails ==> t' == t && err == Some(ItemsDeleteFailed))
      && (ItemsDelete !in fails ==> ItemsOf(t'.orderslist, id) == [])
      && (ItemsDelete !in fails && OrderDelete in fails ==> t'.orders == t.orders && err == Some(OrderDeleteFailed))
      && (err.None? ==> forall o :: o in t'.orders <==> o in t.orders && o.ordersid != id)
      && t' == t.(orderslist := t'.orderslist, orders := t'.orders)
  {
    ItemsOfWithout(t.orderslist, id);
  }
}
