/** The OrderPanel page: a cart of dishes edited in memory, and placing it as an order. Placing
    checks the member id and the cart, looks the member up, inserts the order, one line item per
    cart item, and an 'order' history entry, stopping at the first rejected write. */
module OrderPanel {
  import opened Common
  import opened Ids
  import opened Store

  /** A cart item: the dish row spread into it, plus the quantity. */
  datatype CartItem = CartItem(dish: Dish, quantity: int)

  // ---------------------------------------------------------------------------------------
  // The cart

  predicate InCart(cart: seq<CartItem>, id: int) {
    exists i :: 0 <= i < |cart| && cart[i].dish.dishid == id
  }

  /** No dish appears twice in the cart. */
  predicate UniqueIds(cart: seq<CartItem>) {
    forall i, j :: 0 <= i < j < |cart| ==> cart[i].dish.dishid != cart[j].dish.dishid
  }

  /** Every quantity is at least 1. */
  predicate Positive(cart: seq<CartItem>) {
    forall i :: 0 <= i < |cart| ==> cart[i].quantity >= 1
  }

  /** `prev.map(item => item.dishid === id ? { ...item, quantity: item.quantity + 1 } : item)`. */
  function Bump(cart: seq<CartItem>, id: int): (r: seq<CartItem>)
    ensures |r| == |cart|
    ensures forall i :: 0 <= i < |cart| ==>
              r[i] == if cart[i].dish.dishid == id then cart[i].(quantity := cart[i].quantity + 1) else cart[i]
  {
    if |cart| == 0 then []
    else [if cart[0].dish.dishid == id then cart[0].(quantity := cart[0].quantity + 1) else cart[0]]
         + Bump(cart[1..], id)
  }

  /** `handleAddToCart`: a dish already in the cart gets its quantity raised by exactly 1 and
      every other item is kept; a new dish is appended with quantity 1. */
  function AddToCart(cart: seq<CartItem>, dish: Dish): (r: seq<CartItem>)
    ensures InCart(cart, dish.dishid) ==>
              |r| == |cart| &&
              forall i :: 0 <= i < |cart| ==>
                r[i] == if cart[i].dish.dishid == dish.dishid then cart[i].(quantity := cart[i].quantity + 1)
                        else cart[i]
    ensures !InCart(cart, dish.dishid) ==> r == cart + [CartItem(dish, 1)]
  {
    if InCart(cart, dish.dishid) then Bump(cart, dish.dishid) else cart + [CartItem(dish, 1)]
  }

  function Max(a: int, b: int): int {
    if a >= b then a else b
  }

  /** `handleQuantityChange`: the matching item's quantity becomes max(1, n); every other item
      is kept. */
  function ChangeQuantity(cart: seq<CartItem>, id: int, n: int): (r: seq<CartItem>)
    ensures |r| == |cart|
    ensures forall i :: 0 <= i < |cart| ==>
              r[i] == if cart[i].dish.dishid == id then cart[i].(quantity := Max(1, n)) else cart[i]
  {
    if |cart| == 0 then []
    else [if cart[0].dish.dishid == id then cart[0].(quantity := Max(1, n)) else cart[0]]
         + ChangeQuantity(cart[1..], id, n)
  }

  /** `a` is `b` with some elements left out, the rest in their original order. */
  predicate Subsequence<T(==)>(a: seq<T>, b: seq<T>)
    decreases |b|
  {
    |a| == 0 || (|b| > 0 && ((a[0] == b[0] && Subsequence(a[1..], b[1..])) || Subsequence(a, b[1..])))
  }

  /** `handleRemove`: no item with that id is left, every other item is kept, in order. */
  function RemoveFromCart(cart: seq<CartItem>, id: int): (r: seq<CartItem>)
    ensures forall x :: x in r <==> x in cart && x.dish.dishid != id
    ensures Subsequence(r, cart)
  {
    if |cart| == 0 then []
    else
      var rest := RemoveFromCart(cart[1..], id);
      assert forall x :: x in cart <==> x == cart[0] || x in cart[1..];
      if cart[0].dish.dishid != id then
        assert ([cart[0]] + rest)[1..] == rest;
        [cart[0]] + rest
      else rest
  }

  function LineTotal(item: CartItem): real {
    item.dish.dishprice * item.quantity as real
  }

  /** `total`: Σ dishprice × quantity (a `reduce` from 0; exact addition does not depend on
      the order of the terms). */
  function CartTotal(cart: seq<CartItem>): real {
    if |cart| == 0 then 0.0 else LineTotal(cart[0]) + CartTotal(cart[1..])
  }

  // ---------------------------------------------------------------------------------------
  // Properties of the cart

  lemma {:induction false} CartTotalAppend(a: seq<CartItem>, b: seq<CartItem>)
    ensures CartTotal(a + b) == CartTotal(a) + CartTotal(b)
  {
    if |a| == 0 {
      assert a + b == b;
    } else {
      assert (a + b)[0] == a[0];
      assert (a + b)[1..] == a[1..] + b;
      CartTotalAppend(a[1..], b);
    }
  }

  /** Adding keeps the cart's dish ids unique and its quantities at least 1. */
  lemma AddKeepsInvariant(cart: seq<CartItem>, dish: Dish)
    requires UniqueIds(cart) && Positive(cart)
    ensures UniqueIds(AddToCart(cart, dish)) && Positive(AddToCart(cart, dish))
  {
  }

  /** Adding a dish raises the total by one unit of that dish: at the dish's price when it is
      new, at the price already held in the cart when it is there. */
  lemma {:induction false} AddRaisesTotal(cart: seq<CartItem>, dish: Dish)
    requires UniqueIds(cart)
    ensures !InCart(cart, dish.dishid) ==> CartTotal(AddToCart(cart, dish)) == CartTotal(cart) + dish.dishprice
    ensures forall i :: 0 <= i < |cart| && cart[i].dish.dishid == dish.dishid ==>
              CartTotal(AddToCart(cart, dish)) == CartTotal(cart) + cart[i].dish.dishprice
  {
    if !InCart(cart, dish.dishid) {
      CartTotalAppend(cart, [CartItem(dish, 1)]);
      assert CartTotal([CartItem(dish, 1)]) == LineTotal(CartItem(dish, 1)) + CartTotal([]);
    } else {
      forall i | 0 <= i < |cart| && cart[i].dish.dishid == dish.dishid
        ensures CartTotal(AddToCart(cart, dish)) == CartTotal(cart) + cart[i].dish.dishprice
      {
        BumpRaisesTotal(cart, dish.dishid, i);
      }
    }
  }

  lemma {:induction false} BumpRaisesTotal(cart: seq<CartItem>, id: int, k: int)
    requires UniqueIds(cart) && 0 <= k < |cart| && cart[k].dish.dishid == id
    ensures CartTotal(Bump(cart, id)) == CartTotal(cart) + cart[k].dish.dishprice
    decreases |cart|
  {
    var b := Bump(cart, id);
    assert b[1..] == Bump(cart[1..], id);
    if k == 0 {
      NotInRestRaisesNothing(cart[1..], id);
      var q := cart[0].quantity as real;
      assert LineTotal(b[0]) == cart[0].dish.dishprice * (q + 1.0);
      assert cart[0].dish.dishprice * (q + 1.0) == cart[0].dish.dishprice * q + cart[0].dish.dishprice;
    } else {
      BumpRaisesTotal(cart[1..], id, k - 1);
    }
  }

  lemma {:induction false} NotInRestRaisesNothing(cart: seq<CartItem>, id: int)
    requires forall i :: 0 <= i < |cart| ==> cart[i].dish.dishid != id
    ensures Bump(cart, id) == cart
  {
  }

  /** Changing a quantity keeps the dish ids unique and every quantity at least 1, whatever n. */
  lemma ChangeKeepsInvariant(cart: seq<CartItem>, id: int, n: int)
    requires UniqueIds(cart) && Positive(cart)
    ensures UniqueIds(ChangeQuantity(cart, id, n)) && Positive(ChangeQuantity(cart, id, n))
  {
  }

  /** Removing keeps the dish ids unique and every quantity at least 1. */
  lemma RemoveKeepsInvariant(cart: seq<CartItem>, id: int)
    requires UniqueIds(cart) && Positive(cart)
    ensures UniqueIds(RemoveFromCart(cart, id)) && Positive(RemoveFromCart(cart, id))
  {
    var r := RemoveFromCart(cart, id);
    forall i | 0 <= i < |r| ensures r[i].quantity >= 1 {
      assert r[i] in r;
    }
    RemoveKeepsUnique(cart, id);
  }

  lemma {:induction false} RemoveKeepsUnique(cart: seq<CartItem>, id: int)
    requires UniqueIds(cart)
    ensures UniqueIds(RemoveFromCart(cart, id))
  {
    if |cart| > 0 {
      var rest := RemoveFromCart(cart[1..], id);
      assert UniqueIds(cart[1..]) by {
        forall i, j | 0 <= i < j < |cart[1..]| ensures cart[1..][i].dish.dishid != cart[1..][j].dish.dishid {
          assert cart[1..][i] == cart[i + 1] && cart[1..][j] == cart[j + 1];
        }
      }
      RemoveKeepsUnique(cart[1..], id);
      if cart[0].dish.dishid != id {
        forall j | 0 <= j < |rest| ensures rest[j].dish.dishid != cart[0].dish.dishid {
          assert rest[j] in rest;
          assert rest[j] in cart[1..];
        }
        UniqueCons(cart[0], rest);
      }
    }
  }

  /** A head whose dish is not in a unique tail keeps the ids unique. */
  lemma UniqueCons(h: CartItem, s: seq<CartItem>)
    requires UniqueIds(s)
    requires forall j :: 0 <= j < |s| ==> s[j].dish.dishid != h.dish.dishid
    ensures UniqueIds([h] + s)
  {
    var r := [h] + s;
    forall i, j | 0 <= i < j < |r| ensures r[i].dish.dishid != r[j].dish.dishid {
      assert r[j] == s[j - 1];
      if i > 0 {
        assert r[i] == s[i - 1];
      }
    }
  }

  // ---------------------------------------------------------------------------------------
  // Placing an order

  datatype PlaceError =
    | MemberMissing | CartEmpty | MemberLookupFailed | MemberNotFound
    | OrderInsertFailed | ItemInsertFailed | HistoryInsertFailed

  datatype PlaceResult = Placed(ordersid: int) | Failed(error: PlaceError)

  /** The store writes of `handlePlaceOrder`; `ItemInsert(i)` is the insert of the i-th cart item. */
  datatype PlaceWrite = OrderInsert | ItemInsert(i: nat) | HistoryInsert

  /** The line items written for cart items, all under order `oid`. */
  function Lines(oid: int, cart: seq<CartItem>): (r: seq<LineItem>)
    ensures |r| == |cart|
    ensures forall i :: 0 <= i < |cart| ==> r[i] == LineItem(Some(oid), cart[i].dish.dishid, cart[i].quantity)
  {
    seq(|cart|, i requires 0 <= i < |cart| => LineItem(Some(oid), cart[i].dish.dishid, cart[i].quantity))
  }

  /** The index of the first rejected line-item insert at or after `from`, or `n` when none is. */
  function FirstRejected(n: nat, fails: set<PlaceWrite>, from: nat): (k: nat)
    requires from <= n
    ensures from <= k <= n
    ensures forall i :: from <= i < k ==> ItemInsert(i) !in fails
    ensures k < n ==> ItemInsert(k) in fails
    decreases n - from
  {
    if from == n then n else if ItemInsert(from) in fails then from else FirstRejected(n, fails, from + 1)
  }

  /** The whole of `handlePlaceOrder`: the new tables, the outcome and the cart afterwards.
      `today` is the clock's date (`orderdate`), `now` its instant (`eventdate`). */
  function PlaceSpec(t: Tables, memberid: string, cart: seq<CartItem>, memberLookupFails: bool,
                     today: string, now: Timestamp, fails: set<PlaceWrite>): (Tables, PlaceResult, seq<CartItem>)
  {
    if memberid == "" then (t, Failed(MemberMissing), cart)
    else if |cart| == 0 then (t, Failed(CartEmpty), cart)
    else if memberLookupFails then (t, Failed(MemberLookupFailed), cart)
    else if !MemberExists(t.member, memberid) then (t, Failed(MemberNotFound), cart)
    else
      var oid := NextId(OrderIds(t.orders));
      if OrderInsert in fails then (t, Failed(OrderInsertFailed), cart)
      else
        var t1 := t.(orders := t.orders + [Order(oid, Some(memberid), None, today)]);
        var k := FirstRejected(|cart|, fails, 0);
        var t2 := t1.(orderslist := t1.orderslist + Lines(oid, cart[..k]));
        if k < |cart| then (t2, Failed(ItemInsertFailed), cart)
        else
          var hid := NextId(HistoryIds(t2.memberhistory));
          if HistoryInsert in fails then (t2, Failed(HistoryInsertFailed), cart)
          else (t2.(memberhistory := t2.memberhistory + [HistoryEntry(hid, memberid, Some(oid), None, now, ORDER_EVENT)]),
                Placed(oid), [])
  }

  /** `handlePlaceOrder` against the store; returns the outcome and the cart afterwards. */
  method PlaceOrder(db: Db, memberid: string, cart: seq<CartItem>, memberLookupFails: bool,
                    today: string, now: Timestamp, fails: set<PlaceWrite>)
    returns (r: PlaceResult, cartAfter: seq<CartItem>)
    modifies db
    ensures (db.Snapshot(), r, cartAfter) == PlaceSpec(old(db.Snapshot()), memberid, cart, memberLookupFails,
                                                       today, now, fails)
  {
    cartAfter := cart;
    if memberid == "" {
      return Failed(MemberMissing), cartAfter;
    }
    if |cart| == 0 {
      return Failed(CartEmpty), cartAfter;
    }
    if memberLookupFails {
      return Failed(MemberLookupFailed), cartAfter;
    }
    if !MemberExists(db.member, memberid) {
      return Failed(MemberNotFound), cartAfter;
    }
    var ordersid := NextId(OrderIds(db.orders));
    db.InsertOrder(Order(ordersid, Some(memberid), None, today), OrderInsert !in fails);
    if OrderInsert in fails {
      return Failed(OrderInsertFailed), cartAfter;
    }
    var k := InsertCartItems(db, ordersid, cart, fails);
    if k < |cart| {
      return Failed(ItemInsertFailed), cartAfter;
    }
    var historyid := NextId(HistoryIds(db.memberhistory));
    db.InsertHistory(HistoryEntry(historyid, memberid, Some(ordersid), None, now, ORDER_EVENT), HistoryInsert !in fails);
    if HistoryInsert in fails {
      return Failed(HistoryInsertFailed), cartAfter;
    }
    r, cartAfter := Placed(ordersid), [];
  }

  /** The insert loop of `handlePlaceOrder`: one line item per cart entry, in cart order,
      stopping at the first rejected insert, whose index it returns (`|cart|` when none was). */
  method InsertCartItems(db: Db, ordersid: int, cart: seq<CartItem>, fails: set<PlaceWrite>) returns (k: nat)
    modifies db
    ensures k == FirstRejected(|cart|, fails, 0)
    ensures db.Snapshot() == old(db.Snapshot()).(orderslist := old(db.orderslist) + Lines(ordersid, cart[..k]))
  {
    ghost var t1 := db.Snapshot();
    var i := 0;
    while i < |cart|
      invariant 0 <= i <= |cart|
      invariant forall j :: 0 <= j < i ==> ItemInsert(j) !in fails
      invariant db.Snapshot() == t1.(orderslist := t1.orderslist + Lines(ordersid, cart[..i]))
    {
      db.InsertLineItem(LineItem(Some(ordersid), cart[i].dish.dishid, cart[i].quantity), ItemInsert(i) !in fails);
      if ItemInsert(i) in fails {
        assert FirstRejected(|cart|, fails, 0) == i;
        return i;
      }
      assert Lines(ordersid, cart[..i + 1]) == Lines(ordersid, cart[..i]) + [LineItem(Some(ordersid), cart[i].dish.dishid, cart[i].quantity)];
      i := i + 1;
    }
    assert FirstRejected(|cart|, fails, 0) == |cart|;
    k := |cart|;
  }

  // ---------------------------------------------------------------------------------------
  // Properties of placing an order

  /** An empty member id, an empty cart, a failed member look-up or an unknown member each fail
      before any write, and keep the cart. */
  lemma PlaceValidation(t: Tables, memberid: string, cart: seq<CartItem>, memberLookupFails: bool,
                        today: string, now: Timestamp, fails: set<PlaceWrite>)
    ensures var (t', r, c) := PlaceSpec(t, memberid, cart, memberLookupFails, today, now, fails);
      && (memberid == "" ==> r == Failed(MemberMissing))
      && (memberid != "" && |cart| == 0 ==> r == Failed(CartEmpty))
      && (memberid != "" && |cart| > 0 && memberLookupFails ==> r == Failed(MemberLookupFailed))
      && (memberid != "" && |cart| > 0 && !memberLookupFails && !MemberExists(t.member, memberid) ==>
            r == Failed(MemberNotFound))
      && (r.Failed? && r.error in {MemberMissing, CartEmpty, MemberLookupFailed, MemberNotFound} ==>
            t' == t && c == cart)
  {
  }

  /** The cart is cleared exactly when the order is placed; any failure keeps it. */
  lemma CartClearedOnlyOnSuccess(t: Tables, memberid: string, cart: seq<CartItem>, memberLookupFails: bool,
                                 today: string, now: Timestamp, fails: set<PlaceWrite>)
    ensures var (t', r, c) := PlaceSpec(t, memberid, cart, memberLookupFails, today, now, fails);
      (r.Placed? ==> c == []) && (r.Failed? ==> c == cart)
  {
  }

  /** Once the member is confirmed: the new order gets id max + 1 (or 1) and a null `billid`;
      line items are written one per cart item, in cart order, with the cart's quantities,
      stopping at the first rejected insert; after all of them, one 'order' history entry with
      the new order id and a null payment id. */
  lemma {:induction false} PlacedOrderWrites(t: Tables, memberid: string, cart: seq<CartItem>,
                                             today: string, now: Timestamp, fails: set<PlaceWrite>)
    requires memberid != "" && |cart| > 0 && MemberExists(t.member, memberid) && OrderInsert !in fails
    ensures var (t', r, c) := PlaceSpec(t, memberid, cart, false, today, now, fails);
            var oid := NextId(OrderIds(t.orders));
            var k := FirstRejected(|cart|, fails, 0);
      && oid !in OrderIds(t.orders) && (|t.orders| == 0 ==> oid == 1)
      && t'.orders == t.orders + [Order(oid, Some(memberid), None, today)]
      && t'.orderslist == t.orderslist + Lines(oid, cart[..k])
      && (forall i :: 0 <= i < k ==> ItemInsert(i) !in fails)
      && (k < |cart| ==> ItemInsert(k) in fails && r == Failed(ItemInsertFailed) && t'.memberhistory == t.memberhistory)
      && (k == |cart| && HistoryInsert !in fails ==>
            r == Placed(oid) &&
            t'.memberhistory == t.memberhistory +
              [HistoryEntry(NextId(HistoryIds(t.memberhistory)), memberid, Some(oid), None, now, ORDER_EVENT)])
      && (r.Placed? ==> k == |cart| && HistoryInsert !in fails)
      && t' == t.(orders := t'.orders, orderslist := t'.orderslist, memberhistory := t'.memberhistory)
  {
  }

  /** A placed order, whose id no earlier line item carried, has exactly one line item per cart
      item, with the cart's dish and quantity, in cart order. */
  lemma {:induction false} PlacedOrderItems(t: Tables, memberid: string, cart: seq<CartItem>,
                                            today: string, now: Timestamp, fails: set<PlaceWrite>)
    requires forall i :: 0 <= i < |t.orderslist| ==> t.orderslist[i].ordersid != Some(NextId(OrderIds(t.orders)))
    ensures var (t', r, c) := PlaceSpec(t, memberid, cart, false, today, now, fails);
      r.Placed? ==>
        var items := ItemsOf(t'.orderslist, r.ordersid);
        && |items| == |cart|
        && forall i :: 0 <= i < |cart| ==> items[i].dishid == cart[i].dish.dishid && items[i].quantity == cart[i].quantity
  {
    var (t', r, c) := PlaceSpec(t, memberid, cart, false, today, now, fails);
    if r.Placed? {
      var oid := NextId(OrderIds(t.orders));
      PlacedOrderWrites(t, memberid, cart, today, now, fails);
      assert cart[..|cart|] == cart;
      ItemsOfNewOrder(t.orderslist, Lines(oid, cart), oid);
    }
  }
}
