/** The MemberHistory page: a member's journal, newest first, with each entry described by the
    order or payment it refers to; and the member's analytics — most ordered dishes, payment
    counts and bill totals. */
module MemberHistory {
  import opened Common
  import opened Ids
  import opened Store
  import opened Ranking
  import OrderPanel
  import Payments

  // ---------------------------------------------------------------------------------------
  // The journal

  function OfMember(rows: seq<HistoryEntry>, memberid: string): (r: seq<HistoryEntry>)
    ensures forall e :: e in r <==> e in rows && e.memberid == memberid
  {
    if |rows| == 0 then []
    else (if rows[0].memberid == memberid then [rows[0]] else []) + OfMember(rows[1..], memberid)
  }

  function EventKey(e: HistoryEntry): real {
    e.eventdate as real
  }

  /** `.from('memberhistory').select('*').eq('memberid', m).order('eventdate', { ascending: false })`:
      exactly the member's entries, each once, newest first. Among entries of the same instant the
      store's order is not fixed; the model keeps table order. */
  function HistoryFor(rows: seq<HistoryEntry>, memberid: string): (r: seq<HistoryEntry>)
    ensures multiset(r) == multiset(OfMember(rows, memberid))
    ensures forall e :: e in r <==> e in rows && e.memberid == memberid
    ensures forall i, j :: 0 <= i < j < |r| ==> r[i].eventdate >= r[j].eventdate
  {
    var r := SortDesc(OfMember(rows, memberid), EventKey);
    SameMembers(r, OfMember(rows, memberid));
    NewestFirst(r);
    r
  }

  lemma NewestFirst(r: seq<HistoryEntry>)
    requires SortedDesc(r, EventKey)
    ensures forall i, j :: 0 <= i < j < |r| ==> r[i].eventdate >= r[j].eventdate
  {
    forall i, j | 0 <= i < j < |r| ensures r[i].eventdate >= r[j].eventdate {
      assert EventKey(r[i]) >= EventKey(r[j]);
    }
  }

  /** What `getEventDetails` shows for an entry. */
  datatype EventDetails =
    | OrderWithDate(ordersid: int, orderdate: string)
    | OrderOnly(orderRef: Option<int>)
    | PaymentWithAmount(paymentid: int, paidamount: real, paymentoption: string)
    | PaymentOnly(paymentRef: Option<int>)
    | UnknownEvent

  /** `getEventDetails`: an 'order' entry shows its order's date when that order is loaded, else
      only the order id; a 'payment' entry its payment's amount and option, else only the payment
      id; any other type is an unknown event. A null reference never matches. */
  function Describe(e: HistoryEntry, orders: seq<Order>, payments: seq<Payment>): (r: EventDetails)
    ensures e.eventtype == ORDER_EVENT ==>
              if e.ordersid.Some? && FindOrder(orders, e.ordersid.value).Some?
              then r == OrderWithDate(e.ordersid.value, FindOrder(orders, e.ordersid.value).value.orderdate)
              else r == OrderOnly(e.ordersid)
    ensures e.eventtype == PAYMENT_EVENT ==>
              if e.paymentid.Some? && FindPayment(payments, e.paymentid.value).Some?
              then r == PaymentWithAmount(e.paymentid.value, FindPayment(payments, e.paymentid.value).value.paidamount,
                                          FindPayment(payments, e.paymentid.value).value.paymentoption)
              else r == PaymentOnly(e.paymentid)
    ensures e.eventtype != ORDER_EVENT && e.eventtype != PAYMENT_EVENT ==> r == UnknownEvent
  {
    if e.eventtype == ORDER_EVENT then
      var o := if e.ordersid.Some? then FindOrder(orders, e.ordersid.value) else None;
      if o.Some? then OrderWithDate(e.ordersid.value, o.value.orderdate) else OrderOnly(e.ordersid)
    else if e.eventtype == PAYMENT_EVENT then
      var p := if e.paymentid.Some? then FindPayment(payments, e.paymentid.value) else None;
      if p.Some? then PaymentWithAmount(e.paymentid.value, p.value.paidamount, p.value.paymentoption)
      else PaymentOnly(e.paymentid)
    else UnknownEvent
  }

  lemma FindOrderFresh(orders: seq<Order>, o: Order)
    requires o.ordersid !in OrderIds(orders)
    ensures FindOrder(orders + [o], o.ordersid) == Some(o)
  {
    var s := orders + [o];
    assert s[|orders|].ordersid == o.ordersid;
    assert forall i :: 0 <= i < |orders| ==> s[i].ordersid == OrderIds(orders)[i];
  }

  lemma FindPaymentFresh(payments: seq<Payment>, p: Payment)
    requires p.paymentid !in PaymentIds(payments)
    ensures FindPayment(payments + [p], p.paymentid) == Some(p)
  {
    var s := payments + [p];
    assert s[|payments|].paymentid == p.paymentid;
    assert forall i :: 0 <= i < |payments| ==> s[i].paymentid == PaymentIds(payments)[i];
  }

  /** The journal entry of a placed order is described by that order and its date. */
  lemma {:induction false} PlacedOrderEntryDescribed(t: Tables, memberid: string, cart: seq<OrderPanel.CartItem>,
                                                     today: string, now: Timestamp, fails: set<OrderPanel.PlaceWrite>)
    requires memberid != "" && |cart| > 0 && MemberExists(t.member, memberid) && OrderPanel.OrderInsert !in fails
    ensures var (t', r, c) := OrderPanel.PlaceSpec(t, memberid, cart, false, today, now, fails);
      r.Placed? ==>
        |t'.memberhistory| > 0 &&
        Describe(t'.memberhistory[|t'.memberhistory| - 1], t'.orders, t'.payment) == OrderWithDate(r.ordersid, today)
  {
    var (t', r, c) := OrderPanel.PlaceSpec(t, memberid, cart, false, today, now, fails);
    if r.Placed? {
      OrderPanel.PlacedOrderWrites(t, memberid, cart, today, now, fails);
      FindOrderFresh(t.orders, Order(r.ordersid, Some(memberid), None, today));
    }
  }

  /** The journal entry of a recorded payment is described by that payment's amount and option. */
  lemma {:induction false} RecordedPaymentEntryDescribed(t: Tables, form: Payments.PaymentForm, now: Timestamp,
                                                         fails: set<Payments.PaymentWrite>)
    requires Payments.HistoryInsert !in fails
    ensures var (t', r) := Payments.SubmitSpec(t, form, now, fails);
      r.Recorded? ==>
        |t'.memberhistory| > 0 &&
        Describe(t'.memberhistory[|t'.memberhistory| - 1], t'.orders, t'.payment) ==
          PaymentWithAmount(r.paymentid, form.paidamount.value, form.paymentoption)
  {
    var (t', r) := Payments.SubmitSpec(t, form, now, fails);
    if r.Recorded? {
      Payments.PaymentRecorded(t, form, now, fails);
      assert t'.payment == t.payment + [t'.payment[|t.payment|]];
      FindPaymentFresh(t.payment, t'.payment[|t.payment|]);
    }
  }

  // ---------------------------------------------------------------------------------------
  // Dish frequency

  /** An entry of `dishFrequency` (and of `Object.entries` of it). */
  datatype DishCount = DishCount(dish: string, count: int)

  /** `dishFrequency[name] || 0`. */
  function Lookup(freq: seq<DishCount>, name: string): int {
    if |freq| == 0 then 0 else if freq[0].dish == name then freq[0].count else Lookup(freq[1..], name)
  }

  predicate UniqueNames(freq: seq<DishCount>) {
    forall i, j :: 0 <= i < j < |freq| ==> freq[i].dish != freq[j].dish
  }

  function Names(freq: seq<DishCount>): set<string> {
    set c | c in freq :: c.dish
  }

  /** `dishFrequency[name] = (dishFrequency[name] || 0) + q`: an existing key keeps its place, a
      new key goes last. The named key grows by q and every other key keeps its count. */
  function Tally(freq: seq<DishCount>, name: string, q: int): (r: seq<DishCount>)
    ensures Lookup(r, name) == Lookup(freq, name) + q
    ensures forall n :: n != name ==> Lookup(r, n) == Lookup(freq, n)
  {
    if |freq| == 0 then [DishCount(name, q)]
    else if freq[0].dish == name then [DishCount(name, freq[0].count + q)] + freq[1..]
    else [freq[0]] + Tally(freq[1..], name, q)
  }

  lemma NamesHead(s: seq<DishCount>)
    requires |s| > 0
    ensures Names(s) == {s[0].dish} + Names(s[1..])
  {
    assert forall x :: x in s <==> x == s[0] || x in s[1..];
  }

  /** The keys after a tally are the keys before and the tallied name. */
  lemma {:induction false} TallyNames(freq: seq<DishCount>, name: string, q: int)
    ensures Names(Tally(freq, name, q)) == Names(freq) + {name}
  {
    var r := Tally(freq, name, q);
    NamesHead(r);
    if |freq| == 0 {
      assert r[1..] == [];
      assert Names(r[1..]) == {} && Names(freq) == {};
    } else {
      NamesHead(freq);
      if freq[0].dish == name {
        assert r[1..] == freq[1..];
      } else {
        TallyNames(freq[1..], name, q);
        assert r[1..] == Tally(freq[1..], name, q);
      }
    }
  }

  /** A list has unique names exactly when its tail does and its head's name is not in the tail. */
  lemma UniqueHead(s: seq<DishCount>)
    requires |s| > 0
    ensures UniqueNames(s) <==> UniqueNames(s[1..]) && s[0].dish !in Names(s[1..])
  {
    if UniqueNames(s) {
      forall i, j | 0 <= i < j < |s[1..]| ensures s[1..][i].dish != s[1..][j].dish {
        assert s[1..][i] == s[i + 1] && s[1..][j] == s[j + 1];
      }
    }
    if UniqueNames(s[1..]) && s[0].dish !in Names(s[1..]) {
      forall i, j | 0 <= i < j < |s| ensures s[i].dish != s[j].dish {
        assert s[j] == s[1..][j - 1];
        if i == 0 {
          assert s[1..][j - 1] in s[1..];
        } else {
          assert s[i] == s[1..][i - 1];
        }
      }
    }
  }

  /** A tally keeps every key once. */
  lemma {:induction false} TallyKeepsUnique(freq: seq<DishCount>, name: string, q: int)
    requires UniqueNames(freq)
    ensures UniqueNames(Tally(freq, name, q))
  {
    var r := Tally(freq, name, q);
    UniqueHead(r);
    if |freq| == 0 {
      assert r[1..] == [];
      assert Names(r[1..]) == {};
    } else {
      UniqueHead(freq);
      if freq[0].dish == name {
        assert r[1..] == freq[1..];
      } else {
        TallyKeepsUnique(freq[1..], name, q);
        TallyNames(freq[1..], name, q);
        assert r[1..] == Tally(freq[1..], name, q);
      }
    }
  }

  /** The line items of the member's orders, order by order. */
  function MemberItems(memberOrders: seq<Order>, orderItems: seq<LineItem>): seq<LineItem> {
    if |memberOrders| == 0 then []
    else MemberItems(memberOrders[..|memberOrders| - 1], orderItems) +
         ItemsOf(orderItems, memberOrders[|memberOrders| - 1].ordersid)
  }

  /** The inner `forEach` of the tally, over a run of line items; items with an unknown dish are
      skipped. */
  function TallyItems(freq: seq<DishCount>, items: seq<LineItem>, dishes: seq<Dish>): seq<DishCount> {
    if |items| == 0 then freq
    else
      var f := TallyItems(freq, items[..|items| - 1], dishes);
      var d := FindDish(dishes, items[|items| - 1].dishid);
      if d.Some? then Tally(f, d.value.dishname, items[|items| - 1].quantity) else f
  }

  /** The reference definition: Σ quantity over the items whose dish is known and has that name. */
  function NamedQuantity(items: seq<LineItem>, dishes: seq<Dish>, name: string): int {
    if |items| == 0 then 0
    else
      var d := FindDish(dishes, items[|items| - 1].dishid);
      NamedQuantity(items[..|items| - 1], dishes, name) +
        (if d.Some? && d.value.dishname == name then items[|items| - 1].quantity else 0)
  }

  /** The nested `forEach` loops that fill `dishFrequency`. */
  method DishFrequency(memberOrders: seq<Order>, orderItems: seq<LineItem>, dishes: seq<Dish>)
    returns (freq: seq<DishCount>)
    ensures freq == TallyItems([], MemberItems(memberOrders, orderItems), dishes)
  {
    freq := [];
    for i := 0 to |memberOrders|
      invariant freq == TallyItems([], MemberItems(memberOrders[..i], orderItems), dishes)
    {
      var items := ItemsOf(orderItems, memberOrders[i].ordersid);
      ghost var before := freq;
      for j := 0 to |items|
        invariant freq == TallyItems(before, items[..j], dishes)
      {
        assert items[..j + 1][..j] == items[..j];
        var dish := FindDish(dishes, items[j].dishid);
        if dish.Some? {
          freq := Tally(freq, dish.value.dishname, items[j].quantity);
        }
      }
      assert items[..|items|] == items;
      assert memberOrders[..i + 1][..i] == memberOrders[..i];
      TallyItemsAppend([], MemberItems(memberOrders[..i], orderItems), items, dishes);
    }
    assert memberOrders[..|memberOrders|] == memberOrders;
  }

  lemma {:induction false} TallyItemsAppend(freq: seq<DishCount>, a: seq<LineItem>, b: seq<LineItem>, dishes: seq<Dish>)
    ensures TallyItems(freq, a + b, dishes) == TallyItems(TallyItems(freq, a, dishes), b, dishes)
  {
    if |b| == 0 {
      assert a + b == a;
    } else {
      var b' := b[..|b| - 1];
      assert (a + b)[..|a + b| - 1] == a + b';
      assert (a + b)[|a + b| - 1] == b[|b| - 1];
      TallyItemsAppend(freq, a, b', dishes);
    }
  }

  /** Each name's count is the total quantity of the items of dishes of that name, and each name
      appears once. */
  lemma {:induction false} TallyCountsQuantities(items: seq<LineItem>, dishes: seq<Dish>)
    ensures UniqueNames(TallyItems([], items, dishes))
    ensures forall name :: Lookup(TallyItems([], items, dishes), name) == NamedQuantity(items, dishes, name)
  {
    if |items| > 0 {
      TallyCountsQuantities(items[..|items| - 1], dishes);
      var d := FindDish(dishes, items[|items| - 1].dishid);
      if d.Some? {
        TallyKeepsUnique(TallyItems([], items[..|items| - 1], dishes), d.value.dishname, items[|items| - 1].quantity);
      }
    }
  }

  function CountKey(c: DishCount): real {
    c.count as real
  }

  /** `mostOrderedDishes`: the tally sorted by non-increasing count, first five. */
  function MostOrdered(freq: seq<DishCount>): seq<DishCount> {
    Take(SortDesc(freq, CountKey), 5)
  }

  /** At most five names, counts non-increasing, all drawn from the tally, and none left out
      counting more than one kept. */
  lemma MostOrderedIsTopFive(freq: seq<DishCount>)
    ensures |MostOrdered(freq)| <= 5 && |MostOrdered(freq)| == if |freq| < 5 then |freq| else 5
    ensures forall i, j :: 0 <= i < j < |MostOrdered(freq)| ==> MostOrdered(freq)[i].count >= MostOrdered(freq)[j].count
    ensures multiset(MostOrdered(freq)) <= multiset(freq)
    ensures var s := SortDesc(freq, CountKey);
              forall i, j :: 0 <= i < |MostOrdered(freq)| <= j < |s| ==> MostOrdered(freq)[i].count >= s[j].count
  {
    TopN(SortDesc(freq, CountKey), 5, CountKey);
    MostOrderedDescending(freq);
    MostOrderedCutoff(freq);
  }

  lemma MostOrderedDescending(freq: seq<DishCount>)
    ensures forall i, j :: 0 <= i < j < |MostOrdered(freq)| ==> MostOrdered(freq)[i].count >= MostOrdered(freq)[j].count
  {
    TopN(SortDesc(freq, CountKey), 5, CountKey);
    var r := MostOrdered(freq);
    assert forall i, j :: 0 <= i < j < |r| ==> CountKey(r[i]) >= CountKey(r[j]);
  }

  lemma MostOrderedCutoff(freq: seq<DishCount>)
    ensures var s := SortDesc(freq, CountKey);
              forall i, j :: 0 <= i < |MostOrdered(freq)| <= j < |s| ==> MostOrdered(freq)[i].count >= s[j].count
  {
    var s := SortDesc(freq, CountKey);
    TopCutoff(s, 5, CountKey);
    var r := MostOrdered(freq);
    forall i, j | 0 <= i < |r| <= j < |s| ensures r[i].count >= s[j].count {
      assert CountKey(r[i]) >= CountKey(s[j]);
    }
  }

  // ---------------------------------------------------------------------------------------
  // Analytics

  datatype Analytics = Analytics(
    mostOrderedDishes: seq<DishCount>, fullPayments: nat, partialPayments: nat, totalPayments: nat,
    averageOrderTotal: real, highestOrderTotal: real, lowestOrderTotal: real, totalOrders: nat)

  function MemberOrders(orders: seq<Order>, memberid: string): (r: seq<Order>)
    ensures forall o :: o in r <==> o in orders && o.memberid == Some(memberid)
  {
    if |orders| == 0 then []
    else (if orders[0].memberid == Some(memberid) then [orders[0]] else []) + MemberOrders(orders[1..], memberid)
  }

  predicate BilledBy(b: Bill, memberOrders: seq<Order>) {
    exists o :: o in memberOrders && o.billid == Some(b.billid)
  }

  /** `memberBills`: the bills some order of the member is linked to. */
  function MemberBills(bills: seq<Bill>, memberOrders: seq<Order>): (r: seq<Bill>)
    ensures forall b :: b in r <==> b in bills && BilledBy(b, memberOrders)
  {
    if |bills| == 0 then []
    else (if BilledBy(bills[0], memberOrders) then [bills[0]] else []) + MemberBills(bills[1..], memberOrders)
  }

  function MemberPayments(payments: seq<Payment>, memberid: string): (r: seq<Payment>)
    ensures forall p :: p in r <==> p in payments && p.memberid == memberid
  {
    if |payments| == 0 then []
    else (if payments[0].memberid == memberid then [payments[0]] else []) + MemberPayments(payments[1..], memberid)
  }

  /** `filter(p => p.paymentstatus === status).length`. */
  function CountStatus(payments: seq<Payment>, status: string): nat {
    if |payments| == 0 then 0
    else (if payments[0].paymentstatus == status then 1 else 0) + CountStatus(payments[1..], status)
  }

  function Totals(bills: seq<Bill>): (r: seq<real>)
    ensures |r| == |bills|
    ensures forall i :: 0 <= i < |bills| ==> r[i] == bills[i].total
  {
    seq(|bills|, i requires 0 <= i < |bills| => bills[i].total)
  }

  /** `getMemberAnalytics`, with the tally given by its reference definition. */
  function AnalyticsSpec(selected: string, orders: seq<Order>, bills: seq<Bill>, payments: seq<Payment>,
                         orderItems: seq<LineItem>, dishes: seq<Dish>): Option<Analytics>
  {
    if selected == "" then None
    else
      var memberOrders := MemberOrders(orders, selected);
      var memberPayments := MemberPayments(payments, selected);
      var totals := Totals(MemberBills(bills, memberOrders));
      var freq := TallyItems([], MemberItems(memberOrders, orderItems), dishes);
      Some(Analytics(MostOrdered(freq), CountStatus(memberPayments, PAID), CountStatus(memberPayments, PARTIAL),
                     |memberPayments|, Mean(totals),
                     if |totals| > 0 then Max(totals) else 0.0,
                     if |totals| > 0 then Min(totals) else 0.0,
                     |memberOrders|))
  }

  /** `getMemberAnalytics` with the tally's loops. */
  method GetMemberAnalytics(selected: string, orders: seq<Order>, bills: seq<Bill>, payments: seq<Payment>,
                            orderItems: seq<LineItem>, dishes: seq<Dish>) returns (r: Option<Analytics>)
    ensures r == AnalyticsSpec(selected, orders, bills, payments, orderItems, dishes)
  {
    if selected == "" {
      return None;
    }
    var memberOrders := MemberOrders(orders, selected);
    var memberPayments := MemberPayments(payments, selected);
    var totals := Totals(MemberBills(bills, memberOrders));
    var freq := DishFrequency(memberOrders, orderItems, dishes);
    r := Some(Analytics(MostOrdered(freq), CountStatus(memberPayments, PAID), CountStatus(memberPayments, PARTIAL),
                        |memberPayments|, Mean(totals),
                        if |totals| > 0 then Max(totals) else 0.0,
                        if |totals| > 0 then Min(totals) else 0.0,
                        |memberOrders|));
  }

  // ---------------------------------------------------------------------------------------
  // Properties of the analytics

  /** No analytics exactly when no member is selected. */
  lemma AnalyticsOnlyForSelectedMember(selected: string, orders: seq<Order>, bills: seq<Bill>, payments: seq<Payment>,
                                       orderItems: seq<LineItem>, dishes: seq<Dish>)
    ensures AnalyticsSpec(selected, orders, bills, payments, orderItems, dishes).None? <==> selected == ""
  {
  }

  /** The member's bills are exactly the bills whose id is the `billid` of one of the member's orders. */
  lemma MemberBillsExactly(bills: seq<Bill>, orders: seq<Order>, memberid: string)
    ensures forall b :: b in MemberBills(bills, MemberOrders(orders, memberid)) <==>
              b in bills && exists o :: o in orders && o.memberid == Some(memberid) && o.billid == Some(b.billid)
  {
  }

  /** Full and partial payments together never exceed the member's payments. */
  lemma {:induction false} PaymentCountsBounded(payments: seq<Payment>)
    ensures CountStatus(payments, PAID) + CountStatus(payments, PARTIAL) <= |payments|
  {
    if |payments| > 0 {
      PaymentCountsBounded(payments[1..]);
    }
  }

  /** With no bills the average, highest and lowest total are all 0; otherwise the lowest is at
      most the average, which is at most the highest. */
  lemma OrderTotalsBounds(totals: seq<real>)
    ensures |totals| == 0 ==> Mean(totals) == 0.0
    ensures |totals| > 0 ==> Min(totals) <= Mean(totals) <= Max(totals)
  {
    if |totals| > 0 {
      MeanBetweenMinAndMax(totals);
    }
  }

  /** The analytics over the store's tables: the payment counts and bill totals above, at most five
      most ordered dishes counting the member's orders' line items by dish name. */
  lemma {:induction false} AnalyticsProperties(selected: string, orders: seq<Order>, bills: seq<Bill>,
                                               payments: seq<Payment>, orderItems: seq<LineItem>, dishes: seq<Dish>)
    requires selected != ""
    ensures var a := AnalyticsSpec(selected, orders, bills, payments, orderItems, dishes).value;
            var items := MemberItems(MemberOrders(orders, selected), orderItems);
      && a.fullPayments + a.partialPayments <= a.totalPayments
      && a.lowestOrderTotal <= a.averageOrderTotal <= a.highestOrderTotal
      && |a.mostOrderedDishes| <= 5
      && (forall i :: 0 <= i < |a.mostOrderedDishes| ==>
            a.mostOrderedDishes[i].count == NamedQuantity(items, dishes, a.mostOrderedDishes[i].dish))
  {
    var memberOrders := MemberOrders(orders, selected);
    var memberPayments := MemberPayments(payments, selected);
    var totals := Totals(MemberBills(bills, memberOrders));
    var items := MemberItems(memberOrders, orderItems);
    var freq := TallyItems([], items, dishes);
    PaymentCountsBounded(memberPayments);
    OrderTotalsBounds(totals);
    MostOrderedIsTopFive(freq);
    TallyCountsQuantities(items, dishes);
    var top := MostOrdered(freq);
    forall i | 0 <= i < |top| ensures top[i].count == NamedQuantity(items, dishes, top[i].dish) {
      assert top[i] in multiset(freq);
      var k :| 0 <= k < |freq| && freq[k] == top[i];
      LookupUnique(freq, k);
    }
  }

  /** With unique names, looking up an entry's name finds that entry's count. */
  lemma {:induction false} LookupUnique(freq: seq<DishCount>, k: int)
    requires UniqueNames(freq) && 0 <= k < |freq|
    ensures Lookup(freq, freq[k].dish) == freq[k].count
  {
    if k > 0 {
      assert freq[0].dish != freq[k].dish;
      LookupUnique(freq[1..], k - 1);
    }
  }
}
